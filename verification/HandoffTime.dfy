/** When handoffs complete, what the latency estimates can become, and how completed handoffs account
    for every change of the table. */
module HandoffTime {
  import opened Common
  import opened Handoffs

  // ---------- Completion time ----------

  /** The number of epochs a handoff of this latency takes. */
  function Ticks(latency: real, dt: real): int
    requires dt > 0.0
  {
    Ceil(latency / dt)
  }

  lemma CeilMeaning(x: real, n: int)
    ensures n == Ceil(x) <==> (n - 1) as real < x <= n as real
  {
  }

  lemma TicksMeaning(latency: real, dt: real, n: int)
    requires dt > 0.0
    ensures n == Ticks(latency, dt) <==> (n - 1) as real * dt < latency <= n as real * dt
  {
    var x := latency / dt;
    assert Portion(x, dt) == latency;
    CeilMeaning(x, n);
    Scale(x, n as real, dt);
    Scale((n - 1) as real, x, dt);
    assert Portion(n as real, dt) == n as real * dt && Portion((n - 1) as real, dt) == (n - 1) as real * dt;
    hide Ceil, Portion;
  }

  lemma Scale(x: real, y: real, dt: real)
    requires dt > 0.0
    ensures x <= y <==> Portion(x, dt) <= Portion(y, dt)
    ensures x < y <==> Portion(x, dt) < Portion(y, dt)
  {
    var gap := y - x;
    assert gap * dt == y * dt - x * dt;
    if gap > 0.0 {
      assert gap * dt > 0.0;
    } else {
      assert gap * dt <= 0.0;
    }
  }

  /** The record's age in epochs determines what remains, and it is not yet due. */
  ghost predicate Aged(h: Handoff, epoch: int, dt: real) {
    && h.startEpoch <= epoch
    && h.remaining == h.latency - (epoch - h.startEpoch) as real * dt
    && h.remaining > 0.0
  }

  ghost predicate AllAged(m: Manager, epoch: int, dt: real) {
    forall i :: 0 <= i < |m.pending| ==> Aged(m.pending[i], epoch, dt)
  }

  /** A record due at this tick has exactly the age its latency prescribes; any other stays aged. */
  lemma ElapseAges(h: Handoff, epoch: int, dt: real)
    requires dt > 0.0 && Aged(h, epoch, dt)
    ensures Finishes(h, dt) <==> epoch + 1 - h.startEpoch == Ticks(h.latency, dt)
    ensures !Finishes(h, dt) ==> Aged(Elapse(h, dt), epoch + 1, dt)
    ensures !Finishes(h, dt) ==> epoch + 1 - h.startEpoch < Ticks(h.latency, dt)
  {
    var age := epoch - h.startEpoch;
    assert (age + 1) as real * dt == age as real * dt + dt;
    TicksMeaning(h.latency, dt, age + 1);
    if !Finishes(h, dt) {
      var n := Ticks(h.latency, dt);
      TicksMeaning(h.latency, dt, n);
      Scale((age + 1) as real, n as real, dt);
    }
  }

  /** Liveness of one tick: the records that complete are exactly those whose age reaches
      ceil(latency / epoch length) at this tick, and every other record is kept. */
  lemma TickAges(c: Config, m: Manager, epoch: int, dt: real)
    requires dt > 0.0 && InDomain(m, c.queues) && InRange(m.pending, c.queues) && AllAged(m, epoch, dt)
    ensures var (m', finished) := Tick(c, m, dt);
      && AllAged(m', epoch + 1, dt)
      && (forall j :: 0 <= j < |finished| ==> epoch + 1 - finished[j].startEpoch == Ticks(finished[j].latency, dt))
      && (forall i :: 0 <= i < |m.pending| ==>
            if epoch + 1 - m.pending[i].startEpoch == Ticks(m.pending[i].latency, dt)
            then Elapse(m.pending[i], dt) in finished else Elapse(m.pending[i], dt) in m'.pending)
  {
    var n := |m.pending|;
    var (m', finished) := Tick(c, m, dt);
    var kept, done := Select(m.pending, dt, false, n), Select(m.pending, dt, true, n);
    SweepClosedForm(c, m, dt, n);
    SelectFacts(m.pending, dt, false, n);
    SelectFacts(m.pending, dt, true, n);
    assert m'.pending == Elapsed(m.pending, dt, kept) && finished == Elapsed(m.pending, dt, done);
    hide Select, Tick, SweepTo, Ticks, Finishes, Aged;
    forall i | 0 <= i < n
      ensures Finishes(m.pending[i], dt) <==> epoch + 1 - m.pending[i].startEpoch == Ticks(m.pending[i].latency, dt)
      ensures !Finishes(m.pending[i], dt) ==> Aged(Elapse(m.pending[i], dt), epoch + 1, dt)
    {
      ElapseAges(m.pending[i], epoch, dt);
    }
    forall i | 0 <= i < n
      ensures if epoch + 1 - m.pending[i].startEpoch == Ticks(m.pending[i].latency, dt)
              then Elapse(m.pending[i], dt) in finished else Elapse(m.pending[i], dt) in m'.pending
    {
      if Finishes(m.pending[i], dt) {
        var j :| 0 <= j < |done| && done[j] == i;
        assert finished[j] == Elapse(m.pending[i], dt);
      } else {
        var j :| 0 <= j < |kept| && kept[j] == i;
        assert m'.pending[j] == Elapse(m.pending[i], dt);
      }
    }
  }

  // ---------- Latency estimates ----------

  ghost predicate Within(s: seq<real>, lo: real, hi: real) {
    forall i :: 0 <= i < |s| ==> lo <= s[i] <= hi
  }

  lemma BlendWithin(alpha: real, x: real, y: real, lo: real, hi: real)
    requires 0.0 <= alpha <= 1.0 && lo <= x <= hi && lo <= y <= hi
    ensures lo <= Blend(alpha, x, y) <= hi
  {
    MulNonNegative(alpha, x - lo);
    MulNonNegative(1.0 - alpha, y - lo);
    MulNonNegative(alpha, hi - x);
    MulNonNegative(1.0 - alpha, hi - y);
    assert alpha * (x - lo) + (1.0 - alpha) * (y - lo) == alpha * x + (1.0 - alpha) * y - lo;
    assert alpha * (hi - x) + (1.0 - alpha) * (hi - y) == hi - (alpha * x + (1.0 - alpha) * y);
  }

  ghost predicate RealisedWithin(done: seq<Handoff>, lo: real, hi: real) {
    forall i :: 0 <= i < |done| ==> lo <= done[i].latency <= hi
  }

  /** For a weight in [0, 1] a pass keeps every estimate between any bounds that enclose the old
      estimates and the latencies of the handoffs it finishes. */
  lemma {:induction false} SweepKeepsEstimates(c: Config, m: Manager, dt: real, k: nat, lo: real, hi: real)
    requires InDomain(m, c.queues) && InRange(m.pending, c.queues) && k <= |m.pending|
    requires 0.0 <= c.alpha <= 1.0 && Within(m.tHand, lo, hi)
    requires RealisedWithin(SweepTo(c, m, dt, k).finished, lo, hi)
    ensures Within(SweepTo(c, m, dt, k).tHand, lo, hi)
  {
    if k > 0 {
      var w, w', h := SweepTo(c, m, dt, k - 1), SweepTo(c, m, dt, k), m.pending[k - 1];
      hide Blend;
      assert w' == SweepOne(c, w, h, dt);
      assert w'.finished[..|w.finished|] == w.finished;
      forall i | 0 <= i < |w.finished| ensures lo <= w.finished[i].latency <= hi {
        assert w.finished[i] == w'.finished[i];
      }
      SweepKeepsEstimates(c, m, dt, k - 1, lo, hi);
      if Elapse(h, dt).remaining <= 0.0 {
        assert w'.finished[|w.finished|] == Elapse(h, dt);
        BlendWithin(c.alpha, h.latency, w.tHand[h.dst], lo, hi);
      }
    }
  }

  // ---------- Estimates in closed form ----------

  function Power(x: real, n: nat): real {
    if n == 0 then 1.0 else Portion(x, Power(x, n - 1))
  }

  /** Latencies with exponential weights: the last one counts alpha, each earlier one 1 - alpha times the next. */
  function Weighted(alpha: real, latencies: seq<real>): real {
    if latencies == [] then 0.0
    else Portion(Portion(alpha, Power(1.0 - alpha, |latencies| - 1)), latencies[0]) + Weighted(alpha, latencies[1..])
  }

  lemma {:induction false} WeightedSnoc(alpha: real, latencies: seq<real>, last: real)
    ensures Weighted(alpha, latencies + [last])
         == Portion(1.0 - alpha, Weighted(alpha, latencies)) + Portion(alpha, last)
  {
    var all := latencies + [last];
    if latencies == [] {
      assert all[1..] == [];
    } else {
      hide Portion;
      WeightedSnoc(alpha, latencies[1..], last);
      assert all[1..] == latencies[1..] + [last];
      var p, rest := Power(1.0 - alpha, |latencies| - 1), Weighted(alpha, latencies[1..]);
      assert Power(1.0 - alpha, |all| - 1) == Portion(1.0 - alpha, p);
      OneMoreWeight(alpha, p, latencies[0], rest);
    }
  }

  lemma OneMoreWeight(alpha: real, p: real, first: real, rest: real)
    ensures Portion(Portion(alpha, Portion(1.0 - alpha, p)), first) + Portion(1.0 - alpha, rest)
         == Portion(1.0 - alpha, Portion(Portion(alpha, p), first) + rest)
  {
    Regroup(alpha, 1.0 - alpha, p, first);
    Distribute(1.0 - alpha, Portion(Portion(alpha, p), first), rest);
  }

  lemma Regroup(a: real, b: real, p: real, x: real)
    ensures Portion(Portion(a, Portion(b, p)), x) == Portion(b, Portion(Portion(a, p), x))
  {
  }

  lemma Distribute(a: real, x: real, y: real)
    ensures Portion(a, x + y) == Portion(a, x) + Portion(a, y)
  {
  }

  /** The latencies of the handoffs to a queue, in order. */
  function LatenciesTo(history: seq<Handoff>, q: nat): seq<real> {
    if history == [] then []
    else
      var n := |history| - 1;
      LatenciesTo(history[..n], q) + if history[n].dst == q then [history[n].latency] else []
  }

  /** What remains of the initial estimate after k handoffs, and the latencies of these. */
  ghost predicate InClosedForm(alpha: real, initial: real, estimate: real, latencies: seq<real>) {
    estimate == Portion(Power(1.0 - alpha, |latencies|), initial) + Weighted(alpha, latencies)
  }

  lemma BlendStaysClosed(alpha: real, initial: real, estimate: real, latencies: seq<real>, last: real)
    requires InClosedForm(alpha, initial, estimate, latencies)
    ensures InClosedForm(alpha, initial, Blend(alpha, last, estimate), latencies + [last])
  {
    WeightedSnoc(alpha, latencies, last);
    var p, w := Power(1.0 - alpha, |latencies|), Weighted(alpha, latencies);
    assert Power(1.0 - alpha, |latencies + [last]|) == Portion(1.0 - alpha, p);
    assert Blend(alpha, last, estimate) == Portion(alpha, last) + Portion(1.0 - alpha, estimate);
    hide Power, Weighted, Portion, Blend;
    Distribute(1.0 - alpha, Portion(p, initial), w);
    Associate(1.0 - alpha, p, initial);
  }

  lemma Associate(a: real, p: real, x: real)
    ensures Portion(Portion(a, p), x) == Portion(a, Portion(p, x))
  {
  }

  /** Every estimate is that of the handoffs completed to its queue. */
  ghost predicate AllClosed(c: Config, tHand: seq<real>, history: seq<Handoff>) {
    |tHand| == c.queues && forall q: nat :: q < c.queues ==>
      InClosedForm(c.alpha, InitialEstimate(c), tHand[q], LatenciesTo(history, q))
  }

  lemma CompletionStaysClosed(c: Config, tHand: seq<real>, history: seq<Handoff>, h: Handoff)
    requires AllClosed(c, tHand, history) && h.dst < c.queues
    ensures AllClosed(c, tHand[h.dst := Blend(c.alpha, h.latency, tHand[h.dst])], history + [h])
  {
    hide Blend, InClosedForm, InitialEstimate;
    var all := history + [h];
    assert all[..|history|] == history;
    forall q: nat | q < c.queues
      ensures q != h.dst ==> LatenciesTo(all, q) == LatenciesTo(history, q)
      ensures q == h.dst ==> LatenciesTo(all, q) == LatenciesTo(history, q) + [h.latency]
    {
    }
    BlendStaysClosed(c.alpha, InitialEstimate(c), tHand[h.dst], LatenciesTo(history, h.dst), h.latency);
  }

  lemma {:induction false} SweepStaysClosed(c: Config, m: Manager, dt: real, k: nat)
    requires InDomain(m, c.queues) && InRange(m.pending, c.queues) && k <= |m.pending|
    requires AllClosed(c, m.tHand, m.history)
    ensures AllClosed(c, SweepTo(c, m, dt, k).tHand, m.history + SweepTo(c, m, dt, k).finished)
  {
    if k == 0 {
      assert m.history + [] == m.history;
    } else {
      SweepStaysClosed(c, m, dt, k - 1);
      var w, h := SweepTo(c, m, dt, k - 1), m.pending[k - 1];
      hide AllClosed, Blend;
      assert SweepTo(c, m, dt, k) == SweepOne(c, w, h, dt);
      if Elapse(h, dt).remaining <= 0.0 {
        CompletionStaysClosed(c, w.tHand, m.history + w.finished, Elapse(h, dt));
        assert m.history + (w.finished + [Elapse(h, dt)]) == m.history + w.finished + [Elapse(h, dt)];
      }
    }
  }

  // ---------- Table history ----------

  /** At the moment each handoff was committed its bucket was mapped to its source. */
  ghost predicate Chained(table: seq<nat>, history: seq<Handoff>) {
    forall i :: 0 <= i < |history| ==>
      history[i].bucket < |table| && Commit(table, history[..i])[history[i].bucket] == history[i].src
  }

  lemma {:induction false} CommitAppend(table: seq<nat>, a: seq<Handoff>, b: seq<Handoff>)
    ensures Commit(table, a + b) == Commit(Commit(table, a), b)
  {
    if b == [] {
      assert a + b == a;
    } else {
      CommitAppend(table, a, b[..|b| - 1]);
      assert (a + b)[..|a + b| - 1] == a + b[..|b| - 1];
    }
  }

  lemma ChainedAt(table: seq<nat>, history: seq<Handoff>, i: nat)
    requires Chained(table, history) && i < |history|
    ensures history[i].bucket < |table| && Commit(table, history[..i])[history[i].bucket] == history[i].src
  {
  }

  lemma CommitLast(table: seq<nat>, front: seq<Handoff>, h: Handoff)
    requires h.bucket < |table|
    ensures Commit(table, front + [h])[h.bucket] == h.dst
  {
    assert (front + [h])[..|front|] == front;
  }

  /** Committed handoffs of one bucket form a chain: the destination of one is the source of the next. */
  lemma ConsecutiveHandoffsChain(table: seq<nat>, history: seq<Handoff>, i: nat, j: nat)
    requires Chained(table, history) && i < j < |history|
    requires history[i].bucket == history[j].bucket
    requires forall k :: i < k < j ==> history[k].bucket != history[i].bucket
    ensures history[i].dst == history[j].src
  {
    hide *;
    ChainedAt(table, history, i);
    ChainedAt(table, history, j);
    var upTo, between := history[..i] + [history[i]], history[i + 1..j];
    assert history[..j] == upTo + between;
    CommitAppend(table, upTo, between);
    CommitLast(table, history[..i], history[i]);
    CommitLeavesOthers(Commit(table, upTo), between, history[i].bucket);
  }

  /** A committed batch of handoffs for distinct buckets, each still mapped to its source, extends the chain. */
  lemma ChainExtends(table: seq<nat>, history: seq<Handoff>, batch: seq<Handoff>)
    requires Chained(table, history)
    requires forall i :: 0 <= i < |batch| ==>
      batch[i].bucket < |table| && Commit(table, history)[batch[i].bucket] == batch[i].src
    requires forall i, j :: 0 <= i < j < |batch| ==> batch[i].bucket != batch[j].bucket
    ensures Chained(table, history + batch)
  {
    var all := history + batch;
    forall i | 0 <= i < |all|
      ensures all[i].bucket < |table| && Commit(table, all[..i])[all[i].bucket] == all[i].src
    {
      if i < |history| {
        assert all[..i] == history[..i];
      } else {
        var k := i - |history|;
        assert all[..i] == history + batch[..k];
        CommitAppend(table, history, batch[..k]);
        CommitLeavesOthers(Commit(table, history), batch[..k], batch[k].bucket);
      }
    }
  }

  /** What a tick finishes is such a batch for the table it is about to be committed to. */
  lemma FinishedIsBatch(c: Config, m: Manager, table: seq<nat>, dt: real)
    requires Inv(c, m, table)
    ensures var finished := Tick(c, m, dt).1;
      && (forall i :: 0 <= i < |finished| ==>
            && finished[i].bucket < |table| && table[finished[i].bucket] == finished[i].src
            && finished[i].src < c.queues && finished[i].dst < c.queues && finished[i].completed)
      && (forall i, j :: 0 <= i < j < |finished| ==> Disjoint(finished[i], finished[j]))
  {
    var n := |m.pending|;
    var finished, done := Tick(c, m, dt).1, Select(m.pending, dt, true, n);
    SweepClosedForm(c, m, dt, n);
    SelectFacts(m.pending, dt, true, n);
    hide SweepTo, Select, MaxInt;
    forall i | 0 <= i < |finished|
      ensures finished[i].bucket < |table| && table[finished[i].bucket] == finished[i].src
      ensures finished[i].src < c.queues && finished[i].dst < c.queues && finished[i].completed
    {
      assert WellPlaced(m.pending[done[i]], c.queues, table);
      assert Finishes(m.pending[done[i]], dt);
    }
    forall i, j | 0 <= i < j < |finished| ensures Disjoint(finished[i], finished[j]) {
      ElapseKeepsDisjoint(m.pending[done[i]], m.pending[done[j]], dt);
    }
  }
}

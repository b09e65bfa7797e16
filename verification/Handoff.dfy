/** The handoff state machine as operations on values and their laws; the object is in HandoffManager.dfy. */
module Handoffs {
  import opened Common

  /** The record of one migration: endpoints, timing, buffer. */
  datatype Handoff = Handoff(
    bucket: nat, src: nat, dst: nat, startEpoch: int,
    latency: real, remaining: real, drain: real, migration: real, ack: real,
    bufferedBytes: nat, bufferedPkts: nat, overflowBytes: nat, overflowPkts: nat,
    completed: bool)
  {
    predicate Touches(q: nat) {
      q == src || q == dst
    }
  }

  /** `pending` keeps the insertion order of the dictionary it stands for; its buckets are distinct. */
  datatype Manager = Manager(
    pending: seq<Handoff>, ready: seq<bool>, flag: seq<bool>, tHand: seq<real>, history: seq<Handoff>)

  datatype Config = Config(
    queues: nat, maxConcurrent: int, capacity: int, alpha: real,
    drainMean: real, migrationMean: real, ackMean: real,
    singlePhase: Option<real>)

  /** Three Gaussian draws, or the single-phase one in the first place. */
  datatype Draw = Draw(drain: real, migration: real, ack: real)

  datatype Latency = Latency(total: real, drain: real, migration: real, ack: real)

  function SampleLatency(c: Config, g: Draw): (l: Latency)
    ensures l.total >= 1.0
  {
    if c.singlePhase.Some? then
      var total := Max(1.0, g.drain);
      Latency(total, total, 0.0, 0.0)
    else
      var d, m, a := Max(0.0, g.drain), Max(0.0, g.migration), Max(0.0, g.ack);
      Latency(Max(1.0, d + m + a), d, m, a)
  }

  function InitialEstimate(c: Config): real {
    if c.singlePhase.Some? then c.singlePhase.value else c.drainMean + c.migrationMean + c.ackMean
  }

  /** What a draw becomes: a phase lasts as drawn, or no time where the draw is negative; with a single phase all of
      the latency is its drain. The latency is that of the phases together, or 1 ns if they last less. */
  lemma LatencyOfPhases(c: Config, g: Draw)
    ensures var l := SampleLatency(c, g);
      && l.drain >= 0.0 && l.migration >= 0.0 && l.ack >= 0.0
      && (if l.total > 1.0 then l.total == l.drain + l.migration + l.ack else l.drain + l.migration + l.ack <= 1.0)
      && (c.singlePhase.None? ==>
            && (if g.drain >= 0.0 then l.drain == g.drain else l.drain == 0.0)
            && (if g.migration >= 0.0 then l.migration == g.migration else l.migration == 0.0)
            && (if g.ack >= 0.0 then l.ack == g.ack else l.ack == 0.0))
      && (c.singlePhase.Some? ==>
            && (g.drain >= 1.0 ==> l.total == g.drain) && l.total == l.drain && l.migration == l.ack == 0.0)
  {
  }

  /** The estimate that a queue starts with is the latency of a handoff whose draws are the means. */
  lemma EstimateStartsAtMean(c: Config)
    requires InitialEstimate(c) >= 1.0 && c.drainMean >= 0.0 && c.migrationMean >= 0.0 && c.ackMean >= 0.0
    ensures var mean := if c.singlePhase.Some? then Draw(c.singlePhase.value, 0.0, 0.0)
                        else Draw(c.drainMean, c.migrationMean, c.ackMean);
      SampleLatency(c, mean).total == InitialEstimate(c)
  {
  }

  function Initial(c: Config): Manager {
    Manager([], Fill(c.queues, true), Fill(c.queues, false), Fill(c.queues, InitialEstimate(c)), [])
  }

  /** A record's latency is that of its phases together, or 1 ns if they last less. */
  ghost predicate Phased(h: Handoff) {
    && h.drain >= 0.0 && h.migration >= 0.0 && h.ack >= 0.0 && h.latency >= 1.0
    && if h.latency > 1.0 then h.latency == h.drain + h.migration + h.ack else h.drain + h.migration + h.ack <= 1.0
  }

  // ---------- Issue ----------

  predicate InDomain(m: Manager, n: nat) {
    |m.ready| == n && |m.flag| == n && |m.tHand| == n
  }

  predicate CanIssue(c: Config, m: Manager, src: nat, dst: nat)
    requires InDomain(m, c.queues) && src < c.queues && dst < c.queues
  {
    |m.pending| < c.maxConcurrent && !m.flag[src] && !m.flag[dst] && m.ready[dst]
  }

  predicate Has(pending: seq<Handoff>, bucket: nat) {
    exists i :: 0 <= i < |pending| && pending[i].bucket == bucket
  }

  predicate IsPending(m: Manager, bucket: nat) {
    Has(m.pending, bucket)
  }

  function NewHandoff(c: Config, bucket: nat, src: nat, dst: nat, epoch: int, g: Draw): Handoff {
    var l := SampleLatency(c, g);
    Handoff(bucket, src, dst, epoch, l.total, l.total, l.drain, l.migration, l.ack, 0, 0, 0, 0, false)
  }

  /** None stands for the error raised when the bucket is already in handoff. */
  function Issue(c: Config, m: Manager, bucket: nat, src: nat, dst: nat, epoch: int, g: Draw): Option<Manager>
    requires InDomain(m, c.queues) && src < c.queues && dst < c.queues
  {
    if IsPending(m, bucket) then None
    else Some(m.(pending := m.pending + [NewHandoff(c, bucket, src, dst, epoch, g)],
                 flag := m.flag[src := true][dst := true]))
  }

  // ---------- The invariant ----------

  ghost predicate Disjoint(a: Handoff, b: Handoff) {
    a.bucket != b.bucket && forall q :: !(a.Touches(q) && b.Touches(q))
  }

  ghost predicate WellPlaced(h: Handoff, n: nat, table: seq<nat>) {
    && h.src < n && h.dst < n && h.src != h.dst
    && h.bucket < |table| && table[h.bucket] == h.src
    && !h.completed && h.remaining > 0.0 && h.latency >= 1.0
  }

  ghost predicate Raised(pending: seq<Handoff>, q: nat) {
    exists i :: 0 <= i < |pending| && pending[i].Touches(q)
  }

  /** The records are pairwise disjoint in bucket and in endpoints, each bucket is still mapped to the
      source queue, a queue's flag is up exactly when it is an endpoint, and the cap holds. */
  ghost predicate Inv(c: Config, m: Manager, table: seq<nat>) {
    && InDomain(m, c.queues)
    && (forall q :: 0 <= q < c.queues ==> m.ready[q])
    && (forall i, j :: 0 <= i < j < |m.pending| ==> Disjoint(m.pending[i], m.pending[j]))
    && (forall i :: 0 <= i < |m.pending| ==> WellPlaced(m.pending[i], c.queues, table))
    && (forall q: nat :: q < c.queues ==> (m.flag[q] <==> Raised(m.pending, q)))
    && |m.pending| <= MaxInt(0, c.maxConcurrent)
  }

  lemma InitialInv(c: Config, table: seq<nat>)
    ensures Inv(c, Initial(c), table)
  {
  }

  /** Issuing without its own check is safe from a state with the invariant: a bucket whose queue has
      its flag down is not pending, so the error branch is not reached and the invariant is kept. */
  lemma IssueKeepsInv(c: Config, m: Manager, table: seq<nat>, bucket: nat, src: nat, dst: nat, epoch: int, g: Draw)
    requires Inv(c, m, table)
    requires src < c.queues && dst < c.queues && src != dst && CanIssue(c, m, src, dst)
    requires bucket < |table| && table[bucket] == src
    ensures Issue(c, m, bucket, src, dst, epoch, g).Some?
    ensures Inv(c, Issue(c, m, bucket, src, dst, epoch, g).value, table)
  {
    var h := NewHandoff(c, bucket, src, dst, epoch, g);
    var n := |m.pending|;
    forall i | 0 <= i < n ensures Disjoint(m.pending[i], h) {
      assert WellPlaced(m.pending[i], c.queues, table);
      assert m.pending[i].Touches(m.pending[i].src) && m.pending[i].Touches(m.pending[i].dst);
      assert Raised(m.pending, m.pending[i].src) && Raised(m.pending, m.pending[i].dst);
    }
    var m' := Issue(c, m, bucket, src, dst, epoch, g).value;
    forall q: nat | q < c.queues ensures m'.flag[q] <==> Raised(m'.pending, q) {
      if Raised(m.pending, q) {
        var i :| 0 <= i < n && m.pending[i].Touches(q);
        assert m'.pending[i].Touches(q);
      }
      if h.Touches(q) {
        assert m'.pending[n].Touches(q);
      }
    }
  }

  /** The record of an issue keeps the phases as drawn, each in its place. */
  lemma IssueDrawsPhases(c: Config, m: Manager, bucket: nat, src: nat, dst: nat, epoch: int, g: Draw)
    requires InDomain(m, c.queues) && src < c.queues && dst < c.queues && !IsPending(m, bucket)
    requires c.singlePhase.None? && g.drain >= 0.0 && g.migration >= 0.0 && g.ack >= 0.0
    ensures var r := Issue(c, m, bucket, src, dst, epoch, g);
      && r.Some? && |r.value.pending| == |m.pending| + 1
      && var h := r.value.pending[|m.pending|];
        && h.drain == g.drain && h.migration == g.migration && h.ack == g.ack && Phased(h)
        && h.bucket == bucket && h.src == src && h.dst == dst && h.startEpoch == epoch
  {
    hide IsPending;
  }

  // ---------- Time ----------

  /** A pass over the pending records: kept ones, finished ones, flags and estimates so far. */
  datatype Sweep = Sweep(kept: seq<Handoff>, finished: seq<Handoff>, flag: seq<bool>, tHand: seq<real>)

  function Elapse(h: Handoff, dt: real): Handoff {
    var r := h.remaining - dt;
    h.(remaining := r, completed := h.completed || r <= 0.0)
  }

  ghost predicate InRange(pending: seq<Handoff>, n: nat) {
    forall i :: 0 <= i < |pending| ==> pending[i].src < n && pending[i].dst < n
  }

  /** The moving average of realised latencies. */
  function Blend(alpha: real, latency: real, estimate: real): real {
    alpha * latency + (1.0 - alpha) * estimate
  }

  function SweepOne(c: Config, w: Sweep, h: Handoff, dt: real): Sweep
    requires |w.flag| == |w.tHand| == c.queues && h.src < c.queues && h.dst < c.queues
  {
    var h' := Elapse(h, dt);
    if h'.remaining <= 0.0 then
      Sweep(w.kept, w.finished + [h'],
            w.flag[h.src := false][h.dst := false],
            w.tHand[h.dst := Blend(c.alpha, h.latency, w.tHand[h.dst])])
    else w.(kept := w.kept + [h'])
  }

  /** The pass over the first k records. */
  function SweepTo(c: Config, m: Manager, dt: real, k: nat): (w: Sweep)
    requires InDomain(m, c.queues) && k <= |m.pending|
    requires InRange(m.pending, c.queues)
    ensures |w.flag| == |w.tHand| == c.queues
  {
    if k == 0 then Sweep([], [], m.flag, m.tHand)
    else SweepOne(c, SweepTo(c, m, dt, k - 1), m.pending[k - 1], dt)
  }

  lemma SweepStarts(c: Config, m: Manager, dt: real)
    requires InDomain(m, c.queues) && InRange(m.pending, c.queues)
    ensures SweepTo(c, m, dt, 0) == Sweep([], [], m.flag, m.tHand)
  {
  }

  /** One more record of the pass. */
  lemma SweepNext(c: Config, m: Manager, dt: real, k: nat)
    requires InDomain(m, c.queues) && InRange(m.pending, c.queues) && k < |m.pending|
    ensures m.pending[k].src < c.queues && m.pending[k].dst < c.queues
    ensures var w, w', h' := SweepTo(c, m, dt, k), SweepTo(c, m, dt, k + 1), Elapse(m.pending[k], dt);
      && w' == SweepOne(c, w, m.pending[k], dt)
      && w'.kept == (if h'.remaining <= 0.0 then w.kept else w.kept + [h'])
      && w'.finished == (if h'.remaining <= 0.0 then w.finished + [h'] else w.finished)
  {
  }

  function Tick(c: Config, m: Manager, dt: real): (Manager, seq<Handoff>)
    requires InDomain(m, c.queues) && InRange(m.pending, c.queues)
  {
    var w := SweepTo(c, m, dt, |m.pending|);
    (Manager(w.kept, m.ready, w.flag, w.tHand, m.history + w.finished), w.finished)
  }

  /** Does the record finish when dt elapses? */
  predicate Finishes(h: Handoff, dt: real) {
    h.remaining - dt <= 0.0
  }

  /** The indices below k of the records that do (or do not) finish, in order. */
  function Select(pending: seq<Handoff>, dt: real, finish: bool, k: nat): (idx: seq<nat>)
    requires k <= |pending|
    ensures forall i :: 0 <= i < |idx| ==> idx[i] < k
  {
    if k == 0 then []
    else
      var front := Select(pending, dt, finish, k - 1);
      if Finishes(pending[k - 1], dt) == finish then front + [k - 1] else front
  }

  lemma {:induction false} SelectFacts(pending: seq<Handoff>, dt: real, finish: bool, k: nat)
    requires k <= |pending|
    ensures var idx := Select(pending, dt, finish, k);
      && |idx| <= k
      && (forall i :: 0 <= i < |idx| ==> Finishes(pending[idx[i]], dt) == finish)
      && (forall i, j :: 0 <= i < j < |idx| ==> idx[i] < idx[j])
      && (forall i :: 0 <= i < k && Finishes(pending[i], dt) == finish ==> i in idx)
  {
    if k > 0 {
      SelectFacts(pending, dt, finish, k - 1);
      var front, idx := Select(pending, dt, finish, k - 1), Select(pending, dt, finish, k);
      assert idx == if Finishes(pending[k - 1], dt) == finish then front + [k - 1] else front;
      hide Finishes, Select;
      forall i, j | 0 <= i < j < |idx| ensures idx[i] < idx[j] {
        assert idx[i] == front[i];
      }
    }
  }

  function Elapsed(pending: seq<Handoff>, dt: real, idx: seq<nat>): (s: seq<Handoff>)
    requires forall i :: 0 <= i < |idx| ==> idx[i] < |pending|
    ensures |s| == |idx| && forall i :: 0 <= i < |idx| ==> s[i] == Elapse(pending[idx[i]], dt)
  {
    seq(|idx|, i requires 0 <= i < |idx| => Elapse(pending[idx[i]], dt))
  }

  ghost predicate ClearedBelow(pending: seq<Handoff>, dt: real, k: nat, q: nat)
    requires k <= |pending|
  {
    exists i :: 0 <= i < k && Finishes(pending[i], dt) && pending[i].Touches(q)
  }

  lemma SweepFlags(c: Config, m: Manager, dt: real, k: nat)
    requires InDomain(m, c.queues) && InRange(m.pending, c.queues) && 0 < k <= |m.pending|
    requires forall q: nat :: q < c.queues ==>
      (SweepTo(c, m, dt, k - 1).flag[q] <==> m.flag[q] && !ClearedBelow(m.pending, dt, k - 1, q))
    ensures forall q: nat :: q < c.queues ==>
      (SweepTo(c, m, dt, k).flag[q] <==> m.flag[q] && !ClearedBelow(m.pending, dt, k, q))
  {
    var w0, h := SweepTo(c, m, dt, k - 1), m.pending[k - 1];
    assert SweepTo(c, m, dt, k) == SweepOne(c, w0, h, dt);
    hide SweepTo;
    forall q: nat | q < c.queues
      ensures SweepTo(c, m, dt, k).flag[q] <==> m.flag[q] && !ClearedBelow(m.pending, dt, k, q)
    {
      assert ClearedBelow(m.pending, dt, k, q)
        <==> ClearedBelow(m.pending, dt, k - 1, q) || (Finishes(h, dt) && h.Touches(q));
    }
  }

  lemma ElapsedSnoc(pending: seq<Handoff>, dt: real, idx: seq<nat>, i: nat)
    requires i < |pending| && forall j :: 0 <= j < |idx| ==> idx[j] < |pending|
    ensures Elapsed(pending, dt, idx + [i]) == Elapsed(pending, dt, idx) + [Elapse(pending[i], dt)]
  {
  }

  lemma SweepLists(c: Config, m: Manager, dt: real, k: nat)
    requires InDomain(m, c.queues) && InRange(m.pending, c.queues) && 0 < k <= |m.pending|
    requires var w := SweepTo(c, m, dt, k - 1);
      && w.kept == Elapsed(m.pending, dt, Select(m.pending, dt, false, k - 1))
      && w.finished == Elapsed(m.pending, dt, Select(m.pending, dt, true, k - 1))
    ensures var w := SweepTo(c, m, dt, k);
      && w.kept == Elapsed(m.pending, dt, Select(m.pending, dt, false, k))
      && w.finished == Elapsed(m.pending, dt, Select(m.pending, dt, true, k))
  {
    var w0, h := SweepTo(c, m, dt, k - 1), m.pending[k - 1];
    assert SweepTo(c, m, dt, k) == SweepOne(c, w0, h, dt);
    hide SweepTo;
    ElapsedSnoc(m.pending, dt, Select(m.pending, dt, Finishes(h, dt), k - 1), k - 1);
  }

  /** A pass in closed form: it splits the records by whether they finish, keeping their order, and
      lowers exactly the flags of the finished ones' endpoints. */
  lemma {:induction false} SweepClosedForm(c: Config, m: Manager, dt: real, k: nat)
    requires InDomain(m, c.queues) && InRange(m.pending, c.queues) && k <= |m.pending|
    ensures var w := SweepTo(c, m, dt, k);
      && w.kept == Elapsed(m.pending, dt, Select(m.pending, dt, false, k))
      && w.finished == Elapsed(m.pending, dt, Select(m.pending, dt, true, k))
    ensures forall q: nat :: q < c.queues ==>
      (SweepTo(c, m, dt, k).flag[q] <==> m.flag[q] && !ClearedBelow(m.pending, dt, k, q))
  {
    if k > 0 {
      SweepClosedForm(c, m, dt, k - 1);
      hide *;
      SweepLists(c, m, dt, k);
      SweepFlags(c, m, dt, k);
    }
  }

  /** Time keeps the invariant: clearing the flags of finished handoffs never clears the flag of
      another one, since no two of them share an endpoint. */
  lemma TickKeepsInv(c: Config, m: Manager, table: seq<nat>, dt: real)
    requires Inv(c, m, table)
    ensures Inv(c, Tick(c, m, dt).0, table)
  {
    var n := |m.pending|;
    var idx := Select(m.pending, dt, false, n);
    SweepClosedForm(c, m, dt, n);
    SelectFacts(m.pending, dt, false, n);
    var m' := Tick(c, m, dt).0;
    hide SweepTo, Select, MaxInt, Tick;
    assert m'.pending == Elapsed(m.pending, dt, idx);
    forall i, j | 0 <= i < j < |m'.pending| ensures Disjoint(m'.pending[i], m'.pending[j]) {
      ElapseKeepsDisjoint(m.pending[idx[i]], m.pending[idx[j]], dt);
    }
    forall i | 0 <= i < |m'.pending| ensures WellPlaced(m'.pending[i], c.queues, table) {
      assert WellPlaced(m.pending[idx[i]], c.queues, table);
    }
    forall q: nat | q < c.queues ensures m'.flag[q] <==> Raised(m'.pending, q) {
      FlagsFollowRecords(m, m'.pending, dt, idx, q);
    }
  }

  lemma ElapseKeepsDisjoint(a: Handoff, b: Handoff, dt: real)
    requires Disjoint(a, b)
    ensures Disjoint(Elapse(a, dt), Elapse(b, dt))
  {
    forall q ensures !(Elapse(a, dt).Touches(q) && Elapse(b, dt).Touches(q)) {
      assert !(a.Touches(q) && b.Touches(q));
    }
  }

  lemma FlagsFollowRecords(m: Manager, kept: seq<Handoff>, dt: real, idx: seq<nat>, q: nat)
    requires forall i, j :: 0 <= i < j < |m.pending| ==> Disjoint(m.pending[i], m.pending[j])
    requires forall i :: 0 <= i < |idx| ==> idx[i] < |m.pending| && !Finishes(m.pending[idx[i]], dt)
    requires forall i :: 0 <= i < |m.pending| && !Finishes(m.pending[i], dt) ==> i in idx
    requires kept == Elapsed(m.pending, dt, idx)
    ensures Raised(kept, q) <==> Raised(m.pending, q) && !ClearedBelow(m.pending, dt, |m.pending|, q)
  {
    if Raised(kept, q) {
      var i :| 0 <= i < |kept| && kept[i].Touches(q);
      var p := idx[i];
      assert m.pending[p].Touches(q);
      forall j | 0 <= j < |m.pending| && Finishes(m.pending[j], dt) ensures !m.pending[j].Touches(q) {
        if j < p {
          assert Disjoint(m.pending[j], m.pending[p]);
        } else {
          assert Disjoint(m.pending[p], m.pending[j]);
        }
      }
    }
    if Raised(m.pending, q) && !ClearedBelow(m.pending, dt, |m.pending|, q) {
      var p :| 0 <= p < |m.pending| && m.pending[p].Touches(q);
      var i :| 0 <= i < |idx| && idx[i] == p;
      assert kept[i].Touches(q);
    }
  }

  // ---------- The table ----------

  /** Commit finished handoffs in order: each moves its bucket to its destination. */
  function Commit(table: seq<nat>, finished: seq<Handoff>): (t: seq<nat>)
    ensures |t| == |table|
  {
    if finished == [] then table
    else
      var h := finished[|finished| - 1];
      var t := Commit(table, finished[..|finished| - 1]);
      if h.bucket < |t| then t[h.bucket := h.dst] else t
  }

  lemma {:induction false} CommitLeavesOthers(table: seq<nat>, finished: seq<Handoff>, b: nat)
    requires b < |table| && forall i :: 0 <= i < |finished| ==> finished[i].bucket != b
    ensures Commit(table, finished)[b] == table[b]
  {
    if finished != [] {
      CommitLeavesOthers(table, finished[..|finished| - 1], b);
    }
  }

  /** No record kept by a tick is for a bucket that the tick finished. */
  lemma KeptAndFinishedDiffer(c: Config, m: Manager, dt: real)
    requires InDomain(m, c.queues) && InRange(m.pending, c.queues)
    requires forall i, j :: 0 <= i < j < |m.pending| ==> Disjoint(m.pending[i], m.pending[j])
    ensures var (m', finished) := Tick(c, m, dt);
      forall i, j :: 0 <= i < |m'.pending| && 0 <= j < |finished| ==> m'.pending[i].bucket != finished[j].bucket
  {
    var (m', finished) := Tick(c, m, dt);
    var kept, done := Select(m.pending, dt, false, |m.pending|), Select(m.pending, dt, true, |m.pending|);
    SweepClosedForm(c, m, dt, |m.pending|);
    SelectFacts(m.pending, dt, false, |m.pending|);
    SelectFacts(m.pending, dt, true, |m.pending|);
    hide SweepTo, Select;
    forall i, j | 0 <= i < |m'.pending| && 0 <= j < |finished| ensures m'.pending[i].bucket != finished[j].bucket {
      var x, y := kept[i], done[j];
      assert if x < y then Disjoint(m.pending[x], m.pending[y]) else Disjoint(m.pending[y], m.pending[x]);
    }
  }

  /** Committing buckets that are not pending keeps the invariant. */
  lemma CommitOthersKeepsInv(c: Config, m: Manager, table: seq<nat>, finished: seq<Handoff>)
    requires Inv(c, m, table)
    requires forall i, j :: 0 <= i < |m.pending| && 0 <= j < |finished| ==> m.pending[i].bucket != finished[j].bucket
    ensures Inv(c, m, Commit(table, finished))
  {
    forall i | 0 <= i < |m.pending| ensures WellPlaced(m.pending[i], c.queues, Commit(table, finished)) {
      assert WellPlaced(m.pending[i], c.queues, table);
      CommitLeavesOthers(table, finished, m.pending[i].bucket);
    }
  }

  /** Committing what a tick finished keeps the invariant over the new table. */
  lemma CommitKeepsInv(c: Config, m: Manager, table: seq<nat>, dt: real)
    requires Inv(c, m, table)
    ensures Inv(c, Tick(c, m, dt).0, Commit(table, Tick(c, m, dt).1))
  {
    TickKeepsInv(c, m, table, dt);
    KeptAndFinishedDiffer(c, m, dt);
    CommitOthersKeepsInv(c, Tick(c, m, dt).0, table, Tick(c, m, dt).1);
  }

  // ---------- The buffer ----------

  /** Absorb `pkts` packets of `bytes` bytes in all; what does not fit overflows, and the packets are
      split in proportion to the bytes, rounding the buffered share down. */
  function Absorb(c: Config, h: Handoff, bytes: nat, pkts: nat): (h': Handoff)
    ensures h' == h.(bufferedBytes := h'.bufferedBytes, bufferedPkts := h'.bufferedPkts,
                     overflowBytes := h'.overflowBytes, overflowPkts := h'.overflowPkts)
  {
    var room := c.capacity - h.bufferedBytes;
    if bytes <= room then
      h.(bufferedBytes := h.bufferedBytes + bytes, bufferedPkts := h.bufferedPkts + pkts)
    else
      var added := MaxInt(0, room);
      var addedPkts := pkts * added / MaxInt(1, bytes);
      ShareAtMostWhole(pkts, added, MaxInt(1, bytes));
      h.(bufferedBytes := h.bufferedBytes + added, bufferedPkts := h.bufferedPkts + addedPkts,
         overflowBytes := h.overflowBytes + (bytes - added), overflowPkts := h.overflowPkts + (pkts - addedPkts))
  }

  lemma ShareAtMostWhole(n: nat, part: nat, whole: nat)
    requires part <= whole && whole > 0
    ensures 0 <= n * part / whole <= n
  {
    var share := n * part / whole;
    assert n * part <= n * whole;
    assert share * whole <= n * whole;
    assert (n - share) * whole >= 0;
  }

  /** How many packets of an absorb that overflows are buffered: as many as the buffered share of the bytes makes,
      rounded down. */
  lemma BufferedShareIsFloor(c: Config, h: Handoff, bytes: nat, pkts: nat)
    requires bytes > 0 && h.bufferedBytes + bytes > c.capacity
    ensures var h' := Absorb(c, h, bytes, pkts);
      var addedBytes, addedPkts := h'.bufferedBytes - h.bufferedBytes, h'.bufferedPkts - h.bufferedPkts;
      && 0 <= addedPkts <= pkts && addedBytes == MaxInt(0, c.capacity - h.bufferedBytes)
      && addedPkts * bytes <= pkts * addedBytes < (addedPkts + 1) * bytes
  {
    var added := MaxInt(0, c.capacity - h.bufferedBytes);
    ShareAtMostWhole(pkts, added, bytes);
    DivisionIsFloor(pkts * added, bytes);
  }

  lemma DivisionIsFloor(x: nat, y: nat)
    requires y > 0
    ensures x / y * y <= x < (x / y + 1) * y
  {
  }

  datatype Offered = Offered(bytes: nat, pkts: nat)

  function AbsorbAll(c: Config, h: Handoff, offers: seq<Offered>): Handoff {
    if offers == [] then h
    else
      var last := offers[|offers| - 1];
      Absorb(c, AbsorbAll(c, h, offers[..|offers| - 1]), last.bytes, last.pkts)
  }

  function TotalBytes(offers: seq<Offered>): nat {
    if offers == [] then 0 else TotalBytes(offers[..|offers| - 1]) + offers[|offers| - 1].bytes
  }

  function TotalPkts(offers: seq<Offered>): nat {
    if offers == [] then 0 else TotalPkts(offers[..|offers| - 1]) + offers[|offers| - 1].pkts
  }

  /** Closed form of the buffer: whatever the sequence of absorbs into a fresh record, the buffer holds
      the smaller of its capacity and all bytes offered, the rest has overflowed, and no packet is lost. */
  lemma {:induction false} BufferClosedForm(c: Config, h: Handoff, offers: seq<Offered>)
    requires h.bufferedBytes == h.bufferedPkts == h.overflowBytes == h.overflowPkts == 0
    ensures var h' := AbsorbAll(c, h, offers);
      && h'.bufferedBytes == MinInt(MaxInt(0, c.capacity), TotalBytes(offers))
      && h'.bufferedBytes + h'.overflowBytes == TotalBytes(offers)
      && h'.bufferedPkts + h'.overflowPkts == TotalPkts(offers)
  {
    if offers != [] {
      BufferClosedForm(c, h, offers[..|offers| - 1]);
    }
  }
}

/** One step of the reactive stateful scheduler (Algorithm 3) as a function of the candidate order, with its laws. */
module StatefulScheduler {
  import opened Common
  import opened Handoffs

  datatype Config = Config(
    eta1: real, eta2: real, tauHot: real, tauCold: real,
    lambda: real, epsilon: real, maxPerEpoch: int, epochNs: real)

  /** What stays fixed during one step: parameters, the closed epoch's telemetry, and the table with the
      finished handoffs already committed. `draw(k)` is the k-th latency draw of the step. */
  datatype Context = Context(
    cfg: Config, hc: Handoffs.Config,
    pressure: seq<real>, bucketBytes: seq<real>, sigma: real,
    table: seq<nat>, epoch: int, draw: nat -> Draw)
  {
    ghost predicate Valid() {
      && cfg.epochNs > 0.0 && sigma >= 0.0
      && |pressure| == hc.queues && |bucketBytes| == |table|
      && forall b :: 0 <= b < |table| ==> table[b] < hc.queues
    }
  }

  /** `raised` records that an issue hit the error of a bucket already in handoff. */
  datatype State = State(m: Manager, load: seq<real>, issued: nat, raised: bool)

  ghost predicate Fits(x: Context, st: State) {
    x.Valid() && InDomain(st.m, x.hc.queues) && |st.load| == x.hc.queues
  }

  // ---------- Scores and gains ----------

  /** Pressure and share of the total load, weighted. */
  function Weigh(c: Config, pressure: real, load: real, sigma: real): real
    requires sigma >= 0.0
  {
    c.eta1 * pressure + c.eta2 * (load / (sigma + 0.000000001))
  }

  function Score(x: Context, load: real, q: nat): real
    requires x.Valid() && q < x.hc.queues
  {
    Weigh(x.cfg, x.pressure[q], load, x.sigma)
  }

  /** The expected handoff time in epochs, weighted. */
  function Cost(c: Config, tHand: real): real
    requires c.epochNs > 0.0
  {
    c.lambda * (tHand / c.epochNs)
  }

  function Penalty(x: Context, m: Manager, dst: nat): real
    requires x.Valid() && InDomain(m, x.hc.queues) && dst < x.hc.queues
  {
    Cost(x.cfg, m.tHand[dst])
  }

  function Benefit(x: Context, load: seq<real>, b: nat, src: nat, dst: nat): real
    requires x.Valid() && |load| == x.hc.queues && b < |x.table| && src < x.hc.queues && dst < x.hc.queues
  {
    Max(Score(x, load[src], src), Score(x, load[dst], dst))
    - Max(Score(x, load[src] - x.bucketBytes[b], src), Score(x, load[dst] + x.bucketBytes[b], dst))
  }

  function Gain(x: Context, st: State, b: nat, src: nat, dst: nat): real
    requires Fits(x, st) && b < |x.table| && src < x.hc.queues && dst < x.hc.queues
  {
    Benefit(x, st.load, b, src, dst) - Penalty(x, st.m, dst)
  }

  /** A destination the step may choose now: another queue, cold, and free for a handoff. */
  predicate Admissible(x: Context, st: State, src: nat, dst: nat)
    requires Fits(x, st) && src < x.hc.queues && dst < x.hc.queues
  {
    dst != src && x.pressure[dst] < x.cfg.tauCold && CanIssue(x.hc, st.m, src, dst)
  }

  /** The first destination of greatest gain among the admissible ones below n. */
  function Best(x: Context, st: State, b: nat, src: nat, n: nat): (d: Option<nat>)
    requires Fits(x, st) && b < |x.table| && src < x.hc.queues && n <= x.hc.queues
    ensures d.Some? ==> d.value < n && Admissible(x, st, src, d.value)
  {
    if n == 0 then None
    else
      var prev := Best(x, st, b, src, n - 1);
      if Admissible(x, st, src, n - 1)
        && (prev.None? || Gain(x, st, b, src, n - 1) > Gain(x, st, b, src, prev.value))
      then Some(n - 1) else prev
  }

  lemma {:induction false} BestIsGreatest(x: Context, st: State, b: nat, src: nat, n: nat)
    requires Fits(x, st) && b < |x.table| && src < x.hc.queues && n <= x.hc.queues
    ensures forall d: nat :: d < n && Admissible(x, st, src, d) ==>
      Best(x, st, b, src, n).Some? && Gain(x, st, b, src, d) <= Gain(x, st, b, src, Best(x, st, b, src, n).value)
  {
    hide Gain, Admissible;
    if n > 0 {
      BestIsGreatest(x, st, b, src, n - 1);
    }
  }

  /** Queues that are not admissible do not change the choice. */
  lemma {:induction false} BestSkips(x: Context, st: State, b: nat, src: nat, lo: nat, hi: nat)
    requires Fits(x, st) && b < |x.table| && src < x.hc.queues && lo <= hi <= x.hc.queues
    requires forall d: nat :: lo <= d < hi ==> !Admissible(x, st, src, d)
    ensures Best(x, st, b, src, hi) == Best(x, st, b, src, lo)
  {
    hide Gain, Admissible;
    if lo < hi {
      BestSkips(x, st, b, src, lo, hi - 1);
    }
  }

  // ---------- The step ----------

  function Move(x: Context, st: State, b: nat, src: nat, dst: nat): State
    requires Fits(x, st) && b < |x.table| && src < x.hc.queues && dst < x.hc.queues
  {
    var r := Issue(x.hc, st.m, b, src, dst, x.epoch, x.draw(st.issued));
    if r.None? then st.(raised := true)
    else
      var load1 := st.load[src := st.load[src] - x.bucketBytes[b]];
      State(r.value, load1[dst := load1[dst] + x.bucketBytes[b]], st.issued + 1, st.raised)
  }

  /** The best destination for a bucket, if it is worth a handoff. */
  function Choice(x: Context, st: State, b: nat): (d: Option<nat>)
    requires Fits(x, st) && b < |x.table|
    ensures d.Some? ==> d.value < x.hc.queues && Admissible(x, st, x.table[b], d.value)
    ensures d.Some? ==> Gain(x, st, b, x.table[b], d.value) > x.cfg.epsilon
  {
    var src := x.table[b];
    if st.raised || st.issued >= x.cfg.maxPerEpoch || st.m.flag[src] then None
    else
      var d := Best(x, st, b, src, x.hc.queues);
      if d.Some? && Gain(x, st, b, src, d.value) > x.cfg.epsilon then d else None
  }

  function Consider(x: Context, st: State, b: nat): (st': State)
    requires Fits(x, st) && b < |x.table|
    ensures Fits(x, st')
  {
    var d := Choice(x, st, b);
    if d.None? then st else Move(x, st, b, x.table[b], d.value)
  }

  ghost predicate Buckets(x: Context, order: seq<nat>) {
    forall i :: 0 <= i < |order| ==> order[i] < |x.table|
  }

  function StepTo(x: Context, st: State, order: seq<nat>, k: nat): (st': State)
    requires Fits(x, st) && Buckets(x, order) && k <= |order|
    ensures Fits(x, st')
  {
    if k == 0 then st else Consider(x, StepTo(x, st, order, k - 1), order[k - 1])
  }

  /** Once the cap is reached, or the error raised, the rest of the order changes nothing. */
  lemma {:induction false} StepStops(x: Context, st: State, order: seq<nat>, k: nat, n: nat)
    requires Fits(x, st) && Buckets(x, order) && k <= n <= |order|
    requires StepTo(x, st, order, k).issued >= x.cfg.maxPerEpoch || StepTo(x, st, order, k).raised
    ensures StepTo(x, st, order, n) == StepTo(x, st, order, k)
  {
    if k < n {
      StepStops(x, st, order, k, n - 1);
      hide Best;
    }
  }

  // ---------- The invariant ----------

  /** The scheduler never drives the manager into its error, and every issue keeps the handoff invariant. */
  lemma ConsiderKeepsInv(x: Context, st: State, b: nat)
    requires Fits(x, st) && b < |x.table| && Inv(x.hc, st.m, x.table) && !st.raised
    ensures Inv(x.hc, Consider(x, st, b).m, x.table) && !Consider(x, st, b).raised
  {
    var d := Choice(x, st, b);
    hide Choice, Inv;
    if d.Some? {
      IssueKeepsInv(x.hc, st.m, x.table, b, x.table[b], d.value, x.epoch, x.draw(st.issued));
    }
  }

  lemma {:induction false} StepKeepsInv(x: Context, st: State, order: seq<nat>, k: nat)
    requires Fits(x, st) && Buckets(x, order) && k <= |order|
    requires Inv(x.hc, st.m, x.table) && !st.raised
    ensures Inv(x.hc, StepTo(x, st, order, k).m, x.table) && !StepTo(x, st, order, k).raised
  {
    hide Inv;
    if k > 0 {
      StepKeepsInv(x, st, order, k - 1);
      ConsiderKeepsInv(x, StepTo(x, st, order, k - 1), order[k - 1]);
    }
  }

  // ---------- The potential ----------

  function ScoreOf(x: Context, st: State, q: nat): real
    requires Fits(x, st) && q < x.hc.queues
  {
    Score(x, st.load[q], q)
  }

  /** An issue takes the bucket's bytes from one load to the other, for a gain above the threshold. */
  lemma IssueShifts(x: Context, st: State, b: nat)
    requires Fits(x, st) && b < |x.table| && !Consider(x, st, b).raised && Choice(x, st, b).Some?
    ensures var src, dst, w := x.table[b], Choice(x, st, b).value, x.bucketBytes[b];
      && src != dst && Gain(x, st, b, src, dst) > x.cfg.epsilon
      && Consider(x, st, b).load == st.load[src := st.load[src] - w][dst := st.load[dst] + w]
  {
    hide Weigh, Cost, Score, Choice, Penalty, Gain, IsPending;
  }

  /** One issued handoff lowers the larger of the two scores it touches by more than the threshold plus
      the penalty, and touches no other score. */
  lemma IssueLowersPeak(x: Context, st: State, b: nat)
    requires Fits(x, st) && b < |x.table| && !Consider(x, st, b).raised && Choice(x, st, b).Some?
    ensures var st' := Consider(x, st, b);
      var src, dst := x.table[b], Choice(x, st, b).value;
      && src != dst
      && Max(ScoreOf(x, st', src), ScoreOf(x, st', dst)) + x.cfg.epsilon + Penalty(x, st.m, dst)
         < Max(ScoreOf(x, st, src), ScoreOf(x, st, dst))
      && (forall q: nat :: q < x.hc.queues && q != src && q != dst ==> st'.load[q] == st.load[q])
      && Sum(st'.load) == Sum(st.load)
  {
    var src, d := x.table[b], Choice(x, st, b).value;
    var w := x.bucketBytes[b];
    IssueShifts(x, st, b);
    var load1 := st.load[src := st.load[src] - w];
    SumUpdate(st.load, src, st.load[src] - w);
    SumUpdate(load1, d, load1[d] + w);
    hide Consider, Score, Choice, Penalty, Sum;
  }

  ghost predicate ScoresBelow(x: Context, st: State, bound: real)
    requires Fits(x, st)
  {
    forall q: nat :: q < x.hc.queues ==> ScoreOf(x, st, q) <= bound
  }

  /** With non-negative threshold and penalties, no step ever raises the maximum score: every bound on
      all scores before is a bound after. The total load is conserved. */
  lemma {:induction false} StepNeverRaisesPeak(x: Context, st: State, order: seq<nat>, k: nat, bound: real)
    requires Fits(x, st) && Buckets(x, order) && k <= |order|
    requires x.cfg.epsilon >= 0.0 && x.cfg.lambda >= 0.0
    requires forall q: nat :: q < x.hc.queues ==> st.m.tHand[q] >= 0.0
    requires ScoresBelow(x, st, bound)
    ensures ScoresBelow(x, StepTo(x, st, order, k), bound)
    ensures Sum(StepTo(x, st, order, k).load) == Sum(st.load)
    ensures StepTo(x, st, order, k).m.tHand == st.m.tHand
  {
    if k > 0 {
      StepNeverRaisesPeak(x, st, order, k - 1, bound);
      var st1, b := StepTo(x, st, order, k - 1), order[k - 1];
      ConsiderNeverRaisesPeak(x, st1, b, bound);
    }
  }

  /** Whatever the parameters, a step moves load and neither makes nor loses any. */
  lemma {:induction false} StepKeepsTotal(x: Context, st: State, order: seq<nat>, k: nat)
    requires Fits(x, st) && Buckets(x, order) && k <= |order|
    ensures Sum(StepTo(x, st, order, k).load) == Sum(st.load)
  {
    if k > 0 {
      StepKeepsTotal(x, st, order, k - 1);
      ConsiderKeepsTotal(x, StepTo(x, st, order, k - 1), order[k - 1]);
      hide Consider, Sum;
    }
  }

  lemma ConsiderKeepsTotal(x: Context, st: State, b: nat)
    requires Fits(x, st) && b < |x.table|
    ensures Sum(Consider(x, st, b).load) == Sum(st.load)
  {
    var st' := Consider(x, st, b);
    if Choice(x, st, b).Some? && !st'.raised {
      IssueLowersPeak(x, st, b);
      hide Choice, Penalty, Sum, Consider;
    } else {
      hide Choice, Sum;
      assert st'.load == st.load;
    }
  }

  lemma ConsiderNeverRaisesPeak(x: Context, st: State, b: nat, bound: real)
    requires Fits(x, st) && b < |x.table|
    requires x.cfg.epsilon >= 0.0 && x.cfg.lambda >= 0.0
    requires forall q: nat :: q < x.hc.queues ==> st.m.tHand[q] >= 0.0
    requires ScoresBelow(x, st, bound)
    ensures var st' := Consider(x, st, b);
      ScoresBelow(x, st', bound) && Sum(st'.load) == Sum(st.load) && st'.m.tHand == st.m.tHand
  {
    var st' := Consider(x, st, b);
    var d := Choice(x, st, b);
    if d.Some? && !st'.raised {
      IssueLowersPeak(x, st, b);
      PenaltyNonNegative(x, st.m, d.value);
      hide Weigh, Cost, Score, Choice, Penalty, Sum;
      forall q: nat | q < x.hc.queues ensures ScoreOf(x, st', q) <= bound {
        assert ScoreOf(x, st, q) <= bound;
        assert ScoreOf(x, st, x.table[b]) <= bound && ScoreOf(x, st, d.value) <= bound;
      }
    } else {
      hide Weigh, Cost, Score, Choice, Penalty, Sum;
      assert st'.load == st.load;
      assert forall q: nat :: q < x.hc.queues ==> ScoreOf(x, st', q) == ScoreOf(x, st, q);
    }
  }

  lemma PenaltyNonNegative(x: Context, m: Manager, q: nat)
    requires x.Valid() && InDomain(m, x.hc.queues) && q < x.hc.queues
    requires x.cfg.lambda >= 0.0 && m.tHand[q] >= 0.0
    ensures Penalty(x, m, q) >= 0.0
  {
    var ratio := m.tHand[q] / x.cfg.epochNs;
    assert ratio >= 0.0;
    MulNonNegative(x.cfg.lambda, ratio);
  }

  // ---------- Exit optimality ----------

  /** Nothing more to gain for a bucket: its queue takes part in a handoff, or no admissible destination
      has a gain above the threshold. */
  ghost predicate Settled(x: Context, st: State, b: nat)
    requires Fits(x, st) && b < |x.table|
  {
    st.m.flag[x.table[b]] ||
    forall d: nat :: d < x.hc.queues && Admissible(x, st, x.table[b], d) ==>
      Gain(x, st, b, x.table[b], d) <= x.cfg.epsilon
  }

  /** A considered bucket is settled, unless the per-epoch cap stopped the step. */
  lemma ConsiderSettles(x: Context, st: State, b: nat)
    requires Fits(x, st) && b < |x.table| && !st.raised && !Consider(x, st, b).raised
    requires st.issued < x.cfg.maxPerEpoch
    ensures Settled(x, Consider(x, st, b), b)
  {
    var src := x.table[b];
    BestIsGreatest(x, st, b, src, x.hc.queues);
    hide Gain, Admissible;
  }

  /** A later issue for another bucket does not unsettle it: the only scores that change are those of
      queues that are no longer free. */
  lemma ConsiderKeepsSettled(x: Context, st: State, b: nat, other: nat)
    requires Fits(x, st) && b < |x.table| && other < |x.table| && Settled(x, st, other)
    ensures Settled(x, Consider(x, st, b), other)
  {
    var st' := Consider(x, st, b);
    var src := x.table[other];
    if !st'.m.flag[src] && Choice(x, st, b).Some? {
      var s, t := x.table[b], Choice(x, st, b).value;
      hide Weigh, Cost, Choice, Score, Penalty;
      forall d: nat | d < x.hc.queues && Admissible(x, st', src, d)
        ensures Gain(x, st', other, src, d) <= x.cfg.epsilon
      {
        assert Admissible(x, st, src, d);
        assert Penalty(x, st'.m, d) == Penalty(x, st.m, d) by { PenaltyDependsOnEstimate(x, st.m, st'.m, d); }
      }
    }
  }

  lemma PenaltyDependsOnEstimate(x: Context, m: Manager, m': Manager, d: nat)
    requires x.Valid() && InDomain(m, x.hc.queues) && InDomain(m', x.hc.queues) && d < x.hc.queues
    requires m.tHand == m'.tHand
    ensures Penalty(x, m, d) == Penalty(x, m', d)
  {
  }

  lemma StepLast(x: Context, st: State, order: seq<nat>, k: nat)
    requires Fits(x, st) && Buckets(x, order) && 0 < k <= |order|
    ensures order[k - 1] < |x.table|
    ensures StepTo(x, st, order, k) == Consider(x, StepTo(x, st, order, k - 1), order[k - 1])
    ensures StepTo(x, st, order, k).issued >= StepTo(x, st, order, k - 1).issued
  {
    hide Choice;
  }

  ghost predicate AllSettled(x: Context, st: State, order: seq<nat>, k: nat)
    requires Fits(x, st) && Buckets(x, order) && k <= |order|
  {
    forall i :: 0 <= i < k ==> Settled(x, st, order[i])
  }

  lemma NothingToSettle(x: Context, st: State, order: seq<nat>)
    requires Fits(x, st) && Buckets(x, order)
    ensures AllSettled(x, st, order, 0)
  {
  }

  lemma ConsiderKeepsAllSettled(x: Context, st: State, order: seq<nat>, k: nat)
    requires Fits(x, st) && Buckets(x, order) && 0 < k <= |order| && AllSettled(x, st, order, k - 1)
    requires !st.raised && !Consider(x, st, order[k - 1]).raised && st.issued < x.cfg.maxPerEpoch
    ensures AllSettled(x, Consider(x, st, order[k - 1]), order, k)
  {
    ConsiderSettles(x, st, order[k - 1]);
    hide Settled, Choice, Consider;
    forall i | 0 <= i < k - 1 ensures Settled(x, Consider(x, st, order[k - 1]), order[i]) {
      ConsiderKeepsSettled(x, st, order[k - 1], order[i]);
    }
  }

  /** At the end of a step either the per-epoch cap was reached, or no candidate has an admissible
      destination left whose gain exceeds the threshold. (A full manager admits no destination at all.) */
  lemma {:induction false} StepIsExhaustive(x: Context, st: State, order: seq<nat>, k: nat)
    requires Fits(x, st) && Buckets(x, order) && k <= |order|
    requires Inv(x.hc, st.m, x.table) && !st.raised
    ensures StepTo(x, st, order, k).issued >= x.cfg.maxPerEpoch || AllSettled(x, StepTo(x, st, order, k), order, k)
  {
    hide *;
    if k == 0 {
      NothingToSettle(x, StepTo(x, st, order, 0), order);
    } else {
      StepLast(x, st, order, k);
      StepIsExhaustive(x, st, order, k - 1);
      StepKeepsInv(x, st, order, k - 1);
      StepKeepsInv(x, st, order, k);
      var st1 := StepTo(x, st, order, k - 1);
      if st1.issued < x.cfg.maxPerEpoch {
        ConsiderKeepsAllSettled(x, st1, order, k);
      }
    }
  }

  /** One candidate: at most one more issue, its record at the end. */
  lemma ConsiderIssuesOne(x: Context, st: State, b: nat)
    requires Fits(x, st) && b < |x.table|
    ensures var st' := Consider(x, st, b);
      && st'.issued <= MaxInt(st.issued, x.cfg.maxPerEpoch)
      && |st'.m.pending| - |st.m.pending| == st'.issued - st.issued
      && st.m.pending <= st'.m.pending
  {
    hide Gain, Admissible, Best;
  }

  /** A step adds one pending record per issue and never more than the per-epoch cap. */
  lemma {:induction false} StepIssuesWithinCap(x: Context, st: State, order: seq<nat>, k: nat)
    requires Fits(x, st) && Buckets(x, order) && k <= |order| && st.issued == 0
    ensures var st' := StepTo(x, st, order, k);
      && st'.issued <= MaxInt(0, x.cfg.maxPerEpoch)
      && |st'.m.pending| == |st.m.pending| + st'.issued
      && st.m.pending <= st'.m.pending
  {
    if k > 0 {
      StepIssuesWithinCap(x, st, order, k - 1);
      ConsiderIssuesOne(x, StepTo(x, st, order, k - 1), order[k - 1]);
      hide Consider;
    }
  }

  // ---------- What the gains mean, in numbers ----------

  /** A change of the load moves the score by its share of the total, weighed. */
  lemma ScoreMoves(x: Context, load: real, w: real, q: nat)
    requires x.Valid() && q < x.hc.queues
    ensures var delta := x.cfg.eta2 * (w / (x.sigma + 0.000000001));
      Score(x, load + w, q) == Score(x, load, q) + delta && Score(x, load - w, q) == Score(x, load, q) - delta
  {
    var s := x.sigma + 0.000000001;
    assert (load + w) / s == load / s + w / s && (load - w) / s == load / s - w / s;
  }

  /** The bucket's share of the total load, weighed, exceeds the threshold plus the weighed handoff time. */
  ghost predicate Outweighs(x: Context, tHand: seq<real>, b: nat, dst: nat)
    requires x.Valid() && |tHand| == x.hc.queues && b < |x.table| && dst < x.hc.queues
  {
    x.cfg.eta2 * (x.bucketBytes[b] / (x.sigma + 0.000000001))
    > x.cfg.epsilon + x.cfg.lambda * (tHand[dst] / x.cfg.epochNs)
  }

  /** A handoff is issued only where the share of the total load that it moves, weighed, is worth more than the
      threshold and the expected handoff time together: however hot its queue, a bucket of few bytes stays. */
  lemma ChoicePays(x: Context, st: State, b: nat)
    requires Fits(x, st) && b < |x.table| && Choice(x, st, b).Some?
    requires x.cfg.eta2 >= 0.0 && x.bucketBytes[b] >= 0.0
    ensures Choice(x, st, b).value < x.hc.queues && Outweighs(x, st.m.tHand, b, Choice(x, st, b).value)
  {
    var src, dst, w := x.table[b], Choice(x, st, b).value, x.bucketBytes[b];
    ScoreMoves(x, st.load[src], w, src);
    ScoreMoves(x, st.load[dst], w, dst);
    var share := w / (x.sigma + 0.000000001);
    MulNonNegative(x.cfg.eta2, share);
    hide Score, Choice;
  }

  /** No admissible destination before the chosen one has the same gain: the first of the greatest is kept. */
  lemma {:induction false} BestIsFirst(x: Context, st: State, b: nat, src: nat, n: nat)
    requires Fits(x, st) && b < |x.table| && src < x.hc.queues && n <= x.hc.queues && Best(x, st, b, src, n).Some?
    ensures var best := Best(x, st, b, src, n).value;
      forall d: nat :: d < best && Admissible(x, st, src, d) ==> Gain(x, st, b, src, d) < Gain(x, st, b, src, best)
  {
    hide Gain, Admissible;
    if n > 0 {
      BestIsGreatest(x, st, b, src, n - 1);
      if Best(x, st, b, src, n - 1).Some? {
        BestIsFirst(x, st, b, src, n - 1);
      }
    }
  }

  /** Moving a bucket to queue d, in numbers: the larger of the two scores falls by no more than the threshold
      plus the weighed handoff time. */
  ghost predicate GainsLittle(x: Context, st: State, b: nat, d: nat)
    requires Fits(x, st) && b < |x.table| && d < x.hc.queues
  {
    var src, all := x.table[b], x.sigma + 0.000000001;
    var moved := Portion(x.cfg.eta2, Ratio(x.bucketBytes[b], all));
    var here := Portion(x.cfg.eta1, x.pressure[src]) + Portion(x.cfg.eta2, Ratio(st.load[src], all));
    var there := Portion(x.cfg.eta1, x.pressure[d]) + Portion(x.cfg.eta2, Ratio(st.load[d], all));
    Max(here, there) - Max(here - moved, there + moved)
    <= x.cfg.epsilon + Portion(x.cfg.lambda, Ratio(st.m.tHand[d], x.cfg.epochNs))
  }

  ghost predicate IsFreeColdQueue(x: Context, st: State, d: nat)
    requires Fits(x, st) && d < x.hc.queues
  {
    x.pressure[d] < x.cfg.tauCold && !st.m.flag[d] && st.m.ready[d]
  }

  /** A candidate with nothing more to gain: its queue takes part in a handoff, or the manager is full, or no
      other queue that is cold and free gains it more than that. */
  ghost predicate NothingToGain(x: Context, st: State, b: nat)
    requires Fits(x, st) && b < |x.table|
  {
    st.m.flag[x.table[b]] || |st.m.pending| >= x.hc.maxConcurrent ||
    forall d: nat :: d < x.hc.queues && IsFreeColdQueue(x, st, d) && d != x.table[b] ==> GainsLittle(x, st, b, d)
  }

  lemma SettledGainsNothing(x: Context, st: State, b: nat)
    requires Fits(x, st) && b < |x.table| && Settled(x, st, b)
    ensures NothingToGain(x, st, b)
  {
    var src := x.table[b];
    if !st.m.flag[src] && |st.m.pending| < x.hc.maxConcurrent {
      hide Gain, Settled;
      forall d: nat | d < x.hc.queues && IsFreeColdQueue(x, st, d) && d != src ensures GainsLittle(x, st, b, d)
      {
        assert Gain(x, st, b, src, d) <= x.cfg.epsilon by { SettledAt(x, st, b, d); }
        LittleInNumbers(x, st, b, d);
      }
    }
  }

  lemma SettledAt(x: Context, st: State, b: nat, d: nat)
    requires Fits(x, st) && b < |x.table| && Settled(x, st, b) && d < x.hc.queues
    requires !st.m.flag[x.table[b]] && Admissible(x, st, x.table[b], d)
    ensures Gain(x, st, b, x.table[b], d) <= x.cfg.epsilon
  {
    hide Gain, Admissible;
  }

  lemma LittleInNumbers(x: Context, st: State, b: nat, d: nat)
    requires Fits(x, st) && b < |x.table| && d < x.hc.queues
    ensures GainsLittle(x, st, b, d) <==> Gain(x, st, b, x.table[b], d) <= x.cfg.epsilon
  {
    var src, w := x.table[b], x.bucketBytes[b];
    ScoreInNumbers(x, st.load[src], w, src);
    ScoreInNumbers(x, st.load[d], w, d);
    CostInNumbers(x, st, d);
    hide Score, Penalty, Portion, Ratio;
  }

  lemma ScoreInNumbers(x: Context, load: real, w: real, q: nat)
    requires x.Valid() && q < x.hc.queues
    ensures var all := x.sigma + 0.000000001;
      var here := Portion(x.cfg.eta1, x.pressure[q]) + Portion(x.cfg.eta2, Ratio(load, all));
      var moved := Portion(x.cfg.eta2, Ratio(w, all));
      Score(x, load, q) == here && Score(x, load + w, q) == here + moved && Score(x, load - w, q) == here - moved
  {
    ScoreMoves(x, load, w, q);
  }

  lemma CostInNumbers(x: Context, st: State, d: nat)
    requires Fits(x, st) && d < x.hc.queues
    ensures Penalty(x, st.m, d) == Portion(x.cfg.lambda, Ratio(st.m.tHand[d], x.cfg.epochNs))
  {
  }

  /** A handoff is issued only where it gains more than that. */
  lemma ChoiceGainsMuch(x: Context, st: State, b: nat)
    requires Fits(x, st) && b < |x.table| && Choice(x, st, b).Some?
    ensures var dst := Choice(x, st, b).value;
      dst < x.hc.queues && dst != x.table[b] && IsFreeColdQueue(x, st, dst) && !GainsLittle(x, st, b, dst)
  {
    hide Gain, GainsLittle;
    LittleInNumbers(x, st, b, Choice(x, st, b).value);
  }

  /** The end of a step in numbers: the cap is reached, or no candidate has anything to gain. */
  lemma StepLeavesNothingToGain(x: Context, st: State, order: seq<nat>)
    requires Fits(x, st) && Buckets(x, order) && Inv(x.hc, st.m, x.table) && !st.raised
    ensures var st' := StepTo(x, st, order, |order|);
      st'.issued >= x.cfg.maxPerEpoch || forall i :: 0 <= i < |order| ==> NothingToGain(x, st', order[i])
  {
    StepIsExhaustive(x, st, order, |order|);
    var st' := StepTo(x, st, order, |order|);
    hide Settled, NothingToGain, StepTo, Inv;
    if st'.issued < x.cfg.maxPerEpoch {
      forall i | 0 <= i < |order| ensures NothingToGain(x, st', order[i]) {
        SettledGainsNothing(x, st', order[i]);
      }
    }
  }

  // ---------- All scores together ----------

  /** The scores of the first n queues. */
  function Scores(x: Context, load: seq<real>, n: nat): seq<real>
    requires x.Valid() && |load| == x.hc.queues && n <= x.hc.queues
  {
    if n == 0 then [] else Scores(x, load, n - 1) + [Score(x, load[n - 1], n - 1)]
  }

  lemma SumSnoc(s: seq<real>, v: real)
    ensures Sum(s + [v]) == Sum(s) + v
  {
    assert (s + [v])[..|s|] == s;
  }

  lemma WeighAdds(c: Config, p: real, q: real, l: real, m: real, sigma: real)
    requires sigma >= 0.0
    ensures Weigh(c, p + q, l + m, sigma) == Weigh(c, p, l, sigma) + Weigh(c, q, m, sigma)
    ensures Weigh(c, 0.0, 0.0, sigma) == 0.0
  {
    var all := sigma + 0.000000001;
    assert (l + m) / all == l / all + m / all;
    AddWeighed(c.eta1, p, q);
    AddWeighed(c.eta2, l / all, m / all);
  }

  lemma AddWeighed(w: real, a: real, b: real)
    ensures w * (a + b) == w * a + w * b
  {
  }

  /** One more queue. */
  lemma ScoresSnoc(x: Context, load: seq<real>, n: nat)
    requires x.Valid() && |load| == x.hc.queues && 0 < n <= x.hc.queues
    ensures Sum(Scores(x, load, n))
         == Sum(Scores(x, load, n - 1)) + Weigh(x.cfg, x.pressure[n - 1], load[n - 1], x.sigma)
    ensures Sum(x.pressure[..n]) == Sum(x.pressure[..n - 1]) + x.pressure[n - 1]
    ensures Sum(load[..n]) == Sum(load[..n - 1]) + load[n - 1]
  {
    hide Weigh, Sum;
    SumSnoc(Scores(x, load, n - 1), Score(x, load[n - 1], n - 1));
    assert x.pressure[..n] == x.pressure[..n - 1] + [x.pressure[n - 1]] && load[..n] == load[..n - 1] + [load[n - 1]];
    SumSnoc(x.pressure[..n - 1], x.pressure[n - 1]);
    SumSnoc(load[..n - 1], load[n - 1]);
  }

  lemma NoScores(x: Context, load: seq<real>)
    requires x.Valid() && |load| == x.hc.queues
    ensures Sum(Scores(x, load, 0)) == Sum(x.pressure[..0]) == Sum(load[..0]) == 0.0
  {
  }

  lemma {:induction false} ScoresTo(x: Context, load: seq<real>, n: nat)
    requires x.Valid() && |load| == x.hc.queues && n <= x.hc.queues
    ensures Sum(Scores(x, load, n)) == Weigh(x.cfg, Sum(x.pressure[..n]), Sum(load[..n]), x.sigma)
  {
    hide Weigh, Scores, Sum;
    if n == 0 {
      NoScores(x, load);
      WeighAdds(x.cfg, 0.0, 0.0, 0.0, 0.0, x.sigma);
    } else {
      ScoresTo(x, load, n - 1);
      ScoresSnoc(x, load, n);
      WeighAdds(x.cfg, Sum(x.pressure[..n - 1]), x.pressure[n - 1], Sum(load[..n - 1]), load[n - 1], x.sigma);
    }
  }

  /** At every point of a step the scores of all queues add up to the same: the pressures, weighed by eta1, and
      the share of the loads in the total, weighed by eta2. A handoff moves score from one queue to another. */
  lemma ScoresAddUp(x: Context, st: State, order: seq<nat>, k: nat)
    requires Fits(x, st) && Buckets(x, order) && k <= |order|
    ensures Sum(Scores(x, StepTo(x, st, order, k).load, x.hc.queues))
         == x.cfg.eta1 * Sum(x.pressure) + x.cfg.eta2 * (Sum(st.load) / (x.sigma + 0.000000001))
  {
    hide StepTo, Scores, Sum, Buckets;
    StepKeepsTotal(x, st, order, k);
    var load := StepTo(x, st, order, k).load;
    ScoresTo(x, load, x.hc.queues);
    assert x.pressure[..x.hc.queues] == x.pressure && load[..x.hc.queues] == load;
  }

  // ---------- The records a step issues ----------

  /** The places in the order at which a step issued a handoff. */
  function IssuedAt(x: Context, st: State, order: seq<nat>, k: nat): (idx: seq<nat>)
    requires Fits(x, st) && Buckets(x, order) && k <= |order|
    ensures forall i :: 0 <= i < |idx| ==> idx[i] < k
  {
    if k == 0 then []
    else
      var before := StepTo(x, st, order, k - 1);
      IssuedAt(x, st, order, k - 1) + if Consider(x, before, order[k - 1]).issued > before.issued then [k - 1] else []
  }

  /** A record for a bucket that pays: it takes the bucket from its queue to another, cold one, starts in this
      epoch with its whole latency to go and nothing in its buffer, and is worth the move. */
  ghost predicate Pays(x: Context, tHand: seq<real>, b: nat, h: Handoff)
    requires x.Valid() && |tHand| == x.hc.queues && b < |x.table|
  {
    && h.bucket == b && h.src == x.table[b] && h.dst < x.hc.queues && h.dst != h.src
    && x.pressure[h.dst] < x.cfg.tauCold && h.startEpoch == x.epoch && h.remaining == h.latency && !h.completed
    && Phased(h)
    && h.bufferedBytes == h.bufferedPkts == h.overflowBytes == h.overflowPkts == 0
    && (x.cfg.eta2 >= 0.0 && x.bucketBytes[b] >= 0.0 ==> Outweighs(x, tHand, b, h.dst))
  }

  lemma ConsiderRecords(x: Context, st: State, b: nat)
    requires Fits(x, st) && b < |x.table|
    ensures var st' := Consider(x, st, b);
      && st'.m.tHand == st.m.tHand && st'.issued >= st.issued
      && if st'.issued > st.issued then
           && |st'.m.pending| == |st.m.pending| + 1 && st'.m.pending[..|st.m.pending|] == st.m.pending
           && Pays(x, st.m.tHand, b, st'.m.pending[|st.m.pending|])
         else st'.m.pending == st.m.pending
  {
    if Choice(x, st, b).Some? {
      if x.cfg.eta2 >= 0.0 && x.bucketBytes[b] >= 0.0 {
        ChoicePays(x, st, b);
      }
      hide Choice, Outweighs, IsPending;
    }
  }

  lemma StepStart(x: Context, st: State, order: seq<nat>)
    requires Fits(x, st) && Buckets(x, order)
    ensures StepTo(x, st, order, 0) == st && IssuedAt(x, st, order, 0) == []
  {
  }

  /** The records of the handoffs issued at these places, in this order, after those already pending. */
  ghost predicate Records(x: Context, st: State, order: seq<nat>, idx: seq<nat>, st': State)
    requires Fits(x, st) && Buckets(x, order) && forall i :: 0 <= i < |idx| ==> idx[i] < |order|
  {
    && st'.m.tHand == st.m.tHand
    && |st'.m.pending| == |st.m.pending| + |idx| && st'.m.pending[..|st.m.pending|] == st.m.pending
    && (forall i :: 0 <= i < |idx| ==> Pays(x, st.m.tHand, order[idx[i]], st'.m.pending[|st.m.pending| + i]))
    && (forall i, j :: 0 <= i < j < |idx| ==> idx[i] < idx[j])
  }

  /** One more candidate. */
  lemma RecordsNext(x: Context, st: State, order: seq<nat>, k: nat)
    requires Fits(x, st) && Buckets(x, order) && 0 < k <= |order|
    requires Records(x, st, order, IssuedAt(x, st, order, k - 1), StepTo(x, st, order, k - 1))
    ensures Records(x, st, order, IssuedAt(x, st, order, k), StepTo(x, st, order, k))
  {
    hide *;
    var before, after := StepTo(x, st, order, k - 1), StepTo(x, st, order, k);
    StepLast(x, st, order, k);
    ConsiderRecords(x, before, order[k - 1]);
    IssuedAtLast(x, st, order, k);
    if after.issued > before.issued {
      RecordsSnoc(x, st, order, IssuedAt(x, st, order, k - 1), before, after, k);
    } else {
      RecordsSame(x, st, order, IssuedAt(x, st, order, k - 1), before, after);
    }
  }

  lemma IssuedAtLast(x: Context, st: State, order: seq<nat>, k: nat)
    requires Fits(x, st) && Buckets(x, order) && 0 < k <= |order|
    ensures var idx := IssuedAt(x, st, order, k - 1);
      && IssuedAt(x, st, order, k)
         == (if StepTo(x, st, order, k).issued > StepTo(x, st, order, k - 1).issued then idx + [k - 1] else idx)
      && forall i :: 0 <= i < |idx| ==> idx[i] < k - 1
  {
    hide Consider;
    var idx := IssuedAt(x, st, order, k - 1);
    assert idx + [] == idx;
  }

  lemma RecordsSame(x: Context, st: State, order: seq<nat>, idx: seq<nat>, before: State, after: State)
    requires Fits(x, st) && Buckets(x, order) && forall i :: 0 <= i < |idx| ==> idx[i] < |order|
    requires Records(x, st, order, idx, before)
    requires after.m.tHand == before.m.tHand && after.m.pending == before.m.pending
    ensures Records(x, st, order, idx, after)
  {
    hide Pays, Buckets;
  }

  lemma RecordsSnoc(x: Context, st: State, order: seq<nat>, idx: seq<nat>, before: State, after: State, k: nat)
    requires Fits(x, st) && Buckets(x, order) && 0 < k <= |order|
    requires forall i :: 0 <= i < |idx| ==> idx[i] < k - 1
    requires Records(x, st, order, idx, before) && order[k - 1] < |x.table|
    requires after.m.tHand == before.m.tHand && |after.m.pending| == |before.m.pending| + 1
    requires after.m.pending[..|before.m.pending|] == before.m.pending
    requires Pays(x, before.m.tHand, order[k - 1], after.m.pending[|before.m.pending|])
    ensures Records(x, st, order, idx + [k - 1], after)
  {
    hide Pays, Buckets;
    var n, idx' := |st.m.pending|, idx + [k - 1];
    forall i | 0 <= i < |before.m.pending| ensures after.m.pending[i] == before.m.pending[i] {
      assert after.m.pending[..|before.m.pending|][i] == after.m.pending[i];
    }
    forall i | 0 <= i < |idx'| ensures order[idx'[i]] < |x.table| {
      BucketAt(x, order, idx'[i]);
    }
    assert after.m.pending[..n] == before.m.pending[..n];
  }

  lemma BucketAt(x: Context, order: seq<nat>, i: nat)
    requires Buckets(x, order) && i < |order|
    ensures order[i] < |x.table|
  {
  }

  /** What a step issues: one record for each place of the order at which it issued, in this order, and each of
      them pays. */
  lemma {:induction false} StepRecords(x: Context, st: State, order: seq<nat>, k: nat)
    requires Fits(x, st) && Buckets(x, order) && k <= |order|
    ensures Records(x, st, order, IssuedAt(x, st, order, k), StepTo(x, st, order, k))
  {
    hide *;
    if k == 0 {
      StepStart(x, st, order);
      NoRecords(x, st, order);
    } else {
      StepRecords(x, st, order, k - 1);
      RecordsNext(x, st, order, k);
    }
  }

  lemma NoRecords(x: Context, st: State, order: seq<nat>)
    requires Fits(x, st) && Buckets(x, order)
    ensures Records(x, st, order, [], st)
  {
    hide Pays;
  }
}

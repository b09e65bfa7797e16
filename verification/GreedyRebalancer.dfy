/** The greedy rebalancer (Algorithm 2) as a transition system; the loop itself is in GreedyScheduler.dfy. */
module GreedyRebalancer {
  import opened Common

  // ---------- The hotness signal ----------

  datatype Signal = PressureOnly | PredictedOnly | Blended

  function Clip(x: real): real {
    Max(0.0, Min(1.0, x))
  }

  /** A missing prediction falls back to the pressure. */
  function ComputeSignal(signal: Signal, pressure: seq<real>, risk: seq<real>, alpha: real): (h: seq<real>)
    requires risk != [] ==> |risk| == |pressure|
    ensures |h| == |pressure|
  {
    if signal.PressureOnly? || risk == [] then pressure
    else if signal.PredictedOnly? then seq(|risk|, i requires 0 <= i < |risk| => Clip(risk[i]))
    else seq(|pressure|, i requires 0 <= i < |pressure| && |risk| == |pressure| =>
               alpha * pressure[i] + (1.0 - alpha) * risk[i])
  }

  ghost predicate UnitRange(s: seq<real>) {
    forall i :: 0 <= i < |s| ==> 0.0 <= s[i] <= 1.0
  }

  /** The predicted signal is always in [0, 1]; the other two are whenever their inputs are. */
  lemma SignalInUnitRange(signal: Signal, pressure: seq<real>, risk: seq<real>, alpha: real)
    requires risk != [] ==> |risk| == |pressure|
    requires UnitRange(pressure) && 0.0 <= alpha <= 1.0
    requires signal.PredictedOnly? || UnitRange(risk)
    ensures UnitRange(ComputeSignal(signal, pressure, risk, alpha))
  {
    if signal.Blended? && risk != [] {
      forall i | 0 <= i < |pressure| ensures 0.0 <= alpha * pressure[i] + (1.0 - alpha) * risk[i] <= 1.0 {
        MulNonNegative(alpha, pressure[i]);
        MulNonNegative(1.0 - alpha, risk[i]);
        MulNonNegative(alpha, 1.0 - pressure[i]);
        MulNonNegative(1.0 - alpha, 1.0 - risk[i]);
      }
    }
  }

  /** What the signal is made of, queue by queue: the pressure itself; or the risk, kept where it lies in [0, 1] and
      drawn to the nearer end elsewhere; or the blend, which lies alpha of the way from the risk to the pressure. */
  lemma SignalFollowsInputs(signal: Signal, pressure: seq<real>, risk: seq<real>, alpha: real, i: nat)
    requires (risk != [] ==> |risk| == |pressure|) && i < |pressure|
    ensures var h := ComputeSignal(signal, pressure, risk, alpha)[i];
      if risk == [] || signal.PressureOnly? then h == pressure[i]
      else if signal.Blended? then h - risk[i] == alpha * (pressure[i] - risk[i])
      else if risk[i] < 0.0 then h == 0.0
      else if risk[i] > 1.0 then h == 1.0
      else h == risk[i]
  {
    if signal.Blended? && risk != [] {
      var p, r := pressure[i], risk[i];
      assert alpha * (p - r) == alpha * p - alpha * r && (1.0 - alpha) * r == r - alpha * r;
    }
  }

  // ---------- States ----------

  /** Fixed during a step: thresholds, move cap, bucket bytes, the mean load and the fit limit. */
  datatype Context = Context(
    queues: nat, tauHot: real, tauCold: real, maxMoves: int,
    weight: seq<real>, mean: real, limit: real)

  datatype State = State(table: seq<nat>, load: seq<real>, heat: seq<real>, hot: set<nat>, cold: set<nat>, moves: int)

  ghost predicate Fits(x: Context, g: State) {
    && x.mean >= 0.0 && |g.load| == |g.heat| == x.queues && |g.table| == |x.weight|
    && (forall b :: 0 <= b < |g.table| ==> g.table[b] < x.queues)
    && (forall q :: q in g.hot ==> q < x.queues) && (forall q :: q in g.cold ==> q < x.queues)
  }

  function HotSet(x: Context, heat: seq<real>): set<nat> {
    set q: nat | q < |heat| && heat[q] > x.tauHot
  }

  function ColdSet(x: Context, heat: seq<real>): set<nat> {
    set q: nat | q < |heat| && heat[q] < x.tauCold
  }

  function Start(x: Context, table: seq<nat>, load: seq<real>, heat: seq<real>): State {
    State(table, load, heat, HotSet(x, heat), ColdSet(x, heat), 0)
  }

  predicate Done(x: Context, g: State) {
    g.hot == {} || g.cold == {} || g.moves >= x.maxMoves
  }

  /** The first queue of greatest (least) heat in a set. */
  ghost predicate IsHottest(g: State, s: nat) {
    && s in g.hot && s < |g.heat|
    && forall q :: q in g.hot && q < |g.heat| ==> g.heat[q] < g.heat[s] || (g.heat[q] == g.heat[s] && s <= q)
  }

  ghost predicate IsColdest(g: State, s: nat) {
    && s in g.cold && s < |g.heat|
    && forall q :: q in g.cold && q < |g.heat| ==> g.heat[q] > g.heat[s] || (g.heat[q] == g.heat[s] && s <= q)
  }

  ghost predicate Owns(table: seq<nat>, q: nat) {
    exists b :: 0 <= b < |table| && table[b] == q
  }

  predicate FitsInto(x: Context, g: State, b: nat, dst: nat)
    requires b < |x.weight| && dst < |g.load|
  {
    g.load[dst] + x.weight[b] <= x.limit
  }

  // ---------- Transitions ----------

  function Cooled(x: Context, heat: seq<real>, b: nat, src: nat, dst: nat): (h: seq<real>)
    requires x.mean >= 0.0 && b < |x.weight| && src < |heat| && dst < |heat|
    ensures |h| == |heat|
  {
    var shift := 0.5 * x.weight[b] / (x.mean + 0.000000001);
    var h1 := heat[src := Max(0.0, heat[src] - shift)];
    h1[dst := Min(1.0, h1[dst] + shift)]
  }

  /** Both new loads are computed before either is stored. */
  function Shifted(load: seq<real>, w: real, src: nat, dst: nat): (l: seq<real>)
    requires src < |load| && dst < |load|
    ensures |l| == |load|
  {
    load[src := load[src] - w][dst := load[dst] + w]
  }

  function Move(x: Context, g: State, b: nat, src: nat, dst: nat): State
    requires Fits(x, g) && b < |x.weight| && src < x.queues && dst < x.queues
  {
    var heat := Cooled(x, g.heat, b, src, dst);
    State(g.table[b := dst], Shifted(g.load, x.weight[b], src, dst), heat, HotSet(x, heat), ColdSet(x, heat),
          g.moves + 1)
  }

  /** The heaviest bucket of src that fits into dst. */
  ghost predicate IsHeaviestFit(x: Context, g: State, b: nat, src: nat, dst: nat)
    requires Fits(x, g) && dst < x.queues
  {
    && b < |g.table| && g.table[b] == src && FitsInto(x, g, b, dst)
    && forall c: nat :: c < |g.table| && g.table[c] == src && FitsInto(x, g, c, dst) ==> x.weight[c] <= x.weight[b]
  }

  ghost predicate NothingFits(x: Context, g: State, src: nat, dst: nat)
    requires Fits(x, g) && dst < x.queues
  {
    forall b: nat :: b < |g.table| && g.table[b] == src ==> !FitsInto(x, g, b, dst)
  }

  datatype Turn = DropHot | DropCold | MoveBucket(b: nat)

  /** The turn the loop takes from g with its hottest source and coldest destination. */
  ghost predicate Legal(x: Context, g: State, src: nat, dst: nat, turn: Turn)
    requires Fits(x, g)
  {
    && !Done(x, g) && IsHottest(g, src) && IsColdest(g, dst) && src < x.queues && dst < x.queues
    && match turn
       case DropHot => !Owns(g.table, src)
       case DropCold => Owns(g.table, src) && NothingFits(x, g, src, dst)
       case MoveBucket(b) => IsHeaviestFit(x, g, b, src, dst)
  }

  function Apply(x: Context, g: State, src: nat, dst: nat, turn: Turn): State
    requires Fits(x, g) && src < x.queues && dst < x.queues && (turn.MoveBucket? ==> turn.b < |x.weight|)
  {
    match turn
    case DropHot => g.(hot := g.hot - {src})
    case DropCold => g.(cold := g.cold - {dst}, hot := HotSet(x, g.heat))
    case MoveBucket(b) => Move(x, g, b, src, dst)
  }

  ghost predicate IsTurn(x: Context, g: State, g': State) {
    Fits(x, g) && exists src: nat, dst: nat, turn: Turn ::
        Legal(x, g, src, dst, turn) && g' == Apply(x, g, src, dst, turn)
  }

  /** A run of the loop from its first state. */
  ghost predicate IsTrace(x: Context, trace: seq<State>) {
    && trace != [] && Fits(x, trace[0])
    && trace[0] == Start(x, trace[0].table, trace[0].load, trace[0].heat)
    && forall i :: 0 <= i < |trace| - 1 ==> IsTurn(x, trace[i], trace[i + 1])
  }

  lemma TurnKeepsFits(x: Context, g: State, g': State)
    requires IsTurn(x, g, g')
    ensures Fits(x, g')
  {
  }

  // ---------- Termination ----------

  /** The loop's measure: although the hot set is recomputed and the cold set reset, every turn uses
      up a move, or shrinks the cold set, or shrinks the hot set with the cold set unchanged. */
  lemma TurnDecreases(x: Context, g: State, g': State)
    requires IsTurn(x, g, g')
    ensures g.moves < x.maxMoves
    ensures g'.moves == g.moves + 1
      || (g'.moves == g.moves && g'.cold < g.cold)
      || (g'.moves == g.moves && g'.cold == g.cold && g'.hot < g.hot)
  {
    var src: nat, dst: nat, turn: Turn :| Legal(x, g, src, dst, turn) && g' == Apply(x, g, src, dst, turn);
    hide Cooled, Shifted, HotSet, ColdSet;
    assert src in g.hot && dst in g.cold;
  }

  /** After a move both sets hold every queue beyond its threshold again, after a cold queue is dropped the hot set
      does, and a turn that drops a hot queue drops no other. */
  lemma TurnResetsSets(x: Context, g: State, g': State)
    requires IsTurn(x, g, g')
    ensures g'.moves != g.moves ==> forall q: nat :: q in g'.cold <==> q < x.queues && g'.heat[q] < x.tauCold
    ensures g'.moves != g.moves || g'.cold != g.cold ==>
      forall q: nat :: q in g'.hot <==> q < x.queues && g'.heat[q] > x.tauHot
    ensures g'.moves == g.moves && g'.cold == g.cold ==> exists q :: q in g.hot && g'.hot == g.hot - {q}
  {
    var src: nat, dst: nat, turn: Turn :| Legal(x, g, src, dst, turn) && g' == Apply(x, g, src, dst, turn);
    hide Cooled, Shifted;
    assert src in g.hot && dst in g.cold;
  }

  // ---------- Loads ----------

  ghost predicate LoadsAgree(x: Context, g: State)
    requires Fits(x, g)
  {
    forall q: nat :: q < x.queues ==> g.load[q] == TableLoad(g.table, x.weight, q)
  }

  /** A move keeps the incremental loads equal to the fold over the new table exactly when it goes to
      another queue (or the bucket carries no bytes). */
  lemma MoveKeepsLoadsIff(x: Context, g: State, b: nat, src: nat, dst: nat)
    requires Fits(x, g) && LoadsAgree(x, g) && b < |g.table| && g.table[b] == src && dst < x.queues
    ensures Fits(x, Move(x, g, b, src, dst))
    ensures LoadsAgree(x, Move(x, g, b, src, dst)) <==> src != dst || x.weight[b] == 0.0
  {
    var g' := Move(x, g, b, src, dst);
    forall q: nat | q < x.queues
      ensures TableLoad(g'.table, x.weight, q)
           == g.load[q] - (if src == q then x.weight[b] else 0.0) + (if dst == q then x.weight[b] else 0.0)
    {
      TableLoadUpdate(g.table, x.weight, b, dst, q);
    }
    hide Cooled, HotSet, ColdSet, TableLoad;
    if src == dst {
      assert g'.load[dst] == g.load[dst] + x.weight[b];
    }
  }

  /** With the cold threshold not above the hot one a queue is never both, so no move is to itself. */
  ghost predicate Separated(x: Context, g: State) {
    x.tauCold <= x.tauHot
    && (forall q :: q in g.hot ==> q < |g.heat| && g.heat[q] > x.tauHot)
    && (forall q :: q in g.cold ==> q < |g.heat| && g.heat[q] < x.tauCold)
  }

  lemma TurnKeepsSeparated(x: Context, g: State, g': State)
    requires IsTurn(x, g, g') && Separated(x, g)
    ensures Separated(x, g')
  {
    hide Cooled, Shifted;
  }

  ghost predicate ShiftedBy(load: seq<real>, l: seq<real>, w: real, src: nat, dst: nat) {
    && |l| == |load| && src != dst
    && forall q: nat :: q < |l| ==> l[q] == load[q] + (if q == dst then w else 0.0) - (if q == src then w else 0.0)
  }

  lemma {:induction false} ShiftChangesTotal(load: seq<real>, l: seq<real>, w: real, src: nat, dst: nat)
    requires ShiftedBy(load, l, w, src, dst)
    ensures Sum(l) == Sum(load) + (if dst < |l| then w else 0.0) - (if src < |l| then w else 0.0)
  {
    if l != [] {
      var n := |l| - 1;
      ShiftChangesTotal(load[..n], l[..n], w, src, dst);
    }
  }

  /** Moving a weight between two queues does not change the total. */
  lemma ShiftKeepsTotal(load: seq<real>, w: real, src: nat, dst: nat)
    requires src < |load| && dst < |load| && src != dst
    ensures Sum(Shifted(load, w, src, dst)) == Sum(load)
  {
    ShiftChangesTotal(load, Shifted(load, w, src, dst), w, src, dst);
  }

  lemma MoveKeepsLoads(x: Context, g: State, b: nat, src: nat, dst: nat)
    requires Fits(x, g) && Separated(x, g) && LoadsAgree(x, g) && Legal(x, g, src, dst, MoveBucket(b))
    ensures Fits(x, Move(x, g, b, src, dst)) && LoadsAgree(x, Move(x, g, b, src, dst))
    ensures Sum(Move(x, g, b, src, dst).load) == Sum(g.load)
  {
    assert src in g.hot && dst in g.cold;
    MoveKeepsLoadsIff(x, g, b, src, dst);
    ShiftKeepsTotal(g.load, x.weight[b], src, dst);
    hide Cooled, Shifted, TableLoad, Sum, HotSet, ColdSet, LoadsAgree;
  }

  lemma TurnKeepsLoads(x: Context, g: State, g': State)
    requires IsTurn(x, g, g') && Fits(x, g') && Separated(x, g) && LoadsAgree(x, g)
    ensures Separated(x, g') && LoadsAgree(x, g') && Sum(g'.load) == Sum(g.load)
  {
    TurnKeepsSeparated(x, g, g');
    var src: nat, dst: nat, turn: Turn :| Legal(x, g, src, dst, turn) && g' == Apply(x, g, src, dst, turn);
    hide Cooled, Shifted, TableLoad, Sum, HotSet, ColdSet, Move, Separated;
    if turn.MoveBucket? {
      MoveKeepsLoads(x, g, turn.b, src, dst);
    }
  }

  /** Over a whole run with separated thresholds, the incremental loads always equal the fold of the
      bucket bytes over the current table, and the total is conserved. */
  lemma {:induction false} TraceKeepsLoads(x: Context, trace: seq<State>, k: nat)
    requires IsTrace(x, trace) && k < |trace| && x.tauCold <= x.tauHot && LoadsAgree(x, trace[0])
    ensures Fits(x, trace[k]) && Separated(x, trace[k]) && LoadsAgree(x, trace[k])
    ensures Sum(trace[k].load) == Sum(trace[0].load)
  {
    if k > 0 {
      TraceKeepsLoads(x, trace, k - 1);
      assert IsTurn(x, trace[k - 1], trace[k - 1 + 1]);
      TurnKeepsFits(x, trace[k - 1], trace[k]);
      TurnKeepsLoads(x, trace[k - 1], trace[k]);
    }
  }

  /** A case with crossed thresholds in which the step moves a bucket onto its own queue and its loads no
      longer agree with the table: one queue of one bucket with 10 bytes and heat 0.5. */
  lemma CrossedThresholdsBreakLoads()
    ensures var x := Context(1, 0.4, 0.6, 1, [10.0], 10.0, 100.0);
      var g := Start(x, [0], [10.0], [0.5]);
      && Fits(x, g) && LoadsAgree(x, g)
      && Legal(x, g, 0, 0, MoveBucket(0))
      && Fits(x, Apply(x, g, 0, 0, MoveBucket(0)))
      && !LoadsAgree(x, Apply(x, g, 0, 0, MoveBucket(0)))
  {
    var x := Context(1, 0.4, 0.6, 1, [10.0], 10.0, 100.0);
    var g := Start(x, [0], [10.0], [0.5]);
    assert 0 in g.hot && 0 in g.cold;
    assert TableLoad([0], [10.0], 0) == 10.0 by { assert [0][..0] == [] && [10.0][..0] == []; }
    MoveKeepsLoadsIff(x, g, 0, 0, 0);
  }

  ghost predicate WithinLimit(x: Context, load0: seq<real>, load: seq<real>) {
    |load0| == |load| && forall q :: 0 <= q < |load| ==> load[q] <= Max(load0[q], x.limit)
  }

  lemma TurnKeepsLimit(x: Context, load0: seq<real>, g: State, g': State)
    requires IsTurn(x, g, g') && WithinLimit(x, load0, g.load)
    requires forall b :: 0 <= b < |x.weight| ==> x.weight[b] >= 0.0
    ensures WithinLimit(x, load0, g'.load)
  {
    hide Cooled;
  }

  /** No queue ever exceeds the larger of its load before the step and the fit limit. */
  lemma {:induction false} TraceKeepsLimit(x: Context, trace: seq<State>, k: nat)
    requires IsTrace(x, trace) && k < |trace|
    requires forall b :: 0 <= b < |x.weight| ==> x.weight[b] >= 0.0
    ensures WithinLimit(x, trace[0].load, trace[k].load)
  {
    if k > 0 {
      TraceKeepsLimit(x, trace, k - 1);
      assert IsTurn(x, trace[k - 1], trace[k - 1 + 1]);
      TurnKeepsLimit(x, trace[0].load, trace[k - 1], trace[k]);
    }
  }

  /** What a run makes of the loads by table: with thresholds in order and bytes that are not negative, no queue
      ends above the larger of its load by the initial table and the fit limit. */
  lemma TableWithinLimit(x: Context, trace: seq<State>, q: nat)
    requires IsTrace(x, trace) && x.tauCold <= x.tauHot && LoadsAgree(x, trace[0]) && q < x.queues
    requires forall b :: 0 <= b < |x.weight| ==> x.weight[b] >= 0.0
    ensures var last := trace[|trace| - 1];
      && |last.table| == |x.weight|
      && TableLoad(last.table, x.weight, q) <= Max(TableLoad(trace[0].table, x.weight, q), x.limit)
  {
    TraceKeepsLoads(x, trace, |trace| - 1);
    TraceKeepsLimit(x, trace, |trace| - 1);
    hide TableLoad, IsTurn;
  }

  // ---------- Exit optimality ----------

  /** The hottest queue above the threshold that owns a bucket. */
  ghost predicate IsTarget(x: Context, g: State, s: nat) {
    && s < |g.heat| && g.heat[s] > x.tauHot && Owns(g.table, s)
    && forall q: nat :: q < |g.heat| && g.heat[q] > x.tauHot && Owns(g.table, q) ==>
         g.heat[q] < g.heat[s] || (g.heat[q] == g.heat[s] && s <= q)
  }

  /** Queues missing from the hot set own nothing; queues missing from the cold set cannot take any
      bucket of the target. */
  ghost predicate Pruned(x: Context, g: State)
    requires Fits(x, g)
  {
    && (forall q: nat :: q in g.hot ==> q < |g.heat| && g.heat[q] > x.tauHot)
    && (forall q: nat :: q < |g.heat| && g.heat[q] > x.tauHot && q !in g.hot ==> !Owns(g.table, q))
    && (forall s: nat, q: nat :: IsTarget(x, g, s) && q < x.queues && g.heat[q] < x.tauCold && q !in g.cold ==>
          NothingFits(x, g, s, q))
  }

  lemma StartIsPruned(x: Context, g: State)
    requires Fits(x, g) && g == Start(x, g.table, g.load, g.heat)
    ensures Pruned(x, g)
  {
  }

  lemma DropHotKeepsPruned(x: Context, g: State, src: nat, dst: nat)
    requires Fits(x, g) && Legal(x, g, src, dst, DropHot) && Fits(x, Apply(x, g, src, dst, DropHot)) && Pruned(x, g)
    ensures Pruned(x, Apply(x, g, src, dst, DropHot))
  {
    var g' := Apply(x, g, src, dst, DropHot);
    hide Owns;
    forall s: nat, q: nat | IsTarget(x, g', s) && q < x.queues && g'.heat[q] < x.tauCold && q !in g'.cold
      ensures NothingFits(x, g', s, q)
    {
      assert IsTarget(x, g, s) && NothingFits(x, g, s, q);
    }
  }

  lemma DropColdKeepsPruned(x: Context, g: State, src: nat, dst: nat)
    requires Fits(x, g) && Legal(x, g, src, dst, DropCold) && Fits(x, Apply(x, g, src, dst, DropCold)) && Pruned(x, g)
    ensures Pruned(x, Apply(x, g, src, dst, DropCold))
  {
    var g' := Apply(x, g, src, dst, DropCold);
    TargetIsHottest(x, g, src);
    hide Owns, IsHottest, IsColdest;
    forall s: nat, q: nat | IsTarget(x, g', s) && q < x.queues && g'.heat[q] < x.tauCold && q !in g'.cold
      ensures NothingFits(x, g', s, q)
    {
      assert IsTarget(x, g, s);
      assert s == src by { TargetIsUnique(x, g, s, src); }
      if q != dst {
        assert NothingFits(x, g, s, q);
      }
    }
  }

  lemma MoveKeepsPruned(x: Context, g: State, src: nat, dst: nat, b: nat)
    requires Fits(x, g) && Legal(x, g, src, dst, MoveBucket(b)) && Fits(x, Apply(x, g, src, dst, MoveBucket(b)))
    ensures Pruned(x, Apply(x, g, src, dst, MoveBucket(b)))
  {
    hide Owns, Cooled, Shifted;
  }

  lemma TurnKeepsPruned(x: Context, g: State, g': State)
    requires IsTurn(x, g, g') && Fits(x, g') && Pruned(x, g)
    ensures Pruned(x, g')
  {
    var src: nat, dst: nat, turn: Turn :| Legal(x, g, src, dst, turn) && g' == Apply(x, g, src, dst, turn);
    hide *;
    match turn
    case DropHot => DropHotKeepsPruned(x, g, src, dst);
    case MoveBucket(b) => MoveKeepsPruned(x, g, src, dst, b);
    case DropCold => DropColdKeepsPruned(x, g, src, dst);
  }

  lemma TargetIsHottest(x: Context, g: State, src: nat)
    requires Fits(x, g) && Pruned(x, g) && IsHottest(g, src) && Owns(g.table, src)
    ensures IsTarget(x, g, src)
  {
    hide Owns;
  }

  lemma TargetIsUnique(x: Context, g: State, s: nat, t: nat)
    requires IsTarget(x, g, s) && IsTarget(x, g, t)
    ensures s == t
  {
    hide Owns;
  }

  lemma {:induction false} TraceIsPruned(x: Context, trace: seq<State>, k: nat)
    requires IsTrace(x, trace) && k < |trace|
    ensures Fits(x, trace[k]) && Pruned(x, trace[k])
  {
    if k == 0 {
      StartIsPruned(x, trace[0]);
    } else {
      TraceIsPruned(x, trace, k - 1);
      assert IsTurn(x, trace[k - 1], trace[k - 1 + 1]);
      TurnKeepsFits(x, trace[k - 1], trace[k]);
      TurnKeepsPruned(x, trace[k - 1], trace[k]);
    }
  }

  /** When the loop stops, the move cap is reached, or every queue above the hot threshold owns no
      bucket, or no bucket of the hottest queue that owns one fits into any queue below the cold threshold. */
  lemma ExitIsOptimal(x: Context, trace: seq<State>)
    requires IsTrace(x, trace) && Done(x, trace[|trace| - 1])
    ensures var g := trace[|trace| - 1];
      && Fits(x, g)
      && (g.moves >= x.maxMoves
          || (forall q: nat :: q < x.queues && g.heat[q] > x.tauHot ==> !Owns(g.table, q))
          || (forall s: nat, q: nat :: IsTarget(x, g, s) && q < x.queues && g.heat[q] < x.tauCold ==>
              NothingFits(x, g, s, q)))
  {
    TraceIsPruned(x, trace, |trace| - 1);
  }

  // ---------- What a move is ----------

  ghost predicate ColdIsCold(x: Context, g: State) {
    forall q :: q in g.cold ==> q < |g.heat| && g.heat[q] < x.tauCold
  }

  lemma TurnKeepsCold(x: Context, g: State, g': State)
    requires IsTurn(x, g, g') && ColdIsCold(x, g)
    ensures ColdIsCold(x, g')
  {
    hide Cooled, Shifted, IsHottest, IsHeaviestFit, NothingFits, Owns;
  }

  lemma {:induction false} TraceKeepsCold(x: Context, trace: seq<State>, k: nat)
    requires IsTrace(x, trace) && k < |trace|
    ensures ColdIsCold(x, trace[k])
  {
    if k > 0 {
      TraceKeepsCold(x, trace, k - 1);
      assert IsTurn(x, trace[k - 1], trace[k - 1 + 1]);
      TurnKeepsCold(x, trace[k - 1], trace[k]);
    }
  }

  /** Bucket b goes from src to dst: src is above the hot threshold and no hotter queue owns a bucket; dst is below
      the cold one and has room, and no colder queue has room for any bucket of src; of the buckets of src no
      heavier one would have fitted. */
  ghost predicate Steepest(x: Context, g: State, b: nat, src: nat, dst: nat) {
    && |g.table| == |x.weight| && |g.load| == |g.heat| && b < |g.table| && src < |g.heat| && dst < |g.heat|
    && g.table[b] == src && g.heat[src] > x.tauHot && g.heat[dst] < x.tauCold && g.load[dst] + x.weight[b] <= x.limit
    && (forall c :: 0 <= c < |g.table| && g.table[c] < |g.heat| ==> g.heat[g.table[c]] <= g.heat[src])
    && (forall c :: 0 <= c < |g.table| && g.table[c] == src && x.weight[c] > x.weight[b] ==>
          g.load[dst] + x.weight[c] > x.limit)
    && (forall c, q :: 0 <= c < |g.table| && g.table[c] == src && 0 <= q < |g.heat| && g.heat[q] < g.heat[dst] ==>
          g.load[q] + x.weight[c] > x.limit)
  }

  lemma TurnIsSteepest(x: Context, g: State, b: nat, src: nat, dst: nat)
    requires Fits(x, g) && Pruned(x, g) && ColdIsCold(x, g) && Legal(x, g, src, dst, MoveBucket(b))
    ensures Steepest(x, g, b, src, dst)
  {
    assert Owns(g.table, src);
    TargetIsHottest(x, g, src);
    HottestOwner(x, g, src);
    hide Owns, IsHottest, IsTarget;
    forall c, q | 0 <= c < |g.table| && g.table[c] == src && 0 <= q < |g.heat| && g.heat[q] < g.heat[dst]
      ensures !FitsInto(x, g, c, q)
    {
      assert q !in g.cold;
      assert NothingFits(x, g, src, q);
    }
    forall c | 0 <= c < |g.table| && g.table[c] == src && x.weight[c] > x.weight[b] ensures !FitsInto(x, g, c, dst) {
    }
  }

  lemma HottestOwner(x: Context, g: State, s: nat)
    requires IsTarget(x, g, s)
    ensures forall c :: 0 <= c < |g.table| && g.table[c] < |g.heat| ==> g.heat[g.table[c]] <= g.heat[s]
  {
    forall c | 0 <= c < |g.table| && g.table[c] < |g.heat| ensures g.heat[g.table[c]] <= g.heat[s] {
      assert Owns(g.table, g.table[c]);
    }
  }

  /** Every move of a run is the steepest there is. */
  lemma MovesAreSteepest(x: Context, trace: seq<State>, k: nat) returns (b: nat, src: nat, dst: nat)
    requires IsTrace(x, trace) && k + 1 < |trace| && trace[k + 1].moves != trace[k].moves
    ensures Fits(x, trace[k]) && Steepest(x, trace[k], b, src, dst)
    ensures src < x.queues && dst < x.queues && trace[k + 1] == Move(x, trace[k], b, src, dst)
  {
    var g := trace[k];
    TraceIsPruned(x, trace, k);
    TraceKeepsCold(x, trace, k);
    assert IsTurn(x, trace[k], trace[k + 1]);
    var turn: Turn;
    src, dst, turn :| Legal(x, g, src, dst, turn) && trace[k + 1] == Apply(x, g, src, dst, turn);
    hide Cooled, Shifted, HotSet, ColdSet, Pruned, ColdIsCold, Steepest;
    b := turn.b;
    TurnIsSteepest(x, g, b, src, dst);
  }

  // ---------- Heats ----------

  /** By how much a bucket heats: half its share of the mean load. */
  lemma MoveShiftsHeat(x: Context, g: State, b: nat, src: nat, dst: nat)
    requires Fits(x, g) && b < |x.weight| && src < x.queues && dst < x.queues && src != dst
    requires UnitRange(g.heat) && x.weight[b] >= 0.0
    ensures var h, share := Move(x, g, b, src, dst).heat, x.weight[b] / (2.0 * (x.mean + 0.000000001));
      && |h| == |g.heat| && UnitRange(h)
      && h[src] <= g.heat[src] && (h[src] == 0.0 || h[src] == g.heat[src] - share)
      && g.heat[dst] <= h[dst] && (h[dst] == 1.0 || h[dst] == g.heat[dst] + share)
      && forall q :: 0 <= q < |h| && q != src && q != dst ==> h[q] == g.heat[q]
  {
    var w, m := x.weight[b], x.mean + 0.000000001;
    assert 0.5 * w / m == w / (2.0 * m) >= 0.0;
  }

  ghost predicate Unclipped(heat: seq<real>) {
    forall q :: 0 <= q < |heat| ==> 0.0 < heat[q] < 1.0
  }

  /** Heats and loads changed alike, by the factor of a move. */
  ghost predicate InStep(x: Context, a: State, b: State) {
    && |a.heat| == |b.heat| == |a.load| == |b.load|
    && forall q :: 0 <= q < |a.heat| ==>
         Portion(b.heat[q] - a.heat[q], 2.0 * (x.mean + 0.000000001)) == b.load[q] - a.load[q]
  }

  lemma MoveStaysInStep(x: Context, a: State, g: State, b: nat, src: nat, dst: nat)
    requires Fits(x, g) && b < |x.weight| && src < x.queues && dst < x.queues && src != dst
    requires UnitRange(g.heat) && x.weight[b] >= 0.0 && Unclipped(Move(x, g, b, src, dst).heat) && InStep(x, a, g)
    ensures InStep(x, a, Move(x, g, b, src, dst))
  {
    var g' := Move(x, g, b, src, dst);
    MoveShiftsBoth(x, g, b, src, dst);
    hide Move, Unclipped, UnitRange, Portion;
    forall q | 0 <= q < |a.heat|
      ensures Portion(g'.heat[q] - a.heat[q], 2.0 * (x.mean + 0.000000001)) == g'.load[q] - a.load[q]
    {
      var m, share := 2.0 * (x.mean + 0.000000001), Ratio(x.weight[b], 2.0 * (x.mean + 0.000000001));
      PortionShifts(g.heat[q] - a.heat[q], share, m);
      hide Ratio;
    }
  }

  lemma PortionShifts(h: real, share: real, m: real)
    ensures Portion(h - share, m) == Portion(h, m) - Portion(share, m)
    ensures Portion(h + share, m) == Portion(h, m) + Portion(share, m)
  {
  }

  /** An unclipped move: a share of heat goes with the bytes of the bucket. */
  lemma MoveShiftsBoth(x: Context, g: State, b: nat, src: nat, dst: nat)
    requires Fits(x, g) && b < |x.weight| && src < x.queues && dst < x.queues && src != dst
    requires UnitRange(g.heat) && x.weight[b] >= 0.0 && Unclipped(Move(x, g, b, src, dst).heat)
    ensures x.mean >= 0.0
    ensures var g', share := Move(x, g, b, src, dst), Ratio(x.weight[b], 2.0 * (x.mean + 0.000000001));
      && |g'.heat| == |g.heat| == |g'.load| == |g.load| && Portion(share, 2.0 * (x.mean + 0.000000001)) == x.weight[b]
      && forall q :: 0 <= q < |g.heat| ==>
           if q == src then g'.heat[q] == g.heat[q] - share && g'.load[q] == g.load[q] - x.weight[b]
           else if q == dst then g'.heat[q] == g.heat[q] + share && g'.load[q] == g.load[q] + x.weight[b]
           else g'.heat[q] == g.heat[q] && g'.load[q] == g.load[q]
  {
    MoveShiftsHeat(x, g, b, src, dst);
    hide Cooled, HotSet, ColdSet;
  }

  lemma TurnStaysInStep(x: Context, a: State, g: State, g': State)
    requires IsTurn(x, g, g') && Separated(x, g) && UnitRange(g.heat) && Unclipped(g'.heat) && InStep(x, a, g)
    requires forall b :: 0 <= b < |x.weight| ==> x.weight[b] >= 0.0
    ensures InStep(x, a, g')
  {
    var src: nat, dst: nat, turn: Turn :| Legal(x, g, src, dst, turn) && g' == Apply(x, g, src, dst, turn);
    assert src in g.hot && dst in g.cold && src != dst;
    hide Move, HotSet, ColdSet, InStep, Separated, IsHottest, IsColdest, Unclipped, UnitRange;
    if turn.MoveBucket? {
      MoveStaysInStep(x, a, g, turn.b, src, dst);
    } else {
      StaysInStep(x, a, g, g');
    }
  }

  lemma StaysInStep(x: Context, a: State, g: State, g': State)
    requires InStep(x, a, g) && g'.heat == g.heat && g'.load == g.load
    ensures InStep(x, a, g')
  {
  }

  lemma InStepAtFirst(x: Context, g: State)
    requires Fits(x, g)
    ensures InStep(x, g, g)
  {
    assert Portion(0.0, 2.0 * (x.mean + 0.000000001)) == 0.0;
  }

  /** Over a run in which no heat reaches 0 or 1, the heat of every queue follows its load: it has changed by the
      change of the load over twice the mean load. */
  lemma {:induction false} HeatsFollowLoads(x: Context, trace: seq<State>, k: nat)
    requires IsTrace(x, trace) && k < |trace| && x.tauCold <= x.tauHot
    requires forall b :: 0 <= b < |x.weight| ==> x.weight[b] >= 0.0
    requires forall i :: 0 <= i <= k ==> Unclipped(trace[i].heat)
    ensures Separated(x, trace[k]) && InStep(x, trace[0], trace[k])
  {
    if k == 0 {
      InStepAtFirst(x, trace[0]);
    } else {
      HeatsFollowLoads(x, trace, k - 1);
      assert IsTurn(x, trace[k - 1], trace[k - 1 + 1]);
      TurnKeepsSeparated(x, trace[k - 1], trace[k]);
      assert Unclipped(trace[k - 1].heat) && Unclipped(trace[k].heat);
      hide IsTurn, Separated, InStep;
      TurnStaysInStep(x, trace[0], trace[k - 1], trace[k]);
    }
  }
}

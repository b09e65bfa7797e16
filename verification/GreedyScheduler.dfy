/** The greedy scheduler object: the loop of Algorithm 2 over one epoch's telemetry.

    Its result is the end of a complete run of the transition system in GreedyRebalancer.dfy, whose laws
    then say what the new table is worth. */
module GreedyScheduler {
  import opened Common
  import opened Selection
  import opened GreedyRebalancer
  import TM = Telemetry

  datatype Config = Config(tauHot: real, tauCold: real, maxMoves: int, tolerance: real, alpha: real)

  function Mean(s: seq<real>): real
    requires s != []
  {
    Sum(s) / |s| as real
  }

  function ContextOf(cfg: Config, telem: TM.Report): Context
    requires telem.queueBytes != []
  {
    var mean := Mean(telem.queueBytes);
    Context(|telem.queueBytes|, cfg.tauHot, cfg.tauCold, cfg.maxMoves, telem.bucketBytes,
            mean, mean + cfg.tolerance * (mean + 1.0))
  }

  /** How much a queue may hold after a move: the mean, and the tolerated share of the mean plus one. */
  ghost function FitLimit(cfg: Config, telem: TM.Report): real
    requires telem.queueBytes != []
  {
    var mean := Sum(telem.queueBytes) / |telem.queueBytes| as real;
    mean + cfg.tolerance * (mean + 1.0)
  }

  /** The queue of bucket b is above the hot threshold, and of the queues with a bucket none is hotter; the first
      one among equals. */
  ghost predicate OfHottest(cfg: Config, table: seq<nat>, heat: seq<real>, b: nat) {
    && b < |table| && table[b] < |heat| && heat[table[b]] > cfg.tauHot
    && forall c :: 0 <= c < |table| && table[c] < |heat| ==>
         heat[table[c]] < heat[table[b]] || (heat[table[c]] == heat[table[b]] && table[b] <= table[c])
  }

  /** No bucket of the hottest queue fits into a queue below the cold threshold. */
  ghost predicate NothingMoves(cfg: Config, telem: TM.Report, table: seq<nat>, load: seq<real>, heat: seq<real>)
    requires telem.queueBytes != []
  {
    && |table| == |telem.bucketBytes| && |load| == |heat|
    && forall b: nat, q: nat :: OfHottest(cfg, table, heat, b) && q < |heat| && heat[q] < cfg.tauCold ==>
         load[q] + telem.bucketBytes[b] > FitLimit(cfg, telem)
  }

  lemma ContextFields(cfg: Config, telem: TM.Report)
    requires telem.queueBytes != []
    ensures var x := ContextOf(cfg, telem);
      && x.queues == |telem.queueBytes| && x.weight == telem.bucketBytes && x.limit == FitLimit(cfg, telem)
      && x.tauHot == cfg.tauHot && x.tauCold == cfg.tauCold && x.maxMoves == cfg.maxMoves
  {
  }

  /** How a run ends, in the numbers of the configuration and the report. */
  lemma EndsInNumbers(cfg: Config, telem: TM.Report, trace: seq<State>)
    requires telem.queueBytes != []
    requires var x := ContextOf(cfg, telem); IsTrace(x, trace) && Done(x, trace[|trace| - 1])
    ensures var g := trace[|trace| - 1];
      g.moves >= cfg.maxMoves || NothingMoves(cfg, telem, g.table, g.load, g.heat)
  {
    var x, g := ContextOf(cfg, telem), trace[|trace| - 1];
    ContextFields(cfg, telem);
    ExitIsOptimal(x, trace);
    hide ContextOf, IsTrace, Done, Owns, IsTarget, FitLimit, OfHottest;
    if g.moves < cfg.maxMoves {
      forall b: nat, q: nat | OfHottest(cfg, g.table, g.heat, b) && q < |g.heat| && g.heat[q] < cfg.tauCold
        ensures !FitsInto(x, g, b, q) && b < |x.weight|
      {
        OwnerIsTarget(cfg, x, g, b);
        assert NothingFits(x, g, g.table[b], q);
      }
    }
  }

  lemma OwnerIsTarget(cfg: Config, x: Context, g: State, b: nat)
    requires Fits(x, g) && OfHottest(cfg, g.table, g.heat, b) && x.tauHot == cfg.tauHot
    ensures b < |g.table| && Owns(g.table, g.table[b]) && IsTarget(x, g, g.table[b]) && g.table[b] < x.queues
  {
    forall q: nat | q < |g.heat| && g.heat[q] > x.tauHot && Owns(g.table, q)
      ensures g.heat[q] < g.heat[g.table[b]] || (g.heat[q] == g.heat[g.table[b]] && g.table[b] <= q)
    {
      var c :| 0 <= c < |g.table| && g.table[c] == q;
    }
  }

  /** Queue loads are those of the table, and no bucket has negative bytes: what a recorded epoch reports. */
  ghost predicate Consistent(telem: TM.Report, table: seq<nat>) {
    && |telem.bucketBytes| == |table|
    && (forall b :: 0 <= b < |table| ==> telem.bucketBytes[b] >= 0.0)
    && (forall q: nat :: q < |telem.queueBytes| ==> telem.queueBytes[q] == TableLoad(table, telem.bucketBytes, q))
  }

  lemma RunWithinLimit(cfg: Config, telem: TM.Report, table: seq<nat>, trace: seq<State>)
    requires telem.queueBytes != [] && Consistent(telem, table) && cfg.tauCold <= cfg.tauHot
    requires var x := ContextOf(cfg, telem);
      IsTrace(x, trace) && trace[0].table == table && trace[0].load == telem.queueBytes
    ensures var newTable := trace[|trace| - 1].table;
      && |newTable| == |telem.bucketBytes|
      && forall q: nat :: q < |telem.queueBytes| ==>
           TableLoad(newTable, telem.bucketBytes, q) <= Max(telem.queueBytes[q], FitLimit(cfg, telem))
  {
    var x := ContextOf(cfg, telem);
    ContextFields(cfg, telem);
    assert x.tauCold <= x.tauHot && LoadsAgree(x, trace[0]);
    hide ContextOf, FitLimit, IsTrace, TableLoad, LoadsAgree;
    forall q: nat | q < |telem.queueBytes|
      ensures |trace[|trace| - 1].table| == |x.weight|
      ensures TableLoad(trace[|trace| - 1].table, x.weight, q) <= Max(telem.queueBytes[q], x.limit)
    {
      TableWithinLimit(x, trace, q);
    }
  }

  class GreedyStatelessScheduler {
    const cfg: Config
    const signal: Signal
    var movesThisEpoch: int

    constructor (cfg: Config, signal: Signal)
      ensures this.cfg == cfg && this.signal == signal && movesThisEpoch == 0
    {
      this.cfg := cfg;
      this.signal := signal;
      movesThisEpoch := 0;
    }

    method Hottest(g: State) returns (s: nat)
      requires g.hot != {} && forall q :: q in g.hot ==> q < |g.heat|
      ensures IsHottest(g, s)
    {
      var best := -1;
      var q := 0;
      while q < |g.heat|
        invariant q <= |g.heat| && -1 <= best < q
        invariant best == -1 ==> forall p :: 0 <= p < q ==> p !in g.hot
        invariant best != -1 ==> best in g.hot
        invariant best != -1 ==> forall p :: 0 <= p < q && p in g.hot ==>
          g.heat[p] < g.heat[best] || (g.heat[p] == g.heat[best] && best <= p)
      {
        if q in g.hot && (best == -1 || g.heat[q] > g.heat[best]) {
          best := q;
        }
        q := q + 1;
      }
      var w :| w in g.hot;
      assert w < |g.heat|;
      s := best;
    }

    method Coldest(g: State) returns (s: nat)
      requires g.cold != {} && forall q :: q in g.cold ==> q < |g.heat|
      ensures IsColdest(g, s)
    {
      var best := -1;
      var q := 0;
      while q < |g.heat|
        invariant q <= |g.heat| && -1 <= best < q
        invariant best == -1 ==> forall p :: 0 <= p < q ==> p !in g.cold
        invariant best != -1 ==> best in g.cold
        invariant best != -1 ==> forall p :: 0 <= p < q && p in g.cold ==>
          g.heat[p] > g.heat[best] || (g.heat[p] == g.heat[best] && best <= p)
      {
        if q in g.cold && (best == -1 || g.heat[q] < g.heat[best]) {
          best := q;
        }
        q := q + 1;
      }
      var w :| w in g.cold;
      assert w < |g.heat|;
      s := best;
    }

    /** The buckets of a queue, heaviest first. */
    method BucketsByWeight(x: Context, g: State, src: nat) returns (order: seq<nat>)
      requires Fits(x, g)
      ensures forall b: nat :: b in order <==> b < |g.table| && g.table[b] == src
      ensures forall i :: 0 <= i < |order| ==> order[i] < |x.weight|
      ensures Descending(order, x.weight)
      ensures order == [] <==> !Owns(g.table, src)
    {
      var mask := seq(|g.table|, b requires 0 <= b < |g.table| => g.table[b] == src);
      order := WhereDescending(mask, x.weight);
      hide Descending;
      if order != [] {
        assert order[0] in order;
      }
    }

    /** The first bucket in the order that fits, which is then the heaviest that fits. */
    method FirstFit(x: Context, g: State, order: seq<nat>, src: nat, dst: nat) returns (found: Option<nat>)
      requires Fits(x, g) && dst < x.queues
      requires forall b: nat :: b in order <==> b < |g.table| && g.table[b] == src
      requires forall i :: 0 <= i < |order| ==> order[i] < |x.weight|
      requires Descending(order, x.weight)
      ensures found.None? ==> NothingFits(x, g, src, dst)
      ensures found.Some? ==> IsHeaviestFit(x, g, found.value, src, dst)
    {
      var i := 0;
      while i < |order|
        invariant i <= |order|
        invariant forall k :: 0 <= k < i ==> !FitsInto(x, g, order[k], dst)
      {
        var b := order[i];
        var newDst := g.load[dst] + x.weight[b];
        if newDst <= x.limit {
          assert order[i] in order;
          forall c: nat | c < |g.table| && g.table[c] == src && FitsInto(x, g, c, dst)
            ensures x.weight[c] <= x.weight[b]
          {
            assert c in order;
          }
          return Some(b);
        }
        i := i + 1;
      }
      forall b: nat | b < |g.table| && g.table[b] == src ensures !FitsInto(x, g, b, dst) {
        assert b in order;
      }
      return None;
    }

    /** One turn of the loop. */
    method Turn(x: Context, g: State) returns (g': State)
      requires Fits(x, g) && !Done(x, g)
      ensures IsTurn(x, g, g') && Fits(x, g')
    {
      var src := Hottest(g);
      var dst := Coldest(g);
      assert src in g.hot && dst in g.cold;
      var order := BucketsByWeight(x, g, src);
      hide Cooled, Shifted, HotSet, ColdSet, IsHottest, IsColdest, IsHeaviestFit, NothingFits, Owns;
      if order == [] {
        assert Legal(x, g, src, dst, DropHot);
        g' := g.(hot := g.hot - {src});
        assert g' == Apply(x, g, src, dst, DropHot);
        TurnKeepsFits(x, g, g');
        return;
      }
      var found := FirstFit(x, g, order, src, dst);
      if found.Some? {
        var b := found.value;
        assert b < |x.weight| by { HeaviestIsBucket(x, g, b, src, dst); }
        assert Legal(x, g, src, dst, MoveBucket(b));
        var heat := Cooled(x, g.heat, b, src, dst);
        g' := State(g.table[b := dst], Shifted(g.load, x.weight[b], src, dst), heat, HotSet(x, heat),
                    ColdSet(x, heat), g.moves + 1);
        assert g' == Apply(x, g, src, dst, MoveBucket(b));
      } else {
        assert Legal(x, g, src, dst, DropCold);
        g' := g.(cold := g.cold - {dst}, hot := HotSet(x, g.heat));
        assert g' == Apply(x, g, src, dst, DropCold);
      }
      TurnKeepsFits(x, g, g');
    }

    /** One rebalancing step. The ghost result is the run of the loop: it starts at the telemetry's loads
        and the signal's heats, every turn is legal, and it ends because the loop's condition fails. */
    method Step(telem: TM.Report, currentTable: seq<nat>, risk: seq<real>)
      returns (newTable: seq<nat>, ghost trace: seq<State>)
      requires telem.queueBytes != [] && |telem.pressure| == |telem.queueBytes|
      requires risk != [] ==> |risk| == |telem.pressure|
      requires |telem.bucketBytes| == |currentTable| && Mean(telem.queueBytes) >= 0.0
      requires forall b :: 0 <= b < |currentTable| ==> currentTable[b] < |telem.queueBytes|
      modifies this
      ensures var x := ContextOf(cfg, telem);
        && IsTrace(x, trace) && Done(x, trace[|trace| - 1])
        && trace[0].table == currentTable && trace[0].load == telem.queueBytes
        && trace[0].heat == ComputeSignal(signal, telem.pressure, risk, cfg.alpha)
        && newTable == trace[|trace| - 1].table && movesThisEpoch == trace[|trace| - 1].moves
      ensures |newTable| == |currentTable| && forall b :: 0 <= b < |newTable| ==> newTable[b] < |telem.queueBytes|
      ensures Consistent(telem, currentTable) && cfg.tauCold <= cfg.tauHot ==>
        forall q: nat :: q < |telem.queueBytes| ==>
          TableLoad(newTable, telem.bucketBytes, q) <= Max(telem.queueBytes[q], FitLimit(cfg, telem))
      ensures var last := trace[|trace| - 1];
        movesThisEpoch >= cfg.maxMoves || NothingMoves(cfg, telem, newTable, last.load, last.heat)
    {
      var x := ContextOf(cfg, telem);
      assert x.queues == |telem.queueBytes| && |x.weight| == |currentTable|;
      var heat := ComputeSignal(signal, telem.pressure, risk, cfg.alpha);
      var g := Start(x, currentTable, telem.queueBytes, heat);
      trace := [g];
      hide ContextOf, ComputeSignal;
      while !(g.hot == {} || g.cold == {} || g.moves >= x.maxMoves)
        invariant Fits(x, g) && IsTrace(x, trace) && trace[|trace| - 1] == g
        invariant trace[0] == Start(x, currentTable, telem.queueBytes, heat)
        decreases x.maxMoves - g.moves, |g.cold|, |g.hot|
      {
        var g' := Turn(x, g);
        TurnDecreases(x, g, g');
        CardinalitiesDecrease(g, g');
        TraceExtends(x, trace, g');
        trace := trace + [g'];
        g := g';
      }
      movesThisEpoch := g.moves;
      newTable := g.table;
      EndsInNumbers(cfg, telem, trace);
      hide FitLimit, NothingMoves;
      if Consistent(telem, currentTable) && cfg.tauCold <= cfg.tauHot {
        RunWithinLimit(cfg, telem, currentTable, trace);
      }
    }
  }

  lemma HeaviestIsBucket(x: Context, g: State, b: nat, src: nat, dst: nat)
    requires Fits(x, g) && dst < x.queues && IsHeaviestFit(x, g, b, src, dst)
    ensures b < |x.weight|
  {
  }

  lemma {:induction false} SmallerSet(a: set<nat>, b: set<nat>)
    requires a < b
    ensures |a| < |b|
  {
    assert b == a + (b - a);
    assert |b - a| > 0 by {
      var w :| w in b && w !in a;
      assert w in b - a;
    }
  }

  lemma CardinalitiesDecrease(g: State, g': State)
    ensures g'.cold < g.cold ==> |g'.cold| < |g.cold|
    ensures g'.hot < g.hot ==> |g'.hot| < |g.hot|
  {
    if g'.cold < g.cold {
      SmallerSet(g'.cold, g.cold);
    }
    if g'.hot < g.hot {
      SmallerSet(g'.hot, g.hot);
    }
  }

  lemma TraceExtends(x: Context, trace: seq<State>, g': State)
    requires IsTrace(x, trace) && IsTurn(x, trace[|trace| - 1], g')
    ensures IsTrace(x, trace + [g'])
  {
    var t := trace + [g'];
    hide IsTurn, Fits;
    forall i | 0 <= i < |t| - 1 ensures IsTurn(x, t[i], t[i + 1]) {
      if i < |trace| - 1 {
        assert IsTurn(x, trace[i], trace[i + 1]);
      }
    }
  }
}

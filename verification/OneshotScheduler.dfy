/** The one-shot scheduler: each hot queue, hottest first, gives its heaviest bucket to the coolest queue
    that has not yet received one in the epoch. */
module OneshotScheduler {
  import opened Common
  import opened Selection
  import G = GreedyRebalancer

  datatype Config = Config(tauHot: real, maxMoves: int, alpha: real)

  datatype Move = Move(bucket: nat, src: nat, dst: nat)

  datatype Context = Context(heat: seq<real>, weight: seq<real>, maxMoves: int)

  /** The table and the moves that led to it. */
  datatype State = State(table: seq<nat>, log: seq<Move>)

  ghost predicate Fits(x: Context, g: State) {
    && |g.table| == |x.weight|
    && (forall b :: 0 <= b < |g.table| ==> g.table[b] < |x.heat|)
    && (forall i :: 0 <= i < |g.log| ==> g.log[i].bucket < |g.table| && g.log[i].dst < |x.heat|)
  }

  ghost predicate Used(log: seq<Move>, q: nat) {
    exists i :: 0 <= i < |log| && log[i].dst == q
  }

  ghost predicate Free(x: Context, log: seq<Move>, src: nat, q: nat) {
    q < |x.heat| && q != src && !Used(log, q)
  }

  /** The heaviest bucket of a queue, the first one among equals. */
  ghost predicate IsHeaviest(x: Context, table: seq<nat>, src: nat, b: nat)
    requires |table| == |x.weight|
  {
    && b < |table| && table[b] == src
    && forall c: nat :: c < |table| && table[c] == src ==>
        x.weight[c] < x.weight[b] || (x.weight[c] == x.weight[b] && b <= c)
  }

  /** A coolest queue that can still receive a bucket. */
  ghost predicate IsCoolest(x: Context, log: seq<Move>, src: nat, dst: nat) {
    Free(x, log, src, dst) && forall q: nat :: Free(x, log, src, q) ==> x.heat[dst] <= x.heat[q]
  }

  function Moved(g: State, m: Move): State
    requires m.bucket < |g.table|
  {
    State(g.table[m.bucket := m.dst], g.log + [m])
  }

  /** What one hot queue does: nothing if it owns no bucket, else one move. */
  ghost predicate IsTurn(x: Context, g: State, src: nat, g': State) {
    && Fits(x, g) && |g.log| < x.maxMoves
    && if !G.Owns(g.table, src) then g' == g
       else exists m: Move ::
         m.src == src && IsHeaviest(x, g.table, src, m.bucket) && IsCoolest(x, g.log, src, m.dst) && g' == Moved(g, m)
  }

  /** The loop breaks at this queue. */
  ghost predicate Breaks(x: Context, g: State, src: nat) {
    |g.log| >= x.maxMoves || (G.Owns(g.table, src) && forall q: nat :: !Free(x, g.log, src, q))
  }

  /** A run over the hot queues in the given order; trace[i] is the state after the first i of them. */
  ghost predicate IsRun(x: Context, table: seq<nat>, sources: seq<nat>, trace: seq<State>) {
    && 0 < |trace| <= |sources| + 1 && trace[0] == State(table, [])
    && forall i :: 0 <= i < |trace| - 1 ==> IsTurn(x, trace[i], sources[i], trace[i + 1])
  }

  /** The hot queues, each once, hottest first. */
  ghost predicate IsSourceOrder(heat: seq<real>, tauHot: real, sources: seq<nat>) {
    && (forall q: nat :: q in sources <==> q < |heat| && heat[q] > tauHot)
    && (forall i, j :: 0 <= i < j < |sources| ==> sources[i] != sources[j])
    && Descends(sources, heat)
  }

  ghost predicate Descends(sources: seq<nat>, heat: seq<real>) {
    forall i, j :: 0 <= i < j < |sources| && sources[i] < |heat| && sources[j] < |heat| ==>
        heat[sources[i]] >= heat[sources[j]]
  }

  // ---------- Laws of a run ----------

  /** Bytes the moves took from, and brought to, a queue. */
  function From(x: Context, log: seq<Move>, q: nat): real
    requires forall i :: 0 <= i < |log| ==> log[i].bucket < |x.weight|
  {
    if log == [] then 0.0
    else From(x, log[..|log| - 1], q) + if log[|log| - 1].src == q then x.weight[log[|log| - 1].bucket] else 0.0
  }

  function To(x: Context, log: seq<Move>, q: nat): real
    requires forall i :: 0 <= i < |log| ==> log[i].bucket < |x.weight|
  {
    if log == [] then 0.0
    else To(x, log[..|log| - 1], q) + if log[|log| - 1].dst == q then x.weight[log[|log| - 1].bucket] else 0.0
  }

  /** Sources come in order, each at most once; no queue receives twice; loads follow the log. */
  ghost predicate LogOk(x: Context, table: seq<nat>, sources: seq<nat>, k: nat, g: State)
    requires k <= |sources|
  {
    && Fits(x, g) && |table| == |x.weight|
    && |g.log| <= MaxInt(0, x.maxMoves)
    && (forall i :: 0 <= i < |g.log| ==> g.log[i].src in sources[..k] && g.log[i].src != g.log[i].dst)
    && (forall i, j :: 0 <= i < j < |g.log| ==> g.log[i].src != g.log[j].src && g.log[i].dst != g.log[j].dst)
    && (forall q: nat ::
        TableLoad(g.table, x.weight, q) == TableLoad(table, x.weight, q) - From(x, g.log, q) + To(x, g.log, q))
  }

  lemma LoadsFollow(x: Context, g: State, m: Move, q: nat)
    requires Fits(x, g) && m.bucket < |g.table| && g.table[m.bucket] == m.src
    ensures var g' := Moved(g, m);
      && (forall i :: 0 <= i < |g'.log| ==> g'.log[i].bucket < |x.weight|)
      && From(x, g'.log, q) == From(x, g.log, q) + (if m.src == q then x.weight[m.bucket] else 0.0)
      && To(x, g'.log, q) == To(x, g.log, q) + (if m.dst == q then x.weight[m.bucket] else 0.0)
      && TableLoad(g'.table, x.weight, q)
         == TableLoad(g.table, x.weight, q) - (if m.src == q then x.weight[m.bucket] else 0.0)
             + (if m.dst == q then x.weight[m.bucket] else 0.0)
  {
    TableLoadUpdate(g.table, x.weight, m.bucket, m.dst, q);
    assert (g.log + [m])[..|g.log|] == g.log;
  }

  lemma TurnKeepsLog(x: Context, table: seq<nat>, sources: seq<nat>, k: nat, g: State, g': State)
    requires k < |sources| && LogOk(x, table, sources, k, g) && IsTurn(x, g, sources[k], g')
    requires forall i, j :: 0 <= i < j < |sources| ==> sources[i] != sources[j]
    ensures LogOk(x, table, sources, k + 1, g')
  {
    var src := sources[k];
    assert sources[..k + 1] == sources[..k] + [src];
    if G.Owns(g.table, src) {
      var m: Move :| m.src == src && IsHeaviest(x, g.table, src, m.bucket) && IsCoolest(x, g.log, src, m.dst)
          && g' == Moved(g, m);
      forall q: nat
        ensures TableLoad(g'.table, x.weight, q)
             == TableLoad(table, x.weight, q) - From(x, g'.log, q) + To(x, g'.log, q)
      {
        LoadsFollow(x, g, m, q);
      }
      hide From, To, TableLoad;
      forall i | 0 <= i < |g.log| ensures g.log[i].src != m.src && g.log[i].dst != m.dst {
        assert !Used(g.log, m.dst);
      }
    }
  }

  /** Over a whole run every queue gives away at most one bucket and receives at most one, no more than
      the allowed moves are made, and the loads change by exactly what the moves carried. */
  lemma {:induction false} RunKeepsLog(x: Context, table: seq<nat>, sources: seq<nat>, trace: seq<State>, k: nat)
    requires IsRun(x, table, sources, trace) && k < |trace| && Fits(x, State(table, []))
    requires forall i, j :: 0 <= i < j < |sources| ==> sources[i] != sources[j]
    ensures LogOk(x, table, sources, k, trace[k])
  {
    if k > 0 {
      RunKeepsLog(x, table, sources, trace, k - 1);
      assert IsTurn(x, trace[k - 1], sources[k - 1], trace[k - 1 + 1]);
      TurnKeepsLog(x, table, sources, k - 1, trace[k - 1], trace[k]);
    }
  }

  lemma {:induction false} AtMostOne(x: Context, log: seq<Move>, q: nat, w: real)
    requires forall i :: 0 <= i < |log| ==> log[i].bucket < |x.weight| && 0.0 <= x.weight[log[i].bucket] <= w
    requires forall i, j :: 0 <= i < j < |log| ==> log[i].src != log[j].src && log[i].dst != log[j].dst
    requires w >= 0.0
    ensures 0.0 <= From(x, log, q) <= w && 0.0 <= To(x, log, q) <= w
    ensures (forall i :: 0 <= i < |log| ==> log[i].src != q) ==> From(x, log, q) == 0.0
    ensures (forall i :: 0 <= i < |log| ==> log[i].dst != q) ==> To(x, log, q) == 0.0
  {
    if log != [] {
      AtMostOne(x, log[..|log| - 1], q, w);
    }
  }

  /** With bucket bytes between 0 and w, the load of no queue changes by more than one bucket's worth. */
  lemma LoadsMoveByOneBucket(x: Context, table: seq<nat>, sources: seq<nat>, trace: seq<State>, w: real, q: nat)
    requires IsRun(x, table, sources, trace) && Fits(x, State(table, []))
    requires forall i, j :: 0 <= i < j < |sources| ==> sources[i] != sources[j]
    requires w >= 0.0 && forall b :: 0 <= b < |x.weight| ==> 0.0 <= x.weight[b] <= w
    ensures Fits(x, trace[|trace| - 1])
    ensures TableLoad(table, x.weight, q) - w <= TableLoad(trace[|trace| - 1].table, x.weight, q)
        <= TableLoad(table, x.weight, q) + w
  {
    RunKeepsLog(x, table, sources, trace, |trace| - 1);
    hide TableLoad, From, To;
    AtMostOne(x, trace[|trace| - 1].log, q, w);
  }

  /** How many buckets a queue owns. */
  function Owned(table: seq<nat>, q: nat): nat {
    if table == [] then 0 else Owned(table[..|table| - 1], q) + if table[|table| - 1] == q then 1 else 0
  }

  lemma {:induction false} LoadWithinGreatest(table: seq<nat>, weight: seq<real>, q: nat, w: real)
    requires |table| == |weight| && forall c :: 0 <= c < |table| && table[c] == q ==> weight[c] <= w
    ensures TableLoad(table, weight, q) <= Portion(Owned(table, q) as real, w)
  {
    if table != [] {
      var n := |table| - 1;
      LoadWithinGreatest(table[..n], weight[..n], q, w);
      assert Portion((Owned(table[..n], q) + 1) as real, w) == Portion(Owned(table[..n], q) as real, w) + w;
    }
  }

  /** What a hot queue gives away is at least the mean of what its buckets carry: its load falls to at most that
      share of it which all buckets but one would have on the average. */
  lemma TurnTakesMean(x: Context, g: State, src: nat, g': State)
    requires IsTurn(x, g, src, g') && G.Owns(g.table, src) && |g'.table| == |x.weight|
    ensures var n := Owned(g.table, src) as real;
      Portion(n, TableLoad(g'.table, x.weight, src)) <= Portion(n - 1.0, TableLoad(g.table, x.weight, src))
  {
    var m: Move :| m.src == src && IsHeaviest(x, g.table, src, m.bucket) && IsCoolest(x, g.log, src, m.dst)
        && g' == Moved(g, m);
    var load, w := TableLoad(g.table, x.weight, src), x.weight[m.bucket];
    LoadWithinGreatest(g.table, x.weight, src, w);
    TableLoadUpdate(g.table, x.weight, m.bucket, m.dst, src);
    hide TableLoad, Owned, Portion;
    WithoutOne(Owned(g.table, src) as real, load, w);
  }

  lemma WithoutOne(n: real, load: real, w: real)
    ensures Portion(n, load - w) == Portion(n - 1.0, load) + (load - Portion(n, w))
  {
  }

  /** A move goes to a queue hotter than its source exactly when every other queue that is not hotter has
      already received a bucket. */
  lemma UphillIff(x: Context, g: State, src: nat, dst: nat)
    requires IsCoolest(x, g.log, src, dst) && src < |x.heat|
    ensures x.heat[dst] > x.heat[src] <==>
        forall q: nat :: q < |x.heat| && q != src && x.heat[q] <= x.heat[src] ==> Used(g.log, q)
  {
    hide Used;
    if x.heat[dst] <= x.heat[src] {
      assert !Used(g.log, dst);
    }
    assert forall q: nat :: Free(x, g.log, src, q) <==> q < |x.heat| && q != src && !Used(g.log, q);
  }

  lemma MoveIsTurn(x: Context, g: State, m: Move)
    requires Fits(x, g) && |g.log| < x.maxMoves
    requires IsHeaviest(x, g.table, m.src, m.bucket) && IsCoolest(x, g.log, m.src, m.dst)
    ensures IsTurn(x, g, m.src, Moved(g, m))
  {
    hide IsCoolest;
  }

  lemma UsedOnce(m: Move)
    ensures forall q: nat :: Used([m], q) <==> q == m.dst
  {
    assert [m][0].dst == m.dst;
  }

  /** Two hot queues with one bucket each, and room for two moves. */
  const TWO_HOT := Context([0.9, 0.8], [10.0, 10.0], 2)

  lemma GivesAway()
    ensures IsTurn(TWO_HOT, State([0, 1], []), 0, State([1, 1], [Move(0, 0, 1)]))
  {
    var g := State([0, 1], []);
    assert IsCoolest(TWO_HOT, g.log, 0, 1) && IsHeaviest(TWO_HOT, g.table, 0, 0);
    MoveIsTurn(TWO_HOT, g, Move(0, 0, 1));
    assert Moved(g, Move(0, 0, 1)) == State([1, 1], [Move(0, 0, 1)]);
  }

  lemma GivesBack()
    ensures IsTurn(TWO_HOT, State([1, 1], [Move(0, 0, 1)]), 1, State([0, 1], [Move(0, 0, 1), Move(0, 1, 0)]))
  {
    var g := State([1, 1], [Move(0, 0, 1)]);
    UsedOnce(Move(0, 0, 1));
    assert IsCoolest(TWO_HOT, g.log, 1, 0) && IsHeaviest(TWO_HOT, g.table, 1, 0);
    MoveIsTurn(TWO_HOT, g, Move(0, 1, 0));
    assert Moved(g, Move(0, 1, 0)) == State([0, 1], [Move(0, 0, 1), Move(0, 1, 0)]);
  }

  /** Uphill and back: the hotter queue gives its bucket to the other one, which then, the first one being
      the only queue still free, gives the same bucket back uphill. */
  lemma MoveGoesBackUphill()
    ensures var sources: seq<nat> := [0, 1];
      var away, back := Move(0, 0, 1), Move(0, 1, 0);
      var trace := [State([0, 1], []), State([1, 1], [away]), State([0, 1], [away, back])];
      && IsSourceOrder(TWO_HOT.heat, 0.5, sources) && IsRun(TWO_HOT, [0, 1], sources, trace)
      && TWO_HOT.heat[back.dst] > TWO_HOT.heat[back.src]
  {
    GivesAway();
    GivesBack();
    hide IsTurn;
  }

  // ---------- The scheduler ----------

  class OneshotStatelessScheduler {
    const cfg: Config
    const signal: G.Signal
    var movesThisEpoch: int

    constructor (cfg: Config, signal: G.Signal)
      ensures this.cfg == cfg && this.signal == signal && movesThisEpoch == 0
    {
      this.cfg, this.signal, this.movesThisEpoch := cfg, signal, 0;
    }

    /** The hot queues in the order of the pass. */
    method Sources(heat: seq<real>) returns (sources: seq<nat>)
      ensures IsSourceOrder(heat, cfg.tauHot, sources)
    {
      var mask := seq(|heat|, q requires 0 <= q < |heat| => heat[q] > cfg.tauHot);
      sources := WhereDescending(mask, heat);
    }

    /** The heaviest bucket of a queue, if it owns one. */
    method Heaviest(x: Context, table: seq<nat>, src: nat) returns (b: Option<nat>)
      requires |table| == |x.weight|
      ensures b.None? <==> !G.Owns(table, src)
      ensures b.Some? ==> IsHeaviest(x, table, src, b.value)
    {
      b := None;
      var c := 0;
      while c < |table|
        invariant c <= |table|
        invariant b.None? ==> forall d :: 0 <= d < c ==> table[d] != src
        invariant b.Some? ==> b.value < c && table[b.value] == src
        invariant b.Some? ==> forall d: nat :: d < c && table[d] == src ==>
          x.weight[d] < x.weight[b.value] || (x.weight[d] == x.weight[b.value] && b.value <= d)
      {
        if table[c] == src && (b.None? || x.weight[c] > x.weight[b.value]) {
          b := Some(c);
        }
        c := c + 1;
      }
    }

    /** The coolest queue other than the source that received nothing yet. */
    method Coolest(x: Context, ghost log: seq<Move>, used: set<nat>, src: nat) returns (dst: Option<nat>)
      requires forall q: nat :: q in used <==> Used(log, q)
      ensures dst.None? ==> forall q: nat :: !Free(x, log, src, q)
      ensures dst.Some? ==> IsCoolest(x, log, src, dst.value)
    {
      dst := None;
      var q := 0;
      while q < |x.heat|
        invariant q <= |x.heat|
        invariant dst.None? ==> forall p: nat :: p < q ==> !Free(x, log, src, p)
        invariant dst.Some? ==> Free(x, log, src, dst.value)
        invariant dst.Some? ==> forall p: nat :: p < q && Free(x, log, src, p) ==> x.heat[dst.value] <= x.heat[p]
      {
        hide Used;
        if q != src && q !in used && (dst.None? || x.heat[q] < x.heat[dst.value]) {
          dst := Some(q);
        }
        q := q + 1;
      }
    }

    /** One pass over the hot queues. The ghost results are their order and the run of the pass, which
        ends with the last hot queue or at the first one that breaks the loop. */
    method Step(pressure: seq<real>, bucketBytes: seq<real>, currentTable: seq<nat>, risk: seq<real>)
      returns (newTable: seq<nat>, ghost sources: seq<nat>, ghost trace: seq<State>)
      requires risk != [] ==> |risk| == |pressure|
      requires |bucketBytes| == |currentTable| && forall b :: 0 <= b < |currentTable| ==> currentTable[b] < |pressure|
      modifies this
      ensures var heat := G.ComputeSignal(signal, pressure, risk, cfg.alpha);
        var x := Context(heat, bucketBytes, cfg.maxMoves);
        && IsSourceOrder(heat, cfg.tauHot, sources) && IsRun(x, currentTable, sources, trace)
        && var last := trace[|trace| - 1];
          && newTable == last.table && movesThisEpoch == |last.log|
          && (|trace| <= |sources| ==> Breaks(x, last, sources[|trace| - 1]))
      ensures |newTable| == |currentTable| && forall b :: 0 <= b < |newTable| ==> newTable[b] < |pressure|
    {
      var heat := G.ComputeSignal(signal, pressure, risk, cfg.alpha);
      var x := Context(heat, bucketBytes, cfg.maxMoves);
      assert |x.heat| == |pressure| && |x.weight| == |currentTable|;
      var order := Sources(heat);
      sources := order;
      ghost var g := State(currentTable, []);
      trace := [g];
      newTable := currentTable;
      movesThisEpoch := 0;
      var used: set<nat> := {};
      var i := 0;
      hide G.ComputeSignal, IsSourceOrder;
      while i < |order|
        invariant i <= |order| && |trace| == i + 1 && trace[i] == g
        invariant Fits(x, g) && g.table == newTable && |g.log| == movesThisEpoch
        invariant forall q: nat :: q in used <==> Used(g.log, q)
        invariant IsRun(x, currentTable, order, trace)
      {
        var src := order[i];
        if movesThisEpoch >= cfg.maxMoves {
          return;
        }
        var b := Heaviest(x, newTable, src);
        if b.Some? {
          var dst := Coolest(x, g.log, used, src);
          if dst.None? {
            return;
          }
          ghost var m := Move(b.value, src, dst.value);
          assert IsTurn(x, g, src, Moved(g, m));
          UsedNext(g.log, m);
          g := Moved(g, m);
          newTable := newTable[b.value := dst.value];
          used := used + {dst.value};
          movesThisEpoch := movesThisEpoch + 1;
        } else {
          assert IsTurn(x, g, src, g);
        }
        RunExtends(x, currentTable, order, trace, g);
        trace := trace + [g];
        i := i + 1;
      }
    }
  }

  lemma UsedNext(log: seq<Move>, m: Move)
    ensures forall q: nat :: Used(log + [m], q) <==> Used(log, q) || q == m.dst
  {
    forall q: nat ensures Used(log + [m], q) <==> Used(log, q) || q == m.dst {
      if Used(log, q) {
        var i :| 0 <= i < |log| && log[i].dst == q;
        assert (log + [m])[i].dst == q;
      }
      assert (log + [m])[|log|].dst == m.dst;
    }
  }

  lemma RunExtends(x: Context, table: seq<nat>, sources: seq<nat>, trace: seq<State>, g: State)
    requires IsRun(x, table, sources, trace) && |trace| <= |sources|
    requires IsTurn(x, trace[|trace| - 1], sources[|trace| - 1], g)
    ensures IsRun(x, table, sources, trace + [g])
  {
    var t := trace + [g];
    hide IsTurn;
    forall i | 0 <= i < |t| - 1 ensures IsTurn(x, t[i], sources[i], t[i + 1]) {
      if i < |trace| - 1 {
        assert IsTurn(x, trace[i], sources[i], trace[i + 1]);
      }
    }
  }
}

/** The window loop of the composite workload for one traffic class, as values; the loops are in FlowPool.dfy. */
module FairShare {
  import opened Common

  /** Bytes a flow sent in one window. */
  datatype Emission = Emission(start: int, end: int, bytes: real)

  datatype Flow = Flow(total: nat, rate: real, end: int, emissions: seq<Emission>)

  /** Sampled attributes of a new flow: at least 10 Mbit/s and 1 ns long. */
  datatype Draw = Draw(size: nat, rate: real, duration: int) {
    predicate Valid() {
      rate > 0.0 && duration >= 1
    }
  }

  /** A flow that may still send: its place in the list of all flows and its remaining bytes. */
  datatype Alive = Alive(id: nat, rem: real)

  datatype Pool = Pool(flows: seq<Flow>, alive: seq<Alive>)

  datatype Window = Window(start: int, end: int, target: real)

  const MAX_SPAWN := 4000
  const MAX_ALIVE := 50_000

  // ---------- Nominal bytes ----------

  function Overlap(f: Flow, w: Window): (d: int)
    ensures d >= 0
  {
    MaxInt(0, MinInt(f.end, w.end) - w.start)
  }

  /** What the flow would send in the window on its own. */
  function Nominal(f: Flow, rem: real, w: Window): real {
    Min(rem, Ratio(Portion(f.rate, Overlap(f, w) as real), 8.0e9))
  }

  function Spawned(d: Draw, start: int): Flow
    requires d.Valid()
  {
    Flow(d.size, d.rate, start + MinInt(Ratio(d.size as real * 8.0 * 1.0e9, d.rate).Floor, d.duration), [])
  }

  predicate Entries(flows: seq<Flow>, es: seq<Alive>) {
    forall i :: 0 <= i < |es| ==> es[i].id < |flows|
  }

  function SumNominal(flows: seq<Flow>, es: seq<Alive>, w: Window): real
    requires Entries(flows, es)
  {
    if es == [] then 0.0
    else
      var e := es[|es| - 1];
      SumNominal(flows, es[..|es| - 1], w) + Nominal(flows[e.id], e.rem, w)
  }

  lemma {:induction false} SumNominalFlows(a: seq<Flow>, b: seq<Flow>, es: seq<Alive>, w: Window)
    requires Entries(a, es) && a <= b
    ensures Entries(b, es) && SumNominal(a, es, w) == SumNominal(b, es, w)
  {
    if es != [] {
      hide Nominal;
      SumNominalFlows(a, b, es[..|es| - 1], w);
      assert a[es[|es| - 1].id] == b[es[|es| - 1].id];
    }
  }

  /** What a new flow adds to the nominal bytes. */
  lemma SumNominalSpawn(flows: seq<Flow>, es: seq<Alive>, w: Window, f: Flow, e: Alive)
    requires Entries(flows, es) && e.id == |flows|
    ensures Entries(flows + [f], es + [e])
    ensures SumNominal(flows + [f], es + [e], w) == SumNominal(flows, es, w) + Nominal(f, e.rem, w)
  {
    SumNominalFlows(flows, flows + [f], es, w);
    assert (es + [e])[..|es|] == es;
    hide Nominal;
  }

  // ---------- One window ----------

  /** Flows carried over that are neither finished nor expired. */
  function Keep(flows: seq<Flow>, alive: seq<Alive>, w: Window): (es: seq<Alive>)
    requires Entries(flows, alive)
    ensures Entries(flows, es)
  {
    if alive == [] then []
    else
      var e := alive[|alive| - 1];
      Keep(flows, alive[..|alive| - 1], w) + if e.rem <= 0.0 || flows[e.id].end <= w.start then [] else [e]
  }

  /** Enough draws for the spawn cap. */
  predicate DrawsValid(draws: seq<Draw>) {
    |draws| >= MAX_SPAWN && forall i :: 0 <= i < |draws| ==> draws[i].Valid()
  }

  /** All flows after k spawns in the window. */
  function SpawnedTo(flows: seq<Flow>, w: Window, draws: seq<Draw>, k: nat): (r: seq<Flow>)
    requires DrawsValid(draws) && k <= |draws|
    ensures |r| == |flows| + k
  {
    if k == 0 then flows else SpawnedTo(flows, w, draws, k - 1) + [Spawned(draws[k - 1], w.start)]
  }

  /** The flows of the window after k spawns: the kept ones, then the new ones. */
  function EntriesTo(flows: seq<Flow>, kept: seq<Alive>, draws: seq<Draw>, k: nat): (es: seq<Alive>)
    requires Entries(flows, kept) && k <= |draws|
    ensures |es| == |kept| + k
    ensures forall i :: 0 <= i < |es| ==> es[i].id < |flows| + k
  {
    if k == 0 then kept
    else EntriesTo(flows, kept, draws, k - 1) + [Alive(|flows| + k - 1, draws[k - 1].size as real)]
  }

  function SumTo(flows: seq<Flow>, kept: seq<Alive>, w: Window, draws: seq<Draw>, k: nat): real
    requires Entries(flows, kept) && DrawsValid(draws) && k <= |draws|
  {
    SumNominal(SpawnedTo(flows, w, draws, k), EntriesTo(flows, kept, draws, k), w)
  }

  /** The spawn loop stops: the target is reached, or one of the two caps is. */
  predicate Stops(flows: seq<Flow>, kept: seq<Alive>, w: Window, draws: seq<Draw>, k: nat)
    requires Entries(flows, kept) && DrawsValid(draws) && k <= |draws|
  {
    SumTo(flows, kept, w, draws, k) >= w.target || k >= MAX_SPAWN || |kept| + k >= MAX_ALIVE
  }

  /** How many flows the loop spawns, from the k-th on. */
  function Spawns(flows: seq<Flow>, kept: seq<Alive>, w: Window, draws: seq<Draw>, k: nat): (n: nat)
    requires Entries(flows, kept) && DrawsValid(draws) && k <= MAX_SPAWN
    ensures k <= n <= MAX_SPAWN && Stops(flows, kept, w, draws, n)
    ensures forall i :: k <= i < n ==> !Stops(flows, kept, w, draws, i)
    decreases |draws| - k
  {
    if Stops(flows, kept, w, draws, k) then k else Spawns(flows, kept, w, draws, k + 1)
  }

  /** The loop guard, in the terms the loop uses. */
  predicate Goes(flows: seq<Flow>, kept: seq<Alive>, w: Window, draws: seq<Draw>, k: nat)
    requires Entries(flows, kept) && DrawsValid(draws) && k <= |draws|
  {
    && SumNominal(SpawnedTo(flows, w, draws, k), EntriesTo(flows, kept, draws, k), w) < w.target
    && k < MAX_SPAWN && |kept| + k < MAX_ALIVE
  }

  /** One turn of the spawn loop. */
  lemma SpawnTurn(flows: seq<Flow>, kept: seq<Alive>, w: Window, draws: seq<Draw>, k: nat)
    requires Entries(flows, kept) && DrawsValid(draws) && k < MAX_SPAWN && Goes(flows, kept, w, draws, k)
    ensures Spawns(flows, kept, w, draws, k) == Spawns(flows, kept, w, draws, k + 1)
    ensures SpawnedTo(flows, w, draws, k + 1) == SpawnedTo(flows, w, draws, k) + [Spawned(draws[k], w.start)]
    ensures EntriesTo(flows, kept, draws, k + 1)
        == EntriesTo(flows, kept, draws, k) + [Alive(|flows| + k, draws[k].size as real)]
  {
    hide SumNominal, Spawned;
  }

  lemma SpawnEnd(flows: seq<Flow>, kept: seq<Alive>, w: Window, draws: seq<Draw>, k: nat)
    requires Entries(flows, kept) && DrawsValid(draws) && k <= MAX_SPAWN && !Goes(flows, kept, w, draws, k)
    ensures Spawns(flows, kept, w, draws, k) == k
  {
    hide SumNominal, Spawned, SpawnedTo, EntriesTo;
  }

  /** The factor by which every flow is throttled. */
  function Scale(sum: real, target: real): real {
    if sum > target && sum > 0.0 then Ratio(target, sum) else 1.0
  }

  function Share(f: Flow, rem: real, w: Window, scale: real): real {
    Portion(Nominal(f, rem, w), scale)
  }

  function Emit(f: Flow, rem: real, w: Window, scale: real): Flow {
    var bytes := Share(f, rem, w, scale);
    if bytes > 0.0 then f.(emissions := f.emissions + [Emission(w.start, w.end, bytes)]) else f
  }

  /** The flows after the first k entries of the window have sent. */
  function EmittedTo(flows: seq<Flow>, es: seq<Alive>, w: Window, scale: real, k: nat): (r: seq<Flow>)
    requires Entries(flows, es) && k <= |es|
    ensures |r| == |flows|
  {
    if k == 0 then flows
    else
      var r, e := EmittedTo(flows, es, w, scale, k - 1), es[k - 1];
      r[e.id := Emit(r[e.id], e.rem, w, scale)]
  }

  /** Which of the first k entries stay alive, with what is left to send. */
  function AliveTo(flows: seq<Flow>, es: seq<Alive>, w: Window, scale: real, k: nat): seq<Alive>
    requires Entries(flows, es) && k <= |es|
  {
    if k == 0 then []
    else
      var e := es[k - 1];
      var left := e.rem - Share(flows[e.id], e.rem, w, scale);
      AliveTo(flows, es, w, scale, k - 1) + if left > 0.0 && flows[e.id].end > w.end then [Alive(e.id, left)] else []
  }

  lemma {:induction false} AliveEntries(flows: seq<Flow>, es: seq<Alive>, w: Window, scale: real, k: nat)
    requires Entries(flows, es) && k <= |es|
    ensures Entries(flows, AliveTo(flows, es, w, scale, k))
  {
    if k > 0 {
      AliveEntries(flows, es, w, scale, k - 1);
      hide Share;
    }
  }

  /** The entries of a window, once spawning is over. */
  function WindowEntries(p: Pool, w: Window, draws: seq<Draw>): (es: seq<Alive>)
    requires Entries(p.flows, p.alive) && DrawsValid(draws)
    ensures Entries(WindowFlows(p, w, draws), es)
  {
    var kept := Keep(p.flows, p.alive, w);
    EntriesTo(p.flows, kept, draws, Spawns(p.flows, kept, w, draws, 0))
  }

  function WindowFlows(p: Pool, w: Window, draws: seq<Draw>): (r: seq<Flow>)
    requires Entries(p.flows, p.alive) && DrawsValid(draws)
    ensures |r| == |p.flows| + Spawns(p.flows, Keep(p.flows, p.alive, w), w, draws, 0)
  {
    SpawnedTo(p.flows, w, draws, Spawns(p.flows, Keep(p.flows, p.alive, w), w, draws, 0))
  }

  function WindowScale(p: Pool, w: Window, draws: seq<Draw>): real
    requires Entries(p.flows, p.alive) && DrawsValid(draws)
  {
    Scale(SumNominal(WindowFlows(p, w, draws), WindowEntries(p, w, draws), w), w.target)
  }

  function AfterWindow(p: Pool, w: Window, draws: seq<Draw>): Pool
    requires Entries(p.flows, p.alive) && DrawsValid(draws)
  {
    var flows, es, scale := WindowFlows(p, w, draws), WindowEntries(p, w, draws), WindowScale(p, w, draws);
    Pool(EmittedTo(flows, es, w, scale, |es|), AliveTo(flows, es, w, scale, |es|))
  }

  // ---------- The invariant ----------

  function Sent(emissions: seq<Emission>): real {
    if emissions == [] then 0.0 else Sent(emissions[..|emissions| - 1]) + emissions[|emissions| - 1].bytes
  }

  /** Emissions lie in successive windows, the last one over by time t. */
  ghost predicate Successive(emissions: seq<Emission>, t: int) {
    && (forall i :: 0 <= i < |emissions| ==>
        0 <= emissions[i].start < emissions[i].end <= t && emissions[i].bytes > 0.0)
    && (forall i, j :: 0 <= i < j < |emissions| ==> emissions[i].end <= emissions[j].start)
  }

  /** No flow sends more than its size, nor twice in a window. */
  ghost predicate FlowOk(f: Flow, t: int) {
    Successive(f.emissions, t) && Sent(f.emissions) <= f.total as real && f.rate > 0.0
  }

  ghost predicate FlowsOk(flows: seq<Flow>, t: int) {
    forall i :: 0 <= i < |flows| ==> FlowOk(flows[i], t)
  }

  /** Entries name distinct flows and hold what these have left to send. */
  ghost predicate EntriesOk(flows: seq<Flow>, es: seq<Alive>) {
    && Entries(flows, es)
    && (forall i, j :: 0 <= i < j < |es| ==> es[i].id != es[j].id)
    && (forall i :: 0 <= i < |es| ==> es[i].rem == flows[es[i].id].total as real - Sent(flows[es[i].id].emissions))
  }

  ghost predicate PoolOk(p: Pool, t: int) {
    FlowsOk(p.flows, t) && EntriesOk(p.flows, p.alive)
  }

  lemma ShareBounds(f: Flow, rem: real, w: Window, scale: real)
    requires f.rate > 0.0 && rem >= 0.0 && 0.0 <= scale <= 1.0
    ensures 0.0 <= Share(f, rem, w, scale) <= Nominal(f, rem, w) <= rem
  {
    var n := Nominal(f, rem, w);
    MulNonNegative(f.rate, Overlap(f, w) as real);
    assert n >= 0.0;
    MulNonNegative(n, scale);
    MulNonNegative(n, 1.0 - scale);
  }

  /** A flow that sends its share in a window after all its earlier ones stays within its size. */
  lemma EmitKeepsFlow(f: Flow, rem: real, w: Window, scale: real, t: int)
    requires FlowOk(f, t) && 0 <= w.start < w.end && t <= w.start && 0.0 <= scale <= 1.0
    requires rem == f.total as real - Sent(f.emissions)
    ensures FlowOk(Emit(f, rem, w, scale), w.end)
    ensures Sent(Emit(f, rem, w, scale).emissions) == Sent(f.emissions) + Share(f, rem, w, scale)
  {
    ShareBounds(f, rem, w, scale);
    hide Share, Nominal, Overlap;
    var f' := Emit(f, rem, w, scale);
    if Share(f, rem, w, scale) > 0.0 {
      assert f'.emissions[..|f'.emissions| - 1] == f.emissions;
    }
  }

  lemma ScaleInUnit(sum: real, target: real)
    requires target >= 0.0
    ensures 0.0 <= Scale(sum, target) <= 1.0
    ensures Portion(sum, Scale(sum, target)) == Min(sum, target) || sum <= 0.0
  {
    if sum > target && sum > 0.0 {
      var f := Ratio(target, sum);
      assert f * sum == target;
    }
  }

  lemma OkLater(flows: seq<Flow>, t: int, u: int)
    requires FlowsOk(flows, t) && t <= u
    ensures FlowsOk(flows, u)
  {
    forall i | 0 <= i < |flows| ensures FlowOk(flows[i], u) {
      assert FlowOk(flows[i], t);
    }
  }

  // ---------- Spawning keeps the invariant ----------

  lemma {:induction false} KeptAreAlive(flows: seq<Flow>, alive: seq<Alive>, w: Window)
    requires Entries(flows, alive)
    ensures forall e :: e in Keep(flows, alive, w) ==> e in alive
  {
    if alive != [] {
      KeptAreAlive(flows, alive[..|alive| - 1], w);
    }
  }

  lemma {:induction false} KeepOk(flows: seq<Flow>, alive: seq<Alive>, w: Window)
    requires EntriesOk(flows, alive)
    ensures EntriesOk(flows, Keep(flows, alive, w))
    ensures forall i :: 0 <= i < |Keep(flows, alive, w)| ==> Keep(flows, alive, w)[i].rem > 0.0
  {
    if alive != [] {
      var n := |alive| - 1;
      KeepOk(flows, alive[..n], w);
      KeptAreAlive(flows, alive[..n], w);
      hide Sent;
      var front := Keep(flows, alive[..n], w);
      forall i | 0 <= i < |front| ensures front[i].id != alive[n].id {
        assert front[i] in alive[..n];
      }
    }
  }

  lemma {:induction false} SpawnOk(flows: seq<Flow>, kept: seq<Alive>, w: Window, draws: seq<Draw>, t: int, k: nat)
    requires FlowsOk(flows, t) && EntriesOk(flows, kept) && DrawsValid(draws) && k <= |draws|
    requires forall i :: 0 <= i < |kept| ==> kept[i].rem > 0.0
    ensures FlowsOk(SpawnedTo(flows, w, draws, k), t)
    ensures EntriesOk(SpawnedTo(flows, w, draws, k), EntriesTo(flows, kept, draws, k))
    ensures forall i :: 0 <= i < |EntriesTo(flows, kept, draws, k)| ==> EntriesTo(flows, kept, draws, k)[i].rem >= 0.0
    ensures SpawnedTo(flows, w, draws, k)[..|flows|] == flows
  {
    if k > 0 {
      SpawnOk(flows, kept, w, draws, t, k - 1);
      var r, es := SpawnedTo(flows, w, draws, k - 1), EntriesTo(flows, kept, draws, k - 1);
      var f, rem := Spawned(draws[k - 1], w.start), draws[k - 1].size as real;
      assert SpawnedTo(flows, w, draws, k) == r + [f] && EntriesTo(flows, kept, draws, k) == es + [Alive(|r|, rem)];
      NewFlowIsOk(draws[k - 1], w.start, t);
      hide *;
      assert (r + [f])[..|flows|] == r[..|flows|];
      FlowsOkSnoc(r, f, t);
      EntrySpawned(r, es, f, rem);
    }
  }

  lemma NewFlowIsOk(d: Draw, start: int, t: int)
    requires d.Valid()
    ensures var f := Spawned(d, start); FlowOk(f, t) && f.total == d.size >= 0 && Sent(f.emissions) == 0.0
  {
  }

  lemma FlowsOkSnoc(flows: seq<Flow>, f: Flow, t: int)
    requires FlowsOk(flows, t) && FlowOk(f, t)
    ensures FlowsOk(flows + [f], t)
  {
    hide FlowOk;
  }

  /** A flow that has sent nothing joins with all of its bytes to send. */
  lemma {:induction false} EntrySpawned(flows: seq<Flow>, es: seq<Alive>, f: Flow, rem: real)
    requires EntriesOk(flows, es) && rem == f.total as real - Sent(f.emissions)
    ensures EntriesOk(flows + [f], es + [Alive(|flows|, rem)])
  {
    hide Sent;
    forall i | 0 <= i < |es| ensures (flows + [f])[es[i].id] == flows[es[i].id] {
    }
  }

  // ---------- Emission, entry by entry ----------

  ghost predicate Distinct(es: seq<Alive>) {
    forall i, j :: 0 <= i < j < |es| ==> es[i].id != es[j].id
  }

  /** Every entry's flow has sent its share once, every other flow is as before. */
  lemma {:induction false} EmittedAt(flows: seq<Flow>, es: seq<Alive>, w: Window, scale: real, k: nat)
    requires Entries(flows, es) && Distinct(es) && k <= |es|
    ensures forall j :: 0 <= j < k ==>
      EmittedTo(flows, es, w, scale, k)[es[j].id] == Emit(flows[es[j].id], es[j].rem, w, scale)
    ensures forall x :: 0 <= x < |flows| && (forall j :: 0 <= j < k ==> es[j].id != x) ==>
      EmittedTo(flows, es, w, scale, k)[x] == flows[x]
  {
    if k > 0 {
      EmittedAt(flows, es, w, scale, k - 1);
      hide Emit;
    }
  }

  /** All flows of the system: bytes sent so far. */
  function Grand(flows: seq<Flow>): real {
    if flows == [] then 0.0 else Grand(flows[..|flows| - 1]) + Sent(flows[|flows| - 1].emissions)
  }

  lemma {:induction false} GrandUpdate(flows: seq<Flow>, i: nat, f: Flow)
    requires i < |flows|
    ensures Grand(flows[i := f]) == Grand(flows) - Sent(flows[i].emissions) + Sent(f.emissions)
  {
    var n := |flows| - 1;
    if i < n {
      GrandUpdate(flows[..n], i, f);
      assert flows[i := f][..n] == flows[..n][i := f];
    } else {
      assert flows[i := f][..n] == flows[..n];
    }
  }

  lemma {:induction false} GrandSpawned(flows: seq<Flow>, w: Window, draws: seq<Draw>, k: nat)
    requires DrawsValid(draws) && k <= |draws|
    ensures Grand(SpawnedTo(flows, w, draws, k)) == Grand(flows)
  {
    if k > 0 {
      GrandSpawned(flows, w, draws, k - 1);
      var r := SpawnedTo(flows, w, draws, k - 1);
      assert (r + [Spawned(draws[k - 1], w.start)])[..|r|] == r;
    }
  }

  /** What one entry adds to the bytes sent. */
  lemma EmittedStep(flows: seq<Flow>, es: seq<Alive>, w: Window, scale: real, t: int, k: nat)
    requires EntriesOk(flows, es) && FlowsOk(flows, t) && 0 < k <= |es|
    requires 0 <= w.start < w.end && t <= w.start && 0.0 <= scale <= 1.0
    ensures Grand(EmittedTo(flows, es, w, scale, k))
         == Grand(EmittedTo(flows, es, w, scale, k - 1))
             + Portion(Nominal(flows[es[k - 1].id], es[k - 1].rem, w), scale)
  {
    var e := es[k - 1];
    EmittedAt(flows, es, w, scale, k - 1);
    var r := EmittedTo(flows, es, w, scale, k - 1);
    assert r[e.id] == flows[e.id];
    assert FlowOk(flows[e.id], t);
    EmitKeepsFlow(flows[e.id], e.rem, w, scale, t);
    GrandUpdate(r, e.id, Emit(flows[e.id], e.rem, w, scale));
    hide Emit, Nominal, Sent, FlowOk, Grand, Portion;
  }

  /** Nominal bytes of the first k entries. */
  function NominalTo(flows: seq<Flow>, es: seq<Alive>, w: Window, k: nat): real
    requires Entries(flows, es) && k <= |es|
  {
    SumNominal(flows, es[..k], w)
  }

  lemma NominalLast(flows: seq<Flow>, es: seq<Alive>, w: Window, scale: real, k: nat)
    requires Entries(flows, es) && 0 < k <= |es|
    ensures Portion(NominalTo(flows, es, w, k), scale)
         == Portion(NominalTo(flows, es, w, k - 1), scale)
             + Portion(Nominal(flows[es[k - 1].id], es[k - 1].rem, w), scale)
  {
    assert es[..k][..k - 1] == es[..k - 1];
    var last := Nominal(flows[es[k - 1].id], es[k - 1].rem, w);
    assert NominalTo(flows, es, w, k) == NominalTo(flows, es, w, k - 1) + last;
    hide *;
    PortionAdds(NominalTo(flows, es, w, k - 1), last, scale);
  }

  lemma EmittedNone(flows: seq<Flow>, es: seq<Alive>, w: Window, scale: real)
    requires Entries(flows, es)
    ensures EmittedTo(flows, es, w, scale, 0) == flows && Portion(NominalTo(flows, es, w, 0), scale) == 0.0
  {
  }

  lemma {:induction false} EmittedSum(flows: seq<Flow>, es: seq<Alive>, w: Window, scale: real, t: int, k: nat)
    requires Entries(flows, es) && EntriesOk(flows, es) && FlowsOk(flows, t) && k <= |es|
    requires 0 <= w.start < w.end && t <= w.start && 0.0 <= scale <= 1.0
    ensures Grand(EmittedTo(flows, es, w, scale, k)) == Grand(flows) + Portion(NominalTo(flows, es, w, k), scale)
  {
    hide *;
    if k == 0 {
      EmittedNone(flows, es, w, scale);
    } else {
      EmittedSum(flows, es, w, scale, t, k - 1);
      EmittedStep(flows, es, w, scale, t, k);
      NominalLast(flows, es, w, scale, k);
    }
  }

  lemma PortionAdds(x: real, y: real, f: real)
    ensures Portion(x + y, f) == Portion(x, f) + Portion(y, f)
  {
  }

  lemma {:induction false} NominalSumNonNegative(flows: seq<Flow>, es: seq<Alive>, w: Window)
    requires Entries(flows, es)
    requires forall i :: 0 <= i < |flows| ==> flows[i].rate > 0.0
    requires forall i :: 0 <= i < |es| ==> es[i].rem >= 0.0
    ensures SumNominal(flows, es, w) >= 0.0
  {
    if es != [] {
      var e := es[|es| - 1];
      NominalSumNonNegative(flows, es[..|es| - 1], w);
      ShareBounds(flows[e.id], e.rem, w, 1.0);
      hide Nominal, Share;
    }
  }

  /** The state of a window between spawning and emission. */
  lemma WindowSetting(p: Pool, w: Window, draws: seq<Draw>, t: int)
    requires PoolOk(p, t) && DrawsValid(draws)
    ensures var flows, es := WindowFlows(p, w, draws), WindowEntries(p, w, draws);
      && FlowsOk(flows, t) && EntriesOk(flows, es) && Grand(flows) == Grand(p.flows)
      && SumNominal(flows, es, w) >= 0.0
  {
    KeepOk(p.flows, p.alive, w);
    var kept := Keep(p.flows, p.alive, w);
    var n := Spawns(p.flows, kept, w, draws, 0);
    SpawnOk(p.flows, kept, w, draws, t, n);
    GrandSpawned(p.flows, w, draws, n);
    hide Keep, Spawns, SpawnedTo, EntriesTo, Grand, SumNominal, Sent;
    NominalSumNonNegative(WindowFlows(p, w, draws), WindowEntries(p, w, draws), w);
  }

  // ---------- Main results of one window ----------

  /** A window sends min(target, total nominal): exactly the target, unless the spawn loop was stopped
      by one of its caps before the nominal bytes reached it. */
  lemma WindowSendsTarget(p: Pool, w: Window, draws: seq<Draw>, t: int)
    requires PoolOk(p, t) && DrawsValid(draws)
    requires 0 <= w.start < w.end && t <= w.start && w.target >= 0.0
    ensures var nominal := SumNominal(WindowFlows(p, w, draws), WindowEntries(p, w, draws), w);
      && Grand(AfterWindow(p, w, draws).flows) - Grand(p.flows) == Min(w.target, nominal)
      && (nominal < w.target ==>
          |WindowFlows(p, w, draws)| - |p.flows| == 4000 || |WindowEntries(p, w, draws)| >= 50_000)
  {
    assert Entries(p.flows, p.alive);
    hide *;
    var flows, es, scale := WindowFlows(p, w, draws), WindowEntries(p, w, draws), WindowScale(p, w, draws);
    var sum := SumNominal(flows, es, w);
    WindowSetting(p, w, draws, t);
    SpawnStops(p, w, draws);
    WindowShape(p, w, draws);
    ScaleInUnit(sum, w.target);
    ThrottledSum(sum, w.target);
    EmittedSum(flows, es, w, scale, t, |es|);
  }

  /** What a window makes of its flows, in terms of the emissions of all its entries. */
  lemma WindowShape(p: Pool, w: Window, draws: seq<Draw>)
    requires Entries(p.flows, p.alive) && DrawsValid(draws)
    ensures var flows, es, scale := WindowFlows(p, w, draws), WindowEntries(p, w, draws), WindowScale(p, w, draws);
      && AfterWindow(p, w, draws).flows == EmittedTo(flows, es, w, scale, |es|)
      && scale == Scale(SumNominal(flows, es, w), w.target)
      && NominalTo(flows, es, w, |es|) == SumNominal(flows, es, w)
  {
    hide WindowFlows, WindowEntries, EmittedTo, AliveTo, SumNominal, Scale;
    var es := WindowEntries(p, w, draws);
    assert es[..|es|] == es;
  }

  lemma ThrottledSum(sum: real, target: real)
    requires sum >= 0.0 && target >= 0.0
    ensures Portion(sum, Scale(sum, target)) == Min(target, sum)
  {
    if sum > 0.0 {
      ScaleInUnit(sum, target);
      hide Portion, Scale;
    }
  }

  /** Why the spawn loop stopped. */
  lemma SpawnStops(p: Pool, w: Window, draws: seq<Draw>)
    requires Entries(p.flows, p.alive) && DrawsValid(draws)
    ensures var flows, es := WindowFlows(p, w, draws), WindowEntries(p, w, draws);
      && |flows| - |p.flows| <= MAX_SPAWN
      && (SumNominal(flows, es, w) >= w.target || |flows| - |p.flows| == MAX_SPAWN || |es| >= MAX_ALIVE)
  {
  }

  lemma {:induction false} AliveComeFrom(flows: seq<Flow>, es: seq<Alive>, w: Window, scale: real, k: nat)
    requires Entries(flows, es) && k <= |es|
    ensures forall a :: a in AliveTo(flows, es, w, scale, k) ==>
      exists j :: 0 <= j < k && a == Alive(es[j].id, es[j].rem - Share(flows[es[j].id], es[j].rem, w, scale))
  {
    if k > 0 {
      AliveComeFrom(flows, es, w, scale, k - 1);
      hide Share;
    }
  }

  lemma {:induction false} AliveDistinct(flows: seq<Flow>, es: seq<Alive>, w: Window, scale: real, k: nat)
    requires Entries(flows, es) && Distinct(es) && k <= |es|
    ensures Distinct(AliveTo(flows, es, w, scale, k))
  {
    if k > 0 {
      AliveDistinct(flows, es, w, scale, k - 1);
      AliveComeFrom(flows, es, w, scale, k - 1);
      hide Share;
      var front := AliveTo(flows, es, w, scale, k - 1);
      forall i | 0 <= i < |front| ensures front[i].id != es[k - 1].id {
        assert front[i] in front;
      }
    }
  }

  /** One window keeps the invariant: no flow exceeds its size, windows of a flow are successive, and
      what is remembered as remaining is what is left to send. */
  lemma WindowKeepsOk(p: Pool, w: Window, draws: seq<Draw>, t: int)
    requires PoolOk(p, t) && DrawsValid(draws)
    requires 0 <= w.start < w.end && t <= w.start && w.target >= 0.0
    ensures PoolOk(AfterWindow(p, w, draws), w.end)
  {
    WindowSetting(p, w, draws, t);
    var flows, es, scale := WindowFlows(p, w, draws), WindowEntries(p, w, draws), WindowScale(p, w, draws);
    ScaleInUnit(SumNominal(flows, es, w), w.target);
    hide WindowFlows, WindowEntries, Scale, SumNominal, Grand;
    EmissionKeepsOk(flows, es, w, scale, t);
  }

  /** The flow of each entry after the window. */
  lemma EntryFlow(flows: seq<Flow>, es: seq<Alive>, w: Window, scale: real, t: int, j: nat)
    requires FlowsOk(flows, t) && EntriesOk(flows, es) && j < |es|
    requires 0 <= w.start < w.end && t <= w.start && 0.0 <= scale <= 1.0
    ensures var f, r := flows[es[j].id], EmittedTo(flows, es, w, scale, |es|)[es[j].id];
      && FlowOk(r, w.end) && r.total == f.total
      && Sent(r.emissions) == Sent(f.emissions) + Share(f, es[j].rem, w, scale)
  {
    EmittedAt(flows, es, w, scale, |es|);
    hide EmittedTo, Share, Sent, FlowOk;
    EmitKeepsFlow(flows[es[j].id], es[j].rem, w, scale, t);
  }

  lemma EmittedFlowsOk(flows: seq<Flow>, es: seq<Alive>, w: Window, scale: real, t: int)
    requires FlowsOk(flows, t) && EntriesOk(flows, es)
    requires 0 <= w.start < w.end && t <= w.start && 0.0 <= scale <= 1.0
    ensures FlowsOk(EmittedTo(flows, es, w, scale, |es|), w.end)
  {
    EmittedAt(flows, es, w, scale, |es|);
    OkLater(flows, t, w.end);
    var r := EmittedTo(flows, es, w, scale, |es|);
    hide EmittedTo, Share, Emit, Sent, FlowOk;
    forall x | 0 <= x < |r| ensures FlowOk(r[x], w.end) {
      if j: nat :| j < |es| && es[j].id == x {
        EntryFlow(flows, es, w, scale, t, j);
      }
    }
  }

  lemma EmissionKeepsOk(flows: seq<Flow>, es: seq<Alive>, w: Window, scale: real, t: int)
    requires FlowsOk(flows, t) && EntriesOk(flows, es)
    requires 0 <= w.start < w.end && t <= w.start && 0.0 <= scale <= 1.0
    ensures PoolOk(Pool(EmittedTo(flows, es, w, scale, |es|), AliveTo(flows, es, w, scale, |es|)), w.end)
  {
    EmittedFlowsOk(flows, es, w, scale, t);
    var r, alive := EmittedTo(flows, es, w, scale, |es|), AliveTo(flows, es, w, scale, |es|);
    AliveComeFrom(flows, es, w, scale, |es|);
    AliveDistinct(flows, es, w, scale, |es|);
    hide EmittedTo, AliveTo, Share, Sent, FlowOk, FlowsOk;
    forall i | 0 <= i < |alive|
      ensures alive[i].id < |r| && alive[i].rem == r[alive[i].id].total as real - Sent(r[alive[i].id].emissions)
    {
      assert alive[i] in alive;
      var j: nat :| j < |es| && alive[i] == Alive(es[j].id, es[j].rem - Share(flows[es[j].id], es[j].rem, w, scale));
      EntryFlow(flows, es, w, scale, t, j);
    }
  }

  // ---------- Whole runs ----------

  /** The byte target of a window and the draws available in it. */
  datatype Layer = Layer(target: real, draws: seq<Draw>)

  /** A horizon cut into periods, with the targets and draws of its windows. */
  datatype Plan = Plan(period: int, horizon: int, layers: seq<Layer>) {
    predicate Valid() {
      forall i :: 0 <= i < |layers| ==> layers[i].target >= 0.0 && DrawsValid(layers[i].draws)
    }

    /** The last window may be shorter than a period. */
    function WindowAt(i: nat): Window
      requires i < |layers|
    {
      Window(i * period, MinInt((i + 1) * period, horizon), layers[i].target)
    }

    /** Windows without length are skipped. */
    predicate Skipped(i: nat)
      requires i < |layers|
    {
      WindowAt(i).end - WindowAt(i).start <= 0
    }

    /** The end of the first n windows. */
    function Clock(n: nat): int {
      MaxInt(0, MinInt(n * period, horizon))
    }
  }

  /** The pool after the first n windows. */
  function After(c: Plan, n: nat): (p: Pool)
    requires c.Valid() && n <= |c.layers|
    ensures Entries(p.flows, p.alive)
  {
    if n == 0 then Pool([], [])
    else if c.Skipped(n - 1) then After(c, n - 1)
    else
      WindowKeepsEntries(After(c, n - 1), c.WindowAt(n - 1), c.layers[n - 1].draws);
      AfterWindow(After(c, n - 1), c.WindowAt(n - 1), c.layers[n - 1].draws)
  }

  lemma WindowKeepsEntries(p: Pool, w: Window, draws: seq<Draw>)
    requires Entries(p.flows, p.alive) && DrawsValid(draws)
    ensures Entries(AfterWindow(p, w, draws).flows, AfterWindow(p, w, draws).alive)
  {
    var flows, es := WindowFlows(p, w, draws), WindowEntries(p, w, draws);
    hide WindowFlows, WindowEntries, WindowScale;
    AliveEntries(flows, es, w, WindowScale(p, w, draws), |es|);
  }

  lemma ClockStep(c: Plan, i: nat)
    requires i < |c.layers|
    ensures 0 <= c.Clock(i) <= c.Clock(i + 1) <= MaxInt(0, c.horizon)
    ensures var w := c.WindowAt(i);
      !c.Skipped(i) ==> 0 <= w.start < w.end && c.Clock(i) <= w.start && c.Clock(i + 1) == w.end
  {
    var p := c.period;
    assert (i + 1) * p == i * p + p;
    if p < 0 {
      assert i * p <= 0;
    } else {
      assert i * p >= 0;
    }
  }

  lemma ClockWithin(c: Plan, n: nat)
    ensures 0 <= c.Clock(n) <= MaxInt(0, c.horizon)
  {
  }

  /** The targets of the first n windows, skipped ones left out. */
  function SumTargets(c: Plan, n: nat): real
    requires n <= |c.layers|
  {
    if n == 0 then 0.0 else SumTargets(c, n - 1) + if c.Skipped(n - 1) then 0.0 else c.WindowAt(n - 1).target
  }

  /** One more window of a run. */
  lemma AfterTurn(c: Plan, n: nat)
    requires c.Valid() && 0 < n <= |c.layers|
    ensures c.WindowAt(n - 1).target >= 0.0 && DrawsValid(c.layers[n - 1].draws)
    ensures c.Skipped(n - 1) ==> After(c, n) == After(c, n - 1) && SumTargets(c, n) == SumTargets(c, n - 1)
    ensures !c.Skipped(n - 1) ==>
      && After(c, n) == AfterWindow(After(c, n - 1), c.WindowAt(n - 1), c.layers[n - 1].draws)
      && SumTargets(c, n) == SumTargets(c, n - 1) + c.WindowAt(n - 1).target
  {
    hide AfterWindow;
  }

  lemma WindowWithinTarget(p: Pool, w: Window, draws: seq<Draw>, t: int)
    requires Entries(p.flows, p.alive) && PoolOk(p, t) && DrawsValid(draws)
    requires 0 <= w.start < w.end && t <= w.start && w.target >= 0.0
    ensures Grand(AfterWindow(p, w, draws).flows) <= Grand(p.flows) + w.target
  {
    WindowSendsTarget(p, w, draws, t);
    hide Grand, AfterWindow, PoolOk, Entries, DrawsValid;
  }

  lemma AfterLast(c: Plan, n: nat)
    requires c.Valid() && 0 < n <= |c.layers| && PoolOk(After(c, n - 1), c.Clock(n - 1))
    ensures PoolOk(After(c, n), c.Clock(n))
    ensures Grand(After(c, n).flows) - Grand(After(c, n - 1).flows) <= SumTargets(c, n) - SumTargets(c, n - 1)
  {
    hide *;
    ClockStep(c, n - 1);
    AfterTurn(c, n);
    var p, w, draws := After(c, n - 1), c.WindowAt(n - 1), c.layers[n - 1].draws;
    if c.Skipped(n - 1) {
      PoolOkLater(p, c.Clock(n - 1), c.Clock(n));
    } else {
      WindowWithinTarget(p, w, draws, c.Clock(n - 1));
      WindowKeepsOk(p, w, draws, c.Clock(n - 1));
    }
  }

  lemma PoolOkLater(p: Pool, t: int, u: int)
    requires PoolOk(p, t) && t <= u
    ensures PoolOk(p, u)
  {
    OkLater(p.flows, t, u);
  }

  lemma NothingSentAtFirst(c: Plan)
    requires c.Valid()
    ensures After(c, 0) == Pool([], [])
    ensures PoolOk(After(c, 0), c.Clock(0)) && Grand(After(c, 0).flows) == SumTargets(c, 0)
  {
  }

  /** Over any horizon the class never sends more than the sum of its window targets. */
  lemma {:induction false} RunNeverOvershoots(c: Plan, n: nat)
    requires c.Valid() && n <= |c.layers|
    ensures PoolOk(After(c, n), c.Clock(n))
    ensures Grand(After(c, n).flows) <= SumTargets(c, n)
  {
    hide *;
    if n == 0 {
      NothingSentAtFirst(c);
    } else {
      RunNeverOvershoots(c, n - 1);
      AfterLast(c, n);
    }
  }

  /** Over any horizon no flow sends more than its size, nor twice in a window, and its windows lie in
      the horizon one after the other. */
  lemma FlowsStayWithinSize(c: Plan, n: nat, i: nat)
    requires c.Valid() && n <= |c.layers| && i < |After(c, n).flows|
    ensures var f := After(c, n).flows[i];
      Sent(f.emissions) <= f.total as real && Successive(f.emissions, c.horizon)
  {
    RunNeverOvershoots(c, n);
    var p := After(c, n);
    ClockWithin(c, n);
    OkLater(p.flows, c.Clock(n), MaxInt(0, c.horizon));
    assert FlowOk(p.flows[i], MaxInt(0, c.horizon));
  }

  // ---------- What the shares are ----------

  /** What a flow would send on its own: all it has left, or its rate for the time from the start of the window to
      the earlier of the ends of flow and window. */
  lemma NominalIsRate(f: Flow, rem: real, w: Window)
    requires f.rate > 0.0 && rem >= 0.0
    ensures var n := Nominal(f, rem, w);
      if f.end <= w.start || w.end <= w.start then n == 0.0
      else
        var time := if f.end < w.end then f.end - w.start else w.end - w.start;
        && 0.0 <= n <= rem && Portion(8.0e9, n) <= Portion(f.rate, time as real)
        && (n == rem || Portion(8.0e9, n) == Portion(f.rate, time as real))
  {
    var d := Overlap(f, w);
    MulNonNegative(f.rate, d as real);
    RatioTimes(Portion(f.rate, d as real));
    if d == 0 {
      assert Portion(f.rate, 0.0) == 0.0;
    }
  }

  lemma RatioTimes(x: real)
    ensures Portion(8.0e9, Ratio(x, 8.0e9)) == x
    ensures x >= 0.0 ==> Ratio(x, 8.0e9) >= 0.0
  {
  }

  /** How long a new flow lives: no longer than drawn, no longer than its bytes last at its rate, and one of the two
      in full. */
  lemma SpawnEnds(d: Draw, start: int)
    requires d.Valid()
    ensures var f := Spawned(d, start);
      var life, bits := f.end - start, Portion(8.0e9, d.size as real);
      && f.rate == d.rate && f.total == d.size && 0 <= life <= d.duration && Portion(d.rate, life as real) <= bits
      && (life == d.duration || bits < Portion(d.rate, (life + 1) as real))
  {
    var bits := d.size as real * 8.0 * 1.0e9;
    var x := Ratio(bits, d.rate);
    assert Portion(d.rate, x) == bits == Portion(8.0e9, d.size as real);
    assert x >= 0.0;
    var n := x.Floor;
    assert n as real <= x < (n + 1) as real;
    ScaledByRate(d.rate, n as real, x);
    ScaledByRate(d.rate, x, (n + 1) as real);
    ScaledByRate(d.rate, MinInt(n, d.duration) as real, n as real);
  }

  lemma ScaledByRate(rate: real, x: real, y: real)
    requires rate > 0.0
    ensures x <= y ==> Portion(rate, x) <= Portion(rate, y)
    ensures x < y ==> Portion(rate, x) < Portion(rate, y)
  {
  }

  /** Throttling is fair: in a window every flow sends the same part of what it would send on its own, and that is
      the part of the total that the target allows. */
  lemma WindowIsFair(p: Pool, w: Window, draws: seq<Draw>, t: int, j: nat)
    requires PoolOk(p, t) && DrawsValid(draws) && j < |WindowEntries(p, w, draws)|
    requires 0 <= w.start < w.end && t <= w.start && w.target >= 0.0
    ensures var flows, es := WindowFlows(p, w, draws), WindowEntries(p, w, draws);
      var all, e := SumNominal(flows, es, w), es[j];
      && e.id < |AfterWindow(p, w, draws).flows|
      && Portion(Sent(AfterWindow(p, w, draws).flows[e.id].emissions) - Sent(flows[e.id].emissions), all)
         == Portion(Nominal(flows[e.id], e.rem, w), Min(w.target, all))
  {
    assert Entries(p.flows, p.alive);
    hide *;
    var flows, es, scale := WindowFlows(p, w, draws), WindowEntries(p, w, draws), WindowScale(p, w, draws);
    var sum, e := SumNominal(flows, es, w), es[j];
    WindowSetting(p, w, draws, t);
    WindowShape(p, w, draws);
    ScaleInUnit(sum, w.target);
    ThrottledSum(sum, w.target);
    EntryFlow(flows, es, w, scale, t, j);
    EntryAt(flows, es, j);
    ShareIs(flows[e.id], e.rem, w, scale);
    var sent := Sent(AfterWindow(p, w, draws).flows[e.id].emissions) - Sent(flows[e.id].emissions);
    SamePart(sent, Nominal(flows[e.id], e.rem, w), scale, sum, Min(w.target, sum));
  }

  lemma SamePart(sent: real, nominal: real, scale: real, sum: real, allowed: real)
    requires sent == Portion(nominal, scale) && Portion(sum, scale) == allowed
    ensures Portion(sent, sum) == Portion(nominal, allowed)
  {
    PortionsCommute(nominal, scale, sum);
  }

  lemma EntryAt(flows: seq<Flow>, es: seq<Alive>, j: nat)
    requires Entries(flows, es) && j < |es|
    ensures es[j].id < |flows|
  {
  }

  lemma ShareIs(f: Flow, rem: real, w: Window, scale: real)
    ensures Share(f, rem, w, scale) == Portion(Nominal(f, rem, w), scale)
  {
  }

  lemma PortionsCommute(x: real, f: real, y: real)
    ensures Portion(Portion(x, f), y) == Portion(x, Portion(y, f))
  {
  }

  lemma {:induction false} KeepIff(flows: seq<Flow>, alive: seq<Alive>, w: Window)
    requires Entries(flows, alive)
    ensures forall e: Alive ::
      e in Keep(flows, alive, w) <==> e in alive && e.id < |flows| && e.rem > 0.0 && flows[e.id].end > w.start
  {
    if alive != [] {
      var n := |alive| - 1;
      KeepIff(flows, alive[..n], w);
      assert alive == alive[..n] + [alive[n]];
    }
  }

  lemma {:induction false} AliveIff(flows: seq<Flow>, es: seq<Alive>, w: Window, scale: real, k: nat)
    requires Entries(flows, es) && Distinct(es) && k <= |es|
    ensures forall j :: 0 <= j < k ==>
      var left := es[j].rem - Share(flows[es[j].id], es[j].rem, w, scale);
      (exists x :: x in AliveTo(flows, es, w, scale, k) && x.id == es[j].id) <==>
      left > 0.0 && flows[es[j].id].end > w.end
  {
    if k > 0 {
      AliveIff(flows, es, w, scale, k - 1);
      AliveComeFrom(flows, es, w, scale, k - 1);
      hide Share;
      var front, all := AliveTo(flows, es, w, scale, k - 1), AliveTo(flows, es, w, scale, k);
      assert forall x :: x in front ==> x in all;
    }
  }

  /** No flow is forgotten and none outstays: after a window an entry is still alive exactly when it has bytes left
      and does not end with the window. */
  lemma WindowKeepsUnfinished(p: Pool, w: Window, draws: seq<Draw>, t: int, j: nat)
    requires PoolOk(p, t) && DrawsValid(draws) && j < |WindowEntries(p, w, draws)|
    requires 0 <= w.start < w.end && t <= w.start && w.target >= 0.0
    ensures var p', id := AfterWindow(p, w, draws), WindowEntries(p, w, draws)[j].id;
      && id < |p'.flows|
      && ((exists x :: x in p'.alive && x.id == id) <==>
          Sent(p'.flows[id].emissions) < p'.flows[id].total as real && p'.flows[id].end > w.end)
  {
    assert Entries(p.flows, p.alive);
    hide *;
    var flows, es, scale := WindowFlows(p, w, draws), WindowEntries(p, w, draws), WindowScale(p, w, draws);
    WindowSetting(p, w, draws, t);
    WindowShape(p, w, draws);
    ScaleInUnit(SumNominal(flows, es, w), w.target);
    EntryFlow(flows, es, w, scale, t, j);
    EntryLeft(flows, es, j);
    AliveIff(flows, es, w, scale, |es|);
    EndsStay(flows, es, w, scale, |es|, es[j].id);
  }

  lemma EntryLeft(flows: seq<Flow>, es: seq<Alive>, j: nat)
    requires EntriesOk(flows, es) && j < |es|
    ensures Distinct(es) && es[j].id < |flows|
    ensures es[j].rem == flows[es[j].id].total as real - Sent(flows[es[j].id].emissions)
  {
  }

  lemma {:induction false} EndsStay(flows: seq<Flow>, es: seq<Alive>, w: Window, scale: real, k: nat, i: nat)
    requires Entries(flows, es) && k <= |es| && i < |flows|
    ensures EmittedTo(flows, es, w, scale, k)[i].end == flows[i].end
  {
    if k > 0 {
      EndsStay(flows, es, w, scale, k - 1, i);
      hide Share;
    }
  }

  /** No flow is spawned without need: without the last new one the flows of the window fell short of the target, and
      neither cap, of spawns in a window or of flows alive, was reached. */
  lemma SpawnsAreNeeded(p: Pool, w: Window, draws: seq<Draw>)
    requires Entries(p.flows, p.alive) && DrawsValid(draws) && |WindowFlows(p, w, draws)| > |p.flows|
    ensures var flows, es := WindowFlows(p, w, draws), WindowEntries(p, w, draws);
      && |es| > 0 && Entries(flows, es) && Entries(flows[..|flows| - 1], es[..|es| - 1])
      && SumNominal(flows[..|flows| - 1], es[..|es| - 1], w) < w.target
      && |flows| - |p.flows| <= 4000 && |es| <= 50_000
  {
    var kept := Keep(p.flows, p.alive, w);
    var n := Spawns(p.flows, kept, w, draws, 0);
    assert !Stops(p.flows, kept, w, draws, n - 1);
    var flows, es := WindowFlows(p, w, draws), WindowEntries(p, w, draws);
    assert flows[..|flows| - 1] == SpawnedTo(p.flows, w, draws, n - 1);
    assert es[..|es| - 1] == EntriesTo(p.flows, kept, draws, n - 1);
  }

  // ---------- The rate of a flow ----------

  /** In no window does a flow send more than its rate allows. */
  ghost predicate WithinRate(f: Flow) {
    forall i :: 0 <= i < |f.emissions| ==>
      var x := f.emissions[i]; Portion(8.0e9, x.bytes) <= Portion(f.rate, (x.end - x.start) as real)
  }

  ghost predicate AllWithinRate(flows: seq<Flow>) {
    forall i :: 0 <= i < |flows| ==> WithinRate(flows[i])
  }

  lemma EmitWithinRate(f: Flow, rem: real, w: Window, scale: real)
    requires f.rate > 0.0 && rem >= 0.0 && 0.0 <= scale <= 1.0 && w.start < w.end && WithinRate(f)
    ensures WithinRate(Emit(f, rem, w, scale))
  {
    NominalIsRate(f, rem, w);
    ShareBounds(f, rem, w, scale);
    var n, x := Nominal(f, rem, w), Share(f, rem, w, scale);
    ScaledByRate(8.0e9, x, n);
    var time := if f.end < w.end then f.end - w.start else w.end - w.start;
    ScaledByRate(f.rate, time as real, (w.end - w.start) as real);
    assert Portion(8.0e9, 0.0) == 0.0 && Portion(f.rate, 0.0) == 0.0;
    ScaledByRate(f.rate, 0.0, (w.end - w.start) as real);
    hide Nominal, Share, Portion;
  }

  lemma {:induction false} EmittedWithinRate(flows: seq<Flow>, es: seq<Alive>, w: Window, scale: real, t: int, k: nat)
    requires EntriesOk(flows, es) && FlowsOk(flows, t) && AllWithinRate(flows) && k <= |es|
    requires 0 <= w.start < w.end && t <= w.start && 0.0 <= scale <= 1.0
    ensures AllWithinRate(EmittedTo(flows, es, w, scale, k))
  {
    if k > 0 {
      EmittedWithinRate(flows, es, w, scale, t, k - 1);
      EmittedAt(flows, es, w, scale, k - 1);
      var e := es[k - 1];
      var r := EmittedTo(flows, es, w, scale, k - 1);
      assert r[e.id] == flows[e.id];
      assert FlowOk(flows[e.id], t);
      hide Emit, WithinRate, Sent;
      assert WithinRate(r[e.id]);
      EmitWithinRate(r[e.id], e.rem, w, scale);
    }
  }

  lemma {:induction false} SpawnedWithinRate(flows: seq<Flow>, w: Window, draws: seq<Draw>, k: nat)
    requires DrawsValid(draws) && k <= |draws| && AllWithinRate(flows)
    ensures AllWithinRate(SpawnedTo(flows, w, draws, k))
  {
    if k > 0 {
      SpawnedWithinRate(flows, w, draws, k - 1);
      assert WithinRate(Spawned(draws[k - 1], w.start));
      hide WithinRate, Spawned;
    }
  }

  lemma WindowWithinRate(p: Pool, w: Window, draws: seq<Draw>, t: int)
    requires PoolOk(p, t) && DrawsValid(draws) && AllWithinRate(p.flows)
    requires 0 <= w.start < w.end && t <= w.start && w.target >= 0.0
    ensures AllWithinRate(AfterWindow(p, w, draws).flows)
  {
    assert Entries(p.flows, p.alive);
    SpawnedWithinRate(p.flows, w, draws, Spawns(p.flows, Keep(p.flows, p.alive, w), w, draws, 0));
    var flows, es, scale := WindowFlows(p, w, draws), WindowEntries(p, w, draws), WindowScale(p, w, draws);
    assert AllWithinRate(flows);
    hide *;
    WindowSetting(p, w, draws, t);
    WindowShape(p, w, draws);
    ScaleInUnit(SumNominal(flows, es, w), w.target);
    EmittedWithinRate(flows, es, w, scale, t, |es|);
  }

  lemma NoFlows()
    ensures AllWithinRate([])
  {
  }

  /** Over any horizon no flow sends more in a window than its rate allows for the window's length. */
  lemma {:induction false} FlowsKeepTheirRate(c: Plan, n: nat)
    requires c.Valid() && n <= |c.layers|
    ensures AllWithinRate(After(c, n).flows)
  {
    hide *;
    if n == 0 {
      NothingSentAtFirst(c);
      NoFlows();
    } else {
      FlowsKeepTheirRate(c, n - 1);
      RunNeverOvershoots(c, n - 1);
      ClockStep(c, n - 1);
      AfterTurn(c, n);
      if !c.Skipped(n - 1) {
        WindowWithinRate(After(c, n - 1), c.WindowAt(n - 1), c.layers[n - 1].draws, c.Clock(n - 1));
      }
    }
  }
}

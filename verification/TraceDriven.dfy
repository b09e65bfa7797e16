/** Runs driven by the program's own data: bins fed from the traces, boundaries from the recorded telemetry. */
module TraceDriven {
  import opened Common
  import CQ = CreditQueue
  import H = Handoffs
  import T = Traces
  import BC = BinConservation
  import R = Redirection
  import RS = ReactiveScheduler
  import TM = Telemetry
  import TT = TelemetryTheorems
  import C = ControlTheorems
  import opened Emulator

  /** The flows of a domain are in step with the clock and hash into its table. */
  ghost predicate Ready(flows: seq<T.Flow>, now: int, table: seq<nat>) {
    && T.AllWellFormed(flows) && T.AllSynced(flows, now)
    && forall i :: 0 <= i < |flows| ==> flows[i].bucket < |table|
  }

  /** The bin of flows up to tEnd, with the arbiter's mask for each domain. */
  function BinOf(sl: seq<T.Flow>, keepSl: seq<bool>, sf: seq<T.Flow>, keepSf: seq<bool>, noise: nat -> real,
      tEnd: int): Event
    requires T.AllWellFormed(sl) && |keepSl| == |T.BinPackets(sl, tEnd)|
    requires T.AllWellFormed(sf) && |keepSf| == |T.BinPackets(sf, tEnd)|
  {
    Bin(BC.Thin(T.BinPackets(sl, tEnd), keepSl, true), BC.Thin(T.BinPackets(sf, tEnd), keepSf, true), noise, tEnd)
  }

  // ---------- Buckets and times survive collection, sorting and thinning ----------

  ghost predicate Within(pkts: seq<Packet>, lo: int, hi: int, buckets: nat) {
    forall p :: p in pkts ==> lo <= p.t < hi && p.bucket < buckets
  }

  lemma SliceBuckets(f: T.Flow, tEnd: int)
    requires T.WellFormed(f)
    ensures forall p :: p in T.Slice(f, tEnd) ==> p.bucket == f.bucket
  {
    var s := T.Slice(f, tEnd);
    assert forall i :: 0 <= i < |s| ==> s[i] == T.PacketAt(f, f.cursor + i);
  }

  lemma {:induction false} CollectedBuckets(flows: seq<T.Flow>, tEnd: int, n: nat)
    requires T.AllWellFormed(flows) && forall i :: 0 <= i < |flows| ==> flows[i].bucket < n
    ensures forall p :: p in T.Collected(flows, tEnd) ==> p.bucket < n
  {
    if flows != [] {
      CollectedBuckets(flows[..|flows| - 1], tEnd, n);
      SliceBuckets(flows[|flows| - 1], tEnd);
      hide T.Slice;
    }
  }

  lemma EmittedWithin(flows: seq<T.Flow>, now: int, tEnd: int, table: seq<nat>)
    requires Ready(flows, now, table) && now <= tEnd
    ensures Within(T.BinPackets(flows, tEnd), now, tEnd, |table|) && TimeOrdered(T.BinPackets(flows, tEnd))
  {
    T.NextBinIsItsWindow(flows, [], now, tEnd);
    T.SortIsStable(T.Collected(flows, tEnd), 0);
    CollectedBuckets(flows, tEnd, |table|);
    hide T.Collected, T.SortByTime, T.AllSynced, T.Window, T.AllPackets;
    forall p | p in T.BinPackets(flows, tEnd) ensures p.bucket < |table| {
      assert p in multiset(T.BinPackets(flows, tEnd));
    }
  }

  lemma {:induction false} ThinMembers(pkts: seq<Packet>, keep: seq<bool>)
    requires |keep| == |pkts|
    ensures forall p :: p in BC.Thin(pkts, keep, true) ==> p in pkts
  {
    if pkts != [] {
      ThinMembers(pkts[..|pkts| - 1], keep[..|pkts| - 1]);
    }
  }

  lemma {:induction false} ThinKeepsOrder(pkts: seq<Packet>, keep: seq<bool>)
    requires |keep| == |pkts| && TimeOrdered(pkts)
    ensures TimeOrdered(BC.Thin(pkts, keep, true))
  {
    if pkts != [] {
      var n := |pkts| - 1;
      ThinKeepsOrder(pkts[..n], keep[..n]);
      ThinMembers(pkts[..n], keep[..n]);
      var front := BC.Thin(pkts[..n], keep[..n], true);
      hide BC.Thin;
      forall i | 0 <= i < |front| ensures front[i].t <= pkts[n].t {
        assert front[i] in pkts[..n];
      }
      assert BC.Thin(pkts, keep, true) == front + [pkts[n]] || BC.Thin(pkts, keep, true) == front by {
        ThinLast(pkts, keep);
      }
    }
  }

  lemma ThinLast(pkts: seq<Packet>, keep: seq<bool>)
    requires |keep| == |pkts| && pkts != []
    ensures var n := |pkts| - 1;
      BC.Thin(pkts, keep, true) == BC.Thin(pkts[..n], keep[..n], true) + if keep[n] then [pkts[n]] else []
  {
  }

  /** What is left of a domain's packets meets the bin's conditions. */
  lemma ThinnedIsTimed(flows: seq<T.Flow>, keep: seq<bool>, now: int, tEnd: int, table: seq<nat>)
    requires Ready(flows, now, table) && now <= tEnd && |keep| == |T.BinPackets(flows, tEnd)|
    ensures TimedIn(BC.Thin(T.BinPackets(flows, tEnd), keep, true), now, tEnd)
    ensures InTables(BC.Thin(T.BinPackets(flows, tEnd), keep, true), table)
  {
    EmittedWithin(flows, now, tEnd, table);
    var pkts := T.BinPackets(flows, tEnd);
    ThinMembers(pkts, keep);
    ThinKeepsOrder(pkts, keep);
    hide BC.Thin, T.BinPackets;
    var kept := BC.Thin(pkts, keep, true);
    forall i | 0 <= i < |kept| ensures now <= kept[i].t <= tEnd && kept[i].bucket < |table| {
      assert kept[i] in kept;
    }
  }

  // ---------- Every bin of a trace-driven run can happen ----------

  lemma FlowsStayReady(flows: seq<T.Flow>, now: int, tEnd: int, table: seq<nat>)
    requires Ready(flows, now, table) && now <= tEnd
    ensures Ready(T.AllAdvanced(flows, tEnd), tEnd, table)
  {
    forall i | 0 <= i < |flows| ensures T.Synced(T.AllAdvanced(flows, tEnd)[i], tEnd) {
      T.AdvanceSyncs(flows[i], now, tEnd);
    }
    hide T.Synced;
  }

  /** In a state with the handoff invariant and flows in step with the clock, the next bin of the traces is
      enabled whatever the arbiter's masks are; it keeps the invariant, and flows and clock stay in step. */
  lemma BinIsEnabled(c: Config, table0: seq<nat>, s: Sys, sl: seq<T.Flow>, keepSl: seq<bool>,
        sf: seq<T.Flow>, keepSf: seq<bool>, noise: nat -> real, tEnd: int)
    requires c.Valid() && C.ControlInv(c, table0, s) && s.now <= tEnd
    requires Ready(sl, s.now, s.slTable) && |keepSl| == |T.BinPackets(sl, tEnd)|
    requires Ready(sf, s.now, s.sfTable) && |keepSf| == |T.BinPackets(sf, tEnd)|
    ensures var e := BinOf(sl, keepSl, sf, keepSf, noise, tEnd);
      && Enabled(c, s, e) && C.ControlInv(c, table0, Next(c, s, e))
      && var s' := Next(c, s, e);
        && s'.now == tEnd && s'.slTable == s.slTable && s'.sfTable == s.sfTable
        && Ready(T.AllAdvanced(sl, tEnd), s'.now, s'.slTable) && Ready(T.AllAdvanced(sf, tEnd), s'.now, s'.sfTable)
  {
    ThinnedIsTimed(sl, keepSl, s.now, tEnd, s.slTable);
    ThinnedIsTimed(sf, keepSf, s.now, tEnd, s.sfTable);
    FlowsStayReady(sl, s.now, tEnd, s.slTable);
    FlowsStayReady(sf, s.now, tEnd, s.sfTable);
    var e := BinOf(sl, keepSl, sf, keepSf, noise, tEnd);
    InvPlacesRecords(c, table0, s);
    hide Ready, BC.Thin, T.BinPackets, TimedIn, InTables, C.ControlInv, Shaped;
    assert Enabled(c, s, e);
    NextOfBin(c, s, e.sl, e.sf, noise, tEnd);
    C.NextKeepsControl(c, table0, s, e);
  }

  lemma InvPlacesRecords(c: Config, table0: seq<nat>, s: Sys)
    requires C.ControlInv(c, table0, s)
    ensures Shaped(c, s) && H.InDomain(s.m, c.handoff.queues) && H.InRange(s.m.pending, c.handoff.queues)
  {
  }

  // ---------- Every boundary of a recorded epoch can happen ----------

  /** The recorder of the stateful domain fits the machine. */
  ghost predicate Fitting(c: Config, s: Sys, tc: TM.Config) {
    && tc.queues == c.handoff.queues && tc.buckets == |s.sfTable|
    && tc.eps > 0.0 && tc.depth > 0
  }

  /** Rows of the right sizes; no queue has negative bytes. */
  ghost predicate Recorded(tc: TM.Config, rows: seq<TM.Row>, start: seq<int>) {
    && TM.AllSized(tc, rows) && |start| == tc.queues
    && forall k, q :: 0 <= k < |rows| && 0 <= q < tc.queues ==> rows[k].genBytes[q] >= 0.0
  }

  lemma {:induction false} TotalsNotNegative(tc: TM.Config, rows: seq<TM.Row>, start: seq<int>, q: nat)
    requires Recorded(tc, rows, start) && q < tc.queues
    ensures TM.SumGen(tc, rows, q) >= 0.0
  {
    if rows != [] {
      var n := |rows| - 1;
      assert rows[n].genBytes[q] >= 0.0;
      TotalsNotNegative(tc, rows[..n], start, q);
    }
  }

  lemma RecordedCloses(tc: TM.Config, rows: seq<TM.Row>, start: seq<int>, end: seq<int>)
    requires Recorded(tc, rows, start) && |end| == tc.queues && tc.eps > 0.0 && tc.depth > 0
    ensures TM.Closing(tc, rows, start, end)
  {
    forall q: nat | q < tc.queues ensures TM.SumGen(tc, rows, q) >= 0.0 {
      TotalsNotNegative(tc, rows, start, q);
    }
  }

  lemma {:induction false} SumNotNegative(s: seq<real>)
    requires forall i :: 0 <= i < |s| ==> s[i] >= 0.0
    ensures Sum(s) >= 0.0
  {
    if s != [] {
      SumNotNegative(s[..|s| - 1]);
    }
  }

  /** Closing a recorded epoch gives a report from which the scheduler's step can start. */
  lemma RecordedIsReady(c: Config, table0: seq<nat>, s: Sys, tc: TM.Config, rows: seq<TM.Row>, start: seq<int>,
        draw: nat -> H.Draw)
    requires c.Valid() && C.ControlInv(c, table0, s) && Fitting(c, s, tc) && Recorded(tc, rows, start)
    ensures TM.Closing(tc, rows, start, TT.Credits(s.path.sf))
    ensures EpochReady(c, s, TM.ReportOf(tc, rows, start, TT.Credits(s.path.sf)), draw)
  {
    var end := TT.Credits(s.path.sf);
    RecordedCloses(tc, rows, start, end);
    var report := TM.ReportOf(tc, rows, start, end);
    SumNotNegative(report.queueBytes);
    H.SweepClosedForm(c.handoff, s.m, c.sched.epochNs, |s.m.pending|);
    C.CommitMapsInto(s.sfTable, H.Tick(c.handoff, s.m, c.sched.epochNs).1, c.handoff.queues);
    hide TM.ReportOf, H.Tick, H.Commit;
  }

  lemma {:induction false} FoldNotNegative(table: seq<nat>, weight: seq<real>, q: nat)
    requires |table| == |weight| && forall i :: 0 <= i < |weight| ==> weight[i] >= 0.0
    ensures TableLoad(table, weight, q) >= 0.0
  {
    if table != [] {
      FoldNotNegative(table[..|table| - 1], weight[..|table| - 1], q);
    }
  }

  /** A recorded bin adds a row of the right sizes. */
  lemma RowIsRecorded(tc: TM.Config, rows: seq<TM.Row>, start: seq<int>, qs: seq<CQ.Queue>, gen: seq<Packet>,
        table: seq<nat>)
    requires Recorded(tc, rows, start) && |qs| == tc.queues && |table| == tc.buckets
    ensures Recorded(tc, rows + [TT.RowOf(qs, gen, table)], start)
  {
    TT.RowShape(qs, gen, table, tc);
    var row := TT.RowOf(qs, gen, table);
    forall q | 0 <= q < tc.queues ensures row.genBytes[q] >= 0.0 {
      FoldNotNegative(table, row.bucketBytes, q);
    }
    hide TT.RowOf, TM.FoldToQueues;
  }

  // ---------- Whole runs ----------

  /** What drives the machine: a bin with the arbiter's masks, the boundary of either domain, or flows of a
      domain moved to other buckets. */
  datatype Step =
    | Emit(keepSl: seq<bool>, keepSf: seq<bool>, noise: nat -> real, tEnd: int)
    | CloseStateless(table: seq<nat>)
    | CloseStateful(order: seq<nat>, draw: nat -> H.Draw, replayNoise: (nat, nat) -> real)
    | Shift(sl: seq<nat>, sf: seq<nat>)

  /** The machine with the flows of both domains, and what the stateful recorder holds of the epoch in
      progress: its rows and the credits at its start. */
  datatype World = World(s: Sys, sl: seq<T.Flow>, sf: seq<T.Flow>, rows: seq<TM.Row>, start: seq<int>)

  /** What stays fixed: the machine's and the recorder's configuration, and the initial stateful table. */
  datatype Setup = Setup(c: Config, tc: TM.Config, table0: seq<nat>)

  ghost predicate Sound(x: Setup, w: World) {
    && x.c.Valid() && C.ControlInv(x.c, x.table0, w.s)
    && Ready(w.sl, w.s.now, w.s.slTable) && Ready(w.sf, w.s.now, w.s.sfTable)
    && Fitting(x.c, w.s, x.tc) && Recorded(x.tc, w.rows, w.start)
  }

  ghost predicate BucketsFor(buckets: seq<nat>, flows: seq<T.Flow>, table: seq<nat>) {
    |buckets| == |flows| && forall i :: 0 <= i < |buckets| ==> buckets[i] < |table|
  }

  /** The telemetry of the stateful epoch that closes now. */
  ghost function Closed(x: Setup, w: World): TM.Report
    requires Sound(x, w)
  {
    RecordedCloses(x.tc, w.rows, w.start, TT.Credits(w.s.path.sf));
    TM.ReportOf(x.tc, w.rows, w.start, TT.Credits(w.s.path.sf))
  }

  /** What a driver owes: bins go forward and masks fit; a new stateless table is one for these buckets and
      queues; the candidates come in an order that the stateful step's sort may return; buckets exist. */
  ghost predicate Possible(x: Setup, w: World, step: Step)
    requires Sound(x, w)
  {
    match step
    case Emit(keepSl, keepSf, noise, tEnd) =>
      && w.s.now <= tEnd && |keepSl| == |T.BinPackets(w.sl, tEnd)| && |keepSf| == |T.BinPackets(w.sf, tEnd)|
    case CloseStateless(table) => |table| == |w.s.slTable| && MapsInto(table, |w.s.path.sl|)
    case CloseStateful(order, draw, _) =>
      RecordedIsReady(x.c, x.table0, w.s, x.tc, w.rows, w.start, draw);
      RS.IsCandidateOrder(StepContext(x.c, w.s, Closed(x, w), draw), order)
    case Shift(sl, sf) => BucketsFor(sl, w.sl, w.s.slTable) && BucketsFor(sf, w.sf, w.s.sfTable)
  }

  /** The machine's event of a step; moving flows is none. */
  ghost function EventOf(x: Setup, w: World, step: Step): Event
    requires Sound(x, w) && Possible(x, w, step) && !step.Shift?
  {
    match step
    case Emit(keepSl, keepSf, noise, tEnd) => BinOf(w.sl, keepSl, w.sf, keepSf, noise, tEnd)
    case CloseStateless(table) => StatelessEpoch(table)
    case CloseStateful(order, draw, noise) => StatefulEpoch(Closed(x, w), order, draw, noise)
  }

  /** Whatever the driver does, the machine can take it. */
  lemma StepIsEnabled(x: Setup, w: World, step: Step)
    requires Sound(x, w) && Possible(x, w, step) && !step.Shift?
    ensures Enabled(x.c, w.s, EventOf(x, w, step))
  {
    match step
    case Emit(keepSl, keepSf, noise, tEnd) =>
      BinIsEnabled(x.c, x.table0, w.s, w.sl, keepSl, w.sf, keepSf, noise, tEnd);
    case CloseStateless(_) =>
      InvPlacesRecords(x.c, x.table0, w.s);
    case CloseStateful(_, draw, _) =>
      InvPlacesRecords(x.c, x.table0, w.s);
      RecordedIsReady(x.c, x.table0, w.s, x.tc, w.rows, w.start, draw);
      hide C.ControlInv, Ready, Fitting, Recorded, StepContext, EpochReady, RS.IsCandidateOrder;
  }

  /** A step: a bin records its row, a stateful boundary starts a new epoch of the recorder. */
  ghost function Apply(x: Setup, w: World, step: Step): World
    requires Sound(x, w) && Possible(x, w, step)
  {
    match step
    case Emit(_, _, _, tEnd) =>
      StepIsEnabled(x, w, step);
      var s' := Next(x.c, w.s, EventOf(x, w, step));
      World(s', T.AllAdvanced(w.sl, tEnd), T.AllAdvanced(w.sf, tEnd),
            w.rows + [TT.RowOf(s'.path.sf, T.BinPackets(w.sf, tEnd), w.s.sfTable)], w.start)
    case CloseStateless(_) =>
      StepIsEnabled(x, w, step);
      w.(s := Next(x.c, w.s, EventOf(x, w, step)))
    case CloseStateful(_, _, _) =>
      StepIsEnabled(x, w, step);
      var s' := Next(x.c, w.s, EventOf(x, w, step));
      w.(s := s', rows := [], start := TT.Credits(s'.path.sf))
    case Shift(sl, sf) => w.(sl := T.Moved(w.sl, sl), sf := T.Moved(w.sf, sf))
  }

  lemma MasksArePossible(x: Setup, w: World, step: Step)
    requires Sound(x, w) && step.Emit? && w.s.now <= step.tEnd && T.AllWellFormed(w.sl) && T.AllWellFormed(w.sf)
    requires |step.keepSl| == |T.BinPackets(w.sl, step.tEnd)| && |step.keepSf| == |T.BinPackets(w.sf, step.tEnd)|
    ensures Possible(x, w, step)
  {
  }

  lemma SoundParts(x: Setup, w: World)
    requires Sound(x, w)
    ensures R.DistinctBuckets(w.s.m.pending) && T.AllWellFormed(w.sl) && T.AllWellFormed(w.sf)
    ensures |w.s.sfTable| == x.tc.buckets && x.tc.depth > 0 && x.tc.eps > 0.0
  {
    forall i, j | 0 <= i < j < |w.s.m.pending| ensures w.s.m.pending[i].bucket != w.s.m.pending[j].bucket {
      assert H.Disjoint(w.s.m.pending[i], w.s.m.pending[j]);
    }
  }

  /** A bin in terms of what the traces emit and the masks keep. */
  lemma EmitOfWorld(x: Setup, w: World, step: Step)
    requires Sound(x, w) && Possible(x, w, step) && step.Emit?
    ensures T.AllWellFormed(w.sl) && T.AllWellFormed(w.sf)
    ensures var e := BinOf(w.sl, step.keepSl, w.sf, step.keepSf, step.noise, step.tEnd);
      && Enabled(x.c, w.s, e)
      && Apply(x, w, step)
         == World(Next(x.c, w.s, e), T.AllAdvanced(w.sl, step.tEnd), T.AllAdvanced(w.sf, step.tEnd),
                  w.rows + [TT.RowOf(Next(x.c, w.s, e).path.sf, T.BinPackets(w.sf, step.tEnd), w.s.sfTable)], w.start)
      && Next(x.c, w.s, e).sfTable == w.s.sfTable
  {
    StepIsEnabled(x, w, step);
    BinIsEnabled(x.c, x.table0, w.s, w.sl, step.keepSl, w.sf, step.keepSf, step.noise, step.tEnd);
    hide Next, Enabled, C.ControlInv, Recorded, TT.RowOf, T.BinPackets;
  }

  /** The other steps in terms of the machine and the flows. */
  lemma TableOfWorld(x: Setup, w: World, table: seq<nat>)
    requires Sound(x, w) && |table| == |w.s.slTable| && MapsInto(table, |w.s.path.sl|)
    ensures Possible(x, w, CloseStateless(table))
    ensures Apply(x, w, CloseStateless(table)) == w.(s := w.s.(slTable := table))
  {
    StepIsEnabled(x, w, CloseStateless(table));
    hide Sound, MapsInto;
  }

  lemma ShiftOfWorld(x: Setup, w: World, sl: seq<nat>, sf: seq<nat>)
    requires Sound(x, w) && BucketsFor(sl, w.sl, w.s.slTable) && BucketsFor(sf, w.sf, w.s.sfTable)
    ensures Possible(x, w, Shift(sl, sf)) && T.AllWellFormed(w.sl) && T.AllWellFormed(w.sf)
    ensures Apply(x, w, Shift(sl, sf)) == w.(sl := T.Moved(w.sl, sl), sf := T.Moved(w.sf, sf))
  {
  }

  /** Flows moved to where they are. */
  function BucketsOf(flows: seq<T.Flow>): (b: seq<nat>)
    ensures |b| == |flows|
  {
    seq(|flows|, i requires 0 <= i < |flows| => flows[i].bucket)
  }

  lemma OwnBuckets(x: Setup, w: World)
    requires Sound(x, w)
    ensures BucketsFor(BucketsOf(w.sl), w.sl, w.s.slTable) && BucketsFor(BucketsOf(w.sf), w.sf, w.s.sfTable)
    ensures T.Moved(w.sl, BucketsOf(w.sl)) == w.sl && T.Moved(w.sf, BucketsOf(w.sf)) == w.sf
  {
  }

  lemma EpochOfWorld(x: Setup, w: World, order: seq<nat>, draw: nat -> H.Draw, noise: (nat, nat) -> real)
    requires Sound(x, w)
    ensures TM.Closing(x.tc, w.rows, w.start, TT.Credits(w.s.path.sf)) && Shaped(x.c, w.s) && x.c.Valid()
    ensures H.InDomain(w.s.m, x.c.handoff.queues) && H.InRange(w.s.m.pending, x.c.handoff.queues)
    ensures var telem := TM.ReportOf(x.tc, w.rows, w.start, TT.Credits(w.s.path.sf));
      && EpochReady(x.c, w.s, telem, draw)
      && (Enabled(x.c, w.s, StatefulEpoch(telem, order, draw, noise)) ==>
            && Possible(x, w, CloseStateful(order, draw, noise))
            && var s' := Next(x.c, w.s, StatefulEpoch(telem, order, draw, noise));
               Apply(x, w, CloseStateful(order, draw, noise))
               == w.(s := s', rows := [], start := TT.Credits(s'.path.sf)))
  {
    InvPlacesRecords(x.c, x.table0, w.s);
    RecordedIsReady(x.c, x.table0, w.s, x.tc, w.rows, w.start, draw);
    hide Next, C.ControlInv, Ready, Recorded, StepContext, RS.IsCandidateOrder, TM.ReportOf, TT.Credits, EpochReady;
  }

  /** A fresh machine with fresh flows, none of whose packets lies before time 0, and an empty recorder. */
  lemma InitialIsSound(c: Config, tc: TM.Config, w: World)
    requires c.Valid() && IsInitial(c, w.s) && Fitting(c, w.s, tc)
    requires Fresh(w.sl, w.s.slTable) && Fresh(w.sf, w.s.sfTable)
    requires w.rows == [] && w.start == TT.Credits(w.s.path.sf)
    ensures Sound(Setup(c, tc, w.s.sfTable), w)
  {
    C.InitialControl(c, w.s);
    FreshIsReady(w.sl, w.s.slTable);
    FreshIsReady(w.sf, w.s.sfTable);
    hide C.ControlInv, Ready;
  }

  ghost predicate Fresh(flows: seq<T.Flow>, table: seq<nat>) {
    && T.AllWellFormed(flows)
    && forall i :: 0 <= i < |flows| ==>
         && flows[i].cursor == 0 && flows[i].bucket < |table|
         && forall k :: 0 <= k < |flows[i].times| ==> flows[i].times[k] >= 0
  }

  lemma FreshIsReady(flows: seq<T.Flow>, table: seq<nat>)
    requires Fresh(flows, table)
    ensures Ready(flows, 0, table)
  {
    forall i | 0 <= i < |flows| ensures T.Synced(flows[i], 0) {
      T.FreshIsSynced(flows[i], 0);
    }
  }

  lemma MovedStayReady(flows: seq<T.Flow>, buckets: seq<nat>, now: int, table: seq<nat>)
    requires Ready(flows, now, table) && BucketsFor(buckets, flows, table)
    ensures Ready(T.Moved(flows, buckets), now, table)
  {
    hide T.Below;
    forall i | 0 <= i < |flows| ensures T.Synced(T.Moved(flows, buckets)[i], now) {
      assert T.Synced(flows[i], now);
    }
  }

  /** Flows stay ready for another table of the same size. */
  lemma ReadyForTable(flows: seq<T.Flow>, now: int, table: seq<nat>, table': seq<nat>)
    requires Ready(flows, now, table) && |table'| == |table|
    ensures Ready(flows, now, table')
  {
  }

  lemma BoundaryKeepsSizes(c: Config, s: Sys, e: Event)
    requires Enabled(c, s, e) && !e.Bin?
    ensures var s' := Next(c, s, e);
      s'.now == s.now && |s'.slTable| == |s.slTable| && |s'.sfTable| == |s.sfTable| && |s'.path.sf| == |s.path.sf|
  {
    if e.StatefulEpoch? {
      NextOfEpoch(c, s, e.telem, e.order, e.draw, e.replayNoise);
    }
  }

  /** A boundary leaves the flows ready. */
  lemma BoundaryKeepsReady(x: Setup, w: World, e: Event)
    requires Sound(x, w) && Enabled(x.c, w.s, e) && !e.Bin?
    ensures var s' := Next(x.c, w.s, e);
      && C.ControlInv(x.c, x.table0, s') && Fitting(x.c, s', x.tc) && |s'.path.sf| == x.tc.queues
      && Ready(w.sl, s'.now, s'.slTable) && Ready(w.sf, s'.now, s'.sfTable)
  {
    BoundaryKeepsSizes(x.c, w.s, e);
    C.NextKeepsControl(x.c, x.table0, w.s, e);
    var s' := Next(x.c, w.s, e);
    QueuesOfInv(x.c, x.table0, s');
    hide Next, Enabled, C.ControlInv, Ready, Recorded;
    ReadyForTable(w.sl, w.s.now, w.s.slTable, s'.slTable);
    ReadyForTable(w.sf, w.s.now, w.s.sfTable, s'.sfTable);
  }

  lemma QueuesOfInv(c: Config, table0: seq<nat>, s: Sys)
    requires C.ControlInv(c, table0, s)
    ensures |s.path.sf| == c.handoff.queues
  {
  }

  lemma ApplyKeepsSound(x: Setup, w: World, step: Step)
    requires Sound(x, w) && Possible(x, w, step)
    ensures Sound(x, Apply(x, w, step))
  {
    match step
    case Emit(keepSl, keepSf, noise, tEnd) =>
      BinIsEnabled(x.c, x.table0, w.s, w.sl, keepSl, w.sf, keepSf, noise, tEnd);
      var s' := Next(x.c, w.s, EventOf(x, w, step));
      QueuesOfInv(x.c, x.table0, s');
      RowIsRecorded(x.tc, w.rows, w.start, s'.path.sf, T.BinPackets(w.sf, tEnd), w.s.sfTable);
      hide Next, Enabled, C.ControlInv, Ready, Recorded, TT.RowOf, T.BinPackets;
    case CloseStateless(_) =>
      StepIsEnabled(x, w, step);
      BoundaryKeepsReady(x, w, EventOf(x, w, step));
      hide Next, Enabled, C.ControlInv, Ready, Recorded, MapsInto;
    case CloseStateful(_, _, _) =>
      StepIsEnabled(x, w, step);
      BoundaryKeepsReady(x, w, EventOf(x, w, step));
      hide Next, Enabled, C.ControlInv, Ready, Possible, EventOf;
    case Shift(sl, sf) =>
      MovedStayReady(w.sl, sl, w.s.now, w.s.slTable);
      MovedStayReady(w.sf, sf, w.s.now, w.s.sfTable);
      hide Ready, C.ControlInv, Recorded;
  }

  ghost predicate IsDriven(x: Setup, w: World, steps: seq<Step>)
    requires Sound(x, w)
    decreases |steps|
  {
    steps == [] ||
    (Possible(x, w, steps[0]) && (ApplyKeepsSound(x, w, steps[0]);
      IsDriven(x, Apply(x, w, steps[0]), steps[1..])))
  }

  /** The machine's events of a driven run. */
  ghost function Events(x: Setup, w: World, steps: seq<Step>): seq<Event>
    requires Sound(x, w) && IsDriven(x, w, steps)
    decreases |steps|
  {
    if steps == [] then []
    else
      ApplyKeepsSound(x, w, steps[0]);
      var rest := Events(x, Apply(x, w, steps[0]), steps[1..]);
      if steps[0].Shift? then rest else [EventOf(x, w, steps[0])] + rest
  }

  /** What a step does to the machine. */
  lemma StepOfMachine(x: Setup, w: World, step: Step)
    requires Sound(x, w) && Possible(x, w, step)
    ensures var w' := Apply(x, w, step);
      && (step.Shift? ==> w'.s == w.s)
      && (!step.Shift? ==> var e := EventOf(x, w, step); Enabled(x.c, w.s, e) && w'.s == Next(x.c, w.s, e))
  {
    if !step.Shift? {
      StepIsEnabled(x, w, step);
    }
    hide Next, Enabled, EventOf, Sound, Possible;
  }

  /** Every run driven by traces and recorded telemetry is a run of the machine, so what is proved of all runs
      holds of it: nothing is owed beyond what the results about traces, arbiter and recorder give. */
  lemma {:induction false} DrivenIsRun(x: Setup, w: World, steps: seq<Step>)
    requires Sound(x, w) && IsDriven(x, w, steps)
    ensures IsRun(x.c, w.s, Events(x, w, steps))
    decreases |steps|
  {
    if steps != [] {
      var step := steps[0];
      ApplyKeepsSound(x, w, step);
      StepOfMachine(x, w, step);
      var w' := Apply(x, w, step);
      hide Next, Enabled, Sound, Possible, Apply, EventOf;
      DrivenIsRun(x, w', steps[1..]);
      var rest := Events(x, w', steps[1..]);
      if !step.Shift? {
        var e := EventOf(x, w, step);
        assert ([e] + rest)[1..] == rest;
      }
    }
  }
}

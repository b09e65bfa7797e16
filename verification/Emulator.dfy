/** The emulator as one state machine. Its events are the bins, the stateless epoch boundaries and the
    stateful epoch boundaries, in any order a run may produce them.

    A state is the packet path, both tables, the handoff manager and the clock. What an event needs is in
    `Enabled`: packets sorted within their bin and in known buckets, and telemetry of the right size.
    Nothing ties the stamps of replays to the clock: they may lie before it or after it. */
module Emulator {
  import opened Common
  import CQ = CreditQueue
  import PP = PacketPath
  import H = Handoffs
  import R = Redirection
  import SM = StreamMerge
  import SS = StatefulScheduler
  import TM = Telemetry
  import RS = ReactiveScheduler
  import L = Latency

  datatype Config = Config(path: PP.Config, handoff: H.Config, sched: SS.Config) {
    ghost predicate Valid() {
      path.Valid() && sched.epochNs > 0.0
    }
  }

  /** `epoch` is the index of the stateful epoch in progress, `now` the end of the last bin. */
  datatype Sys = Sys(path: PP.Path, slTable: seq<nat>, sfTable: seq<nat>, m: H.Manager, now: int, epoch: nat) {
    function Tables(): PP.Tables {
      PP.Tables(slTable, sfTable)
    }
  }

  /** Packets of a bin are those left by the arbiter; draws are supplied as functions of their index. */
  datatype Event =
    | Bin(sl: seq<Packet>, sf: seq<Packet>, noise: nat -> real, tEnd: int)
    | StatelessEpoch(table: seq<nat>)
    | StatefulEpoch(telem: TM.Report, order: seq<nat>, draw: nat -> H.Draw, replayNoise: (nat, nat) -> real)

  // ---------- Bins ----------

  /** The merged stream of a bin, after redirection. */
  function Stream(s: Sys, sl: seq<Packet>, sf: seq<Packet>, noise: nat -> real): seq<PP.Arrival> {
    SM.Merge(sl, R.Passing(s.m, sf), noise)
  }

  ghost predicate MapsInto(table: seq<nat>, n: nat) {
    forall b :: 0 <= b < |table| ==> table[b] < n
  }

  ghost predicate InTables(pkts: seq<Packet>, table: seq<nat>) {
    forall i :: 0 <= i < |pkts| ==> pkts[i].bucket < |table|
  }

  /** The queues, tables and flags of a state fit together. */
  ghost predicate Shaped(c: Config, s: Sys) {
    && MapsInto(s.slTable, |s.path.sl|) && MapsInto(s.sfTable, |s.path.sf|)
    && |s.path.sf| == c.handoff.queues
  }

  ghost predicate TimedIn(pkts: seq<Packet>, lo: int, hi: int) {
    && TimeOrdered(pkts)
    && forall i :: 0 <= i < |pkts| ==> lo <= pkts[i].t <= hi
  }

  lemma StreamIsRoutable(c: Config, s: Sys, sl: seq<Packet>, sf: seq<Packet>, noise: nat -> real)
    requires Shaped(c, s) && InTables(sl, s.slTable) && InTables(sf, s.sfTable)
    ensures PP.AllRoutable(s.Tables(), s.path, Stream(s, sl, sf, noise))
  {
    var r := Stream(s, sl, sf, noise);
    var passing := R.Passing(s.m, sf);
    SM.MergeMembers(sl, passing, noise);
    R.PassingExcludes(s.m, sf);
    hide SM.Merge, R.Passing, H.IsPending;
    forall i | 0 <= i < |r| ensures PP.Routable(s.Tables(), s.path, r[i]) {
      if r[i].d.Stateful? {
        assert r[i].pkt in sf;
      }
    }
  }

  // ---------- Replays ----------

  function AverageSize(h: H.Handoff): nat {
    MaxInt(1, h.bufferedBytes / MaxInt(1, h.bufferedPkts))
  }

  function ReplayOne(c: Config, q: CQ.Queue, h: H.Handoff, t: real, noise: nat -> real): (CQ.Queue, nat)
    requires c.Valid()
  {
    L.Replay(c.path.sf, q, t, AverageSize(h), h.bufferedPkts, noise)
  }

  /** The service draws of the i-th replay. */
  function Row(noise: (nat, nat) -> real, i: nat): nat -> real {
    (k: nat) => noise(i, k)
  }

  /** Release the buffers of the first k finished handoffs into their destination queues. */
  function ReplayTo(c: Config, qs: seq<CQ.Queue>, finished: seq<H.Handoff>, t: real, noise: (nat, nat) -> real,
        k: nat): (qs': seq<CQ.Queue>)
    requires c.Valid() && k <= |finished|
    ensures |qs'| == |qs|
  {
    if k == 0 then qs
    else
      var before := ReplayTo(c, qs, finished, t, noise, k - 1);
      var h := finished[k - 1];
      if h.dst < |before| then before[h.dst := ReplayOne(c, before[h.dst], h, t, Row(noise, k - 1)).0]
      else before
  }

  /** Replays are stamped one nanosecond before the end of the stateful epoch. */
  function ReplayTime(epochNs: real, epoch: nat): real {
    (epoch + 1) as real * epochNs - 1.0
  }

  // ---------- Transitions ----------

  ghost function StepContext(c: Config, s: Sys, telem: TM.Report, draw: nat -> H.Draw): SS.Context
    requires Shaped(c, s) && H.InDomain(s.m, c.handoff.queues) && H.InRange(s.m.pending, c.handoff.queues)
  {
    RS.ContextOf(c.sched, c.handoff, telem,
                 H.Commit(s.sfTable, H.Tick(c.handoff, s.m, c.sched.epochNs).1), s.epoch, draw)
  }

  ghost function InitialStep(c: Config, s: Sys, telem: TM.Report): SS.State
    requires Shaped(c, s) && H.InDomain(s.m, c.handoff.queues) && H.InRange(s.m.pending, c.handoff.queues)
  {
    SS.State(H.Tick(c.handoff, s.m, c.sched.epochNs).0, telem.queueBytes, 0, false)
  }

  /** A stateful epoch can close: its telemetry has the right sizes and a total that is not negative. */
  ghost predicate EpochReady(c: Config, s: Sys, telem: TM.Report, draw: nat -> H.Draw)
    requires Shaped(c, s) && H.InDomain(s.m, c.handoff.queues) && H.InRange(s.m.pending, c.handoff.queues)
  {
    && |telem.queueBytes| == c.handoff.queues
    && StepContext(c, s, telem, draw).Valid()
  }

  /** When an event can happen: packets are sorted, lie in the bin and have known buckets; a new stateless
      table maps into the queues; a stateful epoch is ready and its candidate order is one the step can use. */
  ghost predicate Enabled(c: Config, s: Sys, e: Event) {
    && c.Valid() && Shaped(c, s)
    && H.InDomain(s.m, c.handoff.queues) && H.InRange(s.m.pending, c.handoff.queues)
    && match e
       case Bin(sl, sf, noise, tEnd) =>
         && s.now <= tEnd && TimedIn(sl, s.now, tEnd) && TimedIn(sf, s.now, tEnd)
         && InTables(sl, s.slTable) && InTables(sf, s.sfTable)
       case StatelessEpoch(table) => |table| == |s.slTable| && MapsInto(table, |s.path.sl|)
       case StatefulEpoch(telem, order, draw, noise) =>
         EpochReady(c, s, telem, draw) && RS.IsCandidateOrder(StepContext(c, s, telem, draw), order)
  }

  ghost function Next(c: Config, s: Sys, e: Event): Sys
    requires Enabled(c, s, e)
  {
    match e
    case Bin(sl, sf, noise, tEnd) =>
      StreamIsRoutable(c, s, sl, sf, noise);
      s.(path := PP.Bin(c.path, s.Tables(), s.path, Stream(s, sl, sf, noise), tEnd),
         m := R.Feed(c.handoff, s.m, sf), now := tEnd)
    case StatelessEpoch(table) => s.(slTable := table)
    case StatefulEpoch(telem, order, draw, noise) =>
      var finished := H.Tick(c.handoff, s.m, c.sched.epochNs).1;
      var x := StepContext(c, s, telem, draw);
      s.(path := s.path.(sf := ReplayTo(c, s.path.sf, finished, ReplayTime(c.sched.epochNs, s.epoch),
                                             noise, |finished|)),
         sfTable := x.table,
         m := SS.StepTo(x, InitialStep(c, s, telem), order, |order|).m,
         epoch := s.epoch + 1)
  }

  /** A bin in terms of the packet path and the handoff buffers. */
  lemma NextOfBin(c: Config, s: Sys, sl: seq<Packet>, sf: seq<Packet>, noise: nat -> real, tEnd: int)
    requires Enabled(c, s, Bin(sl, sf, noise, tEnd))
    ensures c.path.Valid() && PP.AllRoutable(s.Tables(), s.path, Stream(s, sl, sf, noise))
    ensures Stream(s, sl, sf, noise) == SM.Merge(sl, R.Passing(s.m, sf), noise)
    ensures s.Tables() == PP.Tables(s.slTable, s.sfTable)
    ensures Next(c, s, Bin(sl, sf, noise, tEnd))
         == s.(path := PP.Bin(c.path, s.Tables(), s.path, Stream(s, sl, sf, noise), tEnd),
               m := R.Feed(c.handoff, s.m, sf), now := tEnd)
  {
    StreamIsRoutable(c, s, sl, sf, noise);
  }

  lemma EpochEnabled(c: Config, s: Sys, telem: TM.Report, order: seq<nat>, draw: nat -> H.Draw,
      noise: (nat, nat) -> real)
    requires c.Valid() && Shaped(c, s) && H.InDomain(s.m, c.handoff.queues) && H.InRange(s.m.pending, c.handoff.queues)
    requires EpochReady(c, s, telem, draw)
    requires var x := RS.ContextOf(c.sched, c.handoff, telem,
        H.Commit(s.sfTable, H.Tick(c.handoff, s.m, c.sched.epochNs).1), s.epoch, draw);
      x.Valid() ==> RS.IsCandidateOrder(x, order)
    ensures Enabled(c, s, StatefulEpoch(telem, order, draw, noise))
  {
  }

  /** A stateful epoch boundary in terms of the tick, the step and the replays. */
  lemma NextOfEpoch(c: Config, s: Sys, telem: TM.Report, order: seq<nat>, draw: nat -> H.Draw,
        noise: (nat, nat) -> real)
    requires Enabled(c, s, StatefulEpoch(telem, order, draw, noise))
    ensures var (ticked, finished) := H.Tick(c.handoff, s.m, c.sched.epochNs);
      var x := RS.ContextOf(c.sched, c.handoff, telem, H.Commit(s.sfTable, finished), s.epoch, draw);
      var st := SS.State(ticked, telem.queueBytes, 0, false);
      && SS.Fits(x, st) && SS.Buckets(x, order)
      && Next(c, s, StatefulEpoch(telem, order, draw, noise))
         == s.(path := s.path.(sf := ReplayTo(c, s.path.sf, finished, ReplayTime(c.sched.epochNs, s.epoch),
                                                noise, |finished|)),
               sfTable := H.Commit(s.sfTable, finished),
               m := SS.StepTo(x, st, order, |order|).m, epoch := s.epoch + 1)
  {
  }

  /** What the step of an epoch boundary needs of its arguments. */
  lemma ReadyParts(c: Config, s: Sys, telem: TM.Report, draw: nat -> H.Draw)
    requires c.Valid() && Shaped(c, s) && H.InDomain(s.m, c.handoff.queues) && H.InRange(s.m.pending, c.handoff.queues)
    requires EpochReady(c, s, telem, draw)
    ensures var (ticked, finished) := H.Tick(c.handoff, s.m, c.sched.epochNs);
      && c.sched.epochNs > 0.0 && Sum(telem.queueBytes) >= 0.0
      && |telem.pressure| == |telem.queueBytes| == c.handoff.queues
      && |telem.bucketBytes| == |s.sfTable|
      && (forall b :: 0 <= b < |s.sfTable| ==> H.Commit(s.sfTable, finished)[b] < c.handoff.queues)
      && (forall i :: 0 <= i < |finished| ==> finished[i].dst < |s.path.sf|)
  {
    H.SweepClosedForm(c.handoff, s.m, c.sched.epochNs, |s.m.pending|);
  }

  /** A run from s: every event is enabled where it happens. */
  ghost predicate IsRun(c: Config, s: Sys, events: seq<Event>)
    decreases |events|
  {
    events == [] || (Enabled(c, s, events[0]) && IsRun(c, Next(c, s, events[0]), events[1..]))
  }

  ghost function After(c: Config, s: Sys, events: seq<Event>): Sys
    requires IsRun(c, s, events)
    decreases |events|
  {
    if events == [] then s else After(c, Next(c, s, events[0]), events[1..])
  }

  /** Every queue with all credits, no handoff, some table for each domain. */
  ghost predicate IsInitial(c: Config, s: Sys) {
    && Shaped(c, s)
    && (forall i :: 0 <= i < |s.path.sl| ==> s.path.sl[i] == CQ.Initial(c.path.sl.queue))
    && (forall i :: 0 <= i < |s.path.sf| ==> s.path.sf[i] == CQ.Initial(c.path.sf.queue))
    && s.m == H.Initial(c.handoff) && s.now == 0 && s.epoch == 0
  }
}

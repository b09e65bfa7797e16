/** What holds of the packet path in every run of the emulator: the latency bound, exclusivity of a
    migrating bucket, order across a migration, and the fate of every buffered packet. */
module PathTheorems {
  import opened Common
  import CQ = CreditQueue
  import PP = PacketPath
  import L = Latency
  import H = Handoffs
  import T = HandoffTime
  import R = Redirection
  import SM = StreamMerge
  import SS = StatefulScheduler
  import C = ControlTheorems
  import opened Emulator

  // ---------- Latency in every run ----------

  /** All service draws of an event respect the service bounds. */
  ghost predicate Bounded(c: Config, pb: L.PathBounds, e: Event)
    requires c.Valid()
  {
    match e
    case Bin(_, _, noise, _) =>
      forall k: nat ::
        && CQ.ServiceTime(c.path.sl.queue, noise(k)) <= pb.sl.service
        && CQ.ServiceTime(c.path.sf.queue, noise(k)) <= pb.sf.service
    case StatelessEpoch(_) => true
    case StatefulEpoch(_, _, _, replayNoise) =>
      forall i: nat, k: nat :: CQ.ServiceTime(c.path.sf.queue, replayNoise(i, k)) <= pb.sf.service
  }

  lemma StreamIsTimed(s: Sys, sl: seq<Packet>, sf: seq<Packet>, noise: nat -> real, tEnd: int)
    requires TimedIn(sl, s.now, tEnd) && TimedIn(sf, s.now, tEnd)
    ensures L.TimedWithin(Stream(s, sl, sf, noise), s.now as real, tEnd as real)
  {
    var passing := R.Passing(s.m, sf);
    var r := Stream(s, sl, sf, noise);
    R.PassingKeepsOrder(s.m, sf);
    R.PassingExcludes(s.m, sf);
    SM.MergeIsSorted(sl, passing, noise);
    SM.MergeMembers(sl, passing, noise);
    hide SM.Merge, R.Passing, H.IsPending;
    forall i | 0 <= i < |r| ensures s.now as real <= r[i].pkt.t as real <= tEnd as real {
      assert r[i].pkt in sl || r[i].pkt in sf;
    }
    forall i, j | 0 <= i < j < |r| ensures r[i].pkt.t <= r[j].pkt.t {
      assert SM.Before(r[i], r[j]);
    }
  }

  lemma StreamIsServiceBounded(c: Config, pb: L.PathBounds, s: Sys, e: Event)
    requires c.Valid() && e.Bin? && Bounded(c, pb, e)
    ensures L.AllServiceBounded(c.path, pb, Stream(s, e.sl, e.sf, e.noise))
  {
    SM.MergeMembers(e.sl, R.Passing(s.m, e.sf), e.noise);
    hide SM.Merge, R.Passing, CQ.ServiceTime;
  }

  ghost predicate SamplesWithin(c: Config, pb: L.PathBounds, p: PP.Path) {
    forall d: Domain, i :: 0 <= i < |p.Of(d)| ==>
      L.SamplesBounded(p.Of(d)[i], pb.Of(d).Worst(c.path.Of(d).queue.depth))
  }

  /** A bin from a settled state: every sample it records obeys the bound. */
  lemma BinStaysSettled(c: Config, pb: L.PathBounds, s: Sys, e: Event)
    requires Enabled(c, s, e) && e.Bin? && L.Covers(c.path, pb) && Bounded(c, pb, e)
    requires L.PathSettled(c.path, pb, s.path, s.now as real)
    ensures L.PathSettled(c.path, pb, Next(c, s, e).path, e.tEnd as real)
    ensures SamplesWithin(c, pb, Next(c, s, e).path)
  {
    StreamIsRoutable(c, s, e.sl, e.sf, e.noise);
    StreamIsTimed(s, e.sl, e.sf, e.noise, e.tEnd);
    StreamIsServiceBounded(c, pb, s, e);
    assert Next(c, s, e).path
        == PP.Bin(c.path, s.Tables(), s.path, Stream(s, e.sl, e.sf, e.noise), e.tEnd);
    hide PP.Bin, Stream, L.Covers, L.PathSettled, Bounded, L.TimedWithin;
    L.BinLatency(c.path, pb, s.Tables(), s.path, Stream(s, e.sl, e.sf, e.noise), s.now as real, e.tEnd);
  }

  ghost predicate QueuesSettled(c: CQ.Config, b: L.Bounds, qs: seq<CQ.Queue>, now: real) {
    forall i :: 0 <= i < |qs| ==> L.Settled(c, b, qs[i], now)
  }

  /** Every packet released at time t reaches its ring by the given time. */
  ghost predicate Arriving(c: Config, finished: seq<H.Handoff>, t: real, latest: real) {
    forall i :: 0 <= i < |finished| && finished[i].bufferedPkts > 0 ==>
      t + c.path.sf.Dma(AverageSize(finished[i])) <= latest
  }

  /** A stateful boundary whose replays all reach their rings within one delay of the clock. A stamp before
      the clock helps, one after it costs. */
  ghost predicate Timely(c: Config, pb: L.PathBounds, s: Sys, e: Event)
    requires Enabled(c, s, e)
  {
    e.StatefulEpoch? ==>
      Arriving(c, H.Tick(c.handoff, s.m, c.sched.epochNs).1, ReplayTime(c.sched.epochNs, s.epoch),
               s.now as real + pb.sf.delay)
  }

  lemma {:induction false} ReplaysStaySettled(c: Config, pb: L.PathBounds, qs: seq<CQ.Queue>,
        finished: seq<H.Handoff>, t: real, noise: (nat, nat) -> real, k: nat, now: real)
    requires c.Valid() && k <= |finished| && L.Covers(c.path, pb)
    requires Arriving(c, finished, t, now + pb.sf.delay)
    requires forall i: nat, j: nat :: CQ.ServiceTime(c.path.sf.queue, noise(i, j)) <= pb.sf.service
    requires QueuesSettled(c.path.sf.queue, pb.sf, qs, now)
    ensures QueuesSettled(c.path.sf.queue, pb.sf, ReplayTo(c, qs, finished, t, noise, k), now)
  {
    hide L.Replay;
    if k > 0 {
      ReplaysStaySettled(c, pb, qs, finished, t, noise, k - 1, now);
      var before := ReplayTo(c, qs, finished, t, noise, k - 1);
      var h := finished[k - 1];
      if h.dst < |before| && h.bufferedPkts == 0 {
        L.ReplayNone(c.path.sf, before[h.dst], t, AverageSize(h), Row(noise, k - 1));
      } else if h.dst < |before| {
        assert c.path.Of(Stateful) == c.path.sf && pb.Of(Stateful) == pb.sf;
        L.ReplayKeepsSettled(c.path.sf, pb.sf, before[h.dst], t, AverageSize(h), h.bufferedPkts,
                             Row(noise, k - 1), now);
      }
    }
  }

  lemma SettledQueues(c: PP.Config, pb: L.PathBounds, p: PP.Path, now: real)
    requires L.PathSettled(c, pb, p, now)
    ensures QueuesSettled(c.sf.queue, pb.sf, p.sf, now)
  {
    hide L.Settled;
    forall i | 0 <= i < |p.sf| ensures L.Settled(c.sf.queue, pb.sf, p.sf[i], now) {
      assert p.Of(Stateful) == p.sf && c.Of(Stateful) == c.sf && pb.Of(Stateful) == pb.sf;
      assert L.Settled(c.Of(Stateful).queue, pb.Of(Stateful), p.Of(Stateful)[i], now);
    }
  }

  lemma EpochStaysSettled(c: Config, pb: L.PathBounds, s: Sys, e: Event)
    requires Enabled(c, s, e) && e.StatefulEpoch? && L.Covers(c.path, pb) && Bounded(c, pb, e)
    requires Timely(c, pb, s, e)
    requires L.PathSettled(c.path, pb, s.path, s.now as real)
    ensures L.PathSettled(c.path, pb, Next(c, s, e).path, s.now as real)
  {
    var finished := H.Tick(c.handoff, s.m, c.sched.epochNs).1;
    var t, now := ReplayTime(c.sched.epochNs, s.epoch), s.now as real;
    var s' := Next(c, s, e);
    var r := ReplayTo(c, s.path.sf, finished, t, e.replayNoise, |finished|);
    assert s'.path == s.path.(sf := r);
    SettledQueues(c.path, pb, s.path, now);
    ReplaysStaySettled(c, pb, s.path.sf, finished, t, e.replayNoise, |finished|, now);
    hide Next, ReplayTo, H.Tick;
    forall d: Domain, i | 0 <= i < |s'.path.Of(d)|
      ensures L.Settled(c.path.Of(d).queue, pb.Of(d), s'.path.Of(d)[i], now)
    {
      if d.Stateless? {
        assert s'.path.Of(d)[i] == s.path.Of(d)[i];
      } else {
        assert c.path.Of(d) == c.path.sf && pb.Of(d) == pb.sf && s'.path.Of(d)[i] == r[i];
      }
    }
  }

  lemma NextStaysSettled(c: Config, pb: L.PathBounds, s: Sys, e: Event)
    requires Enabled(c, s, e) && L.Covers(c.path, pb) && Bounded(c, pb, e) && Timely(c, pb, s, e)
    requires L.PathSettled(c.path, pb, s.path, s.now as real)
    ensures L.PathSettled(c.path, pb, Next(c, s, e).path, Next(c, s, e).now as real)
  {
    match e
    case Bin(_, _, _, _) => BinStaysSettled(c, pb, s, e);
    case StatelessEpoch(_) =>
    case StatefulEpoch(_, _, _, _) => EpochStaysSettled(c, pb, s, e);
  }

  ghost predicate AllBounded(c: Config, pb: L.PathBounds, events: seq<Event>)
    requires c.Valid()
  {
    forall i :: 0 <= i < |events| ==> Bounded(c, pb, events[i])
  }

  /** Every stateful boundary of a run is timely where it happens. */
  ghost predicate AllTimely(c: Config, pb: L.PathBounds, s: Sys, events: seq<Event>)
    requires IsRun(c, s, events)
    decreases |events|
  {
    events == [] || (Timely(c, pb, s, events[0]) && AllTimely(c, pb, Next(c, s, events[0]), events[1..]))
  }

  lemma {:induction false} RunStaysSettled(c: Config, pb: L.PathBounds, s: Sys, events: seq<Event>)
    requires c.Valid() && L.Covers(c.path, pb) && IsRun(c, s, events) && AllBounded(c, pb, events)
    requires AllTimely(c, pb, s, events)
    requires L.PathSettled(c.path, pb, s.path, s.now as real)
    ensures L.PathSettled(c.path, pb, After(c, s, events).path, After(c, s, events).now as real)
    decreases |events|
  {
    if events != [] {
      hide L.Covers, L.PathSettled, Next, Enabled, Bounded, Timely;
      NextStaysSettled(c, pb, s, events[0]);
      RunStaysSettled(c, pb, Next(c, s, events[0]), events[1..]);
    }
  }

  lemma InitialSettled(c: Config, pb: L.PathBounds, s: Sys)
    requires c.Valid() && L.Covers(c.path, pb) && IsInitial(c, s)
    ensures L.PathSettled(c.path, pb, s.path, 0.0)
  {
    forall d: Domain, i | 0 <= i < |s.path.Of(d)|
      ensures L.Settled(c.path.Of(d).queue, pb.Of(d), s.path.Of(d)[i], 0.0)
    {
      assert s.path.Of(d)[i] == CQ.Initial(c.path.Of(d).queue);
    }
  }

  /** The latency theorem. In every run from an initial state, whatever handoffs and replays happened
      before, every latency sample recorded in a bin is at most delay + D * service of its domain, where D
      is the ring depth and the delay covers a full link FIFO and, counted from the clock, the ring arrival
      of every packet a boundary releases, be it stamped before the clock or after it. */
  lemma WorstCaseLatency(c: Config, pb: L.PathBounds, s: Sys, events: seq<Event>, bin: Event)
    requires c.Valid() && L.Covers(c.path, pb) && IsInitial(c, s)
    requires IsRun(c, s, events) && AllBounded(c, pb, events) && AllTimely(c, pb, s, events)
    requires bin.Bin? && Enabled(c, After(c, s, events), bin) && Bounded(c, pb, bin)
    ensures SamplesWithin(c, pb, Next(c, After(c, s, events), bin).path)
  {
    InitialSettled(c, pb, s);
    RunStaysSettled(c, pb, s, events);
    BinStaysSettled(c, pb, After(c, s, events), bin);
  }

  // ---------- Latency of replayed packets ----------

  ghost predicate QueuesBounded(qs: seq<CQ.Queue>, bound: real) {
    forall i :: 0 <= i < |qs| ==> L.SamplesBounded(qs[i], bound)
  }

  lemma {:induction false} ReplaysBoundSamples(c: Config, pb: L.PathBounds, qs: seq<CQ.Queue>,
        finished: seq<H.Handoff>, t: real, noise: (nat, nat) -> real, k: nat, now: real, bound: real)
    requires c.Valid() && k <= |finished| && L.Covers(c.path, pb)
    requires Arriving(c, finished, t, now + pb.sf.delay)
    requires forall i: nat, j: nat :: CQ.ServiceTime(c.path.sf.queue, noise(i, j)) <= pb.sf.service
    requires QueuesSettled(c.path.sf.queue, pb.sf, qs, now) && QueuesBounded(qs, bound)
    requires pb.sf.Worst(c.path.sf.queue.depth) + (now - t) <= bound
    ensures QueuesBounded(ReplayTo(c, qs, finished, t, noise, k), bound)
  {
    hide L.Replay, L.Bounds.Worst;
    if k > 0 {
      ReplaysBoundSamples(c, pb, qs, finished, t, noise, k - 1, now, bound);
      ReplaysStaySettled(c, pb, qs, finished, t, noise, k - 1, now);
      var before := ReplayTo(c, qs, finished, t, noise, k - 1);
      var h := finished[k - 1];
      if h.dst < |before| && h.bufferedPkts == 0 {
        L.ReplayNone(c.path.sf, before[h.dst], t, AverageSize(h), Row(noise, k - 1));
      } else if h.dst < |before| {
        assert c.path.Of(Stateful) == c.path.sf && pb.Of(Stateful) == pb.sf;
        L.ReplaySamples(c.path.sf, pb.sf, before[h.dst], t, AverageSize(h), h.bufferedPkts, Row(noise, k - 1), now,
                        bound);
      }
    }
  }

  /** In every run, at every stateful boundary: the latency samples of the packets released there, which count
      from the replays' stamp, are at most delay + D * service plus the time by which the stamp lies before
      the clock. */
  lemma ReplayedLatency(c: Config, pb: L.PathBounds, s: Sys, events: seq<Event>, e: Event, bound: real)
    requires c.Valid() && L.Covers(c.path, pb) && IsInitial(c, s)
    requires IsRun(c, s, events) && AllBounded(c, pb, events) && AllTimely(c, pb, s, events)
    requires var s' := After(c, s, events);
      && e.StatefulEpoch? && Enabled(c, s', e) && Bounded(c, pb, e) && Timely(c, pb, s', e)
      && QueuesBounded(s'.path.sf, bound)
      && pb.sf.Worst(c.path.sf.queue.depth) + (s'.now as real - ReplayTime(c.sched.epochNs, s'.epoch)) <= bound
    ensures QueuesBounded(Next(c, After(c, s, events), e).path.sf, bound)
  {
    InitialSettled(c, pb, s);
    assert s.now == 0;
    RunStaysSettled(c, pb, s, events);
    var s' := After(c, s, events);
    NextOfEpoch(c, s', e.telem, e.order, e.draw, e.replayNoise);
    SettledQueues(c.path, pb, s'.path, s'.now as real);
    var finished := H.Tick(c.handoff, s'.m, c.sched.epochNs).1;
    hide IsRun, After, Next, Enabled, ReplayTo, H.Tick, L.Covers, AllBounded, AllTimely, L.PathSettled, QueuesSettled,
         QueuesBounded, Arriving, L.Bounds.Worst, ReplayTime;
    ReplaysBoundSamples(c, pb, s'.path.sf, finished, ReplayTime(c.sched.epochNs, s'.epoch), e.replayNoise, |finished|,
                        s'.now as real, bound);
  }

  // ---------- Delay and lateness ----------

  function WithDelay(pb: L.PathBounds, delay: real): L.PathBounds {
    pb.(sf := pb.sf.(delay := delay))
  }

  lemma {:induction false} LatestArrival(c: Config, finished: seq<H.Handoff>, t: real) returns (latest: real)
    requires c.Valid()
    ensures Arriving(c, finished, t, latest)
  {
    latest := t;
    if finished != [] {
      var n := |finished| - 1;
      var before := LatestArrival(c, finished[..n], t);
      hide PP.DomainConfig.Dma, AverageSize;
      latest := Max(before, t + c.path.sf.Dma(AverageSize(finished[n])));
      assert forall i :: 0 <= i < n ==> finished[..n][i] == finished[i];
    }
  }

  /** Every run has a stateful delay from which on all its boundaries are timely: the latency theorem leaves
      out no run, only the size of its bound depends on how late the replays of the run are stamped. */
  lemma {:induction false} EveryRunHasADelay(c: Config, pb: L.PathBounds, s: Sys, events: seq<Event>)
    returns (least: real)
    requires IsRun(c, s, events)
    ensures forall delay: real :: delay >= least ==> AllTimely(c, WithDelay(pb, delay), s, events)
    decreases |events|
  {
    least := 0.0;
    if events != [] {
      var e := events[0];
      least := EveryRunHasADelay(c, pb, Next(c, s, e), events[1..]);
      if e.StatefulEpoch? {
        var t := ReplayTime(c.sched.epochNs, s.epoch);
        var latest := LatestArrival(c, H.Tick(c.handoff, s.m, c.sched.epochNs).1, t);
        least := Max(least, latest - s.now as real);
      }
      hide Next, Enabled, H.Tick, ReplayTime, PP.DomainConfig.Dma, AverageSize;
    }
  }

  /** No stateful boundary of a run stamps its replays more than `lateness` after the clock. */
  ghost predicate LateBy(c: Config, s: Sys, events: seq<Event>, lateness: real)
    requires IsRun(c, s, events)
    decreases |events|
  {
    events == [] ||
    (&& (events[0].StatefulEpoch? ==> ReplayTime(c.sched.epochNs, s.epoch) <= s.now as real + lateness)
     && LateBy(c, Next(c, s, events[0]), events[1..], lateness))
  }

  lemma {:induction false} LateRunIsTimely(c: Config, pb: L.PathBounds, s: Sys, events: seq<Event>, lateness: real)
    requires IsRun(c, s, events) && LateBy(c, s, events, lateness)
    requires forall size: nat :: lateness + c.path.sf.Dma(size) <= pb.sf.delay
    ensures AllTimely(c, pb, s, events)
    decreases |events|
  {
    if events != [] {
      hide Next, Enabled, PP.DomainConfig.Dma, H.Tick, ReplayTime;
      LateRunIsTimely(c, pb, Next(c, s, events[0]), events[1..], lateness);
    }
  }

  /** The bound for runs of known lateness: the stateful delay has to cover the one-way time plus the
      lateness. With replays on time (lateness 0) it is the one-way time alone. */
  lemma LatencyWithLateness(c: Config, pb: L.PathBounds, s: Sys, events: seq<Event>, bin: Event, lateness: real)
    requires c.Valid() && L.Covers(c.path, pb) && IsInitial(c, s)
    requires IsRun(c, s, events) && AllBounded(c, pb, events)
    requires LateBy(c, s, events, lateness) && forall size: nat :: lateness + c.path.sf.Dma(size) <= pb.sf.delay
    requires bin.Bin? && Enabled(c, After(c, s, events), bin) && Bounded(c, pb, bin)
    ensures SamplesWithin(c, pb, Next(c, After(c, s, events), bin).path)
  {
    LateRunIsTimely(c, pb, s, events, lateness);
    WorstCaseLatency(c, pb, s, events, bin);
  }

  // ---------- Exclusivity ----------

  /** The record of bucket b, issued in the given epoch with the given latency and endpoints, is pending. */
  ghost predicate Migrating(s: Sys, h: H.Handoff) {
    exists i :: 0 <= i < |s.m.pending| && SameMigration(s.m.pending[i], h)
  }

  predicate SameMigration(a: H.Handoff, h: H.Handoff) {
    a.bucket == h.bucket && a.src == h.src && a.dst == h.dst
    && a.startEpoch == h.startEpoch && a.latency == h.latency
  }

  function Epochs(events: seq<Event>): nat {
    if events == [] then 0 else (if events[0].StatefulEpoch? then 1 else 0) + Epochs(events[1..])
  }

  lemma EventKeepsMigration(c: Config, table0: seq<nat>, s: Sys, e: Event, h: H.Handoff)
    requires Enabled(c, s, e) && C.ControlInv(c, table0, s) && Migrating(s, h)
    requires e.StatefulEpoch? ==> s.epoch - h.startEpoch != T.Ticks(h.latency, c.sched.epochNs)
    ensures Migrating(Next(c, s, e), h)
  {
    var i :| 0 <= i < |s.m.pending| && SameMigration(s.m.pending[i], h);
    match e
    case Bin(_, _, _, _) =>
      C.BinKeepsShape(c, s, e);
      R.FedIsSame(c.handoff, s.m.pending[i], e.sf);
      hide Next, R.Fed;
      assert SameMigration(Next(c, s, e).m.pending[i], h);
    case StatelessEpoch(_) =>
      assert Next(c, s, e).m == s.m;
    case StatefulEpoch(_, _, _, _) =>
      var dt := c.sched.epochNs;
      T.TickAges(c.handoff, s.m, s.epoch - 1, dt);
      C.EpochShape(c, s, e);
      var x, st := StepContext(c, s, e.telem, e.draw), InitialStep(c, s, e.telem);
      SS.StepIssuesWithinCap(x, st, e.order, |e.order|);
      var h' := H.Elapse(s.m.pending[i], dt);
      assert h' in st.m.pending;
      var j :| 0 <= j < |st.m.pending| && st.m.pending[j] == h';
      hide Next, SS.StepTo, H.Tick, T.Ticks;
      assert Next(c, s, e).m.pending[j] == h';
      assert SameMigration(Next(c, s, e).m.pending[j], h);
  }

  /** No packet of a migrating bucket is in the stream of a bin. */
  lemma MigratingBucketIsExcluded(s: Sys, sl: seq<Packet>, sf: seq<Packet>, noise: nat -> real, h: H.Handoff)
    requires Migrating(s, h)
    ensures forall i :: 0 <= i < |Stream(s, sl, sf, noise)| && Stream(s, sl, sf, noise)[i].d.Stateful? ==>
      Stream(s, sl, sf, noise)[i].pkt.bucket != h.bucket
  {
    var r := Stream(s, sl, sf, noise);
    var i :| 0 <= i < |s.m.pending| && SameMigration(s.m.pending[i], h);
    assert H.IsPending(s.m, h.bucket);
    R.PassingExcludes(s.m, sf);
    SM.MergeMembers(sl, R.Passing(s.m, sf), noise);
  }

  /** Every state of a run before its k-th event. */
  ghost function At(c: Config, s: Sys, events: seq<Event>, k: nat): Sys
    requires IsRun(c, s, events) && k <= |events|
    decreases k
  {
    if k == 0 then s else At(c, Next(c, s, events[0]), events[1..], k - 1)
  }

  /** Exclusivity over whole runs: from the state in which a handoff is pending until the stateful
      epochs its latency prescribes have passed, it stays pending, and no bin of the run offers a
      packet of its bucket to any queue. */
  lemma {:induction false} ExclusiveUntilCommit(c: Config, table0: seq<nat>, s: Sys, events: seq<Event>,
        h: H.Handoff, k: nat)
    requires IsRun(c, s, events) && C.ControlInv(c, table0, s) && Migrating(s, h) && k < |events|
    requires s.epoch - 1 - h.startEpoch + Epochs(events[..k]) < T.Ticks(h.latency, c.sched.epochNs)
    ensures var sk := At(c, s, events, k);
      && Migrating(sk, h)
      && (events[k].Bin? ==>
            var r := Stream(sk, events[k].sl, events[k].sf, events[k].noise);
            forall i :: 0 <= i < |r| && r[i].d.Stateful? ==> r[i].pkt.bucket != h.bucket)
    decreases k
  {
    if k == 0 {
      if events[0].Bin? {
        MigratingBucketIsExcluded(s, events[0].sl, events[0].sf, events[0].noise, h);
      }
    } else {
      var s1 := Next(c, s, events[0]);
      assert events[..k][0] == events[0] && events[..k][1..] == events[1..][..k - 1];
      EpochAdvances(c, s, events[0]);
      EventKeepsMigration(c, table0, s, events[0], h);
      C.NextKeepsControl(c, table0, s, events[0]);
      hide Next, Enabled, C.ControlInv, Migrating, T.Ticks, Stream;
      ExclusiveUntilCommit(c, table0, s1, events[1..], h, k - 1);
    }
  }

  lemma EpochAdvances(c: Config, s: Sys, e: Event)
    requires Enabled(c, s, e)
    ensures Next(c, s, e).epoch == s.epoch + if e.StatefulEpoch? then 1 else 0
  {
  }

  /** A handoff of the prescribed age is among those the tick finishes. */
  lemma DueFinishes(c: Config, table0: seq<nat>, s: Sys, h: H.Handoff) returns (j: nat)
    requires c.Valid() && C.ControlInv(c, table0, s) && Migrating(s, h)
    requires s.epoch - h.startEpoch == T.Ticks(h.latency, c.sched.epochNs)
    ensures var finished := H.Tick(c.handoff, s.m, c.sched.epochNs).1;
      && j < |finished| && SameMigration(finished[j], h) && finished[j].completed
      && h.bucket < |H.Commit(s.sfTable, finished)| && H.Commit(s.sfTable, finished)[h.bucket] == h.dst
  {
    var dt := c.sched.epochNs;
    var i :| 0 <= i < |s.m.pending| && SameMigration(s.m.pending[i], h);
    var finished := H.Tick(c.handoff, s.m, dt).1;
    T.TickAges(c.handoff, s.m, s.epoch - 1, dt);
    T.FinishedIsBatch(c.handoff, s.m, s.sfTable, dt);
    var h' := H.Elapse(s.m.pending[i], dt);
    assert h' in finished;
    j :| 0 <= j < |finished| && finished[j] == h';
    hide H.Commit, H.Tick, T.Ticks;
    CommitMoves(s.sfTable, finished, j);
  }

  /** A boundary commits what the tick finished and appends it to the history. */
  lemma BoundaryCommits(c: Config, table0: seq<nat>, s: Sys, e: Event)
    requires Enabled(c, s, e) && e.StatefulEpoch? && C.ControlInv(c, table0, s)
    ensures var finished := H.Tick(c.handoff, s.m, c.sched.epochNs).1;
      && Next(c, s, e).sfTable == H.Commit(s.sfTable, finished)
      && Next(c, s, e).m.history == s.m.history + finished
  {
    C.TickedStep(c, table0, s, e);
    C.EpochShape(c, s, e);
    var x, st := StepContext(c, s, e.telem, e.draw), InitialStep(c, s, e.telem);
    C.StepKeepsAges(x, st, e.order, |e.order|);
    hide Next, SS.StepTo, H.Commit;
  }

  /** Liveness and commit: at the epoch boundary that its latency prescribes, the handoff completes, the
      table maps its bucket to the destination, and its source's record is in the history. */
  lemma CommitsOnTime(c: Config, table0: seq<nat>, s: Sys, e: Event, h: H.Handoff)
    requires Enabled(c, s, e) && e.StatefulEpoch? && C.ControlInv(c, table0, s) && Migrating(s, h)
    requires s.epoch - h.startEpoch == T.Ticks(h.latency, c.sched.epochNs)
    ensures var s' := Next(c, s, e);
      && s'.sfTable[h.bucket] == h.dst
      && (exists i ::
            |s.m.history| <= i < |s'.m.history| && SameMigration(s'.m.history[i], h) && s'.m.history[i].completed)
  {
    var j := DueFinishes(c, table0, s, h);
    BoundaryCommits(c, table0, s, e);
    hide *;
    var finished := H.Tick(c.handoff, s.m, c.sched.epochNs).1;
    assert Next(c, s, e).m.history[|s.m.history| + j] == finished[j];
  }

  lemma {:induction false} CommitMoves(table: seq<nat>, finished: seq<H.Handoff>, j: nat)
    requires j < |finished| && finished[j].bucket < |table|
    requires forall i, k :: 0 <= i < k < |finished| ==> H.Disjoint(finished[i], finished[k])
    ensures H.Commit(table, finished)[finished[j].bucket] == finished[j].dst
  {
    var n := |finished| - 1;
    if j < n {
      CommitMoves(table, finished[..n], j);
      assert H.Disjoint(finished[j], finished[n]);
    }
  }
}

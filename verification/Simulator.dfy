/** The simulator object: queue pipelines of both domains, the shared link, the handoff manager and its
    scheduler, driven packet by packet.

    `State` is its value in the terms of module Emulator. The two methods that make up a run, the bin and
    the stateful epoch boundary, are each proved to take one step of that state machine, so that what is
    proved of every run there holds of every sequence of these calls here. */
module Simulators {
  import opened Common
  import CQ = CreditQueue
  import PL = PcieLink
  import PP = PacketPath
  import H = Handoffs
  import R = Redirection
  import SM = StreamMerge
  import SS = StatefulScheduler
  import TM = Telemetry
  import L = Latency
  import A = Accounting
  import RT = ReplayTheorems
  import E = Emulator
  import opened ReactiveScheduler
  import opened QueuePipelines
  import opened HandoffManagers

  /** The queues of one domain. */
  class HostDomainPipeline {
    const queues: seq<QueuePipeline>
    ghost const cfg: CQ.Config

    ghost predicate Valid()
      reads queues
    {
      && (forall i, j :: 0 <= i < j < |queues| ==> queues[i] != queues[j])
      && (forall i :: 0 <= i < |queues| ==> queues[i].Valid() && queues[i].cfg == cfg)
    }

    ghost function Model(): (s: seq<CQ.Queue>)
      reads queues
      ensures |s| == |queues| && forall i :: 0 <= i < |s| ==> s[i] == queues[i].Model()
    {
      seq(|queues|, i requires 0 <= i < |queues| reads queues => queues[i].Model())
    }

    constructor (queues: seq<QueuePipeline>, ghost cfg: CQ.Config)
      requires forall i, j :: 0 <= i < j < |queues| ==> queues[i] != queues[j]
      requires forall i :: 0 <= i < |queues| ==> queues[i].Valid() && queues[i].cfg == cfg
      ensures this.queues == queues && this.cfg == cfg && Valid()
    {
      this.queues := queues;
      this.cfg := cfg;
    }

    method AdvanceAllTo(t: real)
      requires Valid()
      modifies queues
      ensures Valid()
      ensures Model() == PP.AdvanceQueues(old(Model()), t)
    {
      hide QueuePipeline.Valid, QueuePipeline.Model, CQ.Advance;
      var k := 0;
      while k < |queues|
        invariant k <= |queues| && Valid()
        invariant forall i :: 0 <= i < k ==> queues[i].Model() == CQ.Advance(old(queues[i].Model()), t)
        invariant forall i :: k <= i < |queues| ==> queues[i].Model() == old(queues[i].Model())
      {
        queues[k].AdvanceTo(t);
        k := k + 1;
      }
    }

    method ResetBinStats()
      requires Valid()
      modifies queues
      ensures Valid()
      ensures Model() == PP.ResetQueues(old(Model()))
    {
      hide QueuePipeline.Valid, QueuePipeline.Model, CQ.Advance;
      var k := 0;
      while k < |queues|
        invariant k <= |queues| && Valid()
        invariant forall i :: 0 <= i < k ==> queues[i].Model() == old(queues[i].Model()).(stats := CQ.ZERO_STATS)
        invariant forall i :: k <= i < |queues| ==> queues[i].Model() == old(queues[i].Model())
      {
        queues[k].ResetStats();
        k := k + 1;
      }
    }
  }

  class Simulator {
    const sl: HostDomainPipeline
    const sf: HostDomainPipeline
    const slConfig: PP.DomainConfig
    const sfConfig: PP.DomainConfig
    const pcie: PL.PCIeLink?
    const handoff: HandoffManager
    const scheduler: ReactiveStatefulScheduler
    var slTable: seq<nat>
    var sfTable: seq<nat>
    var now: int
    var sfEpoch: nat

    ghost predicate Valid()
      reads sl.queues, sf.queues
    {
      && scheduler.handoff == handoff
      && sl.Valid() && sf.Valid()
      && sl.cfg == slConfig.queue && sf.cfg == sfConfig.queue
      && slConfig.queue.Valid() && sfConfig.queue.Valid()
      && (forall i, j :: 0 <= i < |sl.queues| && 0 <= j < |sf.queues| ==> sl.queues[i] != sf.queues[j])
      && (pcie != null ==> pcie.Valid())
    }

    ghost function Config(): PP.Config
      requires pcie != null ==> pcie.Valid()
    {
      PP.Config(if pcie == null then None else Some(pcie.Cfg()), slConfig, sfConfig)
    }

    ghost function LinkModel(): PL.Link
      reads pcie
    {
      if pcie == null then PL.IDLE else pcie.Model()
    }

    ghost function Path(): PP.Path
      reads sl.queues, sf.queues, pcie
    {
      PP.Path(LinkModel(), sl.Model(), sf.Model())
    }

    constructor (sl: HostDomainPipeline, sf: HostDomainPipeline, slConfig: PP.DomainConfig, sfConfig: PP.DomainConfig,
                 pcie: PL.PCIeLink?, scheduler: ReactiveStatefulScheduler, slTable: seq<nat>, sfTable: seq<nat>)
      requires sl.Valid() && sf.Valid()
      requires sl.cfg == slConfig.queue && sf.cfg == sfConfig.queue
      requires slConfig.queue.Valid() && sfConfig.queue.Valid()
      requires forall i, j :: 0 <= i < |sl.queues| && 0 <= j < |sf.queues| ==> sl.queues[i] != sf.queues[j]
      requires pcie != null ==> pcie.Valid()
      ensures Valid() && this.sl == sl && this.sf == sf && this.pcie == pcie && this.scheduler == scheduler
      ensures this.slConfig == slConfig && this.sfConfig == sfConfig
      ensures this.slTable == slTable && this.sfTable == sfTable && now == 0 && sfEpoch == 0
    {
      this.sl, this.sf, this.slConfig, this.sfConfig := sl, sf, slConfig, sfConfig;
      this.pcie, this.scheduler, this.handoff := pcie, scheduler, scheduler.handoff;
      this.slTable, this.sfTable := slTable, sfTable;
      now, sfEpoch := 0, 0;
    }

    /** One packet at its queue: credit check, link, admission. */
    method OfferPacket(qp: QueuePipeline, dc: PP.DomainConfig, a: PP.Arrival)
      requires qp.Valid() && (pcie != null ==> pcie.Valid()) && slConfig.queue.Valid() && sfConfig.queue.Valid()
      requires dc == Config().Of(a.d) && qp.cfg == dc.queue
      modifies qp, pcie
      ensures qp.Valid()
      ensures var (q, l, _) := PP.Offer(Config(), old(qp.Model()), old(LinkModel()), a);
        qp.Model() == q && LinkModel() == l
    {
      hide CQ.Advance, CQ.TryAdmit, CQ.Inv, HeapHolds, PL.Transmit, CQ.ServiceTime, PP.DomainConfig.Dma;
      var t, size := a.pkt.t as real, a.pkt.size;
      qp.AdvanceTo(t);
      if qp.creditsAtFpga <= 0 {
        qp.RecordCreditDrop(size);
      } else if pcie != null {
        var done := pcie.TryTransmit(t, size, a.d);
        if done.None? {
          qp.RecordPcieDrop(size);
        } else {
          var _ := qp.TryAdmit(t, size, done, 0.0, a.noise);
        }
      } else {
        var _ := qp.TryAdmit(t, size, None, dc.Dma(size), a.noise);
      }
    }

    /** Route one packet of the merged stream and offer it. */
    method StepPacket(a: PP.Arrival)
      requires Valid() && PP.Routable(PP.Tables(slTable, sfTable), Path(), a)
      modifies sl.queues, sf.queues, pcie
      ensures Valid()
      ensures Path() == PP.Step(Config(), PP.Tables(slTable, sfTable), old(Path()), a)
    {
      hide PP.Offer, QueuePipeline.Valid, QueuePipeline.Model, PL.PCIeLink.Model;
      var dom := if a.d.Stateless? then sl else sf;
      var table := if a.d.Stateless? then slTable else sfTable;
      var dc := if a.d.Stateless? then slConfig else sfConfig;
      var q := table[a.pkt.bucket];
      var qp := dom.queues[q];
      OfferPacket(qp, dc, a);
      assert sl.Model() == if a.d.Stateless? then old(sl.Model())[q := qp.Model()] else old(sl.Model());
      assert sf.Model() == if a.d.Stateless? then old(sf.Model()) else old(sf.Model())[q := qp.Model()];
    }

    lemma NoArrival(tab: PP.Tables, s0: PP.Path, r: seq<PP.Arrival>)
      requires Valid()
      ensures (pcie != null ==> pcie.Valid()) && Config().Valid()
      ensures PP.AllRoutable(tab, s0, r[..0]) && PP.Process(Config(), tab, s0, r[..0]) == s0
    {
    }

    lemma NextArrival(tab: PP.Tables, s0: PP.Path, r: seq<PP.Arrival>, k: nat)
      requires Valid() && PP.AllRoutable(tab, s0, r) && k < |r|
      ensures PP.AllRoutable(tab, s0, r[..k]) && PP.AllRoutable(tab, s0, r[..k + 1])
      ensures PP.Routable(tab, PP.Process(Config(), tab, s0, r[..k]), r[k])
      ensures PP.Process(Config(), tab, s0, r[..k + 1])
           == PP.Step(Config(), tab, PP.Process(Config(), tab, s0, r[..k]), r[k])
    {
      PP.ProcessLast(Config(), tab, s0, r[..k + 1]);
      assert r[..k + 1][..k] == r[..k];
    }

    method ProcessStream(r: seq<PP.Arrival>)
      requires Valid() && PP.AllRoutable(PP.Tables(slTable, sfTable), Path(), r)
      modifies sl.queues, sf.queues, pcie
      ensures Valid()
      ensures Path() == PP.Process(Config(), PP.Tables(slTable, sfTable), old(Path()), r)
    {
      hide *;
      ghost var tab, s0 := PP.Tables(slTable, sfTable), Path();
      NoArrival(tab, s0, r);
      var k := 0;
      while k < |r|
        invariant k <= |r| && Valid()
        invariant PP.AllRoutable(tab, s0, r[..k])
        invariant Path() == PP.Process(Config(), tab, s0, r[..k])
      {
        NextArrival(tab, s0, r, k);
        StepPacket(r[k]);
        k := k + 1;
      }
      assert r[..k] == r;
    }

    /** Divert the packets of buckets in handoff into their buffers; the others go on in their order. */
    method ApplyHandoffRedirection(pkts: seq<Packet>) returns (rest: seq<Packet>)
      requires handoff.Valid() && R.DistinctBuckets(handoff.pending)
      modifies handoff`pending
      ensures handoff.Valid()
      ensures handoff.Model() == R.Feed(handoff.cfg, old(handoff.Model()), pkts)
      ensures rest == R.Passing(old(handoff.Model()), pkts)
    {
      rest := PassingPackets(pkts);
      ghost var before := handoff.pending;
      var k := 0;
      while k < |handoff.pending|
        modifies handoff`pending
        invariant handoff.Valid() && |handoff.pending| == |before| && k <= |before|
        invariant forall i :: 0 <= i < k ==> handoff.pending[i] == R.Fed(handoff.cfg, before[i], pkts)
        invariant forall i :: k <= i < |before| ==> handoff.pending[i] == before[i]
      {
        var b := handoff.pending[k].bucket;
        forall j | 0 <= j < |before| && j != k ensures handoff.pending[j].bucket != b {
          FedKeepsBucket(handoff.cfg, before, pkts);
        }
        hide H.Absorb, R.BytesOf, R.CountOf;
        if R.CountOf(pkts, b) > 0 {
          assert IsFirst(handoff.pending, k, b);
          var _, _ := handoff.AbsorbBucketTraffic(b, R.BytesOf(pkts, b), R.CountOf(pkts, b));
        }
        k := k + 1;
      }
    }

    lemma FedKeepsBucket(c: H.Config, before: seq<H.Handoff>, pkts: seq<Packet>)
      ensures forall i :: 0 <= i < |before| ==> R.Fed(c, before[i], pkts).bucket == before[i].bucket
    {
    }

    method PassingPackets(pkts: seq<Packet>) returns (rest: seq<Packet>)
      requires handoff.Valid()
      ensures rest == R.Passing(handoff.Model(), pkts)
    {
      rest := [];
      var k := 0;
      while k < |pkts|
        invariant k <= |pkts|
        invariant rest == R.Passing(handoff.Model(), pkts[..k])
      {
        var i := handoff.FindPending(pkts[k].bucket);
        assert H.IsPending(handoff.Model(), pkts[k].bucket) <==> i < |handoff.pending|;
        hide H.IsPending;
        if i == |handoff.pending| {
          rest := rest + [pkts[k]];
        }
        assert pkts[..k + 1][..k] == pkts[..k];
        k := k + 1;
      }
      assert pkts[..k] == pkts;
    }

    ghost function EmulatorConfig(): E.Config
      requires pcie != null ==> pcie.Valid()
    {
      E.Config(Config(), handoff.cfg, scheduler.cfg)
    }

    ghost function State(): E.Sys
      reads this, sl.queues, sf.queues, pcie, handoff, handoff.ready, handoff.flag, handoff.tHand
    {
      E.Sys(Path(), slTable, sfTable, handoff.Model(), now, sfEpoch)
    }

    /** One bin after the arbiter: redirect, reset counters, merge both domains by time, process packet by
        packet, advance every clock to the bin's end. */
    method ProcessBinMerged(slPkts: seq<Packet>, sfPkts: seq<Packet>, noise: nat -> real, tEnd: int)
      requires Valid() && handoff.Valid() && R.DistinctBuckets(handoff.pending)
      requires E.Enabled(EmulatorConfig(), State(), E.Bin(slPkts, sfPkts, noise, tEnd))
      modifies sl.queues, sf.queues, pcie, handoff`pending, `now
      ensures Valid() && handoff.Valid()
      ensures State() == E.Next(EmulatorConfig(), old(State()), E.Bin(slPkts, sfPkts, noise, tEnd))
    {
      hide *;
      Parts();
      E.NextOfBin(EmulatorConfig(), State(), slPkts, sfPkts, noise, tEnd);
      ProcessPackets(slPkts, sfPkts, noise, tEnd);
      now := tEnd;
      Parts();
    }

    lemma Parts()
      requires Valid()
      ensures scheduler.handoff == handoff && (pcie != null ==> pcie.Valid())
      ensures State() == E.Sys(Path(), slTable, sfTable, handoff.Model(), now, sfEpoch)
      ensures EmulatorConfig() == E.Config(Config(), handoff.cfg, scheduler.cfg)
    {
    }

    method ProcessPackets(slPkts: seq<Packet>, sfPkts: seq<Packet>, noise: nat -> real, tEnd: int)
      requires Valid() && handoff.Valid() && R.DistinctBuckets(handoff.pending)
      requires PP.AllRoutable(PP.Tables(slTable, sfTable), Path(),
          SM.Merge(slPkts, R.Passing(handoff.Model(), sfPkts), noise))
      modifies sl.queues, sf.queues, pcie, handoff`pending
      ensures Valid() && handoff.Valid()
      ensures var r := SM.Merge(slPkts, R.Passing(old(handoff.Model()), sfPkts), noise);
        Path() == PP.Bin(Config(), PP.Tables(slTable, sfTable), old(Path()), r, tEnd)
      ensures handoff.Model() == R.Feed(handoff.cfg, old(handoff.Model()), sfPkts)
    {
      hide SM.Merge, R.Passing, R.Feed, PP.Bin;
      var rest := ApplyHandoffRedirection(sfPkts);
      ProcessMerged(SM.Merge(slPkts, rest, noise), tEnd);
    }

    /** The packet path of a bin. */
    method ProcessMerged(r: seq<PP.Arrival>, tEnd: int)
      requires Valid() && PP.AllRoutable(PP.Tables(slTable, sfTable), Path(), r)
      modifies sl.queues, sf.queues, pcie
      ensures Valid() && Path() == PP.Bin(Config(), PP.Tables(slTable, sfTable), old(Path()), r, tEnd)
    {
      hide PP.Process;
      ResetBinStats();
      ProcessStream(r);
      AdvanceAll(tEnd as real);
    }

    /** Offer n packets of one size to a queue at one moment; the result counts those refused. */
    method ReplayInto(qp: QueuePipeline, t: real, size: nat, n: nat, noise: nat -> real) returns (dropped: nat)
      requires qp.Valid() && qp.cfg == sfConfig.queue && sfConfig.queue.Valid()
      modifies qp
      ensures qp.Valid()
      ensures (qp.Model(), dropped) == L.Replay(sfConfig, old(qp.Model()), t, size, n, noise)
    {
      hide QueuePipeline.Valid, QueuePipeline.Model, CQ.TryAdmit, CQ.ServiceTime, PP.DomainConfig.Dma;
      dropped := 0;
      var k := 0;
      while k < n
        invariant k <= n && qp.Valid()
        invariant (qp.Model(), dropped) == L.Replay(sfConfig, old(qp.Model()), t, size, k, noise)
      {
        var ok := qp.TryAdmit(t, size, None, sfConfig.Dma(size), noise(k));
        if !ok {
          dropped := dropped + 1;
        }
        k := k + 1;
      }
    }

    /** Release the buffered packets of one completed handoff into its destination queue. */
    method ReplayHandoff(h: H.Handoff, t: real, noise: nat -> real) returns (dropped: nat)
      requires Valid() && h.dst < |sf.queues|
      modifies sf.queues
      ensures Valid() && EmulatorConfig().path.Valid()
      ensures var (q, refused) := L.Replay(sfConfig, old(sf.Model())[h.dst], t, E.AverageSize(h), h.bufferedPkts,
          noise);
        sf.Model() == old(sf.Model())[h.dst := q] && dropped == refused
    {
      hide QueuePipeline.Valid, QueuePipeline.Model, L.Replay, E.AverageSize, CQ.Config.Valid;
      if h.bufferedPkts <= 0 {
        L.ReplayNone(sfConfig, sf.Model()[h.dst], t, E.AverageSize(h), noise);
        assert sf.Model() == sf.Model()[h.dst := sf.Model()[h.dst]];
        return 0;
      }
      dropped := ReplayInto(sf.queues[h.dst], t, E.AverageSize(h), h.bufferedPkts, noise);
    }

    lemma ReplaySteps(c: E.Config, qs: seq<CQ.Queue>, finished: seq<H.Handoff>, t: real, noise: (nat, nat) -> real,
          k: nat)
      requires c.Valid() && k < |finished| && finished[k].dst < |qs|
      ensures var before := E.ReplayTo(c, qs, finished, t, noise, k);
        var h := finished[k];
        && E.ReplayTo(c, qs, finished, t, noise, 0) == qs
        && E.ReplayTo(c, qs, finished, t, noise, k + 1)
           == before[h.dst := L.Replay(c.path.sf, before[h.dst], t, E.AverageSize(h), h.bufferedPkts,
               E.Row(noise, k)).0]
    {
    }

    method ReplayFinished(finished: seq<H.Handoff>, t: real, noise: (nat, nat) -> real) returns (dropped: nat)
      requires Valid() && EmulatorConfig().Valid() && forall i :: 0 <= i < |finished| ==> finished[i].dst < |sf.queues|
      modifies sf.queues
      ensures Valid()
      ensures sf.Model() == E.ReplayTo(EmulatorConfig(), old(sf.Model()), finished, t, noise, |finished|)
      ensures dropped == A.Total(sf.Model(), A.CreditDropPkts) - A.Total(old(sf.Model()), A.CreditDropPkts)
    {
      ghost var c, before := EmulatorConfig(), sf.Model();
      dropped := 0;
      hide QueuePipeline.Valid, QueuePipeline.Model, L.Replay, E.Config.Valid, E.AverageSize, A.Total;
      var k := 0;
      while k < |finished|
        invariant k <= |finished| && Valid()
        invariant sf.Model() == E.ReplayTo(c, before, finished, t, noise, k)
        invariant dropped == A.Total(sf.Model(), A.CreditDropPkts) - A.Total(before, A.CreditDropPkts)
      {
        ReplaySteps(c, before, finished, t, noise, k);
        RT.ReleaseDrops(c, sf.Model(), finished[k], t, E.Row(noise, k));
        var d := ReplayHandoff(finished[k], t, E.Row(noise, k));
        dropped := dropped + d;
        k := k + 1;
      }
    }

    /** Advance handoffs by one epoch, run the scheduler and commit the table. */
    method ScheduleEpoch(telem: TM.Report, draw: nat -> H.Draw) returns (raised: bool, ghost order: seq<nat>)
      requires scheduler.handoff == handoff && handoff.Valid()
      requires scheduler.cfg.epochNs > 0.0 && Sum(telem.queueBytes) >= 0.0
      requires |telem.pressure| == |telem.queueBytes| == handoff.cfg.queues && |telem.bucketBytes| == |sfTable|
      requires var finished := H.Tick(handoff.cfg, handoff.Model(), scheduler.cfg.epochNs).1;
        forall b :: 0 <= b < |sfTable| ==> H.Commit(sfTable, finished)[b] < handoff.cfg.queues
      modifies `sfTable, scheduler, handoff, handoff.flag, handoff.tHand
      ensures handoff.Valid()
      ensures var (ticked, finished) := H.Tick(handoff.cfg, old(handoff.Model()), scheduler.cfg.epochNs);
        var x := ContextOf(scheduler.cfg, handoff.cfg, telem, H.Commit(old(sfTable), finished), sfEpoch, draw);
        var st := SS.State(ticked, telem.queueBytes, 0, false);
        && scheduler.finished == finished && sfTable == H.Commit(old(sfTable), finished)
        && IsCandidateOrder(x, order)
        && handoff.Model() == SS.StepTo(x, st, order, |order|).m
        && raised == SS.StepTo(x, st, order, |order|).raised
    {
      scheduler.TickHandoffs();
      hide SS.StepTo, H.Tick, H.Commit, IsCandidateOrder;
      var newTable;
      newTable, raised, order := scheduler.Step(sfEpoch, telem, sfTable, draw);
      sfTable := newTable;
    }

    /** Advance handoffs by one epoch, run the scheduler, commit the table, release the buffers of completed
        handoffs, count the epoch. */
    method CloseEpoch(telem: TM.Report, draw: nat -> H.Draw, noise: (nat, nat) -> real)
      returns (raised: bool, droppedAtDst: nat, ghost order: seq<nat>)
      requires Valid() && handoff.Valid() && EmulatorConfig().Valid()
      requires scheduler.cfg.epochNs > 0.0 && Sum(telem.queueBytes) >= 0.0
      requires |telem.pressure| == |telem.queueBytes| == handoff.cfg.queues && |telem.bucketBytes| == |sfTable|
      requires var finished := H.Tick(handoff.cfg, handoff.Model(), scheduler.cfg.epochNs).1;
        && (forall b :: 0 <= b < |sfTable| ==> H.Commit(sfTable, finished)[b] < handoff.cfg.queues)
        && (forall i :: 0 <= i < |finished| ==> finished[i].dst < |sf.queues|)
      modifies this, sf.queues, scheduler, handoff, handoff.flag, handoff.tHand
      ensures Valid() && handoff.Valid()
      ensures var (ticked, finished) := H.Tick(handoff.cfg, old(handoff.Model()), scheduler.cfg.epochNs);
        var x := ContextOf(scheduler.cfg, handoff.cfg, telem, H.Commit(old(sfTable), finished), old(sfEpoch), draw);
        var st := SS.State(ticked, telem.queueBytes, 0, false);
        && IsCandidateOrder(x, order)
        && State() == old(State()).(
             path := old(Path()).(sf := E.ReplayTo(EmulatorConfig(), old(Path()).sf, finished,
               E.ReplayTime(scheduler.cfg.epochNs, old(sfEpoch)), noise, |finished|)),
             sfTable := H.Commit(old(sfTable), finished),
             m := SS.StepTo(x, st, order, |order|).m, epoch := old(sfEpoch) + 1)
      ensures H.Inv(handoff.cfg, old(handoff.Model()), old(sfTable)) ==> !raised
      ensures droppedAtDst == Drops(State()) - Drops(old(State()))
    {
      ghost var s := State();
      hide *;
      Parts();
      PathParts();
      ghost var before, table := handoff.Model(), sfTable;
      raised, order := ScheduleEpoch(telem, draw);
      if H.Inv(handoff.cfg, before, table) {
        RangeOfInv(before, table);
        StepNeverRaises(before, table, telem, s.epoch, draw, order);
      }
      ghost var m := handoff.Model();
      droppedAtDst := ReleaseBuffers(noise);
      assert State() == s.(path := Path(), sfTable := sfTable, m := m, epoch := s.epoch + 1) by { Parts(); }
      PathParts();
      DropsInPath(s);
      DropsInPath(State());
    }

    /** The stateful epoch boundary is the machine's, with the candidate order that the step's sort chose. */
    method OnStatefulEpochBoundary(telem: TM.Report, draw: nat -> H.Draw, noise: (nat, nat) -> real)
      returns (raised: bool, droppedAtDst: nat, ghost order: seq<nat>)
      requires Valid() && handoff.Valid() && EmulatorConfig().Valid() && E.Shaped(EmulatorConfig(), State())
      requires E.EpochReady(EmulatorConfig(), State(), telem, draw)
      modifies this, sf.queues, scheduler, handoff, handoff.flag, handoff.tHand
      ensures Valid() && handoff.Valid()
      ensures var e := E.StatefulEpoch(telem, order, draw, noise);
        && E.Enabled(EmulatorConfig(), old(State()), e)
        && State() == E.Next(EmulatorConfig(), old(State()), e)
      ensures H.Inv(handoff.cfg, old(handoff.Model()), old(sfTable)) ==> !raised
      ensures droppedAtDst == Drops(State()) - Drops(old(State()))
    {
      ghost var c, s := EmulatorConfig(), State();
      hide *;
      Parts();
      ManagerParts();
      raised, droppedAtDst, order := CloseReadyEpoch(c, s, telem, draw, noise);
    }

    /** The boundary of an epoch that is ready, from the state s. */
    method CloseReadyEpoch(ghost c: E.Config, ghost s: E.Sys, telem: TM.Report, draw: nat -> H.Draw,
                           noise: (nat, nat) -> real)
      returns (raised: bool, droppedAtDst: nat, ghost order: seq<nat>)
      requires Valid() && handoff.Valid() && c == EmulatorConfig() && s == State()
      requires c.Valid() && E.Shaped(c, s)
      requires H.InDomain(s.m, c.handoff.queues) && H.InRange(s.m.pending, c.handoff.queues)
      requires E.EpochReady(c, s, telem, draw)
      modifies this, sf.queues, scheduler, handoff, handoff.flag, handoff.tHand
      ensures Valid() && handoff.Valid()
      ensures var e := E.StatefulEpoch(telem, order, draw, noise);
        E.Enabled(c, s, e) && State() == E.Next(c, s, e)
      ensures H.Inv(c.handoff, s.m, s.sfTable) ==> !raised
      ensures droppedAtDst == Drops(State()) - Drops(s)
    {
      hide *;
      Parts();
      PathParts();
      E.ReadyParts(c, s, telem, draw);
      raised, droppedAtDst, order := CloseEpoch(telem, draw, noise);
      BoundaryIsEvent(c, s, telem, order, draw, noise, State());
    }

    /** Packets that the stateful queues have dropped for lack of a credit since their counters were reset. */
    static ghost function Drops(s: E.Sys): nat {
      A.Total(s.path.sf, A.CreditDropPkts)
    }

    lemma DropsInPath(s: E.Sys)
      ensures Drops(s) == A.Total(s.path.sf, A.CreditDropPkts)
    {
    }

    /** The boundary in the terms of the machine. */
    lemma BoundaryIsEvent(c: E.Config, s: E.Sys, telem: TM.Report, order: seq<nat>, draw: nat -> H.Draw,
                          noise: (nat, nat) -> real, s': E.Sys)
      requires c.Valid() && E.Shaped(c, s)
      requires H.InDomain(s.m, c.handoff.queues) && H.InRange(s.m.pending, c.handoff.queues)
      requires E.EpochReady(c, s, telem, draw)
      requires var (ticked, finished) := H.Tick(c.handoff, s.m, c.sched.epochNs);
        var x := ContextOf(c.sched, c.handoff, telem, H.Commit(s.sfTable, finished), s.epoch, draw);
        var st := SS.State(ticked, telem.queueBytes, 0, false);
        && (x.Valid() ==> IsCandidateOrder(x, order))
        && (forall i :: 0 <= i < |finished| ==> finished[i].dst < |s.path.sf|)
        && (SS.Fits(x, st) && SS.Buckets(x, order) ==> s' == s.(
              path := s.path.(sf := E.ReplayTo(c, s.path.sf, finished, E.ReplayTime(c.sched.epochNs, s.epoch), noise,
                                               |finished|)),
              sfTable := H.Commit(s.sfTable, finished), m := SS.StepTo(x, st, order, |order|).m, epoch := s.epoch + 1))
      ensures E.Enabled(c, s, E.StatefulEpoch(telem, order, draw, noise))
      ensures s' == E.Next(c, s, E.StatefulEpoch(telem, order, draw, noise))
    {
      hide *;
      E.EpochEnabled(c, s, telem, order, draw, noise);
      E.NextOfEpoch(c, s, telem, order, draw, noise);
    }

    lemma RangeOfInv(m: H.Manager, table: seq<nat>)
      requires H.Inv(handoff.cfg, m, table)
      ensures H.InRange(m.pending, handoff.cfg.queues)
    {
      forall i | 0 <= i < |m.pending|
        ensures m.pending[i].src < handoff.cfg.queues && m.pending[i].dst < handoff.cfg.queues
      {
        assert H.WellPlaced(m.pending[i], handoff.cfg.queues, table);
      }
    }

    /** From the handoff invariant no step raises. */
    lemma StepNeverRaises(m: H.Manager, table: seq<nat>, telem: TM.Report, epoch: nat, draw: nat -> H.Draw,
                          order: seq<nat>)
      requires H.Inv(handoff.cfg, m, table) && H.InRange(m.pending, handoff.cfg.queues)
      requires scheduler.cfg.epochNs > 0.0 && Sum(telem.queueBytes) >= 0.0
      requires |telem.pressure| == |telem.queueBytes| == handoff.cfg.queues && |telem.bucketBytes| == |table|
      requires var (ticked, finished) := H.Tick(handoff.cfg, m, scheduler.cfg.epochNs);
        var x := ContextOf(scheduler.cfg, handoff.cfg, telem, H.Commit(table, finished), epoch, draw);
        && (forall b :: 0 <= b < |table| ==> H.Commit(table, finished)[b] < handoff.cfg.queues)
        && (x.Valid() ==> IsCandidateOrder(x, order))
      ensures var (ticked, finished) := H.Tick(handoff.cfg, m, scheduler.cfg.epochNs);
        var x, st := ContextOf(scheduler.cfg, handoff.cfg, telem, H.Commit(table, finished), epoch, draw),
          SS.State(ticked, telem.queueBytes, 0, false);
        SS.Fits(x, st) && SS.Buckets(x, order) && !SS.StepTo(x, st, order, |order|).raised
    {
      H.CommitKeepsInv(handoff.cfg, m, table, scheduler.cfg.epochNs);
      var (ticked, finished) := H.Tick(handoff.cfg, m, scheduler.cfg.epochNs);
      var x := ContextOf(scheduler.cfg, handoff.cfg, telem, H.Commit(table, finished), epoch, draw);
      hide H.Tick, H.Commit, SS.StepTo, Sum;
      assert H.InDomain(ticked, handoff.cfg.queues);
      SS.StepKeepsInv(x, SS.State(ticked, telem.queueBytes, 0, false), order, |order|);
    }

    /** The last part of the boundary: replay the finished handoffs and count the epoch. */
    method ReleaseBuffers(noise: (nat, nat) -> real) returns (droppedAtDst: nat)
      requires Valid() && EmulatorConfig().Valid()
      requires forall i :: 0 <= i < |scheduler.finished| ==> scheduler.finished[i].dst < |sf.queues|
      modifies `sfEpoch, sf.queues
      ensures Valid() && sfEpoch == old(sfEpoch) + 1
      ensures Path() == old(Path()).(sf := E.ReplayTo(EmulatorConfig(), old(Path()).sf, scheduler.finished,
        E.ReplayTime(scheduler.cfg.epochNs, old(sfEpoch)), noise, |scheduler.finished|))
      ensures droppedAtDst == A.Total(sf.Model(), A.CreditDropPkts) - A.Total(old(sf.Model()), A.CreditDropPkts)
    {
      hide QueuePipeline.Valid, QueuePipeline.Model, E.ReplayTo, E.ReplayTime, A.Total;
      var t := E.ReplayTime(scheduler.cfg.epochNs, sfEpoch);
      droppedAtDst := ReplayFinished(scheduler.finished, t, noise);
      sfEpoch := sfEpoch + 1;
    }

    lemma ManagerParts()
      requires handoff.Valid()
      ensures H.InDomain(handoff.Model(), handoff.cfg.queues) && H.InRange(handoff.Model().pending, handoff.cfg.queues)
    {
    }

    lemma PathParts()
      requires Valid()
      ensures Path() == PP.Path(LinkModel(), sl.Model(), sf.Model())
    {
    }

    method ResetQueues()
      requires Valid()
      modifies sl.queues, sf.queues
      ensures Valid() && sl.Model() == PP.ResetQueues(old(sl.Model())) && sf.Model() == PP.ResetQueues(old(sf.Model()))
    {
      hide QueuePipeline.Valid, QueuePipeline.Model, PL.PCIeLink.Valid, CQ.Config.Valid, PP.ResetQueues;
      ghost var sfBefore := sf.Model();
      sl.ResetBinStats();
      assert sf.Model() == sfBefore;
      sf.ResetBinStats();
    }

    method ResetBinStats()
      requires Valid()
      modifies sl.queues, sf.queues, pcie
      ensures Valid() && Path() == PP.ResetStats(old(Path()))
    {
      hide QueuePipeline.Valid, QueuePipeline.Model, PL.PCIeLink.Model, PP.ResetQueues;
      ResetQueues();
      if pcie != null {
        pcie.ResetStats();
      }
    }

    method AdvanceQueues(t: real)
      requires Valid()
      modifies sl.queues, sf.queues
      ensures Valid()
      ensures sl.Model() == PP.AdvanceQueues(old(sl.Model()), t) && sf.Model() == PP.AdvanceQueues(old(sf.Model()), t)
    {
      hide QueuePipeline.Valid, QueuePipeline.Model, PL.PCIeLink.Valid, CQ.Config.Valid, PP.AdvanceQueues;
      ghost var sfBefore := sf.Model();
      sl.AdvanceAllTo(t);
      assert sf.Model() == sfBefore;
      sf.AdvanceAllTo(t);
    }

    method AdvanceAll(t: real)
      requires Valid()
      modifies sl.queues, sf.queues, pcie
      ensures Valid() && Path() == PP.AdvanceAll(Config(), old(Path()), t)
    {
      hide QueuePipeline.Valid, QueuePipeline.Model, PL.PCIeLink.Model, PP.AdvanceQueues;
      AdvanceQueues(t);
      if pcie != null {
        pcie.AdvanceTo(t);
      }
    }
  }
}

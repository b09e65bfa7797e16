/** The emulator object: traces, arbiter, simulator and recorder put together, and its run.

    `World` is its value in the terms of module TraceDriven. A bin and a stateful boundary are each proved to
    take the steps of that driver, so the run of the object is a run of the state machine. What stays outside
    are the random draws, the shifted buckets and the stateless scheduler, of which two are modelled. */
module Emulations {
  import opened Common
  import H = Handoffs
  import T = Traces
  import BC = BinConservation
  import A = Arbiters
  import TH = Throttle
  import R = Redirection
  import TM = Telemetry
  import TT = TelemetryTheorems
  import HT = HandoffTime
  import C = ControlTheorems
  import CT = CreditTheorems
  import E = Emulator
  import D = TraceDriven
  import BR = BinRecorders
  import RL = RunLoop
  import opened Simulators
  import opened TraceSets

  /** What the outside supplies along a run: the draws of the arbiter and of the service times of the i-th bin, the
      table of the k-th stateless boundary, the draws of the k-th stateful one, and the new buckets of a
      domain's flows where its k-th boundary shifts the pattern. */
  datatype Inputs = Inputs(
    keep: (nat, Domain) -> (nat -> real), noise: nat -> (nat -> real), table: nat -> seq<nat>,
    latency: nat -> (nat -> H.Draw), replayNoise: nat -> ((nat, nat) -> real),
    shift: (Domain, nat) -> Option<seq<nat>>)

  /** Tables are for the buckets and queues of the machine, and flows move to buckets that exist. */
  ghost predicate Supplies(u: Inputs, w: D.World) {
    && (forall k: nat :: |u.table(k)| == |w.s.slTable| && E.MapsInto(u.table(k), |w.s.path.sl|))
    && (forall k: nat :: u.shift(Stateless, k).Some? ==> D.BucketsFor(u.shift(Stateless, k).value, w.sl, w.s.slTable))
    && (forall k: nat :: u.shift(Stateful, k).Some? ==> D.BucketsFor(u.shift(Stateful, k).value, w.sf, w.s.sfTable))
  }

  lemma StillSupplies(u: Inputs, w: D.World, w': D.World)
    requires Supplies(u, w) && RL.SameSizes(w, w')
    ensures Supplies(u, w')
  {
    hide E.MapsInto;
  }

  lemma SupplyParts(u: Inputs, w: D.World, k: nat)
    requires Supplies(u, w)
    ensures |u.table(k)| == |w.s.slTable| && E.MapsInto(u.table(k), |w.s.path.sl|)
    ensures u.shift(Stateless, k).Some? ==>
      var b := u.shift(Stateless, k).value;
      D.BucketsFor(b, w.sl, w.s.slTable) && |b| == |w.sl| && forall i :: 0 <= i < |b| ==> b[i] < |w.s.slTable|
    ensures u.shift(Stateful, k).Some? ==>
      var b := u.shift(Stateful, k).value;
      D.BucketsFor(b, w.sf, w.s.sfTable) && |b| == |w.sf| && forall i :: 0 <= i < |b| ==> b[i] < |w.s.sfTable|
  {
  }

  /** Where a run started, its events so far, and the schedule it is on. */
  datatype Track = Track(from: D.World, events: seq<E.Event>, sf: RL.Quota, dt: nat)

  /** The events so far take the machine from its start to w, on schedule. */
  ghost predicate OnTrack(x: D.Setup, u: Inputs, r: Track, w: D.World, slBuckets: nat, sfBuckets: nat) {
    && D.Sound(x, w) && RL.Follows(x, r.from, r.events, w, r.sf, r.dt) && Supplies(u, w)
    && |w.s.slTable| == slBuckets && |w.s.sfTable| == sfBuckets
  }

  lemma TrackParts(x: D.Setup, u: Inputs, r: Track, w: D.World, slBuckets: nat, sfBuckets: nat)
    ensures OnTrack(x, u, r, w, slBuckets, sfBuckets) <==>
      && D.Sound(x, w) && RL.Follows(x, r.from, r.events, w, r.sf, r.dt) && Supplies(u, w)
      && |w.s.slTable| == slBuckets && |w.s.sfTable| == sfBuckets
  {
    hide D.Sound, RL.Follows, Supplies;
  }

  /** The masks are those of the arbiter's scales for what both domains ask for, and what it saves is left. */
  ghost predicate Masked(c: A.Config, saved: A.Pair, left: A.Pair, slPkts: seq<Packet>, sfPkts: seq<Packet>,
        drawSl: nat -> real, drawSf: nat -> real, slMask: seq<bool>, sfMask: seq<bool>)
    requires c.Valid()
  {
    var (scales, left') := A.Call(c, saved, A.Pair(R.TotalSize(slPkts) as real, R.TotalSize(sfPkts) as real));
    && left == left' && slMask == TH.Mask(scales.sl, Draws(drawSl, |slPkts|))
    && sfMask == TH.Mask(scales.sf, Draws(drawSf, |sfPkts|))
  }

  /** A step of the driver extends the run. */
  lemma Extend(x: D.Setup, u: Inputs, r: Track, w: D.World, w': D.World, step: D.Step, slBuckets: nat, sfBuckets: nat)
    returns (r': Track)
    requires OnTrack(x, u, r, w, slBuckets, sfBuckets) && D.Sound(x, w)
    requires D.Possible(x, w, step) && w' == D.Apply(x, w, step)
    requires step.Emit? ==> step.tEnd == w.s.now + r.dt
    requires step.CloseStateful? ==> w.s.epoch < r.sf.target && w.s.now == RL.EpochEnd(r.sf, r.dt, w.s.epoch)
    ensures OnTrack(x, u, r', w', slBuckets, sfBuckets) && r' == r.(events := r'.events)
    ensures w'.s.now == (if step.Emit? then step.tEnd else w.s.now)
    ensures w'.s.epoch == w.s.epoch + if step.CloseStateful? then 1 else 0
  {
    hide *;
    TrackParts(x, u, r, w, slBuckets, sfBuckets);
    var events', w1 := RL.Drive(x, r.from, r.events, w, step, r.sf, r.dt);
    r' := r.(events := events');
    StillSupplies(u, w, w');
    SizesParts(w, w');
    TrackParts(x, u, r', w', slBuckets, sfBuckets);
  }

  class Emulation {
    const sim: Simulator
    const slTrace: TraceSet
    const sfTrace: TraceSet
    const arbiter: A.Arbiter
    const telem: TM.DomainTelemetry
    /** The rows recorded in the stateful epoch in progress, and the credits at its start. */
    ghost var recorded: seq<TM.Row>
    ghost var start: seq<int>

    ghost predicate Valid()
      reads sim.sl.queues, sim.sf.queues, sim.handoff, sim.handoff.ready, sim.handoff.flag, sim.handoff.tHand,
            slTrace.flows, sfTrace.flows, telem
    {
      && sim.Valid() && sim.handoff.Valid() && slTrace.Valid() && sfTrace.Valid() && telem.Valid()
      && arbiter.cfg.Valid() && telem.cfg.queues == |sim.sf.queues|
      && (forall i, j :: 0 <= i < |slTrace.flows| && 0 <= j < |sfTrace.flows| ==>
            slTrace.flows[i] != sfTrace.flows[j])
    }

    constructor (sim: Simulator, slTrace: TraceSet, sfTrace: TraceSet, arbiter: A.Arbiter, telem: TM.DomainTelemetry)
      requires sim.Valid() && sim.handoff.Valid() && slTrace.Valid() && sfTrace.Valid() && telem.Valid()
      requires arbiter.cfg.Valid() && telem.cfg.queues == |sim.sf.queues|
      requires forall i, j :: 0 <= i < |slTrace.flows| && 0 <= j < |sfTrace.flows| ==>
        slTrace.flows[i] != sfTrace.flows[j]
      ensures Valid() && this.sim == sim && this.slTrace == slTrace && this.sfTrace == sfTrace
      ensures this.arbiter == arbiter && this.telem == telem && recorded == [] && start == TT.Credits(sim.sf.Model())
    {
      this.sim, this.slTrace, this.sfTrace, this.arbiter, this.telem := sim, slTrace, sfTrace, arbiter, telem;
      recorded, start := [], TT.Credits(sim.sf.Model());
    }

    ghost function World(): D.World
      reads this, sim, sim.sl.queues, sim.sf.queues, sim.pcie, sim.handoff, sim.handoff.ready, sim.handoff.flag,
            sim.handoff.tHand, slTrace.flows, sfTrace.flows
    {
      D.World(sim.State(), slTrace.Values(), sfTrace.Values(), recorded, start)
    }

    // ---------- A bin ----------

    method PullPackets(tEnd: int) returns (slPkts: seq<Packet>, sfPkts: seq<Packet>)
      requires Valid()
      modifies slTrace.flows, sfTrace.flows
      ensures Valid() && sim.State() == old(sim.State())
      ensures T.AllWellFormed(old(slTrace.Values())) && T.AllWellFormed(old(sfTrace.Values()))
      ensures slTrace.Values() == T.AllAdvanced(old(slTrace.Values()), tEnd)
      ensures sfTrace.Values() == T.AllAdvanced(old(sfTrace.Values()), tEnd)
      ensures slPkts == T.BinPackets(old(slTrace.Values()), tEnd) && sfPkts == T.BinPackets(old(sfTrace.Values()), tEnd)
    {
      hide *;
      Parts();
      slPkts := slTrace.GenerateBinPackets(tEnd);
      sfPkts := sfTrace.GenerateBinPackets(tEnd);
      Parts();
    }

    lemma Parts()
      ensures Valid() <==>
        && sim.Valid() && sim.handoff.Valid() && slTrace.Valid() && sfTrace.Valid() && telem.Valid()
        && arbiter.cfg.Valid() && telem.cfg.queues == |sim.sf.queues|
        && (forall i, j :: 0 <= i < |slTrace.flows| && 0 <= j < |sfTrace.flows| ==>
              slTrace.flows[i] != sfTrace.flows[j])
    {
      hide Simulator.Valid, H.InDomain, TraceSet.Valid, A.Config.Valid;
    }

    /** The arbiter's budget, applied to the packets of both domains; each is kept or not by its own draw. */
    method Throttle(slPkts: seq<Packet>, sfPkts: seq<Packet>, drawSl: nat -> real, drawSf: nat -> real)
      returns (slKept: seq<Packet>, sfKept: seq<Packet>, ghost slMask: seq<bool>, ghost sfMask: seq<bool>)
      requires Valid()
      modifies arbiter
      ensures Valid() && World() == old(World())
      ensures |slMask| == |slPkts| && |sfMask| == |sfPkts|
      ensures slKept == BC.Thin(slPkts, slMask, true) && sfKept == BC.Thin(sfPkts, sfMask, true)
      ensures arbiter.cfg.Valid()
      ensures Masked(arbiter.cfg, old(arbiter.Saved()), arbiter.Saved(), slPkts, sfPkts, drawSl, drawSf, slMask, sfMask)
    {
      hide *;
      Parts();
      ghost var saved := arbiter.Saved();
      var slScale, sfScale := arbiter.ScaleFactors(R.TotalSize(slPkts) as real, R.TotalSize(sfPkts) as real);
      slKept := TH.ApplyArbiter(slPkts, slScale, Draws(drawSl, |slPkts|));
      sfKept := TH.ApplyArbiter(sfPkts, sfScale, Draws(drawSf, |sfPkts|));
      slMask, sfMask := TH.Mask(slScale, Draws(drawSl, |slPkts|)), TH.Mask(sfScale, Draws(drawSf, |sfPkts|));
      Parts();
      MaskedParts(arbiter.cfg, saved, arbiter.Saved(), slPkts, sfPkts, drawSl, drawSf, slMask, sfMask);
    }

    /** What the traces emit in the bin and the arbiter keeps of it. */
    method PullThrottled(tEnd: int, drawSl: nat -> real, drawSf: nat -> real)
      returns (slKept: seq<Packet>, sfKept: seq<Packet>, sfPkts: seq<Packet>, ghost slMask: seq<bool>,
               ghost sfMask: seq<bool>)
      requires Valid()
      modifies slTrace.flows, sfTrace.flows, arbiter
      ensures Valid() && T.AllWellFormed(old(slTrace.Values())) && T.AllWellFormed(old(sfTrace.Values()))
      ensures World() == old(World()).(sl := T.AllAdvanced(old(slTrace.Values()), tEnd),
                                       sf := T.AllAdvanced(old(sfTrace.Values()), tEnd))
      ensures sim.State() == old(sim.State()) && sfPkts == T.BinPackets(old(sfTrace.Values()), tEnd)
      ensures |slMask| == |T.BinPackets(old(slTrace.Values()), tEnd)| && |sfMask| == |sfPkts|
      ensures slKept == BC.Thin(T.BinPackets(old(slTrace.Values()), tEnd), slMask, true)
      ensures sfKept == BC.Thin(sfPkts, sfMask, true)
      ensures arbiter.cfg.Valid()
      ensures Masked(arbiter.cfg, old(arbiter.Saved()), arbiter.Saved(), T.BinPackets(old(slTrace.Values()), tEnd),
                     sfPkts, drawSl, drawSf, slMask, sfMask)
    {
      hide *;
      WorldParts();
      var slPkts;
      slPkts, sfPkts := PullPackets(tEnd);
      WorldParts();
      slKept, sfKept, slMask, sfMask := Throttle(slPkts, sfPkts, drawSl, drawSf);
      WorldParts();
    }

    /** The packet path of the bin: redirection, queues and link. */
    method Process(slKept: seq<Packet>, sfKept: seq<Packet>, noise: nat -> real, tEnd: int)
      requires Valid() && R.DistinctBuckets(sim.handoff.pending)
      requires E.Enabled(sim.EmulatorConfig(), sim.State(), E.Bin(slKept, sfKept, noise, tEnd))
      modifies sim.sl.queues, sim.sf.queues, sim.pcie, sim.handoff`pending, sim`now
      ensures Valid()
      ensures sim.State() == E.Next(sim.EmulatorConfig(), old(sim.State()), E.Bin(slKept, sfKept, noise, tEnd))
      ensures slTrace.Values() == old(slTrace.Values()) && sfTrace.Values() == old(sfTrace.Values())
      ensures World() == old(World()).(s := sim.State())
    {
      hide *;
      Parts();
      WorldParts();
      sim.ProcessBinMerged(slKept, sfKept, noise, tEnd);
      Parts();
      WorldParts();
    }

    lemma WorldParts()
      ensures World() == D.World(sim.State(), slTrace.Values(), sfTrace.Values(), recorded, start)
    {
      hide TraceSet.Values, Simulator.State;
    }

    /** The row of the bin, counted before the arbiter and the redirection. */
    method Record(k: nat, sfPkts: seq<Packet>)
      requires Valid() && k < telem.cfg.bins
      modifies telem.rows, telem.credits, telem`latencies, `recorded
      ensures Valid() && sim.State() == old(sim.State())
      ensures var row := TT.RowOf(sim.sf.Model(), sfPkts, sim.sfTable);
        && telem.rows[..] == old(telem.rows[..])[k := row]
        && telem.credits[..] == old(telem.credits[..])[k + 1 := TT.Credits(sim.sf.Model())]
        && telem.latencies == old(telem.latencies) + TT.Gathered(sim.sf.Model())
        && recorded == old(recorded) + [row]
        && World() == old(World()).(rows := old(World()).rows + [row])
    {
      hide *;
      Parts();
      WorldParts();
      SimParts();
      var bytes, pkts := BC.BucketBytes(sfPkts, |sim.sfTable|), TT.BucketPkts(sfPkts, |sim.sfTable|);
      BR.RecordDomainBin(sim.sf, telem, k, sim.sfTable, bytes, pkts, sfPkts);
      recorded := recorded + [TT.RowOf(sim.sf.Model(), sfPkts, sim.sfTable)];
      Parts();
      WorldParts();
    }

    lemma SimParts()
      requires sim.Valid()
      ensures sim.sf.Valid() && sim.State().path.sf == sim.sf.Model() && sim.State().sfTable == sim.sfTable
      ensures |sim.State().path.sl| == |sim.sl.queues| && sim.State().slTable == sim.slTable
      ensures sim.State().now == sim.now && sim.State().epoch == sim.sfEpoch && sim.State().m == sim.handoff.Model()
      ensures sim.State().m.pending == sim.handoff.pending && (sim.pcie != null ==> sim.pcie.Valid())
    {
    }

    /** The rows of the first k bins of the epoch are recorded, and the credits at its start. */
    ghost predicate Rows(k: nat)
      reads this, telem, telem.rows, telem.credits
    {
      telem.Valid() && k <= telem.cfg.bins && telem.rows[..k] == recorded && telem.credits[0] == start
    }

    /** With the credits that the queues hold now. */
    ghost predicate Recording(k: nat)
      reads this, telem, telem.rows, telem.credits, sim.sf.queues
    {
      Rows(k) && (k > 0 ==> telem.credits[k] == TT.Credits(sim.sf.Model()))
    }

    lemma RowsParts(k: nat)
      ensures Rows(k) <==>
        telem.Valid() && k <= telem.cfg.bins && telem.rows[..k] == recorded && telem.credits[0] == start
      ensures Recording(k) <==> Rows(k) && (k > 0 ==> telem.credits[k] == TT.Credits(sim.sf.Model()))
      ensures telem.Valid() ==> telem.rows.Length == telem.cfg.bins && telem.credits.Length == telem.cfg.bins + 1
    {
      hide TT.Credits, HostDomainPipeline.Model;
    }

    /** Record the bin if the domain is enabled; the driver's rows count it in any case. `live` says that the
        epoch in progress will still be closed: past its last epoch the domain goes on writing row 0. */
    method RecordIf(k: nat, sfPkts: seq<Packet>, enabled: bool, ghost live: bool)
      requires Valid() && (enabled ==> k < telem.cfg.bins) && (live ==> enabled && Rows(k))
      modifies telem.rows, telem.credits, telem`latencies, `recorded
      ensures Valid() && sim.State() == old(sim.State())
      ensures World() == old(World()).(rows := old(World()).rows + [TT.RowOf(sim.sf.Model(), sfPkts, sim.sfTable)])
      ensures live ==> Recording(k + 1)
    {
      hide *;
      Parts();
      WorldParts();
      RowsParts(k);
      if enabled {
        ghost var rows, credits := telem.rows[..], telem.credits[..];
        Record(k, sfPkts);
        Updated(rows, k, TT.RowOf(sim.sf.Model(), sfPkts, sim.sfTable));
        assert telem.rows[..k + 1] == telem.rows[..][..k + 1];
        RowsParts(k + 1);
      } else {
        recorded := recorded + [TT.RowOf(sim.sf.Model(), sfPkts, sim.sfTable)];
      }
      Parts();
      WorldParts();
    }

    /** What is left of a bin once its packets are known: the packet path, then the row of the generated ones. */
    method ProcessAndRecord(k: nat, slKept: seq<Packet>, sfKept: seq<Packet>, sfPkts: seq<Packet>, noise: nat -> real,
                            tEnd: int, enabled: bool, ghost live: bool)
      requires Valid() && R.DistinctBuckets(sim.handoff.pending)
      requires E.Enabled(sim.EmulatorConfig(), sim.State(), E.Bin(slKept, sfKept, noise, tEnd))
      requires (enabled ==> k < telem.cfg.bins) && (live ==> enabled && Rows(k))
      modifies sim.sl.queues, sim.sf.queues, sim.pcie, sim.handoff`pending, sim`now
      modifies telem.rows, telem.credits, telem`latencies, `recorded
      ensures Valid()
      ensures var s' := E.Next(sim.EmulatorConfig(), old(sim.State()), E.Bin(slKept, sfKept, noise, tEnd));
        && sim.State() == s'
        && World() == old(World()).(s := s', rows := old(World()).rows + [TT.RowOf(s'.path.sf, sfPkts, s'.sfTable)])
      ensures live ==> Recording(k + 1)
    {
      hide *;
      Parts();
      WorldParts();
      RowsParts(k);
      Process(slKept, sfKept, noise, tEnd);
      Parts();
      WorldParts();
      SimParts();
      RowsParts(k);
      RecordIf(k, sfPkts, enabled, live);
      WorldParts();
    }

    /** Configurations of machine and recorder are those of the driver. */
    ghost predicate Agrees(x: D.Setup)
      requires sim.pcie != null ==> sim.pcie.Valid()
    {
      x.c == sim.EmulatorConfig() && x.tc == telem.cfg
    }

    /** One bin: pull the packets, share the budget, process what is left, record. The ghost result is the step
        of the driver that this is. */
    method ProcessBin(ghost x: D.Setup, k: nat, tEnd: int, drawSl: nat -> real, drawSf: nat -> real, noise: nat -> real,
                      enabled: bool, ghost live: bool) returns (ghost step: D.Step)
      requires Valid() && Agrees(x) && D.Sound(x, World()) && sim.now <= tEnd
      requires (enabled ==> k < telem.cfg.bins) && (live ==> enabled && Recording(k))
      modifies slTrace.flows, sfTrace.flows, arbiter
      modifies sim.sl.queues, sim.sf.queues, sim.pcie, sim.handoff`pending, sim`now
      modifies telem.rows, telem.credits, telem`latencies, `recorded
      ensures Valid() && step.Emit? && step.tEnd == tEnd && step.noise == noise && D.Possible(x, old(World()), step)
      ensures World() == D.Apply(x, old(World()), step)
      ensures live ==> Recording(k + 1)
      ensures arbiter.cfg.Valid() && T.AllWellFormed(old(World()).sl) && T.AllWellFormed(old(World()).sf)
      ensures Masked(arbiter.cfg, old(arbiter.Saved()), arbiter.Saved(), T.BinPackets(old(World()).sl, tEnd),
                     T.BinPackets(old(World()).sf, tEnd), drawSl, drawSf, step.keepSl, step.keepSf)
    {
      hide *;
      ghost var w := World();
      Parts();
      WorldParts();
      SimParts();
      AgreesParts(x);
      RowsParts(k);
      D.SoundParts(x, w);
      var slKept, sfKept, sfPkts;
      ghost var slMask, sfMask;
      slKept, sfKept, sfPkts, slMask, sfMask := PullThrottled(tEnd, drawSl, drawSf);
      step := D.Emit(slMask, sfMask, noise, tEnd);
      KeptIsBin(x, w, step);
      ProcessAndRecord(k, slKept, sfKept, sfPkts, noise, tEnd, enabled, live);
      WorldParts();
    }

    // ---------- Boundaries ----------

    /** The stateless boundary: install the table its scheduler returned. */
    method InstallTable(ghost x: D.Setup, table: seq<nat>)
      requires Valid() && Agrees(x) && D.Sound(x, World())
      requires |table| == |sim.slTable| && E.MapsInto(table, |sim.sl.queues|)
      modifies sim`slTable
      ensures Valid() && D.Possible(x, old(World()), D.CloseStateless(table))
      ensures World() == D.Apply(x, old(World()), D.CloseStateless(table))
    {
      hide *;
      ghost var w := World();
      Parts();
      WorldParts();
      SimParts();
      D.TableOfWorld(x, w, table);
      TableParts();
      sim.slTable := table;
      TableParts();
      Parts();
      WorldParts();
    }

    lemma TableParts()
      requires sim.Valid()
      ensures sim.State() == E.Sys(sim.Path(), sim.slTable, sim.sfTable, sim.handoff.Model(), sim.now, sim.sfEpoch)
    {
    }

    /** The pattern shift of a domain: its flows move to the buckets their new 5-tuples hash to. */
    method ShiftPattern(ghost x: D.Setup, d: Domain, hashed: seq<nat>) returns (ghost step: D.Step)
      requires Valid() && Agrees(x) && D.Sound(x, World())
      requires if d.Stateless? then D.BucketsFor(hashed, slTrace.Values(), sim.slTable)
               else D.BucketsFor(hashed, sfTrace.Values(), sim.sfTable)
      requires var trace := if d.Stateless? then slTrace else sfTrace;
        |hashed| == |trace.flows| && forall i :: 0 <= i < |hashed| ==> hashed[i] < trace.buckets
      modifies if d.Stateless? then slTrace.flows else sfTrace.flows
      ensures Valid() && step.Shift? && D.Possible(x, old(World()), step)
      ensures step == if d.Stateless? then D.Shift(hashed, D.BucketsOf(old(World()).sf))
                      else D.Shift(D.BucketsOf(old(World()).sl), hashed)
      ensures World() == D.Apply(x, old(World()), step)
    {
      hide *;
      ghost var w := World();
      Parts();
      WorldParts();
      SimParts();
      D.OwnBuckets(x, w);
      if d.Stateless? {
        step := D.Shift(hashed, D.BucketsOf(w.sf));
        D.ShiftOfWorld(x, w, hashed, D.BucketsOf(w.sf));
        slTrace.Rebucket(hashed);
      } else {
        step := D.Shift(D.BucketsOf(w.sl), hashed);
        D.ShiftOfWorld(x, w, D.BucketsOf(w.sl), hashed);
        sfTrace.Rebucket(hashed);
      }
      Parts();
      WorldParts();
    }

    /** Run the stateful boundary on a report. */
    method Schedule(report: TM.Report, draw: nat -> H.Draw, noise: (nat, nat) -> real)
      returns (droppedAtDst: nat, ghost order: seq<nat>)
      requires Valid() && sim.EmulatorConfig().Valid() && E.Shaped(sim.EmulatorConfig(), sim.State())
      requires E.EpochReady(sim.EmulatorConfig(), sim.State(), report, draw)
      modifies sim, sim.sf.queues, sim.scheduler, sim.handoff, sim.handoff.flag, sim.handoff.tHand
      ensures Valid()
      ensures var e := E.StatefulEpoch(report, order, draw, noise);
        && E.Enabled(sim.EmulatorConfig(), old(sim.State()), e)
        && World() == old(World()).(s := E.Next(sim.EmulatorConfig(), old(sim.State()), e))
      ensures droppedAtDst == DropsOf(World()) - DropsOf(old(World()))
    {
      hide *;
      Parts();
      WorldParts();
      SimParts();
      DropsAre(World());
      var raised;
      raised, droppedAtDst, order := sim.OnStatefulEpochBoundary(report, draw, noise);
      Parts();
      WorldParts();
      SimParts();
      DropsAre(World());
    }

    /** Start a new epoch of the recorder with the credits the queues hold now, after the releases. */
    method StartEpoch()
      requires Valid()
      modifies telem, telem.credits, `recorded, `start
      ensures Valid() && Rows(0) && Recording(0) && fresh(telem.rows) && fresh(telem.credits)
      ensures World() == old(World()).(rows := [], start := TT.Credits(sim.State().path.sf))
    {
      hide *;
      Parts();
      WorldParts();
      SimParts();
      var v := Snapshot();
      telem.StartEpoch(v);
      recorded, start := [], v;
      assert telem.rows[..0] == [];
      RowsParts(0);
      Parts();
      WorldParts();
    }

    method Snapshot() returns (v: seq<int>)
      requires sim.sf.Valid()
      ensures v == TT.Credits(sim.sf.Model())
    {
      v := [];
      var q := 0;
      while q < |sim.sf.queues|
        invariant q <= |sim.sf.queues| && |v| == q
        invariant forall i :: 0 <= i < q ==> v[i] == sim.sf.Model()[i].credits
      {
        v := v + [sim.sf.queues[q].creditsAtFpga];
        q := q + 1;
      }
    }

    /** Close the telemetry of the epoch. */
    method Report() returns (report: TM.Report)
      requires Valid() && Recording(telem.cfg.bins) && telem.cfg.bins > 0
      requires TM.Closing(telem.cfg, recorded, start, TT.Credits(sim.sf.Model()))
      ensures report == TM.ReportOf(telem.cfg, recorded, start, TT.Credits(sim.sf.Model()))
    {
      hide *;
      Parts();
      RowsParts(telem.cfg.bins);
      assert telem.rows[..] == telem.rows[..telem.cfg.bins];
      report := telem.FinalizeEpoch();
    }

    /** The stateful boundary with the report at hand. */
    method CloseEpoch(ghost x: D.Setup, report: TM.Report, draw: nat -> H.Draw, noise: (nat, nat) -> real)
      returns (droppedAtDst: nat, ghost step: D.Step)
      requires Valid() && Agrees(x) && D.Sound(x, World())
      requires TM.Closing(x.tc, World().rows, World().start, TT.Credits(World().s.path.sf))
      requires report == TM.ReportOf(x.tc, World().rows, World().start, TT.Credits(World().s.path.sf))
      modifies sim, sim.sf.queues, sim.scheduler, sim.handoff, sim.handoff.flag, sim.handoff.tHand
      modifies telem, telem.credits, `recorded, `start
      ensures Valid() && step.CloseStateful? && step.draw == draw && step.replayNoise == noise
      ensures D.Possible(x, old(World()), step) && World() == D.Apply(x, old(World()), step)
      ensures Recording(0) && fresh(telem.rows) && fresh(telem.credits)
      ensures droppedAtDst == DropsOf(World()) - DropsOf(old(World()))
    {
      hide *;
      ghost var w := World();
      Parts();
      WorldParts();
      SimParts();
      AgreesParts(x);
      D.EpochOfWorld(x, w, [], draw, noise);
      ghost var order;
      droppedAtDst, order := Schedule(report, draw, noise);
      step := D.CloseStateful(order, draw, noise);
      D.EpochOfWorld(x, w, order, draw, noise);
      WorldParts();
      DropsAre(World());
      StartEpoch();
      DropsAre(World());
    }

    /** The whole stateful boundary: close the telemetry, shift the pattern if it is time, advance handoffs, run
        the scheduler, commit, release the buffers, and start a new epoch of the recorder. */
    method OnStatefulEpochBoundary(ghost x: D.Setup, hashed: Option<seq<nat>>, draw: nat -> H.Draw,
                                   noise: (nat, nat) -> real)
      returns (droppedAtDst: nat, ghost shift: D.Step, ghost w: D.World, ghost step: D.Step)
      requires Valid() && Agrees(x) && D.Sound(x, World())
      requires Recording(telem.cfg.bins) && telem.cfg.bins > 0
      requires hashed.Some? ==>
        && D.BucketsFor(hashed.value, sfTrace.Values(), sim.sfTable) && |hashed.value| == |sfTrace.flows|
        && forall i :: 0 <= i < |hashed.value| ==> hashed.value[i] < sfTrace.buckets
      modifies sim, sim.sf.queues, sim.scheduler, sim.handoff, sim.handoff.flag, sim.handoff.tHand, sfTrace.flows
      modifies telem, telem.credits, `recorded, `start
      ensures Valid() && Recording(0) && fresh(telem.rows) && fresh(telem.credits)
      ensures if hashed.None? then w == old(World())
              else
                && shift == D.Shift(D.BucketsOf(old(World()).sl), hashed.value)
                && D.Possible(x, old(World()), shift) && w == D.Apply(x, old(World()), shift)
      ensures D.Sound(x, w) && step.CloseStateful? && step.draw == draw && step.replayNoise == noise
      ensures D.Possible(x, w, step) && World() == D.Apply(x, w, step)
      ensures droppedAtDst == DropsOf(World()) - DropsOf(old(World()))
    {
      hide *;
      w := World();
      Parts();
      WorldParts();
      SimParts();
      AgreesParts(x);
      D.EpochOfWorld(x, w, [], draw, noise);
      var report := Report();
      shift := D.Shift([], []);
      if hashed.Some? {
        shift := ShiftPattern(x, Stateful, hashed.value);
        DropsAre(w);
        ShiftKeepsEpoch(x, w, shift);
        D.ApplyKeepsSound(x, w, shift);
        w := World();
        DropsAre(w);
      }
      droppedAtDst, step := CloseEpoch(x, report, draw, noise);
    }

    // ---------- The run ----------

    /** One bin of the loop. */
    method BinTurn(ghost x: D.Setup, u: Inputs, ghost r: Track, i: nat, k: nat, tEnd: int, enabled: bool,
                   ghost live: bool) returns (ghost r': Track)
      requires Valid() && Agrees(x) && OnTrack(x, u, r, World(), slTrace.buckets, sfTrace.buckets)
      requires sim.now <= tEnd == sim.now + r.dt
      requires (enabled ==> k < telem.cfg.bins) && (live ==> enabled && Recording(k))
      modifies slTrace.flows, sfTrace.flows, arbiter
      modifies sim.sl.queues, sim.sf.queues, sim.pcie, sim.handoff`pending, sim`now
      modifies telem.rows, telem.credits, telem`latencies, `recorded
      ensures Valid() && OnTrack(x, u, r', World(), slTrace.buckets, sfTrace.buckets) && r' == r.(events := r'.events)
      ensures sim.now == tEnd && sim.sfEpoch == old(sim.sfEpoch) && (live ==> Recording(k + 1))
    {
      hide *;
      ghost var w := World();
      Clocks();
      TrackParts(x, u, r, w, slTrace.buckets, sfTrace.buckets);
      ghost var step := ProcessBin(x, k, tEnd, u.keep(i, Stateless), u.keep(i, Stateful), u.noise(i), enabled, live);
      r' := Extend(x, u, r, w, World(), step, slTrace.buckets, sfTrace.buckets);
      Clocks();
    }

    lemma Clocks()
      requires Valid()
      ensures World().s.now == sim.now && World().s.epoch == sim.sfEpoch
      ensures World().s.slTable == sim.slTable && World().s.sfTable == sim.sfTable
      ensures |World().s.path.sl| == |sim.sl.queues|
      ensures World().sl == slTrace.Values() && World().sf == sfTrace.Values()
      ensures |World().sl| == |slTrace.flows| && |World().sf| == |sfTrace.flows|
    {
      hide *;
      Parts();
      WorldParts();
      SimParts();
      assert |slTrace.Values()| == |slTrace.flows| && |sfTrace.Values()| == |sfTrace.flows|;
    }

    /** The k-th stateless boundary of the loop. */
    method StatelessTurn(ghost x: D.Setup, u: Inputs, ghost r: Track, k: nat) returns (ghost r': Track)
      requires Valid() && Agrees(x) && OnTrack(x, u, r, World(), slTrace.buckets, sfTrace.buckets)
      modifies sim`slTable, slTrace.flows
      ensures Valid() && OnTrack(x, u, r', World(), slTrace.buckets, sfTrace.buckets) && r' == r.(events := r'.events)
      ensures sim.now == old(sim.now) && sim.sfEpoch == old(sim.sfEpoch)
    {
      hide *;
      ghost var w := World();
      Clocks();
      TrackParts(x, u, r, w, slTrace.buckets, sfTrace.buckets);
      SupplyParts(u, w, k);
      InstallTable(x, u.table(k));
      r' := Extend(x, u, r, w, World(), D.CloseStateless(u.table(k)), slTrace.buckets, sfTrace.buckets);
      Clocks();
      var hashed := u.shift(Stateless, k);
      if hashed.Some? {
        w := World();
        TrackParts(x, u, r', w, slTrace.buckets, sfTrace.buckets);
        SupplyParts(u, w, k);
        ghost var step := ShiftPattern(x, Stateless, hashed.value);
        r' := Extend(x, u, r', w, World(), step, slTrace.buckets, sfTrace.buckets);
        Clocks();
      }
    }

    /** The k-th stateful boundary of the loop. */
    method StatefulTurn(ghost x: D.Setup, u: Inputs, ghost r: Track, k: nat) returns (ghost r': Track)
      requires Valid() && Agrees(x) && OnTrack(x, u, r, World(), slTrace.buckets, sfTrace.buckets)
      requires Recording(telem.cfg.bins) && telem.cfg.bins > 0
      requires k == sim.sfEpoch < r.sf.target && sim.now == RL.EpochEnd(r.sf, r.dt, k)
      modifies sim, sim.sf.queues, sim.scheduler, sim.handoff, sim.handoff.flag, sim.handoff.tHand, sfTrace.flows
      modifies telem, telem.credits, `recorded, `start
      ensures Valid() && OnTrack(x, u, r', World(), slTrace.buckets, sfTrace.buckets) && r' == r.(events := r'.events)
      ensures Recording(0) && fresh(telem.rows) && fresh(telem.credits)
      ensures sim.now == old(sim.now) && sim.sfEpoch == old(sim.sfEpoch) + 1
    {
      hide *;
      ghost var w0 := World();
      Clocks();
      TrackParts(x, u, r, w0, slTrace.buckets, sfTrace.buckets);
      SupplyParts(u, w0, k);
      var hashed := u.shift(Stateful, k);
      var droppedAtDst;
      ghost var shift, w, step;
      droppedAtDst, shift, w, step := OnStatefulEpochBoundary(x, hashed, u.latency(k), u.replayNoise(k));
      r' := r;
      if hashed.Some? {
        r' := Extend(x, u, r, w0, w, shift, slTrace.buckets, sfTrace.buckets);
      }
      r' := Extend(x, u, r', w, World(), step, slTrace.buckets, sfTrace.buckets);
      Clocks();
    }

    /** The run: every enabled domain closes exactly its number of epochs, each at the end of its last bin. What the
        object does is a run of the machine on that schedule, from the world it starts in. */
    method Run(ghost x: D.Setup, u: Inputs, dt: nat, sl: RL.Quota, sf: RL.Quota)
      returns (slClosed: seq<int>, sfClosed: seq<int>, t: int, ghost r: Track)
      requires Valid() && Agrees(x) && D.Sound(x, World()) && Supplies(u, World())
      requires sim.now == 0 && sim.sfEpoch == 0 && recorded == [] && start == TT.Credits(sim.sf.Model())
      requires sl.Valid() && sf.Valid() && telem.cfg.bins == sf.bins
      requires slTrace.buckets == |sim.slTable| && sfTrace.buckets == |sim.sfTable|
      modifies this, sim, sim.sl.queues, sim.sf.queues, sim.pcie, sim.scheduler
      modifies sim.handoff, sim.handoff.flag, sim.handoff.tHand, slTrace.flows, sfTrace.flows, arbiter
      modifies telem, telem.rows, telem.credits
      ensures Valid() && D.Sound(x, World())
      ensures slClosed == if sl.enabled then RL.Boundaries(sl, dt, sl.target) else []
      ensures sfClosed == if sf.enabled then RL.Boundaries(sf, dt, sf.target) else []
      ensures t == RL.ClockAt(RL.TotalBins(sl, sf), dt) == sim.now
      ensures sim.sfEpoch == if sf.enabled then sf.target else 0
      ensures r.from == old(World()) && RL.Follows(x, r.from, r.events, World(), sf, dt)
    {
      hide *;
      var total := RL.TotalBins(sl, sf);
      var slCount, sfCount := RL.Counter(0, 0, []), RL.Counter(0, 0, []);
      t := 0;
      var i: nat := 0;
      r := Begin(x, u, dt, sf);
      RL.ClockNext(0, dt);
      RL.NothingClosed(sl, dt);
      RL.NothingClosed(sf, dt);
      while i < total
        invariant i <= total && t == RL.ClockAt(i, dt)
        invariant Valid() && OnTrack(x, u, r, World(), slTrace.buckets, sfTrace.buckets)
        invariant r.from == old(World()) && r.sf == sf && r.dt == dt
        invariant RL.InStep(sl, dt, i, slCount) && RL.InStep(sf, dt, i, sfCount)
        invariant sim.now == t && sim.sfEpoch == sfCount.epoch && sfCount.bin < sf.bins
        invariant sf.enabled && sfCount.epoch < sf.target ==> Recording(sfCount.bin)
        invariant fresh(telem.rows) && fresh(telem.credits)
      {
        slCount, sfCount, r := Turn(x, u, r, i, t, sl, sf, slCount, sfCount, dt);
        t := t + dt;
        i := i + 1;
      }
      RL.EnoughBins(sl, sf);
      RL.AllEpochsClose(sl, dt, i, slCount);
      RL.AllEpochsClose(sf, dt, i, sfCount);
      TrackParts(x, u, r, World(), slTrace.buckets, sfTrace.buckets);
      slClosed, sfClosed := slCount.closed, sfCount.closed;
    }

    /** One turn of the loop: the bin, then the boundaries that fall on its end. */
    method Turn(ghost x: D.Setup, u: Inputs, ghost r: Track, i: nat, t: int, sl: RL.Quota, sf: RL.Quota,
                slCount: RL.Counter, sfCount: RL.Counter, dt: nat)
      returns (slCount': RL.Counter, sfCount': RL.Counter, ghost r': Track)
      requires Valid() && Agrees(x) && OnTrack(x, u, r, World(), slTrace.buckets, sfTrace.buckets)
      requires sl.Valid() && sf.Valid() && telem.cfg.bins == sf.bins && r.sf == sf && r.dt == dt
      requires RL.InStep(sl, dt, i, slCount) && RL.InStep(sf, dt, i, sfCount) && t == RL.ClockAt(i, dt)
      requires sim.now == t && sim.sfEpoch == sfCount.epoch && sfCount.bin < sf.bins
      requires sf.enabled && sfCount.epoch < sf.target ==> Recording(sfCount.bin)
      modifies this, sim, sim.sl.queues, sim.sf.queues, sim.pcie, sim.scheduler
      modifies sim.handoff, sim.handoff.flag, sim.handoff.tHand, slTrace.flows, sfTrace.flows, arbiter
      modifies telem, telem.rows, telem.credits
      ensures Valid() && OnTrack(x, u, r', World(), slTrace.buckets, sfTrace.buckets) && r' == r.(events := r'.events)
      ensures RL.InStep(sl, dt, i + 1, slCount') && RL.InStep(sf, dt, i + 1, sfCount')
      ensures t + dt == RL.ClockAt(i + 1, dt) == sim.now && sim.sfEpoch == sfCount'.epoch && sfCount'.bin < sf.bins
      ensures sf.enabled && sfCount'.epoch < sf.target ==> Recording(sfCount'.bin)
      ensures telem.rows == old(telem.rows) || fresh(telem.rows)
      ensures telem.credits == old(telem.credits) || fresh(telem.credits)
    {
      hide *;
      var tEnd := t + dt;
      RL.ClockNext(i, dt);
      ghost var live := sf.enabled && sfCount.epoch < sf.target;
      r' := BinTurn(x, u, r, i, sfCount.bin, tEnd, sf.enabled, live);
      slCount' := RL.EndOfBin(sl, tEnd, slCount, dt, i);
      sfCount' := RL.EndOfBin(sf, tEnd, sfCount, dt, i);
      if slCount'.epoch > slCount.epoch {
        r' := StatelessTurn(x, u, r', slCount.epoch);
      }
      if sfCount'.epoch > sfCount.epoch {
        r' := StatefulTurn(x, u, r', sfCount.epoch);
      }
    }

    /** Snapshot the credits and start from here. */
    method Begin(ghost x: D.Setup, ghost u: Inputs, ghost dt: nat, ghost sf: RL.Quota) returns (ghost r: Track)
      requires Valid() && D.Sound(x, World()) && Supplies(u, World())
      requires recorded == [] && start == TT.Credits(sim.sf.Model())
      requires slTrace.buckets == |sim.slTable| && sfTrace.buckets == |sim.sfTable|
      modifies telem, telem.credits, `recorded, `start
      ensures Valid() && OnTrack(x, u, r, World(), slTrace.buckets, sfTrace.buckets)
      ensures r == Track(old(World()), [], sf, dt) && World() == old(World())
      ensures Recording(0) && fresh(telem.rows) && fresh(telem.credits)
    {
      hide *;
      ghost var w := World();
      Parts();
      WorldParts();
      SimParts();
      Clocks();
      StartEpoch();
      r := Track(w, [], sf, dt);
      RL.NothingFollowed(x, w, sf, dt);
      TrackParts(x, u, r, w, slTrace.buckets, sfTrace.buckets);
    }

    lemma AgreesParts(x: D.Setup)
      requires sim.pcie != null ==> sim.pcie.Valid()
      ensures Agrees(x) <==> x.c == sim.EmulatorConfig() && x.tc == telem.cfg
    {
      hide Simulator.EmulatorConfig;
    }
  }

  function Draws(draw: nat -> real, n: nat): (s: seq<real>)
    ensures |s| == n
  {
    seq(n, k requires 0 <= k => draw(k))
  }

  lemma Updated<T>(s: seq<T>, k: nat, v: T)
    requires k < |s|
    ensures s[k := v][..k + 1] == s[..k] + [v] && s[k := v][..k] == s[..k]
  {
  }

  /** A bin of the driver, with the packets written as what the masks keep. */
  lemma KeptIsBin(x: D.Setup, w: D.World, step: D.Step)
    requires D.Sound(x, w) && step.Emit? && w.s.now <= step.tEnd && T.AllWellFormed(w.sl) && T.AllWellFormed(w.sf)
    requires |step.keepSl| == |T.BinPackets(w.sl, step.tEnd)| && |step.keepSf| == |T.BinPackets(w.sf, step.tEnd)|
    ensures D.Possible(x, w, step)
    ensures var e := E.Bin(BC.Thin(T.BinPackets(w.sl, step.tEnd), step.keepSl, true),
                           BC.Thin(T.BinPackets(w.sf, step.tEnd), step.keepSf, true), step.noise, step.tEnd);
      && E.Enabled(x.c, w.s, e) && E.Next(x.c, w.s, e).sfTable == w.s.sfTable
      && D.Apply(x, w, step)
         == D.World(E.Next(x.c, w.s, e), T.AllAdvanced(w.sl, step.tEnd), T.AllAdvanced(w.sf, step.tEnd),
                    w.rows + [TT.RowOf(E.Next(x.c, w.s, e).path.sf, T.BinPackets(w.sf, step.tEnd), w.s.sfTable)],
                    w.start)
  {
    D.MasksArePossible(x, w, step);
    D.EmitOfWorld(x, w, step);
    hide D.Sound, D.Possible, D.Apply, E.Next, E.Enabled, BC.Thin, T.BinPackets, TT.RowOf;
  }

  /** Moving flows touches neither the machine nor the recorder. */
  lemma ShiftKeepsEpoch(x: D.Setup, w: D.World, shift: D.Step)
    requires D.Sound(x, w) && D.Possible(x, w, shift) && shift.Shift?
    ensures var w' := D.Apply(x, w, shift); w'.s == w.s && w'.rows == w.rows && w'.start == w.start
  {
    hide D.Sound;
  }

  lemma MaskedParts(c: A.Config, saved: A.Pair, left: A.Pair, slPkts: seq<Packet>, sfPkts: seq<Packet>,
        drawSl: nat -> real, drawSf: nat -> real, slMask: seq<bool>, sfMask: seq<bool>)
    requires c.Valid()
    ensures Masked(c, saved, left, slPkts, sfPkts, drawSl, drawSf, slMask, sfMask) <==>
      var (scales, left') := A.Call(c, saved, A.Pair(R.TotalSize(slPkts) as real, R.TotalSize(sfPkts) as real));
      && left == left' && slMask == TH.Mask(scales.sl, Draws(drawSl, |slPkts|))
      && sfMask == TH.Mask(scales.sf, Draws(drawSf, |sfPkts|))
  {
  }

  /** Packets that the stateful queues have dropped for lack of a credit since their counters were reset. */
  ghost function DropsOf(w: D.World): nat {
    Simulator.Drops(w.s)
  }

  lemma DropsAre(w: D.World)
    ensures DropsOf(w) == Simulator.Drops(w.s)
  {
  }

  lemma SizesParts(w: D.World, w': D.World)
    requires RL.SameSizes(w, w')
    ensures |w'.s.slTable| == |w.s.slTable| && |w'.s.sfTable| == |w.s.sfTable|
  {
  }

  /** What the results over runs say of the object's run, from a fresh machine: the handoff invariant holds, the
      stateful table is the initial one with the completed handoffs applied in order, each from where its bucket
      was, and every queue holds its credits. */
  lemma RunResults(x: D.Setup, r: Track, w: D.World)
    requires D.Sound(x, w) && RL.Follows(x, r.from, r.events, w, r.sf, r.dt) && E.IsInitial(x.c, r.from.s)
    ensures H.Inv(x.c.handoff, w.s.m, w.s.sfTable) && CT.CreditsOk(x.c.path, w.s.path)
    ensures w.s.sfTable == H.Commit(r.from.s.sfTable, w.s.m.history) && HT.Chained(r.from.s.sfTable, w.s.m.history)
  {
    hide *;
    RL.FollowsParts(x, r.from, r.events, w, r.sf, r.dt);
    C.EveryRun(x.c, r.from.s, r.events);
    CT.InitialCredits(x.c, r.from.s);
    CT.RunKeepsCredits(x.c, r.from.s, r.events);
  }
}

/** What becomes of an admitted packet: when its service ends, and the latency sample it leaves.

    The references are the closed form of a server that never idles while it has work, and the list of the
    packets a queue admitted, each with the end of its service and its time of generation. */
module ServiceTheorems {
  import opened Common
  import CQ = CreditQueue
  import PL = PcieLink
  import PP = PacketPath
  import A = Accounting
  import TT = TelemetryTheorems
  import opened Emulator

  // ---------- Runs of one queue ----------

  /** The sample of an admitted packet runs from its generation, not from its ring arrival, to the end of its
      service; a refused packet leaves none, nor does an advance. */
  lemma SampleOfAttempt(c: CQ.Config, q: CQ.Queue, t: real, size: nat, arrive: real, app: real)
    ensures var (q', ok) := CQ.TryAdmit(c, q, t, size, arrive, app);
      q'.stats.latencies == q.stats.latencies + if ok then [q'.free - t] else []
    ensures CQ.Advance(q, t).stats.latencies == q.stats.latencies
  {
    CQ.AdvanceEffect(q, t);
    hide CQ.Advance;
    assert q.stats.latencies + [] == q.stats.latencies;
  }

  /** The time each admitted packet of a run spends from its generation to the end of its service. */
  function Sojourns(c: CQ.Config, ops: seq<CQ.Op>): seq<real> {
    if ops == [] then []
    else
      var n := |ops| - 1;
      var end := CQ.EndOfService(c, ops, n);
      Sojourns(c, ops[..n]) + if end.Some? then [end.value - ops[n].t] else []
  }

  /** The samples of a run are the sojourn times of its admitted packets, in order. */
  lemma {:induction false} SamplesAreSojourns(c: CQ.Config, ops: seq<CQ.Op>)
    ensures CQ.Run(c, ops).q.stats.latencies == Sojourns(c, ops)
  {
    if ops != [] {
      var n := |ops| - 1;
      SamplesAreSojourns(c, ops[..n]);
      var op, q := ops[n], CQ.Run(c, ops[..n]).q;
      SampleOfAttempt(c, q, op.t, if op.Offer? then op.size else 0, if op.Offer? then op.arrive else 0.0,
                      if op.Offer? then op.app else 0.0);
      hide CQ.TryAdmit, CQ.Advance;
    }
  }

  ghost predicate Admits(c: CQ.Config, ops: seq<CQ.Op>, i: nat)
    requires i < |ops|
  {
    CQ.EndOfService(c, ops, i).Some?
  }

  /** Service time of the packets admitted from the i-th operation on. */
  ghost function Work(c: CQ.Config, ops: seq<CQ.Op>, i: nat): real
    requires i <= |ops|
  {
    if i == |ops| then 0.0
    else
      var n := |ops| - 1;
      Work(c, ops[..n], i) + if Admits(c, ops, n) then ops[n].app else 0.0
  }

  /** The core has been busy since a packet arrived, or since the start. */
  ghost predicate BusySince(c: CQ.Config, ops: seq<CQ.Op>, i: nat, free: real)
    requires i < |ops|
  {
    Admits(c, ops, i) && free == ops[i].arrive + Work(c, ops, i)
  }

  lemma AdmitsOnly(c: CQ.Config, ops: seq<CQ.Op>, i: nat)
    requires ops != [] && i < |ops| - 1
    ensures Admits(c, ops[..|ops| - 1], i) == Admits(c, ops, i)
  {
    assert ops[..|ops| - 1][..i] == ops[..i];
    hide CQ.Run, CQ.TryAdmit;
  }

  /** The last operation: an admitted packet starts when it has arrived and the core is free; anything else
      leaves the core's next free time alone. */
  lemma LastOperation(c: CQ.Config, ops: seq<CQ.Op>)
    requires ops != []
    ensures var n := |ops| - 1;
      var before, after := CQ.Run(c, ops[..n]).q.free, CQ.Run(c, ops).q.free;
      if Admits(c, ops, n) then ops[n].Offer? && after == Max(ops[n].arrive, before) + ops[n].app
      else after == before
  {
    var n := |ops| - 1;
    CQ.AdvanceEffect(CQ.Run(c, ops[..n]).q, ops[n].t);
    hide CQ.Advance;
  }

  /** The core's next free time in closed form: no period of work is left out and none counted twice. It is the
      latest over all admitted packets of the packet's ring arrival plus the service times from it on, or the
      sum of all service times. */
  lemma {:induction false} FreeIsBusyPeriod(c: CQ.Config, ops: seq<CQ.Op>)
    ensures var free := CQ.Run(c, ops).q.free;
      && free >= Work(c, ops, 0)
      && (forall i :: 0 <= i < |ops| && Admits(c, ops, i) ==> free >= ops[i].arrive + Work(c, ops, i))
      && (free == Work(c, ops, 0) || exists i :: 0 <= i < |ops| && BusySince(c, ops, i, free))
  {
    if ops != [] {
      var n := |ops| - 1;
      var front := ops[..n];
      FreeIsBusyPeriod(c, front);
      LastOperation(c, ops);
      var before, free := CQ.Run(c, front).q.free, CQ.Run(c, ops).q.free;
      hide CQ.Run, Admits;
      forall i | 0 <= i < n ensures Admits(c, front, i) == Admits(c, ops, i) && front[i] == ops[i] {
        AdmitsOnly(c, ops, i);
      }
      var last := if Admits(c, ops, n) then ops[n].app else 0.0;
      assert forall i :: 0 <= i <= n ==> Work(c, ops, i) == Work(c, front, i) + last;
      if before != Work(c, front, 0) {
        var i :| 0 <= i < n && BusySince(c, front, i, before);
        assert free == before + last ==> BusySince(c, ops, i, free);
      }
      assert Work(c, front, n) == 0.0;
      assert free == before + last || BusySince(c, ops, n, free);
    }
  }

  /** When a packet of a run ends its service: as the core's closed form says for the operations up to it. */
  lemma ServiceEndsWithBusyPeriod(c: CQ.Config, ops: seq<CQ.Op>, j: nat)
    requires CQ.NonNegativeService(ops) && j < |ops| && Admits(c, ops, j)
    ensures var end, upTo := CQ.EndOfService(c, ops, j).value, ops[..j + 1];
      && end >= Work(c, upTo, 0)
      && (forall i :: 0 <= i <= j && Admits(c, upTo, i) ==> end >= ops[i].arrive + Work(c, upTo, i))
      && (end == Work(c, upTo, 0) || exists i :: 0 <= i <= j && BusySince(c, upTo, i, end))
  {
    FreeIsBusyPeriod(c, ops[..j + 1]);
    CQ.EndIsFree(c, ops, j);
    hide CQ.Run, CQ.EndOfService, Work;
  }

  /** Descriptors in use after each admission of a run. */
  function Occupancies(c: CQ.Config, ops: seq<CQ.Op>): seq<real> {
    if ops == [] then []
    else
      var n := |ops| - 1;
      Occupancies(c, ops[..n])
      + if CQ.EndOfService(c, ops, n).Some? then [(c.depth - CQ.Run(c, ops).q.credits) as real] else []
  }

  /** The highest occupancy on record is the greatest that an admission left. */
  lemma {:induction false} PeakOccupancy(c: CQ.Config, ops: seq<CQ.Op>)
    ensures IsGreatest(Occupancies(c, ops), CQ.Run(c, ops).q.stats.uMax as real)
  {
    if ops != [] {
      var front, x := ops[..|ops| - 1], (c.depth - CQ.Run(c, ops).q.credits) as real;
      var before, used := Occupancies(c, front), Occupancies(c, ops);
      assert used == before + if CQ.EndOfService(c, ops, |ops| - 1).Some? then [x] else [];
      LastPeak(c, ops);
      hide CQ.Run, CQ.EndOfService, Occupancies;
      PeakOccupancy(c, front);
      GreatestSnoc(before, CQ.Run(c, front).q.stats.uMax as real, x);
    }
  }

  lemma LastPeak(c: CQ.Config, ops: seq<CQ.Op>)
    requires ops != []
    ensures var n := |ops| - 1;
      var before, after := CQ.Run(c, ops[..n]).q.stats.uMax, CQ.Run(c, ops).q;
      after.stats.uMax
      == if CQ.EndOfService(c, ops, n).Some? then MaxInt(before, c.depth - after.credits) else before
  {
    hide *;
    var op, h := ops[|ops| - 1], CQ.Run(c, ops[..|ops| - 1]);
    LastStep(c, ops);
    CQ.StepCases(c, h, op);
    CQ.AdvanceEffect(h.q, op.t);
    if op.Offer? {
      PeakOfAttempt(c, h.q, op.t, op.size, op.arrive, op.app);
    }
  }

  lemma LastStep(c: CQ.Config, ops: seq<CQ.Op>)
    requires ops != []
    ensures var h, op := CQ.Run(c, ops[..|ops| - 1]), ops[|ops| - 1];
      && CQ.Run(c, ops) == CQ.Step(c, h, op)
      && (CQ.EndOfService(c, ops, |ops| - 1).Some? <==>
            op.Offer? && CQ.TryAdmit(c, h.q, op.t, op.size, op.arrive, op.app).1)
  {
    hide CQ.Step, CQ.TryAdmit;
  }

  lemma PeakOfAttempt(c: CQ.Config, q: CQ.Queue, t: real, size: nat, arrive: real, app: real)
    ensures var (q', ok) := CQ.TryAdmit(c, q, t, size, arrive, app);
      q'.stats.uMax == if ok then MaxInt(q.stats.uMax, c.depth - q'.credits) else q.stats.uMax
  {
    CQ.AdvanceEffect(q, t);
    hide CQ.Advance;
  }

  // ---------- The service time ----------

  /** The service time as a function of its draw: the mean, weighed by the share of the core, plus the lookup
      where there is no jitter or the draw is zero; a tenth of the mean is the least; above that floor the draw
      counts in full, weighed by the share. */
  lemma ServiceFollowsDraw(c: CQ.Config, noise: real, more: real)
    requires c.Valid() && noise <= more
    ensures c.appJitter <= 0.0 || noise == 0.0 ==> CQ.ServiceTime(c, noise) - c.lookup == c.share * c.appMean
    ensures CQ.ServiceTime(c, noise) - c.lookup >= 0.1 * (c.share * c.appMean)
    ensures c.appJitter > 0.0 && noise <= -0.9 * c.appMean ==>
      CQ.ServiceTime(c, noise) - c.lookup == 0.1 * (c.share * c.appMean)
    ensures c.appJitter > 0.0 && noise >= -0.9 * c.appMean ==>
      CQ.ServiceTime(c, more) - CQ.ServiceTime(c, noise) == c.share * (more - noise)
  {
    var m, s := c.appMean, c.share;
    MulNonNegative(s, m);
    MulNonNegative(s, Max(m * 0.1, m + noise) - m * 0.1);
  }

  // ---------- Calibration ----------

  /** The one-way time is calibrated: without the link, a packet that meets an idle core and is served in the
      calibrated time has its credit back after the measured round trip, or, where that leaves less than 100 ns
      for the way, after 100 ns plus service and write-back. */
  lemma IdleRoundTripIsMeasured(dc: PP.DomainConfig, q: CQ.Queue, t: real, size: nat)
    requires CQ.Inv(dc.queue, q) && CQ.Advance(q, t).credits > 0 && q.free <= t + dc.Dma(size)
    ensures var (q', ok) := CQ.TryAdmit(dc.queue, q, t, size, t + dc.Dma(size), dc.appBase);
      && ok && q'.inFlight != []
      && q'.inFlight[|q'.inFlight| - 1] - t == Max(dc.rtt(size), 100.0 + dc.appBase + dc.queue.writeback)
  {
    CQ.AdvanceEffect(q, t);
    hide CQ.Advance;
  }

  // ---------- The samples of a bin ----------

  /** A packet that a queue admitted: when it reached the ring and when its service ended. */
  datatype Served = Served(a: PP.Arrival, arrive: real, end: real)

  /** The packets of a stream that a queue admits, in order. A packet that went over the link reaches the ring
      when the link is done with it. */
  function ServedBy(c: PP.Config, tab: PP.Tables, s: PP.Path, arrivals: seq<PP.Arrival>, d: Domain, i: nat): seq<Served>
    requires c.Valid() && PP.AllRoutable(tab, s, arrivals)
  {
    if arrivals == [] then []
    else
      var n := |arrivals| - 1;
      var before, s1, a := ServedBy(c, tab, s, arrivals[..n], d, i), PP.Process(c, tab, s, arrivals[..n]), arrivals[n];
      if A.RoutedTo(tab, d, i, a) then before + Outcome(c, s1.Of(d)[i], s1.link, a) else before
  }

  function Outcome(c: PP.Config, q: CQ.Queue, l: PL.Link, a: PP.Arrival): seq<Served>
    requires c.Valid()
  {
    var (q', l', o) := PP.Offer(c, q, l, a);
    var arrive := if c.link.Some? then l'.busyUntil else a.pkt.t as real + c.Of(a.d).Dma(a.pkt.size);
    if o == PP.Admitted then [Served(a, arrive, q'.free)] else []
  }

  /** How long a packet is on its way when it finds everything idle. */
  function LeastWay(c: PP.Config, a: PP.Arrival): real {
    if c.link.Some? then c.link.value.setup + PL.TxTime(c.link.value, a.pkt.size) else c.Of(a.d).Dma(a.pkt.size)
  }

  /** The packet came no faster than an idle path lets it, and was served once it and the core were there. */
  ghost predicate ServedAfter(c: PP.Config, x: Served, free: real)
    requires c.Valid()
  {
    && x.arrive >= x.a.pkt.t as real + LeastWay(c, x.a)
    && x.end == Max(x.arrive, free) + CQ.ServiceTime(c.Of(x.a.d).queue, x.a.noise)
  }

  /** When the core was free for the k-th of the packets served. */
  function FreeFor(served: seq<Served>, free: real, k: nat): real
    requires k <= |served|
  {
    if k == 0 then free else served[k - 1].end
  }

  /** The samples of a queue are those of the packets served, which left it one after the other. `free` is when
      the core was free at first. */
  ghost predicate Sampled(c: PP.Config, q: CQ.Queue, served: seq<Served>, free: real)
    requires c.Valid()
  {
    && |q.stats.latencies| == |served|
    && (forall k :: 0 <= k < |served| ==> q.stats.latencies[k] == served[k].end - served[k].a.pkt.t as real)
    && (forall k :: 0 <= k < |served| ==> ServedAfter(c, served[k], FreeFor(served, free, k)))
    && q.free == FreeFor(served, free, |served|)
  }

  /** What one packet does to the queue it meets. */
  lemma OfferServes(c: PP.Config, q: CQ.Queue, l: PL.Link, a: PP.Arrival)
    requires c.Valid()
    ensures var q', served := PP.Offer(c, q, l, a).0, Outcome(c, q, l, a);
      if |served| == 0 then q'.stats.latencies == q.stats.latencies && q'.free == q.free
      else
        && |served| == 1 && q'.stats.latencies == q.stats.latencies + [served[0].end - a.pkt.t as real]
        && served[0].a == a && ServedAfter(c, served[0], q.free) && q'.free == served[0].end
  {
    var t := a.pkt.t as real;
    CQ.AdvanceEffect(q, t);
    var arrive := PP.OfferCases(c, q, l, a);
    hide PP.Offer, CQ.Advance, CQ.ServiceTime, PP.DomainConfig.Dma;
    if c.link.Some? && PP.Offer(c, q, l, a).2 == PP.Admitted {
      PL.CompletionBounds(c.link.value, l, t, a.pkt.size);
    }
  }

  lemma SampledNext(c: PP.Config, q: CQ.Queue, l: PL.Link, a: PP.Arrival, served: seq<Served>, free: real)
    requires c.Valid() && Sampled(c, q, served, free)
    ensures Sampled(c, PP.Offer(c, q, l, a).0, served + Outcome(c, q, l, a), free)
  {
    hide *;
    OfferServes(c, q, l, a);
    var q', out := PP.Offer(c, q, l, a).0, Outcome(c, q, l, a);
    if |out| == 0 {
      assert served + out == served;
      SampledSame(c, q, q', served, free);
    } else {
      assert out == [out[0]];
      SampledSnoc(c, q, q', served, out[0], free);
    }
  }

  lemma SampledSame(c: PP.Config, q: CQ.Queue, q': CQ.Queue, served: seq<Served>, free: real)
    requires c.Valid() && Sampled(c, q, served, free)
    requires q'.stats.latencies == q.stats.latencies && q'.free == q.free
    ensures Sampled(c, q', served, free)
  {
    hide ServedAfter, FreeFor;
  }

  lemma SampledSnoc(c: PP.Config, q: CQ.Queue, q': CQ.Queue, served: seq<Served>, x: Served, free: real)
    requires c.Valid() && Sampled(c, q, served, free) && ServedAfter(c, x, q.free) && q'.free == x.end
    requires q'.stats.latencies == q.stats.latencies + [x.end - x.a.pkt.t as real]
    ensures Sampled(c, q', served + [x], free)
  {
    hide ServedAfter;
    var all := served + [x];
    forall k | 0 <= k < |all| ensures ServedAfter(c, all[k], FreeFor(all, free, k)) {
      if k < |served| {
        assert FreeFor(all, free, k) == FreeFor(served, free, k);
      }
    }
  }

  lemma StepSampled(c: PP.Config, tab: PP.Tables, s: PP.Path, a: PP.Arrival, d: Domain, i: nat, served: seq<Served>,
        free: real)
    requires c.Valid() && PP.Routable(tab, s, a) && i < |s.Of(d)| && Sampled(c, s.Of(d)[i], served, free)
    ensures Sampled(c, PP.Step(c, tab, s, a).Of(d)[i],
                    if A.RoutedTo(tab, d, i, a) then served + Outcome(c, s.Of(d)[i], s.link, a) else served, free)
  {
    hide PP.Offer, Outcome, Sampled;
    if A.RoutedTo(tab, d, i, a) {
      SampledNext(c, s.Of(d)[i], s.link, a, served, free);
    }
  }

  lemma {:induction false} ProcessSampled(c: PP.Config, tab: PP.Tables, s: PP.Path, arrivals: seq<PP.Arrival>,
        d: Domain, i: nat)
    requires c.Valid() && PP.AllRoutable(tab, s, arrivals) && i < |s.Of(d)| && s.Of(d)[i].stats.latencies == []
    ensures i < |PP.Process(c, tab, s, arrivals).Of(d)|
    ensures Sampled(c, PP.Process(c, tab, s, arrivals).Of(d)[i], ServedBy(c, tab, s, arrivals, d, i), s.Of(d)[i].free)
  {
    if arrivals != [] {
      var n := |arrivals| - 1;
      PP.ProcessLast(c, tab, s, arrivals);
      ProcessSampled(c, tab, s, arrivals[..n], d, i);
      hide PP.Process, PP.Step, Sampled, Outcome;
      StepSampled(c, tab, PP.Process(c, tab, s, arrivals[..n]), arrivals[n], d, i,
                  ServedBy(c, tab, s, arrivals[..n], d, i), s.Of(d)[i].free);
    }
  }

  /** The samples that a bin records in a queue are exactly those of the packets it admits: the end of service
      less the time of generation, where the service starts once the packet has come its way and the core is done
      with the packet before. */
  lemma BinSamples(c: PP.Config, tab: PP.Tables, s: PP.Path, arrivals: seq<PP.Arrival>, tEnd: int, d: Domain, i: nat)
    requires c.Valid() && PP.AllRoutable(tab, s, arrivals) && i < |s.Of(d)|
    ensures i < |PP.Bin(c, tab, s, arrivals, tEnd).Of(d)|
    ensures Sampled(c, PP.Bin(c, tab, s, arrivals, tEnd).Of(d)[i],
                    ServedBy(c, tab, PP.ResetStats(s), arrivals, d, i), s.Of(d)[i].free)
  {
    hide *;
    var s0 := PP.ResetStats(s);
    PP.BinCloses(c, tab, s, arrivals, tEnd, d, i);
    ResetEmpties(s, d, i);
    ProcessSampled(c, tab, s0, arrivals, d, i);
    var q := PP.Process(c, tab, s0, arrivals).Of(d)[i];
    CQ.AdvanceEffect(q, tEnd as real);
    SampledSame(c, q, CQ.Advance(q, tEnd as real), ServedBy(c, tab, s0, arrivals, d, i), s.Of(d)[i].free);
  }

  lemma ResetEmpties(s: PP.Path, d: Domain, i: nat)
    requires i < |s.Of(d)|
    ensures var q := PP.ResetStats(s).Of(d); i < |q| && q[i].stats.latencies == [] && q[i].free == s.Of(d)[i].free
  {
  }

  // ---------- The least latency ----------

  /** The setup time of the link, or the least one-way time, and the lookup. */
  function Least(c: PP.Config, d: Domain): real {
    c.Of(d).queue.lookup + if c.link.Some? then c.link.value.setup else 100.0
  }

  ghost predicate SamplesAtLeast(q: CQ.Queue, least: real) {
    forall k :: 0 <= k < |q.stats.latencies| ==> q.stats.latencies[k] >= least
  }

  lemma ServedTakesLeast(c: PP.Config, x: Served, free: real)
    requires c.Valid() && ServedAfter(c, x, free)
    ensures x.end - x.a.pkt.t as real >= Least(c, x.a.d)
  {
    if c.link.Some? {
      PL.TxTimeNonNegative(c.link.value, x.a.pkt.size);
    }
    hide PL.TxTime, CQ.ServiceTime;
  }

  lemma {:induction false} ServedInDomain(c: PP.Config, tab: PP.Tables, s: PP.Path, arrivals: seq<PP.Arrival>,
        d: Domain, i: nat)
    requires c.Valid() && PP.AllRoutable(tab, s, arrivals)
    ensures forall x :: x in ServedBy(c, tab, s, arrivals, d, i) ==> x.a.d == d
  {
    if arrivals != [] {
      ServedInDomain(c, tab, s, arrivals[..|arrivals| - 1], d, i);
      hide PP.Process, PP.Offer;
    }
  }

  lemma SampledTakesLeast(c: PP.Config, q: CQ.Queue, served: seq<Served>, free: real, d: Domain)
    requires c.Valid() && Sampled(c, q, served, free) && forall x :: x in served ==> x.a.d == d
    ensures SamplesAtLeast(q, Least(c, d))
  {
    hide ServedAfter, Least;
    forall k | 0 <= k < |q.stats.latencies| ensures q.stats.latencies[k] >= Least(c, d) {
      assert served[k] in served;
      ServedTakesLeast(c, served[k], FreeFor(served, free, k));
    }
  }

  lemma {:induction false} GatheredAtLeast(qs: seq<CQ.Queue>, least: real)
    requires forall i :: 0 <= i < |qs| ==> SamplesAtLeast(qs[i], least)
    ensures forall x :: x in TT.Gathered(qs) ==> x >= least
  {
    if qs != [] {
      GatheredAtLeast(qs[..|qs| - 1], least);
      assert SamplesAtLeast(qs[|qs| - 1], least);
    }
  }

  lemma BinTakesLeast(c: Config, s: Sys, bin: Event, d: Domain)
    requires Enabled(c, s, bin) && bin.Bin?
    ensures forall x :: x in TT.Gathered(Next(c, s, bin).path.Of(d)) ==> x >= Least(c.path, d)
  {
    NextOfBin(c, s, bin.sl, bin.sf, bin.noise, bin.tEnd);
    var r, qs := Stream(s, bin.sl, bin.sf, bin.noise), Next(c, s, bin).path.Of(d);
    hide Next, Enabled, Stream, PP.Process, Sampled, Least;
    forall i | 0 <= i < |qs| ensures SamplesAtLeast(qs[i], Least(c.path, d)) {
      BinSamples(c.path, s.Tables(), s.path, r, bin.tEnd, d, i);
      ServedInDomain(c.path, s.Tables(), PP.ResetStats(s.path), r, d, i);
      SampledTakesLeast(c.path, qs[i], ServedBy(c.path, s.Tables(), PP.ResetStats(s.path), r, d, i),
                        s.path.Of(d)[i].free, d);
    }
    GatheredAtLeast(qs, Least(c.path, d));
  }

  /** No reported latency is less than the link's setup time, or 100 ns without the link, plus the lookup:
      the counterpart of the worst case. */
  lemma {:induction false} ReportedLatencyAtLeast(c: Config, s: Sys, d: Domain, events: seq<Event>)
    requires IsRun(c, s, events)
    ensures forall x :: x in TT.Samples(c, s, d, events) ==> x >= Least(c.path, d)
    decreases |events|
  {
    if events != [] {
      ReportedLatencyAtLeast(c, Next(c, s, events[0]), d, events[1..]);
      if events[0].Bin? {
        BinTakesLeast(c, s, events[0], d);
      }
      hide Next, Enabled, TT.Gathered, Least;
    }
  }
}

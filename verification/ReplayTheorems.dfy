/** The fate and the order of the packets that a completed handoff releases. */
module ReplayTheorems {
  import opened Common
  import CQ = CreditQueue
  import PL = PcieLink
  import PP = PacketPath
  import L = Latency
  import H = Handoffs
  import A = Accounting
  import opened Emulator

  // ---------- Fate ----------

  /** Nothing in flight is due by t. */
  predicate Quiet(q: CQ.Queue, t: real) {
    q.inFlight == [] || q.inFlight[0] > t
  }

  lemma TakeStaysQuiet(c: CQ.Config, q: CQ.Queue, t: real, size: nat, arrive: real, app: real)
    requires Quiet(q, t) && c.writeback >= 0.0 && arrive > t && app >= 0.0
    ensures Quiet(CQ.Take(c, q, t, size, arrive, app), t)
  {
  }

  /** Once everything due is collected nothing is due, and only the return counter has changed. */
  lemma AdvanceQuiets(c: CQ.Config, q: CQ.Queue, t: real)
    requires CQ.Inv(c, q)
    ensures var q1 := CQ.Advance(q, t);
      && Quiet(q1, t) && q1.credits >= 0
      && q1.stats.admPkts == q.stats.admPkts && q1.stats.creditDropPkts == q.stats.creditDropPkts
  {
    CQ.AdvanceEffect(q, t);
    CQ.AdvanceKeepsInv(c, q, t);
    hide CQ.Advance;
  }

  lemma ServiceNotNegative(dc: PP.DomainConfig, noise: real, size: nat)
    requires dc.queue.Valid()
    ensures CQ.ServiceTime(dc.queue, noise) >= 0.0 && dc.Dma(size) > 0.0
  {
  }

  /** One released packet: it takes a credit if there is one left at that moment. */
  lemma ReleaseOne(dc: PP.DomainConfig, q: CQ.Queue, t: real, size: nat, noise: real)
    requires dc.queue.Valid() && dc.queue.writeback >= 0.0 && CQ.Inv(dc.queue, q)
    ensures var credits := CQ.Advance(q, t).credits;
      var (q', ok) := CQ.TryAdmit(dc.queue, q, t, size, t + dc.Dma(size), CQ.ServiceTime(dc.queue, noise));
      && (ok <==> credits > 0) && credits >= 0
      && q'.credits == credits - (if ok then 1 else 0)
      && q'.stats.admPkts == q.stats.admPkts + (if ok then 1 else 0)
      && q'.stats.creditDropPkts == q.stats.creditDropPkts + (if ok then 0 else 1)
      && Quiet(q', t) && CQ.Inv(dc.queue, q')
  {
    hide CQ.ServiceTime, CQ.Advance, CQ.Inv, PP.DomainConfig.Dma, CQ.Config.Valid;
    var app := CQ.ServiceTime(dc.queue, noise);
    ServiceNotNegative(dc, noise, size);
    AdvanceQuiets(dc.queue, q, t);
    CQ.TryAdmitKeepsInv(dc.queue, q, t, size, t + dc.Dma(size), app);
    var q1 := CQ.Advance(q, t);
    if q1.credits > 0 {
      TakeStaysQuiet(dc.queue, q1, t, size, t + dc.Dma(size), app);
    }
  }

  lemma QuietAdvance(q: CQ.Queue, t: real)
    requires Quiet(q, t)
    ensures CQ.Advance(q, t) == q
  {
  }

  /** Of n packets released at one moment into a queue, exactly as many are admitted as the queue then
      has credits; all others are counted as dropped there, and none is lost. */
  lemma {:induction false} ReplayFate(dc: PP.DomainConfig, q: CQ.Queue, t: real, size: nat, n: nat, noise: nat -> real)
    requires dc.queue.Valid() && dc.queue.writeback >= 0.0 && CQ.Inv(dc.queue, q) && n > 0
    ensures var (q', dropped) := L.Replay(dc, q, t, size, n, noise);
      var credits := CQ.Advance(q, t).credits;
      && dropped == MaxInt(0, n - credits)
      && q'.credits == MaxInt(0, credits - n)
      && q'.stats.admPkts == q.stats.admPkts + (n - dropped)
      && q'.stats.creditDropPkts == q.stats.creditDropPkts + dropped
      && Quiet(q', t) && CQ.Inv(dc.queue, q')
  {
    hide CQ.ServiceTime, CQ.TryAdmit, CQ.Advance, CQ.Inv, CQ.Config.Valid, L.Replay, PP.DomainConfig.Dma, Quiet;
    L.ReplayLast(dc, q, t, size, n, noise);
    if n == 1 {
      L.ReplayNone(dc, q, t, size, noise);
      ReleaseOne(dc, q, t, size, noise(0));
    } else {
      ReplayFate(dc, q, t, size, n - 1, noise);
      var q0 := L.Replay(dc, q, t, size, n - 1, noise).0;
      QuietAdvance(q0, t);
      ReleaseOne(dc, q0, t, size, noise(n - 1));
    }
  }

  lemma AttemptCounts(c: CQ.Config, q: CQ.Queue, t: real, size: nat, arrive: real, app: real)
    ensures var (q', ok) := CQ.TryAdmit(c, q, t, size, arrive, app);
      && q'.stats.admPkts == q.stats.admPkts + (if ok then 1 else 0)
      && q'.stats.admBytes == q.stats.admBytes + (if ok then size else 0)
      && q'.stats.creditDropPkts == q.stats.creditDropPkts + (if ok then 0 else 1)
      && q'.stats.creditDropBytes == q.stats.creditDropBytes + (if ok then 0 else size)
  {
    CQ.AdvanceEffect(q, t);
    hide CQ.Advance;
  }

  /** The counters of a release: every packet is admitted or dropped, in packets and in bytes. */
  lemma {:induction false} ReplayCounts(dc: PP.DomainConfig, q: CQ.Queue, t: real, size: nat, n: nat,
        noise: nat -> real)
    requires dc.queue.Valid()
    ensures var (q', dropped) := L.Replay(dc, q, t, size, n, noise);
      && q'.stats.creditDropPkts == q.stats.creditDropPkts + dropped
      && q'.stats.admPkts + q'.stats.creditDropPkts == q.stats.admPkts + q.stats.creditDropPkts + n
      && q'.stats.admBytes + q'.stats.creditDropBytes == q.stats.admBytes + q.stats.creditDropBytes + n * size
  {
    hide *;
    if n == 0 {
      L.ReplayNone(dc, q, t, size, noise);
    } else {
      L.ReplayLast(dc, q, t, size, n, noise);
      ReplayCounts(dc, q, t, size, n - 1, noise);
      AttemptCounts(dc.queue, L.Replay(dc, q, t, size, n - 1, noise).0, t, size, t + dc.Dma(size),
                    CQ.ServiceTime(dc.queue, noise(n - 1)));
      assert n * size == (n - 1) * size + size;
    }
  }

  /** Packets and bytes that the first k finished handoffs release to a queue. */
  function Released(finished: seq<H.Handoff>, q: nat, k: nat): (r: (nat, nat))
    requires k <= |finished|
  {
    if k == 0 then (0, 0)
    else
      var before, h := Released(finished, q, k - 1), finished[k - 1];
      if h.dst == q then (before.0 + h.bufferedPkts, before.1 + h.bufferedPkts * AverageSize(h)) else before
  }

  /** What came to a queue since its counters were reset. */
  function Attempted(q: CQ.Queue): (r: (nat, nat)) {
    (q.stats.admPkts + q.stats.creditDropPkts, q.stats.admBytes + q.stats.creditDropBytes)
  }

  lemma {:induction false} ReplaysDeliver(c: Config, qs: seq<CQ.Queue>, finished: seq<H.Handoff>, t: real,
        noise: (nat, nat) -> real, k: nat, i: nat)
    requires c.Valid() && k <= |finished| && i < |qs|
    ensures var q', r := ReplayTo(c, qs, finished, t, noise, k)[i], Released(finished, i, k);
      Attempted(q') == (Attempted(qs[i]).0 + r.0, Attempted(qs[i]).1 + r.1)
  {
    if k > 0 {
      ReplaysDeliver(c, qs, finished, t, noise, k - 1, i);
      var before, h := ReplayTo(c, qs, finished, t, noise, k - 1), finished[k - 1];
      hide L.Replay, AverageSize;
      if h.dst < |before| {
        ReplayCounts(c.path.sf, before[h.dst], t, AverageSize(h), h.bufferedPkts, Row(noise, k - 1));
      }
    }
  }

  /** At every stateful boundary each queue is offered exactly what the finished handoffs with this destination had
      buffered, every packet of it, at the average size of its handoff, and no other packet. */
  lemma BoundaryDelivers(c: Config, s: Sys, e: Event, i: nat)
    requires Enabled(c, s, e) && e.StatefulEpoch? && i < |s.path.sf|
    ensures H.InDomain(s.m, c.handoff.queues) && H.InRange(s.m.pending, c.handoff.queues)
    ensures i < |Next(c, s, e).path.sf|
    ensures var finished := H.Tick(c.handoff, s.m, c.sched.epochNs).1;
      var q, q', r := s.path.sf[i], Next(c, s, e).path.sf[i], Released(finished, i, |finished|);
      Attempted(q') == (Attempted(q).0 + r.0, Attempted(q).1 + r.1)
  {
    NextOfEpoch(c, s, e.telem, e.order, e.draw, e.replayNoise);
    var finished := H.Tick(c.handoff, s.m, c.sched.epochNs).1;
    ReplaysDeliver(c, s.path.sf, finished, ReplayTime(c.sched.epochNs, s.epoch), e.replayNoise, |finished|, i);
    hide Next, Enabled, ReplayTo, ReplayTime, Released, Attempted, H.Tick;
  }

  /** One more release, in the drops of all queues together. */
  lemma ReleaseDrops(c: Config, qs: seq<CQ.Queue>, h: H.Handoff, t: real, noise: nat -> real)
    requires c.Valid() && h.dst < |qs|
    ensures var (q, dropped) := L.Replay(c.path.sf, qs[h.dst], t, AverageSize(h), h.bufferedPkts, noise);
      A.Total(qs[h.dst := q], A.CreditDropPkts) == A.Total(qs, A.CreditDropPkts) + dropped
  {
    hide L.Replay, A.Total, AverageSize;
    var q := L.Replay(c.path.sf, qs[h.dst], t, AverageSize(h), h.bufferedPkts, noise).0;
    ReplayCounts(c.path.sf, qs[h.dst], t, AverageSize(h), h.bufferedPkts, noise);
    A.TotalUpdate(qs, h.dst, q, A.CreditDropPkts);
  }

  /** Released packets carry the average size: the buffered bytes but for less than one byte for each packet; never
      more than was buffered, unless there are more packets than bytes, each of which then carries one. */
  lemma ReleaseCarriesBuffer(h: H.Handoff)
    requires h.bufferedPkts > 0
    ensures var released := h.bufferedPkts * AverageSize(h);
      if h.bufferedBytes < h.bufferedPkts then released == h.bufferedPkts
      else released <= h.bufferedBytes < released + h.bufferedPkts
  {
    H.DivisionIsFloor(h.bufferedBytes, h.bufferedPkts);
    if h.bufferedBytes >= h.bufferedPkts {
      QuotientPositive(h.bufferedBytes, h.bufferedPkts);
    }
  }

  lemma QuotientPositive(x: nat, y: nat)
    requires x >= y > 0
    ensures x / y >= 1
  {
  }

  // ---------- Order ----------

  /** No operation moves a queue's service frontier back. */
  lemma OfferKeepsFrontier(c: PP.Config, q: CQ.Queue, l: PL.Link, a: PP.Arrival)
    requires c.Valid()
    ensures PP.Offer(c, q, l, a).0.free >= q.free
  {
    CQ.AdvanceEffect(q, a.pkt.t as real);
    var _ := PP.OfferCases(c, q, l, a);
    hide PP.Offer, CQ.Advance, CQ.ServiceTime;
  }

  ghost predicate FrontierAtLeast(p: PP.Path, p': PP.Path) {
    && |p.sl| == |p'.sl| && |p.sf| == |p'.sf|
    && (forall i :: 0 <= i < |p.sl| ==> p'.sl[i].free >= p.sl[i].free)
    && (forall i :: 0 <= i < |p.sf| ==> p'.sf[i].free >= p.sf[i].free)
  }

  lemma StepKeepsFrontier(c: PP.Config, tab: PP.Tables, s: PP.Path, a: PP.Arrival)
    requires c.Valid() && PP.Routable(tab, s, a)
    ensures FrontierAtLeast(s, PP.Step(c, tab, s, a))
  {
    OfferKeepsFrontier(c, s.Of(a.d)[PP.Route(tab, a)], s.link, a);
    hide PP.Offer;
  }

  lemma {:induction false} ProcessKeepsFrontier(c: PP.Config, tab: PP.Tables, s: PP.Path, arrivals: seq<PP.Arrival>)
    requires c.Valid() && PP.AllRoutable(tab, s, arrivals)
    ensures FrontierAtLeast(s, PP.Process(c, tab, s, arrivals))
  {
    if arrivals != [] {
      PP.ProcessLast(c, tab, s, arrivals);
      var n := |arrivals| - 1;
      ProcessKeepsFrontier(c, tab, s, arrivals[..n]);
      StepKeepsFrontier(c, tab, PP.Process(c, tab, s, arrivals[..n]), arrivals[n]);
      hide PP.Process, PP.Step;
    }
  }

  lemma BinKeepsFrontier(c: PP.Config, tab: PP.Tables, s: PP.Path, arrivals: seq<PP.Arrival>, tEnd: int)
    requires c.Valid() && PP.AllRoutable(tab, s, arrivals)
    ensures FrontierAtLeast(s, PP.Bin(c, tab, s, arrivals, tEnd))
  {
    var s0 := PP.ResetStats(s);
    ProcessKeepsFrontier(c, tab, s0, arrivals);
    var s1 := PP.Process(c, tab, s0, arrivals);
    hide PP.Process;
    forall i | 0 <= i < |s1.sl| ensures CQ.Advance(s1.sl[i], tEnd as real).free == s1.sl[i].free {
      CQ.AdvanceEffect(s1.sl[i], tEnd as real);
    }
    forall i | 0 <= i < |s1.sf| ensures CQ.Advance(s1.sf[i], tEnd as real).free == s1.sf[i].free {
      CQ.AdvanceEffect(s1.sf[i], tEnd as real);
    }
    hide CQ.Advance;
  }

  /** The service end of each replayed packet is at most the frontier after the whole replay. */
  lemma {:induction false} ReplayKeepsFrontier(dc: PP.DomainConfig, q: CQ.Queue, t: real, size: nat, k: nat,
        n: nat, noise: nat -> real)
    requires dc.queue.Valid() && k <= n
    ensures L.Replay(dc, q, t, size, k, noise).0.free <= L.Replay(dc, q, t, size, n, noise).0.free
  {
    if k < n {
      ReplayKeepsFrontier(dc, q, t, size, k, n - 1, noise);
      CQ.AdvanceEffect(L.Replay(dc, q, t, size, n - 1, noise).0, t);
      hide CQ.ServiceTime, CQ.Advance;
    }
  }

  ghost predicate QueueFrontier(qs: seq<CQ.Queue>, qs': seq<CQ.Queue>) {
    |qs| == |qs'| && forall i :: 0 <= i < |qs| ==> qs[i].free <= qs'[i].free
  }

  /** One more handoff released. */
  lemma ReleaseKeepsFrontier(c: Config, qs: seq<CQ.Queue>, finished: seq<H.Handoff>, t: real,
        noise: (nat, nat) -> real, k: nat)
    requires c.Valid() && 0 < k <= |finished|
    ensures QueueFrontier(ReplayTo(c, qs, finished, t, noise, k - 1), ReplayTo(c, qs, finished, t, noise, k))
  {
    hide L.Replay, QueueFrontier;
    var before, h := ReplayTo(c, qs, finished, t, noise, k - 1), finished[k - 1];
    FrontierSame(before);
    if h.dst < |before| {
      L.ReplayNone(c.path.sf, before[h.dst], t, AverageSize(h), Row(noise, k - 1));
      ReplayKeepsFrontier(c.path.sf, before[h.dst], t, AverageSize(h), 0, h.bufferedPkts, Row(noise, k - 1));
      FrontierUpdate(before, h.dst, ReplayOne(c, before[h.dst], h, t, Row(noise, k - 1)).0);
    }
  }

  lemma FrontierSame(qs: seq<CQ.Queue>)
    ensures QueueFrontier(qs, qs)
  {
  }

  lemma FrontierUpdate(qs: seq<CQ.Queue>, i: nat, q: CQ.Queue)
    requires i < |qs| && qs[i].free <= q.free
    ensures QueueFrontier(qs, qs[i := q])
  {
  }

  lemma FrontierChain(a: seq<CQ.Queue>, b: seq<CQ.Queue>, d: seq<CQ.Queue>)
    requires QueueFrontier(a, b) && QueueFrontier(b, d)
    ensures QueueFrontier(a, d)
  {
  }

  lemma {:induction false} ReplaysKeepFrontier(c: Config, qs: seq<CQ.Queue>, finished: seq<H.Handoff>, t: real,
        noise: (nat, nat) -> real, j: nat, k: nat)
    requires c.Valid() && j <= k <= |finished|
    ensures QueueFrontier(ReplayTo(c, qs, finished, t, noise, j), ReplayTo(c, qs, finished, t, noise, k))
  {
    hide *;
    if j == k {
      FrontierSame(ReplayTo(c, qs, finished, t, noise, k));
    } else {
      ReplaysKeepFrontier(c, qs, finished, t, noise, j, k - 1);
      ReleaseKeepsFrontier(c, qs, finished, t, noise, k);
      FrontierChain(ReplayTo(c, qs, finished, t, noise, j), ReplayTo(c, qs, finished, t, noise, k - 1),
                    ReplayTo(c, qs, finished, t, noise, k));
    }
  }

  lemma NextKeepsFrontier(c: Config, s: Sys, e: Event)
    requires Enabled(c, s, e)
    ensures FrontierAtLeast(s.path, Next(c, s, e).path)
  {
    match e
    case Bin(sl, sf, noise, tEnd) =>
      StreamIsRoutable(c, s, sl, sf, noise);
      BinKeepsFrontier(c.path, s.Tables(), s.path, Stream(s, sl, sf, noise), tEnd);
    case StatelessEpoch(_) =>
    case StatefulEpoch(telem, order, draw, noise) =>
      var finished := H.Tick(c.handoff, s.m, c.sched.epochNs).1;
      ReplaysKeepFrontier(c, s.path.sf, finished, ReplayTime(c.sched.epochNs, s.epoch), noise, 0, |finished|);
      hide ReplayTo, H.Tick;
  }

  lemma {:induction false} RunKeepsFrontier(c: Config, s: Sys, events: seq<Event>)
    requires IsRun(c, s, events)
    ensures FrontierAtLeast(s.path, After(c, s, events).path)
    decreases |events|
  {
    if events != [] {
      hide Next, Enabled;
      NextKeepsFrontier(c, s, events[0]);
      RunKeepsFrontier(c, Next(c, s, events[0]), events[1..]);
    }
  }

  /** Order across a migration. Take a handoff released at a stateful epoch boundary, any further run,
      and any packet that a later bin admits to the destination queue: the k-th replayed packet finishes
      service no later than that packet. */
  lemma MigrationKeepsOrder(c: Config, s: Sys, e: Event, events: seq<Event>, bin: Event, j: nat, k: nat, p: nat)
    requires Enabled(c, s, e) && e.StatefulEpoch?
    requires IsRun(c, Next(c, s, e), events) && bin.Bin? && Enabled(c, After(c, Next(c, s, e), events), bin)
    requires var finished := H.Tick(c.handoff, s.m, c.sched.epochNs).1;
      j < |finished| && finished[j].dst < |s.path.sf| && k <= finished[j].bufferedPkts
    requires var s1 := After(c, Next(c, s, e), events);
      && p < |Stream(s1, bin.sl, bin.sf, bin.noise)|
      && Stream(s1, bin.sl, bin.sf, bin.noise)[p].d.Stateful?
    ensures var finished := H.Tick(c.handoff, s.m, c.sched.epochNs).1;
      var s1 := After(c, Next(c, s, e), events);
      var r := Stream(s1, bin.sl, bin.sf, bin.noise);
      var t := ReplayTime(c.sched.epochNs, s.epoch);
      var dst := finished[j].dst;
      && PP.AllRoutable(s1.Tables(), s1.path, r) && PP.AllRoutable(s1.Tables(), PP.ResetStats(s1.path), r[..p])
      && (var at := PP.Process(c.path, s1.Tables(), PP.ResetStats(s1.path), r[..p]);
          var q, a := at.sf[PP.Route(s1.Tables(), r[p])], r[p];
          PP.Route(s1.Tables(), a) == dst && PP.Offer(c.path, q, at.link, a).2 == PP.Admitted ==>
            L.Replay(c.path.sf, ReplayTo(c, s.path.sf, finished, t, e.replayNoise, j)[dst], t,
                     AverageSize(finished[j]), k, Row(e.replayNoise, j)).0.free
            <= PP.Offer(c.path, q, at.link, a).0.free)
  {
    var finished := H.Tick(c.handoff, s.m, c.sched.epochNs).1;
    var t, h := ReplayTime(c.sched.epochNs, s.epoch), finished[j];
    var before := ReplayTo(c, s.path.sf, finished, t, e.replayNoise, j);
    ReplayKeepsFrontier(c.path.sf, before[h.dst], t, AverageSize(h), k, h.bufferedPkts, Row(e.replayNoise, j));
    ReplaysKeepFrontier(c, s.path.sf, finished, t, e.replayNoise, j + 1, |finished|);
    RunKeepsFrontier(c, Next(c, s, e), events);
    var s1 := After(c, Next(c, s, e), events);
    var r := Stream(s1, bin.sl, bin.sf, bin.noise);
    StreamIsRoutable(c, s1, bin.sl, bin.sf, bin.noise);
    var s0 := PP.ResetStats(s1.path);
    ProcessKeepsFrontier(c.path, s1.Tables(), s0, r[..p]);
    var at := PP.Process(c.path, s1.Tables(), s0, r[..p]);
    assert PP.Routable(s1.Tables(), s1.path, r[p]);
    var dst := PP.Route(s1.Tables(), r[p]);
    OfferKeepsFrontier(c.path, at.sf[dst], at.link, r[p]);
    assert Next(c, s, e).path.sf == ReplayTo(c, s.path.sf, finished, t, e.replayNoise, |finished|);
    hide PP.Process, PP.Offer, L.Replay, After, Stream, H.Tick, IsRun;
    assert s0.sf[dst].free == s1.path.sf[dst].free;
  }
}

/** Occupancy and refusal in every run of the emulator.

    The reference is a list, for every queue, of all credit returns ever scheduled. It grows with each admitted
    packet, in bins and in replays, and knows nothing of what was collected. */
module OccupancyTheorems {
  import opened Common
  import CQ = CreditQueue
  import PL = PcieLink
  import PP = PacketPath
  import L = Latency
  import H = Handoffs
  import P = PathTheorems
  import TT = TelemetryTheorems
  import opened Emulator

  // ---------- The reference: return times of all packets admitted so far ----------

  /** For every queue, when the credits of its admitted packets come back. */
  datatype Ledger = Ledger(sl: seq<seq<real>>, sf: seq<seq<real>>) {
    function Of(d: Domain): seq<seq<real>> {
      if d.Stateless? then sl else sf
    }

    function With(d: Domain, i: nat, backs: seq<real>): Ledger
      requires i < |Of(d)|
    {
      if d.Stateless? then this.(sl := sl[i := backs]) else this.(sf := sf[i := backs])
    }
  }

  ghost predicate Matching(p: PP.Path, g: Ledger) {
    |g.sl| == |p.sl| && |g.sf| == |p.sf|
  }

  /** The packet at its queue: admitted, its return joins the list. */
  function OfferBacks(c: PP.Config, q: CQ.Queue, l: PL.Link, a: PP.Arrival, backs: seq<real>): seq<real>
    requires c.Valid()
  {
    var (q', _, o) := PP.Offer(c, q, l, a);
    if o == PP.Admitted then backs + [q'.free + c.Of(a.d).queue.writeback] else backs
  }

  function StepLedger(c: PP.Config, tab: PP.Tables, s: PP.Path, a: PP.Arrival, g: Ledger): (g': Ledger)
    requires c.Valid() && PP.Routable(tab, s, a) && |g.sl| == |s.sl| && |g.sf| == |s.sf|
    ensures |g'.sl| == |g.sl| && |g'.sf| == |g.sf|
  {
    var i := PP.Route(tab, a);
    g.With(a.d, i, OfferBacks(c, s.Of(a.d)[i], s.link, a, g.Of(a.d)[i]))
  }

  function ProcessLedger(c: PP.Config, tab: PP.Tables, s: PP.Path, arrivals: seq<PP.Arrival>, g: Ledger): (g': Ledger)
    requires c.Valid() && PP.AllRoutable(tab, s, arrivals) && |g.sl| == |s.sl| && |g.sf| == |s.sf|
    ensures |g'.sl| == |g.sl| && |g'.sf| == |g.sf|
  {
    if arrivals == [] then g
    else
      var n := |arrivals| - 1;
      StepLedger(c, tab, PP.Process(c, tab, s, arrivals[..n]), arrivals[n], ProcessLedger(c, tab, s, arrivals[..n], g))
  }

  /** The returns of n packets released at one moment into a queue. */
  function ReplayBacks(dc: PP.DomainConfig, q: CQ.Queue, t: real, size: nat, n: nat, noise: nat -> real,
        backs: seq<real>): seq<real>
    requires dc.queue.Valid()
  {
    if n == 0 then backs
    else
      var before := ReplayBacks(dc, q, t, size, n - 1, noise, backs);
      var (q', ok) := CQ.TryAdmit(dc.queue, L.Replay(dc, q, t, size, n - 1, noise).0, t, size, t + dc.Dma(size),
                                  CQ.ServiceTime(dc.queue, noise(n - 1)));
      if ok then before + [q'.free + dc.queue.writeback] else before
  }

  function ReplayLedger(c: Config, qs: seq<CQ.Queue>, finished: seq<H.Handoff>, t: real, noise: (nat, nat) -> real,
        k: nat, g: seq<seq<real>>): (g': seq<seq<real>>)
    requires c.Valid() && k <= |finished| && |g| == |qs|
    ensures |g'| == |g|
  {
    if k == 0 then g
    else
      var before, h := ReplayLedger(c, qs, finished, t, noise, k - 1, g), finished[k - 1];
      if h.dst < |qs| then
        before[h.dst := ReplayBacks(c.path.sf, ReplayTo(c, qs, finished, t, noise, k - 1)[h.dst], t, AverageSize(h),
                                    h.bufferedPkts, Row(noise, k - 1), before[h.dst])]
      else before
  }

  ghost function NextLedger(c: Config, s: Sys, e: Event, g: Ledger): (g': Ledger)
    requires Enabled(c, s, e) && Matching(s.path, g)
    ensures |g'.sl| == |g.sl| && |g'.sf| == |g.sf|
  {
    match e
    case Bin(sl, sf, noise, tEnd) =>
      StreamIsRoutable(c, s, sl, sf, noise);
      ProcessLedger(c.path, s.Tables(), PP.ResetStats(s.path), Stream(s, sl, sf, noise), g)
    case StatelessEpoch(_) => g
    case StatefulEpoch(_, _, _, noise) =>
      var finished := H.Tick(c.handoff, s.m, c.sched.epochNs).1;
      g.(sf := ReplayLedger(c, s.path.sf, finished, ReplayTime(c.sched.epochNs, s.epoch), noise, |finished|, g.sf))
  }

  lemma NextMatches(c: Config, s: Sys, e: Event, g: Ledger)
    requires Enabled(c, s, e) && Matching(s.path, g)
    ensures Matching(Next(c, s, e).path, NextLedger(c, s, e, g))
  {
    match e
    case Bin(sl, sf, noise, tEnd) => NextOfBin(c, s, sl, sf, noise, tEnd);
    case StatelessEpoch(_) =>
    case StatefulEpoch(telem, order, draw, noise) => NextOfEpoch(c, s, telem, order, draw, noise);
  }

  ghost function LedgerAfter(c: Config, s: Sys, events: seq<Event>, g: Ledger): (g': Ledger)
    requires IsRun(c, s, events) && Matching(s.path, g)
    ensures |g'.sl| == |g.sl| && |g'.sf| == |g.sf|
    decreases |events|
  {
    if events == [] then g
    else
      NextMatches(c, s, events[0], g);
      LedgerAfter(c, Next(c, s, events[0]), events[1..], NextLedger(c, s, events[0], g))
  }

  /** No packet admitted yet. */
  function Empty(p: PP.Path): Ledger {
    Ledger(Fill(|p.sl|, []), Fill(|p.sf|, []))
  }

  // ---------- What every event keeps ----------

  /** The list of a queue is complete and nothing was collected that is due after `latest`. */
  ghost predicate Kept(c: CQ.Config, q: CQ.Queue, backs: seq<real>, latest: real) {
    exists collected :: CQ.Tracks(c, q, backs, collected) && CQ.AllBy(collected, latest)
  }

  lemma KeptLater(c: CQ.Config, q: CQ.Queue, backs: seq<real>, latest: real, later: real)
    requires Kept(c, q, backs, latest) && latest <= later
    ensures Kept(c, q, backs, later)
  {
    var collected :| CQ.Tracks(c, q, backs, collected) && CQ.AllBy(collected, latest);
    CQ.AllByLater(collected, latest, later);
  }

  lemma AdvanceStaysKept(c: CQ.Config, q: CQ.Queue, backs: seq<real>, t: real, latest: real)
    requires Kept(c, q, backs, latest) && t <= latest
    ensures Kept(c, CQ.Advance(q, t), backs, latest)
  {
    var collected :| CQ.Tracks(c, q, backs, collected) && CQ.AllBy(collected, latest);
    hide CQ.Advance, CQ.Tracks, CQ.AllBy;
    var _ := CQ.AdvanceKeepsTracks(c, q, backs, collected, t);
  }

  lemma TryAdmitStaysKept(c: CQ.Config, q: CQ.Queue, backs: seq<real>, t: real, size: nat, arrive: real, app: real,
        latest: real)
    requires Kept(c, q, backs, latest) && t <= latest && app >= 0.0
    ensures var (q', ok) := CQ.TryAdmit(c, q, t, size, arrive, app);
      Kept(c, q', if ok then backs + [q'.free + c.writeback] else backs, latest)
  {
    var collected :| CQ.Tracks(c, q, backs, collected) && CQ.AllBy(collected, latest);
    hide CQ.TryAdmit, CQ.Tracks, CQ.AllBy;
    var _ := CQ.TryAdmitKeepsTracks(c, q, backs, collected, t, size, arrive, app);
  }

  lemma SameStaysKept(c: CQ.Config, q: CQ.Queue, q': CQ.Queue, backs: seq<real>, latest: real)
    requires Kept(c, q, backs, latest)
    requires q'.credits == q.credits && q'.free == q.free && q'.inFlight == q.inFlight
    ensures Kept(c, q', backs, latest)
  {
    var collected :| CQ.Tracks(c, q, backs, collected) && CQ.AllBy(collected, latest);
    hide CQ.Tracks, CQ.AllBy;
    CQ.DropKeepsTracks(c, q, q', backs, collected);
  }

  lemma TakeStaysKept(c: CQ.Config, q: CQ.Queue, backs: seq<real>, t: real, size: nat, arrive: real, app: real,
        latest: real)
    requires Kept(c, q, backs, latest) && q.credits > 0 && app >= 0.0
    ensures var q' := CQ.Take(c, q, t, size, arrive, app);
      Kept(c, q', backs + [q'.free + c.writeback], latest)
  {
    var collected :| CQ.Tracks(c, q, backs, collected) && CQ.AllBy(collected, latest);
    hide CQ.Take, CQ.Tracks, CQ.AllBy;
    CQ.TakeKeepsTracks(c, q, backs, collected, t, size, arrive, app);
  }

  /** What an offer means for the list: an admitted packet takes a credit and its return joins the list. */
  lemma AdmittedOffer(c: PP.Config, q: CQ.Queue, l: PL.Link, a: PP.Arrival, backs: seq<real>) returns (arrive: real)
    requires c.Valid() && PP.Offer(c, q, l, a).2 == PP.Admitted
    ensures var qc, q1 := c.Of(a.d).queue, CQ.Advance(q, a.pkt.t as real);
      var q', app := PP.Offer(c, q, l, a).0, CQ.ServiceTime(qc, a.noise);
      && q1.credits > 0 && app >= 0.0 && q' == CQ.Take(qc, q1, a.pkt.t as real, a.pkt.size, arrive, app)
      && OfferBacks(c, q, l, a, backs) == backs + [q'.free + qc.writeback]
  {
    arrive := PP.OfferCases(c, q, l, a);
    hide PP.Offer, CQ.Advance, CQ.ServiceTime;
  }

  /** Any other packet leaves the queue as the advance left it, but for the counters. */
  lemma OtherOffer(c: PP.Config, q: CQ.Queue, l: PL.Link, a: PP.Arrival, backs: seq<real>)
    requires c.Valid() && PP.Offer(c, q, l, a).2 != PP.Admitted
    ensures var q1, q' := CQ.Advance(q, a.pkt.t as real), PP.Offer(c, q, l, a).0;
      q'.credits == q1.credits && q'.free == q1.free && q'.inFlight == q1.inFlight
    ensures OfferBacks(c, q, l, a, backs) == backs
  {
    var _ := PP.OfferCases(c, q, l, a);
    hide PP.Offer, CQ.Advance, CQ.ServiceTime;
  }

  lemma CreditDropIff(c: PP.Config, q: CQ.Queue, l: PL.Link, a: PP.Arrival)
    requires c.Valid()
    ensures PP.Offer(c, q, l, a).2 == PP.CreditDropped <==> CQ.Advance(q, a.pkt.t as real).credits <= 0
  {
    hide CQ.Advance, CQ.ServiceTime;
  }

  lemma QueueIsValid(c: PP.Config, d: Domain)
    requires c.Valid()
    ensures c.Of(d).queue.Valid()
  {
  }

  lemma AdmittedStaysKept(c: PP.Config, q: CQ.Queue, l: PL.Link, a: PP.Arrival, backs: seq<real>, latest: real)
    requires c.Valid() && PP.Offer(c, q, l, a).2 == PP.Admitted
    requires Kept(c.Of(a.d).queue, CQ.Advance(q, a.pkt.t as real), backs, latest)
    ensures Kept(c.Of(a.d).queue, PP.Offer(c, q, l, a).0, OfferBacks(c, q, l, a, backs), latest)
  {
    hide *;
    var qc, t := c.Of(a.d).queue, a.pkt.t as real;
    QueueIsValid(c, a.d);
    var arrive := AdmittedOffer(c, q, l, a, backs);
    TakeStaysKept(qc, CQ.Advance(q, t), backs, t, a.pkt.size, arrive, CQ.ServiceTime(qc, a.noise), latest);
  }

  lemma OfferStaysKept(c: PP.Config, q: CQ.Queue, l: PL.Link, a: PP.Arrival, backs: seq<real>, latest: real)
    requires c.Valid() && Kept(c.Of(a.d).queue, q, backs, latest) && a.pkt.t as real <= latest
    ensures Kept(c.Of(a.d).queue, PP.Offer(c, q, l, a).0, OfferBacks(c, q, l, a, backs), latest)
  {
    hide *;
    var qc, t := c.Of(a.d).queue, a.pkt.t as real;
    AdvanceStaysKept(qc, q, backs, t, latest);
    if PP.Offer(c, q, l, a).2 == PP.Admitted {
      AdmittedStaysKept(c, q, l, a, backs, latest);
    } else {
      OtherOffer(c, q, l, a, backs);
      SameStaysKept(qc, CQ.Advance(q, t), PP.Offer(c, q, l, a).0, backs, latest);
    }
  }

  ghost predicate AllKept(c: CQ.Config, qs: seq<CQ.Queue>, g: seq<seq<real>>, latest: real) {
    |g| == |qs| && forall i :: 0 <= i < |qs| ==> Kept(c, qs[i], g[i], latest)
  }

  ghost predicate PathKept(c: PP.Config, p: PP.Path, g: Ledger, latest: real, sfLatest: real) {
    AllKept(c.sl.queue, p.sl, g.sl, latest) && AllKept(c.sf.queue, p.sf, g.sf, sfLatest)
  }

  lemma AllKeptLater(c: CQ.Config, qs: seq<CQ.Queue>, g: seq<seq<real>>, latest: real, later: real)
    requires AllKept(c, qs, g, latest) && latest <= later
    ensures AllKept(c, qs, g, later)
  {
    forall i | 0 <= i < |qs| ensures Kept(c, qs[i], g[i], later) {
      KeptLater(c, qs[i], g[i], latest, later);
    }
  }

  lemma StepStaysKept(c: PP.Config, tab: PP.Tables, s: PP.Path, a: PP.Arrival, g: Ledger, latest: real, sfLatest: real)
    requires c.Valid() && PP.Routable(tab, s, a) && PathKept(c, s, g, latest, sfLatest)
    requires a.pkt.t as real <= latest <= sfLatest
    ensures PathKept(c, PP.Step(c, tab, s, a), StepLedger(c, tab, s, a, g), latest, sfLatest)
  {
    var i := PP.Route(tab, a);
    OfferStaysKept(c, s.Of(a.d)[i], s.link, a, g.Of(a.d)[i], if a.d.Stateless? then latest else sfLatest);
    hide PP.Offer, OfferBacks, Kept, PP.Config.Valid;
  }

  lemma {:induction false} ProcessStaysKept(c: PP.Config, tab: PP.Tables, s: PP.Path, arrivals: seq<PP.Arrival>,
        g: Ledger, latest: real, sfLatest: real)
    requires c.Valid() && PP.AllRoutable(tab, s, arrivals) && PathKept(c, s, g, latest, sfLatest) && latest <= sfLatest
    requires forall i :: 0 <= i < |arrivals| ==> arrivals[i].pkt.t as real <= latest
    ensures PathKept(c, PP.Process(c, tab, s, arrivals), ProcessLedger(c, tab, s, arrivals, g), latest, sfLatest)
  {
    if arrivals != [] {
      PP.ProcessLast(c, tab, s, arrivals);
      var n := |arrivals| - 1;
      hide PP.Process, PP.Step, StepLedger, PathKept;
      ProcessStaysKept(c, tab, s, arrivals[..n], g, latest, sfLatest);
      assert ProcessLedger(c, tab, s, arrivals, g)
          == StepLedger(c, tab, PP.Process(c, tab, s, arrivals[..n]), arrivals[n],
                        ProcessLedger(c, tab, s, arrivals[..n], g));
      StepStaysKept(c, tab, PP.Process(c, tab, s, arrivals[..n]), arrivals[n],
                    ProcessLedger(c, tab, s, arrivals[..n], g), latest, sfLatest);
    }
  }

  // ---------- Bins ----------

  lemma ResetStaysKept(c: PP.Config, p: PP.Path, g: Ledger, latest: real, sfLatest: real)
    requires PathKept(c, p, g, latest, sfLatest)
    ensures PathKept(c, PP.ResetStats(p), g, latest, sfLatest)
  {
    forall i | 0 <= i < |p.sl| ensures Kept(c.sl.queue, PP.ResetQueues(p.sl)[i], g.sl[i], latest) {
      SameStaysKept(c.sl.queue, p.sl[i], PP.ResetQueues(p.sl)[i], g.sl[i], latest);
    }
    forall i | 0 <= i < |p.sf| ensures Kept(c.sf.queue, PP.ResetQueues(p.sf)[i], g.sf[i], sfLatest) {
      SameStaysKept(c.sf.queue, p.sf[i], PP.ResetQueues(p.sf)[i], g.sf[i], sfLatest);
    }
    hide Kept;
  }

  lemma QueuesStayKept(c: CQ.Config, qs: seq<CQ.Queue>, g: seq<seq<real>>, t: real, latest: real)
    requires AllKept(c, qs, g, latest) && t <= latest
    ensures AllKept(c, PP.AdvanceQueues(qs, t), g, latest)
  {
    forall i | 0 <= i < |qs| ensures Kept(c, PP.AdvanceQueues(qs, t)[i], g[i], latest) {
      AdvanceStaysKept(c, qs[i], g[i], t, latest);
    }
    hide Kept, CQ.Advance;
  }

  lemma PathKeptLater(c: PP.Config, p: PP.Path, g: Ledger, latest: real, sfLatest: real, later: real, sfLater: real)
    requires PathKept(c, p, g, latest, sfLatest) && latest <= later && sfLatest <= sfLater
    ensures PathKept(c, p, g, later, sfLater)
  {
    AllKeptLater(c.sl.queue, p.sl, g.sl, latest, later);
    AllKeptLater(c.sf.queue, p.sf, g.sf, sfLatest, sfLater);
    hide AllKept;
  }

  /** Up to any packet of a bin. */
  lemma PrefixStaysKept(c: PP.Config, tab: PP.Tables, p: PP.Path, r: seq<PP.Arrival>, k: nat, g: Ledger, latest: real,
        sfLatest: real, t: real, sfT: real)
    requires c.Valid() && PP.AllRoutable(tab, PP.ResetStats(p), r) && k <= |r|
    requires PathKept(c, p, g, latest, sfLatest) && latest <= t <= sfT && sfLatest <= sfT
    requires forall i :: 0 <= i < k ==> r[i].pkt.t as real <= t
    ensures PP.AllRoutable(tab, PP.ResetStats(p), r[..k])
    ensures var s0 := PP.ResetStats(p);
      |g.sl| == |s0.sl| && |g.sf| == |s0.sf|
      && PathKept(c, PP.Process(c, tab, s0, r[..k]), ProcessLedger(c, tab, s0, r[..k], g), t, sfT)
  {
    ResetStaysKept(c, p, g, latest, sfLatest);
    PathKeptLater(c, PP.ResetStats(p), g, latest, sfLatest, t, sfT);
    assert |g.sl| == |p.sl| && |g.sf| == |p.sf|;
    hide PP.Process, ProcessLedger, PathKept;
    ProcessStaysKept(c, tab, PP.ResetStats(p), r[..k], g, t, sfT);
  }

  lemma BinStaysKept(c: Config, s: Sys, e: Event, g: Ledger, lateness: real)
    requires Enabled(c, s, e) && e.Bin? && Matching(s.path, g) && lateness >= 0.0
    requires PathKept(c.path, s.path, g, s.now as real, s.now as real + lateness)
    ensures PathKept(c.path, Next(c, s, e).path, NextLedger(c, s, e, g), e.tEnd as real, e.tEnd as real + lateness)
  {
    NextOfBin(c, s, e.sl, e.sf, e.noise, e.tEnd);
    P.StreamIsTimed(s, e.sl, e.sf, e.noise, e.tEnd);
    var r, t := Stream(s, e.sl, e.sf, e.noise), e.tEnd as real;
    var s0 := PP.ResetStats(s.path);
    assert r[..|r|] == r;
    assert NextLedger(c, s, e, g) == ProcessLedger(c.path, s.Tables(), s0, r, g);
    assert forall i :: 0 <= i < |r| ==> r[i].pkt.t as real <= t;
    hide Next, Enabled, NextLedger, Stream, PP.Process, ProcessLedger, AllKept;
    PrefixStaysKept(c.path, s.Tables(), s.path, r, |r|, g, s.now as real, s.now as real + lateness, t, t + lateness);
    var s1, g1 := PP.Process(c.path, s.Tables(), s0, r), ProcessLedger(c.path, s.Tables(), s0, r, g);
    QueuesStayKept(c.path.sl.queue, s1.sl, g1.sl, t, t);
    QueuesStayKept(c.path.sf.queue, s1.sf, g1.sf, t, t + lateness);
  }

  // ---------- Replays ----------

  lemma ReplayBacksLast(dc: PP.DomainConfig, q: CQ.Queue, t: real, size: nat, n: nat, noise: nat -> real,
        backs: seq<real>)
    requires dc.queue.Valid() && n > 0
    ensures var q0 := L.Replay(dc, q, t, size, n - 1, noise).0;
      var backs0 := ReplayBacks(dc, q, t, size, n - 1, noise, backs);
      var app := CQ.ServiceTime(dc.queue, noise(n - 1));
      var (q1, ok) := CQ.TryAdmit(dc.queue, q0, t, size, t + dc.Dma(size), app);
      && app >= 0.0 && L.Replay(dc, q, t, size, n, noise).0 == q1
      && ReplayBacks(dc, q, t, size, n, noise, backs) == if ok then backs0 + [q1.free + dc.queue.writeback] else backs0
  {
    L.ReplayLast(dc, q, t, size, n, noise);
    hide CQ.TryAdmit, CQ.ServiceTime, PP.DomainConfig.Dma, L.Replay;
  }

  lemma ReplayBacksNone(dc: PP.DomainConfig, q: CQ.Queue, t: real, size: nat, noise: nat -> real, backs: seq<real>)
    requires dc.queue.Valid()
    ensures L.Replay(dc, q, t, size, 0, noise).0 == q && ReplayBacks(dc, q, t, size, 0, noise, backs) == backs
  {
  }

  lemma {:induction false} ReplayStaysKept(dc: PP.DomainConfig, q: CQ.Queue, t: real, size: nat, n: nat,
        noise: nat -> real, backs: seq<real>, latest: real)
    requires dc.queue.Valid() && Kept(dc.queue, q, backs, latest) && t <= latest
    ensures Kept(dc.queue, L.Replay(dc, q, t, size, n, noise).0, ReplayBacks(dc, q, t, size, n, noise, backs), latest)
  {
    hide *;
    if n == 0 {
      ReplayBacksNone(dc, q, t, size, noise, backs);
    } else {
      ReplayStaysKept(dc, q, t, size, n - 1, noise, backs, latest);
      ReplayBacksLast(dc, q, t, size, n, noise, backs);
      var q0, backs0 := L.Replay(dc, q, t, size, n - 1, noise).0, ReplayBacks(dc, q, t, size, n - 1, noise, backs);
      TryAdmitStaysKept(dc.queue, q0, backs0, t, size, t + dc.Dma(size), CQ.ServiceTime(dc.queue, noise(n - 1)),
                        latest);
    }
  }

  lemma ReplaysLast(c: Config, qs: seq<CQ.Queue>, finished: seq<H.Handoff>, t: real, noise: (nat, nat) -> real, k: nat,
        g: seq<seq<real>>)
    requires c.Valid() && 0 < k <= |finished| && |g| == |qs|
    ensures c.path.sf.queue.Valid()
    ensures var before, h := ReplayTo(c, qs, finished, t, noise, k - 1), finished[k - 1];
      var g0, i := ReplayLedger(c, qs, finished, t, noise, k - 1, g), finished[k - 1].dst;
      if i < |qs| then
        && ReplayTo(c, qs, finished, t, noise, k)
           == before[i := L.Replay(c.path.sf, before[i], t, AverageSize(h), h.bufferedPkts, Row(noise, k - 1)).0]
        && ReplayLedger(c, qs, finished, t, noise, k, g)
           == g0[i := ReplayBacks(c.path.sf, before[i], t, AverageSize(h), h.bufferedPkts, Row(noise, k - 1), g0[i])]
      else ReplayTo(c, qs, finished, t, noise, k) == before && ReplayLedger(c, qs, finished, t, noise, k, g) == g0
  {
    hide L.Replay, ReplayBacks, AverageSize, Row;
  }

  lemma ReplaysNone(c: Config, qs: seq<CQ.Queue>, finished: seq<H.Handoff>, t: real, noise: (nat, nat) -> real,
        g: seq<seq<real>>)
    requires c.Valid() && |g| == |qs|
    ensures ReplayTo(c, qs, finished, t, noise, 0) == qs && ReplayLedger(c, qs, finished, t, noise, 0, g) == g
  {
  }

  lemma AllKeptUpdate(c: CQ.Config, qs: seq<CQ.Queue>, g: seq<seq<real>>, latest: real, i: nat, q: CQ.Queue,
        backs: seq<real>)
    requires AllKept(c, qs, g, latest) && i < |qs| && Kept(c, q, backs, latest)
    ensures AllKept(c, qs[i := q], g[i := backs], latest)
  {
    hide Kept;
  }

  lemma AllKeptAt(c: CQ.Config, qs: seq<CQ.Queue>, g: seq<seq<real>>, latest: real, i: nat)
    requires AllKept(c, qs, g, latest) && i < |qs|
    ensures |g| == |qs| && Kept(c, qs[i], g[i], latest)
  {
  }

  lemma {:induction false} ReplaysStayKept(c: Config, qs: seq<CQ.Queue>, finished: seq<H.Handoff>, t: real,
        noise: (nat, nat) -> real, k: nat, g: seq<seq<real>>, latest: real)
    requires c.Valid() && k <= |finished| && |g| == |qs| && AllKept(c.path.sf.queue, qs, g, latest) && t <= latest
    ensures AllKept(c.path.sf.queue, ReplayTo(c, qs, finished, t, noise, k),
                    ReplayLedger(c, qs, finished, t, noise, k, g), latest)
  {
    hide *;
    if k == 0 {
      ReplaysNone(c, qs, finished, t, noise, g);
    } else {
      ReplaysStayKept(c, qs, finished, t, noise, k - 1, g, latest);
      ReplaysLast(c, qs, finished, t, noise, k, g);
      var before, h := ReplayTo(c, qs, finished, t, noise, k - 1), finished[k - 1];
      var g0, i := ReplayLedger(c, qs, finished, t, noise, k - 1, g), h.dst;
      if i < |qs| {
        AllKeptAt(c.path.sf.queue, before, g0, latest, i);
        ReplayStaysKept(c.path.sf, before[i], t, AverageSize(h), h.bufferedPkts, Row(noise, k - 1), g0[i], latest);
        AllKeptUpdate(c.path.sf.queue, before, g0, latest, i,
                      L.Replay(c.path.sf, before[i], t, AverageSize(h), h.bufferedPkts, Row(noise, k - 1)).0,
                      ReplayBacks(c.path.sf, before[i], t, AverageSize(h), h.bufferedPkts, Row(noise, k - 1), g0[i]));
      }
    }
  }

  lemma EpochStaysKept(c: Config, s: Sys, e: Event, g: Ledger, lateness: real)
    requires Enabled(c, s, e) && e.StatefulEpoch? && Matching(s.path, g)
    requires ReplayTime(c.sched.epochNs, s.epoch) <= s.now as real + lateness
    requires PathKept(c.path, s.path, g, s.now as real, s.now as real + lateness)
    ensures PathKept(c.path, Next(c, s, e).path, NextLedger(c, s, e, g), s.now as real, s.now as real + lateness)
  {
    NextOfEpoch(c, s, e.telem, e.order, e.draw, e.replayNoise);
    var finished := H.Tick(c.handoff, s.m, c.sched.epochNs).1;
    var t := ReplayTime(c.sched.epochNs, s.epoch);
    assert NextLedger(c, s, e, g) == g.(sf := ReplayLedger(c, s.path.sf, finished, t, e.replayNoise, |finished|, g.sf));
    hide Next, Enabled, NextLedger, ReplayTo, ReplayLedger, H.Tick, AllKept;
    ReplaysStayKept(c, s.path.sf, finished, t, e.replayNoise, |finished|, g.sf, s.now as real + lateness);
  }

  lemma NextStaysKept(c: Config, s: Sys, e: Event, g: Ledger, lateness: real)
    requires Enabled(c, s, e) && Matching(s.path, g) && lateness >= 0.0
    requires e.StatefulEpoch? ==> ReplayTime(c.sched.epochNs, s.epoch) <= s.now as real + lateness
    requires PathKept(c.path, s.path, g, s.now as real, s.now as real + lateness)
    ensures var s' := Next(c, s, e);
      PathKept(c.path, s'.path, NextLedger(c, s, e, g), s'.now as real, s'.now as real + lateness)
  {
    match e
    case Bin(_, _, _, _) => BinStaysKept(c, s, e, g, lateness);
    case StatelessEpoch(_) =>
    case StatefulEpoch(_, _, _, _) => EpochStaysKept(c, s, e, g, lateness);
  }

  // ---------- Every run ----------

  /** The first event of a run. */
  lemma RunHead(c: Config, s: Sys, events: seq<Event>, g: Ledger, lateness: real)
    requires IsRun(c, s, events) && P.LateBy(c, s, events, lateness) && Matching(s.path, g) && events != []
    ensures Enabled(c, s, events[0])
    ensures events[0].StatefulEpoch? ==> ReplayTime(c.sched.epochNs, s.epoch) <= s.now as real + lateness
    ensures var s1, g1 := Next(c, s, events[0]), NextLedger(c, s, events[0], g);
      && IsRun(c, s1, events[1..]) && P.LateBy(c, s1, events[1..], lateness) && Matching(s1.path, g1)
      && After(c, s, events) == After(c, s1, events[1..])
      && LedgerAfter(c, s, events, g) == LedgerAfter(c, s1, events[1..], g1)
  {
    NextMatches(c, s, events[0], g);
    hide Next, Enabled, NextLedger, ReplayTime, Matching;
  }

  lemma RunEmpty(c: Config, s: Sys, g: Ledger)
    requires Matching(s.path, g)
    ensures IsRun(c, s, []) && After(c, s, []) == s && LedgerAfter(c, s, [], g) == g
  {
  }

  lemma {:induction false} RunStaysKept(c: Config, s: Sys, events: seq<Event>, g: Ledger, lateness: real)
    requires IsRun(c, s, events) && P.LateBy(c, s, events, lateness) && Matching(s.path, g) && lateness >= 0.0
    requires PathKept(c.path, s.path, g, s.now as real, s.now as real + lateness)
    ensures var s' := After(c, s, events);
      PathKept(c.path, s'.path, LedgerAfter(c, s, events, g), s'.now as real, s'.now as real + lateness)
    decreases |events|
  {
    hide *;
    if events == [] {
      RunEmpty(c, s, g);
    } else {
      RunHead(c, s, events, g, lateness);
      NextStaysKept(c, s, events[0], g, lateness);
      RunStaysKept(c, Next(c, s, events[0]), events[1..], NextLedger(c, s, events[0], g), lateness);
    }
  }

  lemma EmptyIsKept(c: CQ.Config, latest: real)
    ensures Kept(c, CQ.Initial(c), [], latest)
  {
    var q := CQ.Initial(c);
    assert [] + q.inFlight == [];
    assert CQ.Tracks(c, q, [], []) && CQ.AllBy([], latest);
  }

  lemma InitialIsKept(c: Config, s: Sys, lateness: real)
    requires IsInitial(c, s)
    ensures Matching(s.path, Empty(s.path)) && |Empty(s.path).sl| == |s.path.sl| && |Empty(s.path).sf| == |s.path.sf|
    ensures PathKept(c.path, s.path, Empty(s.path), s.now as real, s.now as real + lateness)
  {
    EmptyIsKept(c.path.sl.queue, s.now as real);
    EmptyIsKept(c.path.sf.queue, s.now as real + lateness);
    hide Kept;
  }

  /** From an initial state with no packet admitted yet. */
  lemma RunFromStart(c: Config, s: Sys, events: seq<Event>, lateness: real)
    requires IsInitial(c, s) && IsRun(c, s, events) && P.LateBy(c, s, events, lateness) && lateness >= 0.0
    ensures Matching(s.path, Empty(s.path)) && |Empty(s.path).sl| == |s.path.sl| && |Empty(s.path).sf| == |s.path.sf|
    ensures var s', g := After(c, s, events), LedgerAfter(c, s, events, Empty(s.path));
      && Matching(s'.path, g) && |g.sl| == |s'.path.sl| && |g.sf| == |s'.path.sf|
      && PathKept(c.path, s'.path, g, s'.now as real, s'.now as real + lateness)
  {
    hide *;
    InitialIsKept(c, s, lateness);
    RunStaysKept(c, s, events, Empty(s.path), lateness);
    var s', g := After(c, s, events), LedgerAfter(c, s, events, Empty(s.path));
    KeptMatches(c.path, s'.path, g, s'.now as real, s'.now as real + lateness);
  }

  lemma KeptMatches(c: PP.Config, p: PP.Path, g: Ledger, latest: real, sfLatest: real)
    requires PathKept(c, p, g, latest, sfLatest)
    ensures Matching(p, g) && |g.sl| == |p.sl| && |g.sf| == |p.sf|
  {
  }

  /** The law of occupancy for one queue, at a time not before the latest stamp. */
  lemma KeptIsExact(c: CQ.Config, q: CQ.Queue, backs: seq<real>, latest: real, t: real)
    requires Kept(c, q, backs, latest) && latest <= t
    ensures c.depth - CQ.Advance(q, t).credits == CQ.CountAfter(backs, t)
  {
    var collected :| CQ.Tracks(c, q, backs, collected) && CQ.AllBy(collected, latest);
    CQ.AllByLater(collected, latest, t);
    hide CQ.Advance, CQ.Tracks, CQ.AllBy, CQ.CountAfter;
    CQ.InFlightIsOccupancyPlusEarly(c, q, backs, collected, t);
  }

  lemma KeptAt(c: PP.Config, p: PP.Path, g: Ledger, latest: real, sfLatest: real, d: Domain, i: nat)
    requires PathKept(c, p, g, latest, sfLatest) && i < |p.Of(d)|
    ensures i < |g.Of(d)| && Kept(c.Of(d).queue, p.Of(d)[i], g.Of(d)[i], if d.Stateless? then latest else sfLatest)
  {
    hide Kept;
  }

  /** In every run the occupancy of a queue counts exactly the packets whose credit is still on its way: for a
      stateless queue at every time from the clock on, for a stateful one at every time from the clock plus the
      lateness of the replays on, hence from the clock on where replays are on time. */
  lemma RunOccupancy(c: Config, s: Sys, events: seq<Event>, lateness: real, d: Domain, i: nat, t: real)
    requires IsInitial(c, s) && IsRun(c, s, events) && P.LateBy(c, s, events, lateness) && lateness >= 0.0
    requires i < |After(c, s, events).path.Of(d)|
    requires t >= After(c, s, events).now as real + if d.Stateless? then 0.0 else lateness
    ensures Matching(s.path, Empty(s.path))
    ensures var s', g := After(c, s, events), LedgerAfter(c, s, events, Empty(s.path));
      && i < |g.Of(d)|
      && c.path.Of(d).queue.depth - CQ.Advance(s'.path.Of(d)[i], t).credits == CQ.CountAfter(g.Of(d)[i], t)
  {
    hide *;
    RunFromStart(c, s, events, lateness);
    var s', g := After(c, s, events), LedgerAfter(c, s, events, Empty(s.path));
    KeptAt(c.path, s'.path, g, s'.now as real, s'.now as real + lateness, d, i);
    var latest := if d.Stateless? then s'.now as real else s'.now as real + lateness;
    KeptIsExact(c.path.Of(d).queue, s'.path.Of(d)[i], g.Of(d)[i], latest, t);
  }

  lemma {:induction false} LateByMore(c: Config, s: Sys, events: seq<Event>, less: real, more: real)
    requires IsRun(c, s, events) && P.LateBy(c, s, events, less) && less <= more
    ensures P.LateBy(c, s, events, more)
    decreases |events|
  {
    if events != [] {
      hide Next, Enabled, ReplayTime;
      LateByMore(c, Next(c, s, events[0]), events[1..], less, more);
    }
  }

  lemma {:induction false} SomeLateness(c: Config, s: Sys, events: seq<Event>) returns (lateness: real)
    requires IsRun(c, s, events)
    ensures lateness >= 0.0 && P.LateBy(c, s, events, lateness)
    decreases |events|
  {
    lateness := 0.0;
    if events != [] {
      hide Next, Enabled, ReplayTime;
      var s1 := Next(c, s, events[0]);
      var rest := SomeLateness(c, s1, events[1..]);
      lateness := Max(rest, ReplayTime(c.sched.epochNs, s.epoch) - s.now as real);
      LateByMore(c, s1, events[1..], rest, lateness);
    }
  }

  lemma KeptIff(c: CQ.Config, q: CQ.Queue, backs: seq<real>, latest: real, t: real)
    requires Kept(c, q, backs, latest)
    ensures c.depth - CQ.Advance(q, t).credits == CQ.CountAfter(backs, t) <==> CQ.NoneEarly(q, backs, t)
  {
    var collected :| CQ.Tracks(c, q, backs, collected) && CQ.AllBy(collected, latest);
    hide CQ.Advance, CQ.Tracks, CQ.AllBy, CQ.CountAfter, CQ.Collected;
    CQ.InFlightIsOccupancyPlusEarly(c, q, backs, collected, t);
  }

  /** In every run, however late its replays, and at any time: the occupancy of a queue counts the packets whose
      credit is still on its way if and only if none of these credits was collected early. */
  lemma RunOccupancyIff(c: Config, s: Sys, events: seq<Event>, d: Domain, i: nat, t: real)
    requires IsInitial(c, s) && IsRun(c, s, events) && i < |After(c, s, events).path.Of(d)|
    ensures Matching(s.path, Empty(s.path))
    ensures var q, g := After(c, s, events).path.Of(d)[i], LedgerAfter(c, s, events, Empty(s.path));
      && i < |g.Of(d)|
      && (c.path.Of(d).queue.depth - CQ.Advance(q, t).credits == CQ.CountAfter(g.Of(d)[i], t)
          <==> CQ.NoneEarly(q, g.Of(d)[i], t))
  {
    hide *;
    var lateness := SomeLateness(c, s, events);
    RunFromStart(c, s, events, lateness);
    var s', g := After(c, s, events), LedgerAfter(c, s, events, Empty(s.path));
    KeptAt(c.path, s'.path, g, s'.now as real, s'.now as real + lateness, d, i);
    var latest := if d.Stateless? then s'.now as real else s'.now as real + lateness;
    KeptIff(c.path.Of(d).queue, s'.path.Of(d)[i], g.Of(d)[i], latest, t);
  }

  // ---------- What a bin leaves and the recorder reads ----------

  /** A bin ends with every credit collected that is due by its end. */
  lemma BinLeavesNothingDue(c: Config, s: Sys, bin: Event, d: Domain, i: nat)
    requires Enabled(c, s, bin) && bin.Bin? && i < |Next(c, s, bin).path.Of(d)|
    ensures var q := Next(c, s, bin).path.Of(d)[i];
      && (q.inFlight == [] || q.inFlight[0] > bin.tEnd as real) && CQ.Advance(q, bin.tEnd as real) == q
  {
    NextOfBin(c, s, bin.sl, bin.sf, bin.noise, bin.tEnd);
    PP.BinCloses(c.path, s.Tables(), s.path, Stream(s, bin.sl, bin.sf, bin.noise), bin.tEnd, d, i);
    hide Next, Enabled, Stream, PP.Process, PP.Bin;
  }

  /** In every run, at the end of every bin, the credits that are recorded tell how many packets are in flight:
      D_q less the recorded credits is the number of packets ever admitted whose credit is not due by the end of
      the bin, if and only if none of their credits was collected early; none ever is in a stateless queue, nor
      in a stateful one where replays are on time. */
  lemma RecordedOccupancy(c: Config, s: Sys, events: seq<Event>, bin: Event, d: Domain, i: nat)
    requires IsInitial(c, s) && IsRun(c, s, events) && bin.Bin? && Enabled(c, After(c, s, events), bin)
    requires i < |Next(c, After(c, s, events), bin).path.Of(d)|
    ensures Matching(s.path, Empty(s.path))
    ensures var s', g := After(c, s, events), LedgerAfter(c, s, events, Empty(s.path));
      && Matching(s'.path, g) && i < |NextLedger(c, s', bin, g).Of(d)|
      && var q, backs := Next(c, s', bin).path.Of(d)[i], NextLedger(c, s', bin, g).Of(d)[i];
        var used := c.path.Of(d).queue.depth - TT.Credits(Next(c, s', bin).path.Of(d))[i];
        && (used == CQ.CountAfter(backs, bin.tEnd as real) <==> CQ.NoneEarly(q, backs, bin.tEnd as real))
        && (d.Stateless? || P.LateBy(c, s, events, 0.0) ==> used == CQ.CountAfter(backs, bin.tEnd as real))
  {
    hide *;
    var lateness := SomeLateness(c, s, events);
    RunFromStart(c, s, events, lateness);
    var s', g := After(c, s, events), LedgerAfter(c, s, events, Empty(s.path));
    BinRecords(c, s', g, lateness, bin, d, i);
    if P.LateBy(c, s, events, 0.0) {
      RunFromStart(c, s, events, 0.0);
      BinRecords(c, s', g, 0.0, bin, d, i);
    }
  }

  lemma BinRecords(c: Config, s: Sys, g: Ledger, lateness: real, bin: Event, d: Domain, i: nat)
    requires Enabled(c, s, bin) && bin.Bin? && Matching(s.path, g) && lateness >= 0.0
    requires PathKept(c.path, s.path, g, s.now as real, s.now as real + lateness)
    requires i < |Next(c, s, bin).path.Of(d)|
    ensures i < |NextLedger(c, s, bin, g).Of(d)|
    ensures var q, backs := Next(c, s, bin).path.Of(d)[i], NextLedger(c, s, bin, g).Of(d)[i];
      var used := c.path.Of(d).queue.depth - TT.Credits(Next(c, s, bin).path.Of(d))[i];
      && (used == CQ.CountAfter(backs, bin.tEnd as real) <==> CQ.NoneEarly(q, backs, bin.tEnd as real))
      && (d.Stateless? || lateness == 0.0 ==> used == CQ.CountAfter(backs, bin.tEnd as real))
  {
    hide *;
    BinStaysKept(c, s, bin, g, lateness);
    BinLeavesNothingDue(c, s, bin, d, i);
    var t, s', g' := bin.tEnd as real, Next(c, s, bin), NextLedger(c, s, bin, g);
    KeptAt(c.path, s'.path, g', t, t + lateness, d, i);
    var latest := if d.Stateless? then t else t + lateness;
    KeptIff(c.path.Of(d).queue, s'.path.Of(d)[i], g'.Of(d)[i], latest, t);
    if latest == t {
      KeptIsExact(c.path.Of(d).queue, s'.path.Of(d)[i], g'.Of(d)[i], latest, t);
    }
    SnapshotAt(s'.path.Of(d), i);
  }

  lemma SnapshotAt(qs: seq<CQ.Queue>, i: nat)
    requires i < |qs|
    ensures TT.Credits(qs)[i] == qs[i].credits
  {
  }

  /** The p-th packet of a bin is dropped for lack of a credit exactly when its queue's ring is full. */
  ghost predicate FullRingDrops(c: Config, s: Sys, bin: Event, g: Ledger, p: nat)
    requires Enabled(c, s, bin) && bin.Bin? && Matching(s.path, g) && p < |Stream(s, bin.sl, bin.sf, bin.noise)|
  {
    StreamIsRoutable(c, s, bin.sl, bin.sf, bin.noise);
    var r, tab, s0 := Stream(s, bin.sl, bin.sf, bin.noise), s.Tables(), PP.ResetStats(s.path);
    assert PP.Routable(tab, s0, r[p]);
    var at, gAt, a := PP.Process(c.path, tab, s0, r[..p]), ProcessLedger(c.path, tab, s0, r[..p], g), r[p];
    var i := PP.Route(tab, a);
    PP.Offer(c.path, at.Of(a.d)[i], at.link, a).2 == PP.CreditDropped
    <==> CQ.CountAfter(gAt.Of(a.d)[i], a.pkt.t as real) == c.path.Of(a.d).queue.depth
  }

  /** In every run a packet of a bin is dropped for lack of a credit exactly when D_q packets are in flight at
      its queue: every stateless packet, and every stateful one generated no sooner than the lateness of the
      replays after the bin's start, hence every packet where replays are on time. */
  lemma RunRefusal(c: Config, s: Sys, events: seq<Event>, lateness: real, bin: Event, p: nat)
    requires IsInitial(c, s) && IsRun(c, s, events) && P.LateBy(c, s, events, lateness) && lateness >= 0.0
    requires bin.Bin? && Enabled(c, After(c, s, events), bin)
    requires var s' := After(c, s, events);
      var r := Stream(s', bin.sl, bin.sf, bin.noise);
      p < |r| && (r[p].d.Stateful? ==> r[p].pkt.t as real >= s'.now as real + lateness)
    ensures Matching(s.path, Empty(s.path))
    ensures var s', g := After(c, s, events), LedgerAfter(c, s, events, Empty(s.path));
      Matching(s'.path, g) && FullRingDrops(c, s', bin, g, p)
  {
    hide *;
    RunFromStart(c, s, events, lateness);
    BinRefusal(c, After(c, s, events), LedgerAfter(c, s, events, Empty(s.path)), lateness, bin, p);
  }

  lemma BinRefusal(c: Config, s: Sys, g: Ledger, lateness: real, bin: Event, p: nat)
    requires Enabled(c, s, bin) && bin.Bin? && Matching(s.path, g) && lateness >= 0.0
    requires PathKept(c.path, s.path, g, s.now as real, s.now as real + lateness)
    requires var r := Stream(s, bin.sl, bin.sf, bin.noise);
      p < |r| && (r[p].d.Stateful? ==> r[p].pkt.t as real >= s.now as real + lateness)
    ensures FullRingDrops(c, s, bin, g, p)
  {
    NextOfBin(c, s, bin.sl, bin.sf, bin.noise, bin.tEnd);
    P.StreamIsTimed(s, bin.sl, bin.sf, bin.noise, bin.tEnd);
    var r, tab, s0, now := Stream(s, bin.sl, bin.sf, bin.noise), s.Tables(), PP.ResetStats(s.path), s.now as real;
    var t := r[p].pkt.t as real;
    assert now <= t && forall i :: 0 <= i < p ==> r[i].pkt.t as real <= t;
    assert PP.AllRoutable(tab, s0, r) && PP.Routable(tab, s0, r[p]);
    hide Next, Enabled, Stream, PP.Process, ProcessLedger, PathKept, PP.Offer, PP.Config.Valid, CQ.CountAfter;
    PrefixStaysKept(c.path, tab, s.path, r, p, g, now, now + lateness, t, Max(t, now + lateness));
    PacketRefusal(c.path, tab, s0, r, p, g, t, Max(t, now + lateness));
  }

  lemma PacketRefusal(c: PP.Config, tab: PP.Tables, s0: PP.Path, r: seq<PP.Arrival>, p: nat, g: Ledger, t: real,
        sfT: real)
    requires c.Valid() && p < |r| && PP.AllRoutable(tab, s0, r[..p]) && PP.Routable(tab, s0, r[p])
    requires |g.sl| == |s0.sl| && |g.sf| == |s0.sf| && t == r[p].pkt.t as real && (r[p].d.Stateful? ==> sfT <= t)
    requires PathKept(c, PP.Process(c, tab, s0, r[..p]), ProcessLedger(c, tab, s0, r[..p], g), t, sfT)
    ensures var at, gAt, a := PP.Process(c, tab, s0, r[..p]), ProcessLedger(c, tab, s0, r[..p], g), r[p];
      && PP.Routable(tab, at, a)
      && var i := PP.Route(tab, a);
        && i < |gAt.Of(a.d)|
        && (PP.Offer(c, at.Of(a.d)[i], at.link, a).2 == PP.CreditDropped
            <==> CQ.CountAfter(gAt.Of(a.d)[i], t) == c.Of(a.d).queue.depth)
  {
    var at, gAt, a := PP.Process(c, tab, s0, r[..p]), ProcessLedger(c, tab, s0, r[..p], g), r[p];
    hide PP.Process, ProcessLedger, PP.Config.Valid, PathKept;
    var i := PP.Route(tab, a);
    KeptAt(c, at, gAt, t, sfT, a.d, i);
    var qc, q, backs := c.Of(a.d).queue, at.Of(a.d)[i], gAt.Of(a.d)[i];
    KeptIsExact(qc, q, backs, if a.d.Stateless? then t else sfT, t);
    CreditsNotNegative(qc, q, backs, if a.d.Stateless? then t else sfT, t);
    CreditDropIff(c, q, at.link, a);
    hide *;
  }

  lemma CreditsNotNegative(c: CQ.Config, q: CQ.Queue, backs: seq<real>, latest: real, t: real)
    requires Kept(c, q, backs, latest)
    ensures CQ.Advance(q, t).credits >= 0
  {
    var collected :| CQ.Tracks(c, q, backs, collected) && CQ.AllBy(collected, latest);
    CQ.AdvanceKeepsInv(c, q, t);
    hide CQ.Advance;
  }
}

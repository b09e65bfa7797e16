/** The worst-case latency of the packet path: a packet admitted to a ring of depth D waits at most
    the longest delay to its ring plus D service times, counted from its generation. */
module Latency {
  import opened Common
  import CQ = CreditQueue
  import PL = PcieLink
  import opened PacketPath

  /** Upper bounds for one domain: generation to ring arrival, and service time of one packet. */
  datatype Bounds = Bounds(delay: real, service: real) {
    predicate Valid() {
      delay >= 0.0 && service >= 0.0
    }

    /** The claimed worst case for a ring of depth n. */
    function Worst(n: nat): real {
      delay + n as real * service
    }
  }

  /** Service end of the i-th packet in flight. */
  function End(c: CQ.Config, q: CQ.Queue, i: nat): real
    requires i < |q.inFlight|
  {
    q.inFlight[i] - c.writeback
  }

  /** Each packet in flight ends at most one service time after the later of two moments: the
      latest ring arrival possible by now, and the end of the packet ahead of it. The head has nobody
      ahead. An empty queue's core is free by that arrival; it may be busy past now, since a replay
      stamped later than now collects what is due by its own stamp. */
  ghost predicate Chained(c: CQ.Config, b: Bounds, q: CQ.Queue, now: real) {
    && (q.inFlight == [] ==> q.free <= now + b.delay)
    && (q.inFlight != [] ==> End(c, q, 0) <= now + b.delay + b.service)
    && (forall i :: 1 <= i < |q.inFlight| ==> End(c, q, i) <= Max(now + b.delay, End(c, q, i - 1)) + b.service)
  }

  ghost predicate SamplesBounded(q: CQ.Queue, bound: real) {
    forall i :: 0 <= i < |q.stats.latencies| ==> q.stats.latencies[i] <= bound
  }

  lemma AddOne(n: nat, x: real)
    ensures (n + 1) as real * x == n as real * x + x
  {
    assert (n + 1) as real == n as real + 1.0;
  }

  /** The indexed bound: the i-th packet in flight ends within i + 1 service times of the latest arrival. */
  lemma {:induction false} EndBound(c: CQ.Config, b: Bounds, q: CQ.Queue, now: real, i: nat)
    requires Chained(c, b, q, now) && b.Valid() && i < |q.inFlight|
    ensures End(c, q, i) <= now + b.Worst(i + 1)
  {
    if i > 0 {
      EndBound(c, b, q, now, i - 1);
      assert End(c, q, i) <= Max(now + b.delay, End(c, q, i - 1)) + b.service;
      assert i as real * b.service >= 0.0;
    }
    AddOne(i, b.service);
  }

  lemma WorstMonotone(b: Bounds, m: nat, n: nat)
    requires b.Valid() && m <= n
    ensures b.delay <= b.Worst(m) <= b.Worst(n)
  {
    assert m as real * b.service >= 0.0;
    assert (n - m) as real * b.service >= 0.0;
    assert n as real * b.service == m as real * b.service + (n - m) as real * b.service;
  }

  lemma ChainedLater(c: CQ.Config, b: Bounds, q: CQ.Queue, now: real, later: real)
    requires Chained(c, b, q, now) && now <= later
    ensures Chained(c, b, q, later)
  {
  }

  /** Popping due returns keeps the chain, also with a stamp up to one delay past now: the old head ended
      before the latest arrival, so the new head is bounded afresh. */
  lemma {:induction false} AdvanceKeepsChain(c: CQ.Config, b: Bounds, q: CQ.Queue, t: real, now: real)
    requires CQ.Inv(c, q) && Chained(c, b, q, now) && b.Valid() && c.writeback >= 0.0 && t <= now + b.delay
    ensures Chained(c, b, CQ.Advance(q, t), now)
    decreases |q.inFlight|
  {
    if q.inFlight != [] && q.inFlight[0] <= t {
      var q1 := CQ.Collect(q);
      CQ.CollectKeepsInv(c, q);
      assert End(c, q, 0) <= now + b.delay;
      forall i | 1 <= i < |q1.inFlight|
        ensures End(c, q1, i) <= Max(now + b.delay, End(c, q1, i - 1)) + b.service
      {
        assert End(c, q, i + 1) <= Max(now + b.delay, End(c, q, i)) + b.service;
      }
      if q1.inFlight != [] {
        assert End(c, q, 1) <= Max(now + b.delay, End(c, q, 0)) + b.service;
      }
      AdvanceKeepsChain(c, b, q1, t, now);
    }
  }

  /** A packet that takes one of D credits joins a chain of at most D - 1 others. */
  lemma TakeKeepsChain(c: CQ.Config, b: Bounds, q: CQ.Queue, now: real, tGen: real, size: nat, arrive: real, app: real)
    requires CQ.Inv(c, q) && Chained(c, b, q, now) && b.Valid() && c.writeback >= 0.0
    requires q.credits > 0 && arrive <= now + b.delay && 0.0 <= app <= b.service
    ensures var q' := CQ.Take(c, q, tGen, size, arrive, app);
      Chained(c, b, q', now) && q'.free <= now + b.Worst(c.depth)
  {
    var q' := CQ.Take(c, q, tGen, size, arrive, app);
    var n := |q.inFlight|;
    assert q'.inFlight == q.inFlight + [q'.free + c.writeback];
    forall i | 1 <= i < |q'.inFlight|
      ensures End(c, q', i) <= Max(now + b.delay, End(c, q', i - 1)) + b.service
    {
      if i < n {
        assert End(c, q, i) <= Max(now + b.delay, End(c, q, i - 1)) + b.service;
      } else {
        assert End(c, q', i - 1) == End(c, q, n - 1) == q.free;
      }
    }
    assert Chained(c, b, q', now);
    EndBound(c, b, q', now, n);
    WorstMonotone(b, n + 1, c.depth);
  }

  // ---------- The whole path ----------

  datatype PathBounds = PathBounds(sl: Bounds, sf: Bounds) {
    function Of(d: Domain): Bounds {
      if d.Stateless? then sl else sf
    }
  }

  /** What the bounds stand for: the delay covers a full link FIFO with its setup time or, without a link,
      the calibrated one-way time. */
  ghost predicate Covers(c: Config, pb: PathBounds) {
    forall d: Domain ::
      && pb.Of(d).Valid() && c.Of(d).queue.writeback >= 0.0
      && (c.link.Some? ==> c.link.value.setup + c.link.value.DrainTime() <= pb.Of(d).delay)
      && (c.link.None? ==> forall size: nat :: c.Of(d).Dma(size) <= pb.Of(d).delay)
  }

  ghost predicate QueueOk(c: CQ.Config, b: Bounds, q: CQ.Queue, now: real) {
    CQ.Inv(c, q) && Chained(c, b, q, now) && SamplesBounded(q, b.Worst(c.depth))
  }

  ghost predicate ServiceBounded(c: Config, pb: PathBounds, a: Arrival)
    requires c.Valid()
  {
    CQ.ServiceTime(c.Of(a.d).queue, a.noise) <= pb.Of(a.d).service
  }

  lemma AdvanceKeepsQueueOk(c: CQ.Config, b: Bounds, q: CQ.Queue, t: real, now: real)
    requires QueueOk(c, b, q, now) && b.Valid() && c.writeback >= 0.0 && t <= now + b.delay
    ensures QueueOk(c, b, CQ.Advance(q, t), now)
  {
    CQ.AdvanceKeepsInv(c, q, t);
    AdvanceKeepsChain(c, b, q, t, now);
    CQ.AdvanceEffect(q, t);
  }

  lemma TakeKeepsQueueOk(c: CQ.Config, b: Bounds, q: CQ.Queue, now: real, size: nat, arrive: real, app: real)
    requires QueueOk(c, b, q, now) && b.Valid() && c.writeback >= 0.0 && q.credits > 0
    requires arrive <= now + b.delay && 0.0 <= app <= b.service
    ensures QueueOk(c, b, CQ.Take(c, q, now, size, arrive, app), now)
  {
    CQ.TakeKeepsInv(c, q, now, size, arrive, app);
    TakeKeepsChain(c, b, q, now, now, size, arrive, app);
    hide Chained, CQ.Inv, Bounds.Worst;
  }

  /** One packet generated now: whatever its fate, the invariant of its queue is kept. */
  lemma OfferKeepsQueueOk(c: Config, pb: PathBounds, q: CQ.Queue, l: PL.Link, a: Arrival)
    requires c.Valid() && Covers(c, pb) && ServiceBounded(c, pb, a)
    requires QueueOk(c.Of(a.d).queue, pb.Of(a.d), q, a.pkt.t as real)
    ensures QueueOk(c.Of(a.d).queue, pb.Of(a.d), Offer(c, q, l, a).0, a.pkt.t as real)
  {
    var dc, b, now := c.Of(a.d), pb.Of(a.d), a.pkt.t as real;
    var app := CQ.ServiceTime(dc.queue, a.noise);
    var q1 := CQ.Advance(q, now);
    AdvanceKeepsQueueOk(dc.queue, b, q, now, now);
    var arrive := OfferCases(c, q, l, a);
    var (q', _, o) := Offer(c, q, l, a);
    hide Offer, CQ.ServiceTime, CQ.Advance, Chained, CQ.Inv, DomainConfig.Dma, Bounds.Worst;
    if o == Admitted {
      if c.link.Some? {
        PL.CompletionBounds(c.link.value, l, now, a.pkt.size);
      }
      TakeKeepsQueueOk(dc.queue, b, q1, now, a.pkt.size, arrive, app);
    } else {
      DropKeepsQueueOk(dc.queue, b, q1, q', now);
    }
  }

  lemma DropKeepsQueueOk(c: CQ.Config, b: Bounds, q: CQ.Queue, q': CQ.Queue, now: real)
    requires QueueOk(c, b, q, now)
    requires q'.credits == q.credits && q'.free == q.free && q'.inFlight == q.inFlight
    requires q'.stats.latencies == q.stats.latencies || q'.stats.latencies == []
    ensures QueueOk(c, b, q', now)
  {
    forall i | 1 <= i < |q'.inFlight|
      ensures End(c, q', i) <= Max(now + b.delay, End(c, q', i - 1)) + b.service
    {
      assert End(c, q, i) <= Max(now + b.delay, End(c, q, i - 1)) + b.service;
    }
  }

  // ---------- Bins ----------

  /** The invariant between bins; samples are not part of it, since every bin starts with none. */
  ghost predicate Settled(c: CQ.Config, b: Bounds, q: CQ.Queue, now: real) {
    CQ.Inv(c, q) && Chained(c, b, q, now)
  }

  ghost predicate PathSettled(c: Config, pb: PathBounds, s: Path, now: real) {
    forall d: Domain, i :: 0 <= i < |s.Of(d)| ==> Settled(c.Of(d).queue, pb.Of(d), s.Of(d)[i], now)
  }

  ghost predicate PathOk(c: Config, pb: PathBounds, s: Path, now: real) {
    forall d: Domain, i :: 0 <= i < |s.Of(d)| ==> QueueOk(c.Of(d).queue, pb.Of(d), s.Of(d)[i], now)
  }

  /** Generation times are non-decreasing and lie between the bin's start and end. */
  ghost predicate TimedWithin(arrivals: seq<Arrival>, tStart: real, tEnd: real) {
    && (forall i :: 0 <= i < |arrivals| ==> tStart <= arrivals[i].pkt.t as real <= tEnd)
    && (forall i, j :: 0 <= i < j < |arrivals| ==> arrivals[i].pkt.t <= arrivals[j].pkt.t)
  }

  ghost predicate AllServiceBounded(c: Config, pb: PathBounds, arrivals: seq<Arrival>)
    requires c.Valid()
  {
    forall i :: 0 <= i < |arrivals| ==> ServiceBounded(c, pb, arrivals[i])
  }

  lemma QueueOkLater(c: CQ.Config, b: Bounds, q: CQ.Queue, now: real, later: real)
    requires QueueOk(c, b, q, now) && now <= later
    ensures QueueOk(c, b, q, later)
  {
    ChainedLater(c, b, q, now, later);
  }

  lemma PathOkLater(c: Config, pb: PathBounds, s: Path, now: real, later: real)
    requires PathOk(c, pb, s, now) && now <= later
    ensures PathOk(c, pb, s, later)
  {
    forall d: Domain, i | 0 <= i < |s.Of(d)| ensures QueueOk(c.Of(d).queue, pb.Of(d), s.Of(d)[i], later) {
      QueueOkLater(c.Of(d).queue, pb.Of(d), s.Of(d)[i], now, later);
    }
  }

  lemma StepKeepsPathOk(c: Config, pb: PathBounds, tab: Tables, s: Path, a: Arrival)
    requires c.Valid() && Covers(c, pb) && Routable(tab, s, a) && ServiceBounded(c, pb, a)
    requires PathOk(c, pb, s, a.pkt.t as real)
    ensures PathOk(c, pb, Step(c, tab, s, a), a.pkt.t as real)
  {
    var r := Route(tab, a);
    OfferKeepsQueueOk(c, pb, s.Of(a.d)[r], s.link, a);
    hide Offer, QueueOk, Covers, Config.Valid;
    var s' := Step(c, tab, s, a);
    forall d: Domain, i | 0 <= i < |s'.Of(d)|
      ensures QueueOk(c.Of(d).queue, pb.Of(d), s'.Of(d)[i], a.pkt.t as real)
    {
      assert (d == a.d && i == r) || s'.Of(d)[i] == s.Of(d)[i];
    }
  }

  lemma {:induction false} ProcessKeepsPathOk(c: Config, pb: PathBounds, tab: Tables, s: Path,
        arrivals: seq<Arrival>, tStart: real, tEnd: real)
    requires c.Valid() && Covers(c, pb) && AllRoutable(tab, s, arrivals) && AllServiceBounded(c, pb, arrivals)
    requires TimedWithin(arrivals, tStart, tEnd) && tStart <= tEnd
    requires PathOk(c, pb, s, tStart)
    ensures PathOk(c, pb, Process(c, tab, s, arrivals),
                   if arrivals == [] then tStart else arrivals[|arrivals| - 1].pkt.t as real)
  {
    if arrivals != [] {
      hide Step, Covers, Config.Valid, PathOk;
      var n := |arrivals| - 1;
      ProcessKeepsPathOk(c, pb, tab, s, arrivals[..n], tStart, tEnd);
      var s1 := Process(c, tab, s, arrivals[..n]);
      PathOkLater(c, pb, s1, if n == 0 then tStart else arrivals[n - 1].pkt.t as real, arrivals[n].pkt.t as real);
      StepKeepsPathOk(c, pb, tab, s1, arrivals[n]);
    }
  }

  lemma ResetMakesPathOk(c: Config, pb: PathBounds, s: Path, now: real)
    requires PathSettled(c, pb, s, now)
    ensures PathOk(c, pb, ResetStats(s), now)
  {
    var s' := ResetStats(s);
    forall d: Domain, i | 0 <= i < |s'.Of(d)| ensures QueueOk(c.Of(d).queue, pb.Of(d), s'.Of(d)[i], now) {
      var q := s.Of(d)[i];
      assert Settled(c.Of(d).queue, pb.Of(d), q, now);
      assert s'.Of(d)[i] == q.(stats := CQ.ZERO_STATS);
      ResetMakesQueueOk(c.Of(d).queue, pb.Of(d), q, now);
    }
  }

  lemma ResetMakesQueueOk(c: CQ.Config, b: Bounds, q: CQ.Queue, now: real)
    requires Settled(c, b, q, now)
    ensures QueueOk(c, b, q.(stats := CQ.ZERO_STATS), now)
  {
    var q0 := q.(stats := CQ.ZERO_STATS);
    forall i | 1 <= i < |q0.inFlight|
      ensures End(c, q0, i) <= Max(now + b.delay, End(c, q0, i - 1)) + b.service
    {
      assert End(c, q, i) <= Max(now + b.delay, End(c, q, i - 1)) + b.service;
    }
  }

  lemma AdvanceAllKeepsPathOk(c: Config, pb: PathBounds, s: Path, t: real)
    requires c.Valid() && Covers(c, pb) && PathOk(c, pb, s, t)
    ensures PathOk(c, pb, AdvanceAll(c, s, t), t)
  {
    var s' := AdvanceAll(c, s, t);
    forall d: Domain, i | 0 <= i < |s'.Of(d)| ensures QueueOk(c.Of(d).queue, pb.Of(d), s'.Of(d)[i], t) {
      AdvanceKeepsQueueOk(c.Of(d).queue, pb.Of(d), s.Of(d)[i], t, t);
    }
  }

  /** The latency theorem for one bin: from any settled path, every end-to-end sample the bin records
      in a queue of a domain with ring depth D is at most delay + D * service, and the path is settled
      again at the bin's end. */
  lemma BinLatency(c: Config, pb: PathBounds, tab: Tables, s: Path, arrivals: seq<Arrival>, tStart: real, tEnd: int)
    requires c.Valid() && Covers(c, pb) && AllRoutable(tab, s, arrivals) && AllServiceBounded(c, pb, arrivals)
    requires TimedWithin(arrivals, tStart, tEnd as real) && tStart <= tEnd as real
    requires PathSettled(c, pb, s, tStart)
    ensures PathSettled(c, pb, Bin(c, tab, s, arrivals, tEnd), tEnd as real)
    ensures forall d: Domain, i :: 0 <= i < |Bin(c, tab, s, arrivals, tEnd).Of(d)| ==>
      SamplesBounded(Bin(c, tab, s, arrivals, tEnd).Of(d)[i], pb.Of(d).Worst(c.Of(d).queue.depth))
  {
    hide Covers, Config.Valid, Process, AdvanceAll, Bounds.Worst, CQ.Inv, Chained;
    var s0 := ResetStats(s);
    ResetMakesPathOk(c, pb, s, tStart);
    ProcessKeepsPathOk(c, pb, tab, s0, arrivals, tStart, tEnd as real);
    var s1 := Process(c, tab, s0, arrivals);
    PathOkLater(c, pb, s1, if arrivals == [] then tStart else arrivals[|arrivals| - 1].pkt.t as real, tEnd as real);
    AdvanceAllKeepsPathOk(c, pb, s1, tEnd as real);
    var s2 := AdvanceAll(c, s1, tEnd as real);
    assert forall d: Domain, i :: 0 <= i < |s2.Of(d)| ==> QueueOk(c.Of(d).queue, pb.Of(d), s2.Of(d)[i], tEnd as real);
  }

  // ---------- Replays ----------

  /** Packets of one size admitted back to back at time t, which may lie before or after the clock,
      bypassing the link; `noise(k)` is the k-th service draw. The second result counts the refused ones. */
  function Replay(dc: DomainConfig, q: CQ.Queue, t: real, size: nat, n: nat, noise: nat -> real): (CQ.Queue, nat)
    requires dc.queue.Valid()
  {
    if n == 0 then (q, 0)
    else
      var (q1, dropped) := Replay(dc, q, t, size, n - 1, noise);
      var (q2, ok) := CQ.TryAdmit(dc.queue, q1, t, size, t + dc.Dma(size), CQ.ServiceTime(dc.queue, noise(n - 1)));
      (q2, dropped + if ok then 0 else 1)
  }

  lemma ReplayNone(dc: DomainConfig, q: CQ.Queue, t: real, size: nat, noise: nat -> real)
    requires dc.queue.Valid()
    ensures Replay(dc, q, t, size, 0, noise) == (q, 0)
  {
  }

  /** The last of n released packets. */
  lemma ReplayLast(dc: DomainConfig, q: CQ.Queue, t: real, size: nat, n: nat, noise: nat -> real)
    requires dc.queue.Valid() && n > 0
    ensures var (q0, dropped) := Replay(dc, q, t, size, n - 1, noise);
      var (q1, ok) := CQ.TryAdmit(dc.queue, q0, t, size, t + dc.Dma(size), CQ.ServiceTime(dc.queue, noise(n - 1)));
      Replay(dc, q, t, size, n, noise) == (q1, dropped + if ok then 0 else 1)
    ensures CQ.ServiceTime(dc.queue, noise(n - 1)) >= 0.0 && dc.Dma(size) > 0.0
  {
    hide CQ.ServiceTime, CQ.TryAdmit;
  }

  /** A replay keeps the path settled, whether it is stamped before the clock or after it, as long as the
      delay covers its ring arrival counted from the clock. */
  lemma {:induction false} ReplayKeepsSettled(dc: DomainConfig, b: Bounds, q: CQ.Queue, t: real, size: nat, n: nat,
        noise: nat -> real, now: real)
    requires dc.queue.Valid() && b.Valid() && dc.queue.writeback >= 0.0
    requires Settled(dc.queue, b, q, now) && t + dc.Dma(size) <= now + b.delay
    requires forall k: nat :: k < n ==> CQ.ServiceTime(dc.queue, noise(k)) <= b.service
    ensures Settled(dc.queue, b, Replay(dc, q, t, size, n, noise).0, now)
  {
    hide *;
    if n == 0 {
      ReplayNone(dc, q, t, size, noise);
    } else {
      ReplayLast(dc, q, t, size, n, noise);
      ReplayKeepsSettled(dc, b, q, t, size, n - 1, noise, now);
      var q1 := Replay(dc, q, t, size, n - 1, noise).0;
      ReplayStep(dc.queue, b, q1, t, size, t + dc.Dma(size), CQ.ServiceTime(dc.queue, noise(n - 1)), now);
    }
  }

  lemma ReplayStep(c: CQ.Config, b: Bounds, q: CQ.Queue, t: real, size: nat, arrive: real, app: real, now: real)
    requires b.Valid() && c.writeback >= 0.0 && Settled(c, b, q, now)
    requires t <= arrive <= now + b.delay && 0.0 <= app <= b.service
    ensures Settled(c, b, CQ.TryAdmit(c, q, t, size, arrive, app).0, now)
  {
    CQ.TryAdmitKeepsInv(c, q, t, size, arrive, app);
    CQ.AdvanceKeepsInv(c, q, t);
    AdvanceKeepsChain(c, b, q, t, now);
    var q1 := CQ.Advance(q, t);
    hide CQ.Advance, CQ.Inv;
    if q1.credits > 0 {
      assert CQ.Inv(c, q1);
      TakeKeepsChain(c, b, q1, now, t, size, arrive, app);
    } else {
      var q2 := CQ.CreditDrop(q1, size);
      forall i | 1 <= i < |q2.inFlight|
        ensures End(c, q2, i) <= Max(now + b.delay, End(c, q2, i - 1)) + b.service
      {
        assert End(c, q1, i) <= Max(now + b.delay, End(c, q1, i - 1)) + b.service;
      }
    }
  }

  /** One released packet: its latency, counted from its stamp, is within the worst case plus what the stamp
      lies before the clock. */
  lemma ReplayStepSamples(c: CQ.Config, b: Bounds, q: CQ.Queue, t: real, size: nat, arrive: real, app: real, now: real,
        bound: real)
    requires b.Valid() && c.writeback >= 0.0 && Settled(c, b, q, now)
    requires t <= arrive <= now + b.delay && 0.0 <= app <= b.service
    requires SamplesBounded(q, bound) && b.Worst(c.depth) + (now - t) <= bound
    ensures SamplesBounded(CQ.TryAdmit(c, q, t, size, arrive, app).0, bound)
  {
    CQ.AdvanceKeepsInv(c, q, t);
    CQ.AdvanceEffect(q, t);
    AdvanceKeepsChain(c, b, q, t, now);
    var q1 := CQ.Advance(q, t);
    hide CQ.Advance, CQ.Inv, Chained, Bounds.Worst;
    if q1.credits > 0 {
      TakeKeepsChain(c, b, q1, now, t, size, arrive, app);
    }
  }

  lemma {:induction false} ReplaySamples(dc: DomainConfig, b: Bounds, q: CQ.Queue, t: real, size: nat, n: nat,
        noise: nat -> real, now: real, bound: real)
    requires dc.queue.Valid() && b.Valid() && dc.queue.writeback >= 0.0
    requires Settled(dc.queue, b, q, now) && t + dc.Dma(size) <= now + b.delay
    requires forall k: nat :: k < n ==> CQ.ServiceTime(dc.queue, noise(k)) <= b.service
    requires SamplesBounded(q, bound) && b.Worst(dc.queue.depth) + (now - t) <= bound
    ensures SamplesBounded(Replay(dc, q, t, size, n, noise).0, bound)
  {
    hide *;
    if n == 0 {
      ReplayNone(dc, q, t, size, noise);
    } else {
      ReplayLast(dc, q, t, size, n, noise);
      ReplaySamples(dc, b, q, t, size, n - 1, noise, now, bound);
      ReplayKeepsSettled(dc, b, q, t, size, n - 1, noise, now);
      var q1 := Replay(dc, q, t, size, n - 1, noise).0;
      ReplayStepSamples(dc.queue, b, q1, t, size, t + dc.Dma(size), CQ.ServiceTime(dc.queue, noise(n - 1)), now, bound);
    }
  }
}

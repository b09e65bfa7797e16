/** The per-packet path of one bin: credit check, shared link, receive queue. Packets of both
    domains are offered in one merged time order. */
module PacketPath {
  import opened Common
  import CQ = CreditQueue
  import PL = PcieLink

  /** A packet of the merged stream with its domain and its service-time draw. */
  datatype Arrival = Arrival(pkt: Packet, d: Domain, noise: real)

  /** `rtt` is the interpolated round-trip table, from which the legacy one-way time is calibrated. */
  datatype DomainConfig = DomainConfig(queue: CQ.Config, rtt: nat -> real, appBase: real) {
    function Dma(size: nat): real {
      Max(100.0, rtt(size) - appBase - queue.writeback)
    }
  }

  /** `link` is None when the run does not use the shared link. */
  datatype Config = Config(link: Option<PL.Config>, sl: DomainConfig, sf: DomainConfig) {
    function Of(d: Domain): DomainConfig {
      if d.Stateless? then sl else sf
    }

    ghost predicate Valid() {
      && sl.queue.Valid() && sf.queue.Valid()
      && (link.Some? ==> link.value.Valid())
    }
  }

  datatype Tables = Tables(sl: seq<nat>, sf: seq<nat>) {
    function Of(d: Domain): seq<nat> {
      if d.Stateless? then sl else sf
    }
  }

  datatype Path = Path(link: PL.Link, sl: seq<CQ.Queue>, sf: seq<CQ.Queue>) {
    function Of(d: Domain): seq<CQ.Queue> {
      if d.Stateless? then sl else sf
    }

    function With(d: Domain, i: nat, q: CQ.Queue): Path
      requires i < |Of(d)|
    {
      if d.Stateless? then this.(sl := sl[i := q]) else this.(sf := sf[i := q])
    }
  }

  /** Every bucket of the packets' domain is mapped to an existing queue. */
  ghost predicate Routable(tab: Tables, s: Path, a: Arrival) {
    a.pkt.bucket < |tab.Of(a.d)| && tab.Of(a.d)[a.pkt.bucket] < |s.Of(a.d)|
  }

  ghost predicate AllRoutable(tab: Tables, s: Path, arrivals: seq<Arrival>) {
    forall i :: 0 <= i < |arrivals| ==> Routable(tab, s, arrivals[i])
  }

  function Route(tab: Tables, a: Arrival): nat
    requires a.pkt.bucket < |tab.Of(a.d)|
  {
    tab.Of(a.d)[a.pkt.bucket]
  }

  /** `Refused` is the case in which the link accepted a packet that the queue then turned away. */
  datatype Outcome = Admitted | CreditDropped | PcieDropped | Refused

  /** The fate of one packet at its queue: the queue and link afterwards, and the outcome. */
  function Offer(c: Config, q: CQ.Queue, l: PL.Link, a: Arrival): (CQ.Queue, PL.Link, Outcome)
    requires c.Valid()
  {
    var dc := c.Of(a.d);
    var t, size := a.pkt.t as real, a.pkt.size;
    var app := CQ.ServiceTime(dc.queue, a.noise);
    var q1 := CQ.Advance(q, t);
    if q1.credits <= 0 then (CQ.CreditDrop(q1, size), l, CreditDropped)
    else if c.link.None? then
      var (q2, ok) := CQ.TryAdmit(dc.queue, q1, t, size, t + dc.Dma(size), app);
      (q2, l, if ok then Admitted else Refused)
    else
      var (l1, done) := PL.Transmit(c.link.value, l, t, size, a.d);
      if done.None? then (CQ.PcieDrop(q1, size), l1, PcieDropped)
      else
        var (q2, ok) := CQ.TryAdmit(dc.queue, q1, t, size, done.value, app);
        (q2, l1, if ok then Admitted else Refused)
  }

  function Step(c: Config, tab: Tables, s: Path, a: Arrival): (s': Path)
    requires c.Valid() && Routable(tab, s, a)
    ensures |s'.sl| == |s.sl| && |s'.sf| == |s.sf|
  {
    var i := Route(tab, a);
    var (q, l, _) := Offer(c, s.Of(a.d)[i], s.link, a);
    s.(link := l).With(a.d, i, q)
  }

  /** All packets of a bin, one by one. */
  function Process(c: Config, tab: Tables, s: Path, arrivals: seq<Arrival>): (s': Path)
    requires c.Valid() && AllRoutable(tab, s, arrivals)
    ensures |s'.sl| == |s.sl| && |s'.sf| == |s.sf|
  {
    if arrivals == [] then s
    else
      var s1 := Process(c, tab, s, arrivals[..|arrivals| - 1]);
      Step(c, tab, s1, arrivals[|arrivals| - 1])
  }

  /** The last packet of the stream is one more step. */
  lemma ProcessLast(c: Config, tab: Tables, s: Path, arrivals: seq<Arrival>)
    requires c.Valid() && AllRoutable(tab, s, arrivals) && arrivals != []
    ensures var n := |arrivals| - 1;
      && AllRoutable(tab, s, arrivals[..n])
      && arrivals == arrivals[..n] + [arrivals[n]]
      && Routable(tab, Process(c, tab, s, arrivals[..n]), arrivals[n])
      && Process(c, tab, s, arrivals) == Step(c, tab, Process(c, tab, s, arrivals[..n]), arrivals[n])
  {
  }

  function ResetQueues(qs: seq<CQ.Queue>): (qs': seq<CQ.Queue>)
    ensures |qs'| == |qs|
  {
    seq(|qs|, i requires 0 <= i < |qs| => qs[i].(stats := CQ.ZERO_STATS))
  }

  function AdvanceQueues(qs: seq<CQ.Queue>, t: real): (qs': seq<CQ.Queue>)
    ensures |qs'| == |qs|
  {
    seq(|qs|, i requires 0 <= i < |qs| => CQ.Advance(qs[i], t))
  }

  function ResetStats(s: Path): Path {
    Path(s.link.(stats := PL.ZERO_STATS), ResetQueues(s.sl), ResetQueues(s.sf))
  }

  function AdvanceAll(c: Config, s: Path, t: real): Path {
    Path(if c.link.Some? then PL.Advance(s.link, t) else s.link, AdvanceQueues(s.sl, t), AdvanceQueues(s.sf, t))
  }

  /** One bin: reset the counters, process the merged stream, advance every clock to the bin's end. */
  function Bin(c: Config, tab: Tables, s: Path, arrivals: seq<Arrival>, tEnd: int): Path
    requires c.Valid() && AllRoutable(tab, s, arrivals)
  {
    AdvanceAll(c, Process(c, tab, ResetStats(s), arrivals), tEnd as real)
  }

  /** Each queue at the end of a bin: what it was after the last packet, with everything due by then collected;
      and the link's clock. */
  lemma BinCloses(c: Config, tab: Tables, s: Path, arrivals: seq<Arrival>, tEnd: int, d: Domain, i: nat)
    requires c.Valid() && AllRoutable(tab, s, arrivals) && i < |s.Of(d)|
    ensures AllRoutable(tab, ResetStats(s), arrivals) && i < |Process(c, tab, ResetStats(s), arrivals).Of(d)|
    ensures i < |Bin(c, tab, s, arrivals, tEnd).Of(d)|
    ensures var q := Bin(c, tab, s, arrivals, tEnd).Of(d)[i];
      && q == CQ.Advance(Process(c, tab, ResetStats(s), arrivals).Of(d)[i], tEnd as real)
      && (q.inFlight == [] || q.inFlight[0] > tEnd as real)
    ensures c.link.Some? ==> Bin(c, tab, s, arrivals, tEnd).link.busyUntil >= tEnd as real
  {
    hide Process;
    CQ.AdvanceEffect(Process(c, tab, ResetStats(s), arrivals).Of(d)[i], tEnd as real);
  }

  // ---------- A packet the link accepts is admitted ----------

  /** The queue has a credit when it hands the packet to the link and still has it afterwards. */
  lemma LinkAcceptIsAdmission(c: Config, q: CQ.Queue, l: PL.Link, a: Arrival)
    requires c.Valid()
    ensures Offer(c, q, l, a).2 != Refused
  {
    CQ.AdvanceCompose(q, a.pkt.t as real, a.pkt.t as real);
  }

  /** What Offer does, with the second clock advance and the second credit check resolved. */
  lemma OfferCases(c: Config, q: CQ.Queue, l: PL.Link, a: Arrival) returns (arrive: real)
    requires c.Valid()
    ensures var dc, t, size := c.Of(a.d), a.pkt.t as real, a.pkt.size;
      var q1 := CQ.Advance(q, t);
      var (q', l', o) := Offer(c, q, l, a);
      match o
      case CreditDropped => q1.credits <= 0 && q' == CQ.CreditDrop(q1, size) && l' == l
      case PcieDropped =>
        && c.link.Some? && q1.credits > 0 && q' == CQ.PcieDrop(q1, size)
        && !PL.Fits(c.link.value, l, t, size) && l' == PL.Reject(l, size, a.d)
      case Admitted =>
        && q1.credits > 0
        && q' == CQ.Take(dc.queue, q1, t, size, arrive, CQ.ServiceTime(dc.queue, a.noise))
        && (c.link.None? ==> l' == l && arrive == t + dc.Dma(size))
        && (c.link.Some? ==>
              && PL.Fits(c.link.value, l, t, size)
              && l' == PL.Accept(c.link.value, l, t, size)
              && arrive == PL.Completion(c.link.value, l, t, size))
      case Refused => false
  {
    CQ.AdvanceCompose(q, a.pkt.t as real, a.pkt.t as real);
    arrive := if c.link.Some? then PL.Completion(c.link.value, l, a.pkt.t as real, a.pkt.size)
              else a.pkt.t as real + c.Of(a.d).Dma(a.pkt.size);
  }
}

/** The link shared by both domains: it serializes accepted packets and refuses a packet that would
    overflow the staging FIFO in front of it. */
module PcieLink {
  import opened Common

  /** A link as the two reciprocal rates the code derives from its bandwidth, its FIFO and its setup time. */
  datatype Config = Config(nsPerByte: real, bytesPerNs: real, fifoBytes: nat, setup: real) {
    ghost predicate Valid() {
      nsPerByte > 0.0 && bytesPerNs > 0.0 && nsPerByte * bytesPerNs == 1.0 && setup >= 0.0
    }

    /** Time the link needs to send a full FIFO. */
    function DrainTime(): real {
      fifoBytes as real * nsPerByte
    }
  }

  function FromBandwidth(bandwidthBps: real, fifoBytes: nat, setup: real): (c: Config)
    requires bandwidthBps > 0.0 && setup >= 0.0
    ensures c.Valid()
  {
    Config(8.0 * 1000000000.0 / bandwidthBps, bandwidthBps / 8000000000.0, fifoBytes, setup)
  }

  datatype Stats = Stats(
    acceptedPkts: nat, acceptedBytes: nat, droppedPkts: nat, droppedBytes: nat,
    droppedPktsBy: map<Domain, nat>, droppedBytesBy: map<Domain, nat>,
    fifoPeak: real)

  const ZERO_STATS := Stats(0, 0, 0, 0, map[], map[], 0.0)

  datatype Link = Link(busyUntil: real, stats: Stats)

  const IDLE := Link(0.0, ZERO_STATS)

  function Get(m: map<Domain, nat>, d: Domain): nat {
    if d in m then m[d] else 0
  }

  // ---------- Operations ----------

  function PendingBytes(c: Config, l: Link, t: real): real {
    if l.busyUntil <= t then 0.0 else (l.busyUntil - t) * c.bytesPerNs
  }

  predicate Fits(c: Config, l: Link, t: real, size: nat) {
    PendingBytes(c, l, t) + size as real <= c.fifoBytes as real
  }

  /** Serialization time of `size` bytes. */
  function TxTime(c: Config, size: nat): real {
    size as real * c.nsPerByte
  }

  function Completion(c: Config, l: Link, t: real, size: nat): real {
    Max(t + c.setup, l.busyUntil) + TxTime(c, size)
  }

  function Reject(l: Link, size: nat, d: Domain): Link {
    l.(stats := l.stats.(
         droppedPkts := l.stats.droppedPkts + 1, droppedBytes := l.stats.droppedBytes + size,
         droppedPktsBy := l.stats.droppedPktsBy[d := Get(l.stats.droppedPktsBy, d) + 1],
         droppedBytesBy := l.stats.droppedBytesBy[d := Get(l.stats.droppedBytesBy, d) + size]))
  }

  function Accept(c: Config, l: Link, t: real, size: nat): Link {
    var done := Completion(c, l, t, size);
    var peak := PendingBytes(c, l.(busyUntil := done), t);
    Link(done, l.stats.(
           acceptedPkts := l.stats.acceptedPkts + 1, acceptedBytes := l.stats.acceptedBytes + size,
           fifoPeak := if peak > l.stats.fifoPeak then peak else l.stats.fifoPeak))
  }

  /** The link after an attempt, and the ring arrival time if the packet was accepted. */
  function Transmit(c: Config, l: Link, t: real, size: nat, d: Domain): (Link, Option<real>) {
    if Fits(c, l, t, size) then (Accept(c, l, t, size), Some(Completion(c, l, t, size)))
    else (Reject(l, size, d), None)
  }

  function Advance(l: Link, t: real): Link {
    if l.busyUntil < t then l.(busyUntil := t) else l
  }

  // ---------- Rate arithmetic ----------

  /** A byte inequality read as a time inequality, and back. */
  lemma BytesToTime(c: Config, wait: real, size: real, cap: real)
    requires c.Valid()
    ensures wait * c.bytesPerNs + size <= cap <==> wait + size * c.nsPerByte <= cap * c.nsPerByte
  {
    var r, n := c.bytesPerNs, c.nsPerByte;
    assert r * n == 1.0;
    assert (wait * r + size) * n == wait * (r * n) + size * n;
    var gap := cap - (wait * r + size);
    assert gap * n == cap * n - (wait + size * n);
    if gap >= 0.0 {
      assert gap * n >= 0.0;
    } else {
      assert gap * n < 0.0;
    }
  }

  /** The rates are those of the bandwidth: a byte has eight bits, and a second a thousand million nanoseconds. */
  lemma RatesAreBandwidth(bandwidthBps: real, fifoBytes: nat, setup: real, size: nat)
    requires bandwidthBps > 0.0 && setup >= 0.0
    ensures var c := FromBandwidth(bandwidthBps, fifoBytes, setup);
      && Portion(bandwidthBps, TxTime(c, size)) == 8.0 * size as real * 1000000000.0
      && 8.0 * Portion(1000000000.0, c.bytesPerNs) == bandwidthBps && c.fifoBytes == fifoBytes && c.setup == setup
  {
    var n := 8.0 * 1000000000.0 / bandwidthBps;
    assert bandwidthBps * n == 8.0 * 1000000000.0;
    assert bandwidthBps * (size as real * n) == size as real * (bandwidthBps * n);
  }

  // ---------- One step ----------

  /** An accepted packet leaves the link after everything accepted before it, no sooner than its own
      serialization allows and no later than one full FIFO plus the setup time from now. */
  lemma CompletionBounds(c: Config, l: Link, t: real, size: nat)
    requires c.Valid() && Fits(c, l, t, size)
    ensures var done := Completion(c, l, t, size);
      && l.busyUntil <= done
      && t + c.setup + TxTime(c, size) <= done <= t + c.setup + c.DrainTime()
  {
    FitsInTime(c, l, t, size);
    TxTimeNonNegative(c, size);
  }

  /** The FIFO cap holds just after an accepted packet exactly when the setup time, counted as
      bytes, and the packet itself fit into the FIFO together; without setup time, always. */
  lemma PendingCapIff(c: Config, l: Link, t: real, size: nat)
    requires c.Valid() && Fits(c, l, t, size)
    ensures PendingBytes(c, Accept(c, l, t, size), t) <= c.fifoBytes as real
      <==> c.setup * c.bytesPerNs + size as real <= c.fifoBytes as real
    ensures c.setup == 0.0 ==> PendingBytes(c, Accept(c, l, t, size), t) <= c.fifoBytes as real
  {
    var cap := c.fifoBytes as real;
    FitsInTime(c, l, t, size);
    TxTimeNonNegative(c, size);
    BytesToTime(c, c.setup, size as real, cap);
    PendingInTime(c, l, t, size);
    CapInTime(c, l, t, size, c.DrainTime());
    hide Completion, Fits, PendingBytes, Accept, Config.Valid;
  }

  /** Pending bytes just after an accepted packet, read in time. */
  lemma PendingInTime(c: Config, l: Link, t: real, size: nat)
    requires c.Valid() && Fits(c, l, t, size)
    ensures PendingBytes(c, Accept(c, l, t, size), t) <= c.fifoBytes as real
      <==> Completion(c, l, t, size) - t <= c.DrainTime()
  {
    CompletionBounds(c, l, t, size);
    TxTimeNonNegative(c, size);
    DrainTimeNonNegative(c);
    hide Fits, Completion, TxTime;
    BytesToTime(c, Completion(c, l, t, size) - t, 0.0, c.fifoBytes as real);
  }

  lemma TxTimeNonNegative(c: Config, size: nat)
    requires c.Valid()
    ensures TxTime(c, size) >= 0.0
  {
  }

  /** The admission test read in time: the queue of work and the packet fit into one drain time. */
  lemma FitsInTime(c: Config, l: Link, t: real, size: nat)
    requires c.Valid()
    ensures Fits(c, l, t, size) <==> Max(0.0, l.busyUntil - t) + TxTime(c, size) <= c.DrainTime()
  {
    BytesToTime(c, Max(0.0, l.busyUntil - t), size as real, c.fifoBytes as real);
  }

  lemma CapInTime(c: Config, l: Link, t: real, size: nat, drain: real)
    requires c.Valid() && Max(0.0, l.busyUntil - t) + TxTime(c, size) <= drain
    ensures Completion(c, l, t, size) - t <= drain <==> c.setup + TxTime(c, size) <= drain
  {
    hide TxTime;
  }

  /** A case where the cap is exceeded: 64 Gb/s, a 1024-byte FIFO and 100 ns of setup per packet. */
  lemma PendingCapFailsWithSetup()
    ensures var c := FromBandwidth(64000000000.0, 1024, 100.0);
      && Fits(c, IDLE, 0.0, 1024)
      && PendingBytes(c, Accept(c, IDLE, 0.0, 1024), 0.0) > 1024.0
  {
    var c := FromBandwidth(64000000000.0, 1024, 100.0);
    PendingCapIff(c, IDLE, 0.0, 1024);
  }

  // ---------- Whole runs ----------

  datatype Op = Send(t: real, size: nat, d: Domain) | Clock(t: real)

  function Step(c: Config, l: Link, op: Op): Link {
    match op
    case Send(t, size, d) => Transmit(c, l, t, size, d).0
    case Clock(t) => Advance(l, t)
  }

  predicate Accepts(c: Config, l: Link, op: Op) {
    op.Send? && Fits(c, l, op.t, op.size)
  }

  function Run(c: Config, l: Link, ops: seq<Op>): Link {
    if ops == [] then l else Step(c, Run(c, l, ops[..|ops| - 1]), ops[|ops| - 1])
  }

  /** Of the packets a run accepts, the sizes of those that are ready in [t1, t2]. */
  function AcceptedIn(c: Config, l: Link, ops: seq<Op>, t1: real, t2: real): seq<nat> {
    if ops == [] then []
    else
      var n := |ops| - 1;
      AcceptedIn(c, l, ops[..n], t1, t2)
      + if Accepts(c, Run(c, l, ops[..n]), ops[n]) && t1 <= ops[n].t <= t2 then [ops[n].size] else []
  }

  /** What one step does to the time the link is next free. */
  lemma StepFacts(c: Config, l: Link, op: Op)
    requires c.Valid()
    ensures var b := Step(c, l, op).busyUntil;
      && l.busyUntil <= b
      && (Accepts(c, l, op) ==>
            Max(op.t, l.busyUntil) + TxTime(c, op.size) <= b <= op.t + c.setup + c.DrainTime())
      && (!Accepts(c, l, op) ==> b <= Max(l.busyUntil, op.t))
  {
    if Accepts(c, l, op) {
      CompletionBounds(c, l, op.t, op.size);
    }
  }

  ghost function TotalTxTime(c: Config, sizes: seq<nat>): real {
    if sizes == [] then 0.0 else TotalTxTime(c, sizes[..|sizes| - 1]) + TxTime(c, sizes[|sizes| - 1])
  }

  lemma {:induction false} TotalTxTimeIsBytes(c: Config, sizes: seq<nat>)
    ensures TotalTxTime(c, sizes) == SumNat(sizes) as real * c.nsPerByte
  {
    if sizes != [] {
      var n := |sizes| - 1;
      TotalTxTimeIsBytes(c, sizes[..n]);
      AddSizes(SumNat(sizes[..n]), sizes[n], c.nsPerByte);
    }
  }

  lemma AddSizes(a: nat, b: nat, n: real)
    ensures (a + b) as real * n == a as real * n + b as real * n
  {
    assert (a + b) as real == a as real + b as real;
  }

  /** Packets accepted in the window kept the link busy, whatever was accepted besides: they end no earlier
      than t1 plus their total serialization time, and no later than one FIFO and one setup time after t2. */
  lemma {:induction false} WindowInvariant(c: Config, l: Link, ops: seq<Op>, t1: real, t2: real, drain: real)
    requires c.Valid() && t1 <= t2 && drain == c.DrainTime() >= 0.0 && c.setup >= 0.0
    ensures AcceptedIn(c, l, ops, t1, t2) != [] ==>
      t1 + TotalTxTime(c, AcceptedIn(c, l, ops, t1, t2)) <= Run(c, l, ops).busyUntil
    ensures t1 + TotalTxTime(c, AcceptedIn(c, l, ops, t1, t2)) <= t2 + c.setup + drain
  {
    hide Fits, TxTime, Step, Config.DrainTime, Config.Valid;
    if ops != [] {
      var n := |ops| - 1;
      WindowInvariant(c, l, ops[..n], t1, t2, drain);
      var before := Run(c, l, ops[..n]);
      StepFacts(c, before, ops[n]);
      if Accepts(c, before, ops[n]) {
        TxTimeNonNegative(c, ops[n].size);
      }
      var sizes := AcceptedIn(c, l, ops, t1, t2);
      if Accepts(c, before, ops[n]) && t1 <= ops[n].t <= t2 {
        assert sizes[..|sizes| - 1] == AcceptedIn(c, l, ops[..n], t1, t2);
      } else {
        assert sizes == AcceptedIn(c, l, ops[..n], t1, t2);
      }
    }
  }

  lemma DivideByRate(bytes: real, fifo: real, window: real, r: real, n: real)
    requires r > 0.0 && n * r == 1.0 && bytes * n <= window + fifo * n
    ensures bytes <= fifo + window * r
  {
    var gap := window + fifo * n - bytes * n;
    assert gap * r >= 0.0;
    assert gap * r == window * r + fifo * (n * r) - bytes * (n * r);
  }

  /** Leaky bucket: over any run from any link state, with ready times in any order, the bytes accepted with
      ready times in [t1, t2] are at most one FIFO plus what the link can send in the window, lengthened by
      one setup time. */
  lemma LeakyBucket(c: Config, l: Link, ops: seq<Op>, t1: real, t2: real)
    requires c.Valid() && t1 <= t2
    ensures SumNat(AcceptedIn(c, l, ops, t1, t2)) as real <= c.fifoBytes as real + (t2 - t1 + c.setup) * c.bytesPerNs
  {
    hide Run, AcceptedIn, TotalTxTime, SumNat;
    DrainTimeNonNegative(c);
    WindowInvariant(c, l, ops, t1, t2, c.DrainTime());
    var bytes := SumNat(AcceptedIn(c, l, ops, t1, t2));
    TotalTxTimeIsBytes(c, AcceptedIn(c, l, ops, t1, t2));
    DivideByRate(bytes as real, c.fifoBytes as real, t2 - t1 + c.setup, c.bytesPerNs, c.nsPerByte);
  }

  lemma DrainTimeNonNegative(c: Config)
    requires c.Valid()
    ensures c.DrainTime() >= 0.0
  {
  }

  /** The most the FIFO and the setup time can hold, in bytes. */
  function PeakBytes(c: Config): real {
    c.fifoBytes as real + c.setup * c.bytesPerNs
  }

  lemma StepPeak(c: Config, l: Link, op: Op)
    requires c.Valid() && l.stats.fifoPeak <= PeakBytes(c)
    ensures Step(c, l, op).stats.fifoPeak <= PeakBytes(c)
  {
    if Accepts(c, l, op) {
      CompletionBounds(c, l, op.t, op.size);
      PendingAfter(c, l.(busyUntil := Completion(c, l, op.t, op.size)), op.t);
    }
  }

  lemma {:induction false} BusyBound(c: Config, ops: seq<Op>, t: real, drain: real)
    requires c.Valid() && t >= 0.0 && drain == c.DrainTime() >= 0.0 && c.setup >= 0.0 && PeakBytes(c) >= 0.0
    requires forall i :: 0 <= i < |ops| ==> ops[i].t <= t
    ensures Run(c, IDLE, ops).busyUntil <= t + c.setup + drain
    ensures Run(c, IDLE, ops).stats.fifoPeak <= PeakBytes(c)
  {
    hide Accepts, Step, PeakBytes, TxTime, Config.DrainTime, Config.Valid;
    if ops != [] {
      var n := |ops| - 1;
      BusyBound(c, ops[..n], t, drain);
      var before := Run(c, IDLE, ops[..n]);
      StepFacts(c, before, ops[n]);
      StepPeak(c, before, ops[n]);
    }
  }

  lemma PendingAfter(c: Config, l: Link, t: real)
    requires c.Valid() && l.busyUntil <= t + c.setup + c.DrainTime()
    ensures PendingBytes(c, l, t) <= PeakBytes(c)
  {
    assert c.setup * c.bytesPerNs >= 0.0;
    if l.busyUntil > t {
      BytesToTime(c, l.busyUntil - t - c.setup, 0.0, c.fifoBytes as real);
      assert (l.busyUntil - t - c.setup) * c.bytesPerNs
          == (l.busyUntil - t) * c.bytesPerNs - c.setup * c.bytesPerNs;
    }
  }

  /** After any run, the bytes pending at any time not before the ready times seen, and the
      recorded peak, are at most the FIFO plus the setup time counted as bytes. */
  lemma PendingCapped(c: Config, ops: seq<Op>, t: real)
    requires c.Valid() && t >= 0.0
    requires forall i :: 0 <= i < |ops| ==> ops[i].t <= t
    ensures PendingBytes(c, Run(c, IDLE, ops), t) <= PeakBytes(c)
    ensures Run(c, IDLE, ops).stats.fifoPeak <= PeakBytes(c)
    ensures c.setup == 0.0 ==> PendingBytes(c, Run(c, IDLE, ops), t) <= c.fifoBytes as real
  {
    DrainTimeNonNegative(c);
    assert c.setup * c.bytesPerNs >= 0.0;
    BusyBound(c, ops, t, c.DrainTime());
    PendingAfter(c, Run(c, IDLE, ops), t);
  }

  /** Bytes pending right after each packet that a run accepts. */
  function PendingAtAccepts(c: Config, l: Link, ops: seq<Op>): seq<real> {
    if ops == [] then []
    else
      var n := |ops| - 1;
      PendingAtAccepts(c, l, ops[..n])
      + if Accepts(c, Run(c, l, ops[..n]), ops[n]) then [PendingBytes(c, Run(c, l, ops), ops[n].t)] else []
  }

  /** The recorded peak is the most that was ever pending right after an accepted packet. */
  lemma {:induction false} PeakIsHighest(c: Config, ops: seq<Op>)
    ensures IsGreatest(PendingAtAccepts(c, IDLE, ops), Run(c, IDLE, ops).stats.fifoPeak)
  {
    if ops != [] {
      var n := |ops| - 1;
      var l, x := Run(c, IDLE, ops[..n]), PendingBytes(c, Run(c, IDLE, ops), ops[n].t);
      var before := PendingAtAccepts(c, IDLE, ops[..n]);
      assert PendingAtAccepts(c, IDLE, ops) == before + if Accepts(c, l, ops[n]) then [x] else [];
      StepRecordsPeak(c, l, ops[n]);
      RunLast(c, IDLE, ops);
      hide *;
      PeakIsHighest(c, ops[..n]);
      GreatestSnoc(before, l.stats.fifoPeak, x);
    }
  }

  lemma StepRecordsPeak(c: Config, l: Link, op: Op)
    ensures var l' := Step(c, l, op);
      l'.stats.fifoPeak
      == if Accepts(c, l, op) then Max(l.stats.fifoPeak, PendingBytes(c, l', op.t)) else l.stats.fifoPeak
  {
    hide Completion, Fits;
  }

  lemma {:induction false} BusyNeverGoesBack(c: Config, l: Link, ops: seq<Op>, i: nat)
    requires c.Valid() && i <= |ops|
    ensures Run(c, l, ops[..i]).busyUntil <= Run(c, l, ops).busyUntil
  {
    if i == |ops| {
      assert ops[..i] == ops;
    } else {
      var n := |ops| - 1;
      BusyNeverGoesBack(c, l, ops[..n], i);
      assert ops[..n][..i] == ops[..i];
      StepFacts(c, Run(c, l, ops[..n]), ops[n]);
    }
  }

  /** The ring arrival time of the i-th operation of a run, where it is an accepted packet. */
  function Arrival(c: Config, l: Link, ops: seq<Op>, i: nat): Option<real>
    requires i < |ops|
  {
    match ops[i]
    case Send(t, size, d) => Transmit(c, Run(c, l, ops[..i]), t, size, d).1
    case Clock(_) => None
  }

  lemma ArrivalIsBusyUntil(c: Config, l: Link, ops: seq<Op>, i: nat)
    requires c.Valid() && i < |ops| && Arrival(c, l, ops, i).Some?
    ensures Arrival(c, l, ops, i).value == Run(c, l, ops[..i + 1]).busyUntil
    ensures Run(c, l, ops[..i]).busyUntil + TxTime(c, ops[i].size) <= Arrival(c, l, ops, i).value
  {
    assert ops[..i + 1][..i] == ops[..i];
    hide TxTime, Fits, Run;
    assert Run(c, l, ops[..i + 1]) == Step(c, Run(c, l, ops[..i]), ops[i]) by {
      RunLast(c, l, ops[..i + 1]);
    }
  }

  lemma RunLast(c: Config, l: Link, ops: seq<Op>)
    requires ops != []
    ensures Run(c, l, ops) == Step(c, Run(c, l, ops[..|ops| - 1]), ops[|ops| - 1])
  {
  }

  /** Of two accepted packets the one offered later arrives later, by at least its own serialization time:
      over any run the link is a FIFO that sends one packet at a time. */
  lemma CompletionsAreFifo(c: Config, l: Link, ops: seq<Op>, i: nat, j: nat)
    requires c.Valid() && i < j < |ops| && Arrival(c, l, ops, i).Some? && Arrival(c, l, ops, j).Some?
    ensures Arrival(c, l, ops, i).value + TxTime(c, ops[j].size) <= Arrival(c, l, ops, j).value
  {
    ArrivalIsBusyUntil(c, l, ops, i);
    ArrivalIsBusyUntil(c, l, ops, j);
    assert ops[..j][..i + 1] == ops[..i + 1];
    BusyNeverGoesBack(c, l, ops[..j], i + 1);
    hide Arrival, Run, TxTime;
  }

  // ---------- The link object ----------

  class PCIeLink {
    const bandwidthBps: real
    const fifoBytes: nat
    const setup: real
    var busyUntil: real
    var stats: Stats

    predicate Valid() {
      bandwidthBps > 0.0 && setup >= 0.0
    }

    ghost function Cfg(): Config
      requires Valid()
    {
      FromBandwidth(bandwidthBps, fifoBytes, setup)
    }

    ghost function Model(): Link
      reads this
    {
      Link(busyUntil, stats)
    }

    constructor (bandwidthBps: real, fifoBytes: nat, setup: real)
      requires bandwidthBps > 0.0 && setup >= 0.0
      ensures Valid() && Cfg() == FromBandwidth(bandwidthBps, fifoBytes, setup)
      ensures Model() == IDLE
    {
      this.bandwidthBps := bandwidthBps;
      this.fifoBytes := fifoBytes;
      this.setup := setup;
      busyUntil := 0.0;
      stats := ZERO_STATS;
    }

    function NsPerByte(): (n: real)
      requires Valid()
      ensures n == Cfg().nsPerByte
    {
      8.0 * 1000000000.0 / bandwidthBps
    }

    function Pending(t: real): (bytes: real)
      requires Valid()
      reads this
      ensures bytes == PendingBytes(Cfg(), Model(), t)
    {
      if busyUntil <= t then 0.0 else (busyUntil - t) * bandwidthBps / 8000000000.0
    }

    method TryTransmit(tReady: real, size: nat, d: Domain) returns (done: Option<real>)
      requires Valid()
      modifies this
      ensures (Model(), done) == Transmit(Cfg(), old(Model()), tReady, size, d)
    {
      ghost var c, l := Cfg(), Model();
      var pending := Pending(tReady);
      if pending + size as real > fifoBytes as real {
        stats := stats.(
          droppedPkts := stats.droppedPkts + 1, droppedBytes := stats.droppedBytes + size,
          droppedPktsBy := stats.droppedPktsBy[d := Get(stats.droppedPktsBy, d) + 1],
          droppedBytesBy := stats.droppedBytesBy[d := Get(stats.droppedBytesBy, d) + size]);
        return None;
      }
      var start := Max(tReady + setup, busyUntil);
      var complete := start + size as real * NsPerByte();
      assert complete == Completion(c, l, tReady, size);
      busyUntil := complete;
      stats := stats.(acceptedPkts := stats.acceptedPkts + 1, acceptedBytes := stats.acceptedBytes + size);
      var current := Pending(tReady);
      assert current == PendingBytes(c, l.(busyUntil := complete), tReady);
      if current > stats.fifoPeak {
        stats := stats.(fifoPeak := current);
      }
      return Some(complete);
    }

    method AdvanceTo(t: real)
      modifies this
      ensures Model() == Advance(old(Model()), t)
    {
      if busyUntil < t {
        busyUntil := t;
      }
    }

    method ResetStats()
      modifies this
      ensures Model() == old(Model()).(stats := ZERO_STATS)
    {
      stats := ZERO_STATS;
    }
  }
}

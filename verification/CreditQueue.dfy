/** One receive queue of the host pipeline as a value; the object is in QueuePipeline.dfy. */
module CreditQueue {
  import opened Common

  /** Counters of one bin; `latencies` holds one end-to-end sample for each admitted packet. */
  datatype Stats = Stats(
    admPkts: nat, admBytes: nat,
    dropPkts: nat, dropBytes: nat,
    creditDropPkts: nat, creditDropBytes: nat,
    pcieDropPkts: nat, pcieDropBytes: nat,
    returned: nat, uMax: int,
    latencies: seq<real>)

  const ZERO_STATS := Stats(0, 0, 0, 0, 0, 0, 0, 0, 0, 0, [])

  /** `depth` is the descriptor ring depth D_q. */
  datatype Config = Config(
    depth: nat, writeback: real,
    appMean: real, appJitter: real, lookup: real, share: real)
  {
    predicate Valid() {
      appMean >= 0.0 && lookup >= 0.0 && share >= 0.0
    }
  }

  /** Credits at the FPGA, the core's next free time, and the credit returns in the order they were scheduled. */
  datatype Queue = Queue(credits: int, free: real, inFlight: seq<real>, stats: Stats)

  function Initial(c: Config): Queue {
    Queue(c.depth, 0.0, [], ZERO_STATS)
  }

  /** Service time of one packet; `noise` is the Gaussian draw, used only when jitter is positive. */
  function ServiceTime(c: Config, noise: real): (t: real)
    requires c.Valid()
    ensures t >= c.lookup
  {
    var t := if c.appJitter > 0.0 then c.appMean + noise else c.appMean;
    var floored := Max(c.appMean * 0.1, t);
    assert floored >= 0.0;
    assert floored * c.share >= 0.0;
    floored * c.share + c.lookup
  }

  ghost predicate Sorted(s: seq<real>) {
    forall i, j :: 0 <= i < j < |s| ==> s[i] <= s[j]
  }

  /** What every operation keeps: credits are never created or lost, and the returns are scheduled
      in non-decreasing order with the youngest one belonging to the last served packet. */
  ghost predicate Inv(c: Config, q: Queue) {
    && q.credits >= 0
    && q.credits + |q.inFlight| == c.depth
    && Sorted(q.inFlight)
    && (q.inFlight != [] ==> q.inFlight[|q.inFlight| - 1] == q.free + c.writeback)
  }

  // ---------- Operations ----------

  /** Collect the earliest credit return. */
  function Collect(q: Queue): Queue
    requires q.inFlight != []
  {
    q.(credits := q.credits + 1, inFlight := q.inFlight[1..],
       stats := q.stats.(returned := q.stats.returned + 1))
  }

  /** Collect every credit return that is due by time t. */
  function Advance(q: Queue, t: real): Queue
    decreases |q.inFlight|
  {
    if q.inFlight == [] || q.inFlight[0] > t then q else Advance(Collect(q), t)
  }

  function CreditDrop(q: Queue, size: nat): Queue {
    q.(stats := q.stats.(
         dropPkts := q.stats.dropPkts + 1, dropBytes := q.stats.dropBytes + size,
         creditDropPkts := q.stats.creditDropPkts + 1, creditDropBytes := q.stats.creditDropBytes + size))
  }

  function PcieDrop(q: Queue, size: nat): Queue {
    q.(stats := q.stats.(
         dropPkts := q.stats.dropPkts + 1, dropBytes := q.stats.dropBytes + size,
         pcieDropPkts := q.stats.pcieDropPkts + 1, pcieDropBytes := q.stats.pcieDropBytes + size))
  }

  function ServiceEnd(q: Queue, arrive: real, app: real): real {
    Max(arrive, q.free) + app
  }

  /** Take one credit and schedule the packet on the core and its credit on the way back. */
  function Take(c: Config, q: Queue, tGen: real, size: nat, arrive: real, app: real): Queue {
    var end := ServiceEnd(q, arrive, app);
    Queue(q.credits - 1, end, q.inFlight + [end + c.writeback],
          q.stats.(admPkts := q.stats.admPkts + 1, admBytes := q.stats.admBytes + size,
                   uMax := MaxInt(q.stats.uMax, c.depth - (q.credits - 1)),
                   latencies := q.stats.latencies + [end - tGen]))
  }

  function TryAdmit(c: Config, q: Queue, tGen: real, size: nat, arrive: real, app: real): (Queue, bool) {
    var q1 := Advance(q, tGen);
    if q1.credits <= 0 then (CreditDrop(q1, size), false)
    else (Take(c, q1, tGen, size, arrive, app), true)
  }

  // ---------- Invariant and advance laws ----------

  lemma CollectKeepsInv(c: Config, q: Queue)
    requires Inv(c, q) && q.inFlight != []
    ensures Inv(c, Collect(q))
  {
  }

  lemma {:induction false} AdvanceKeepsInv(c: Config, q: Queue, t: real)
    requires Inv(c, q)
    ensures Inv(c, Advance(q, t))
    decreases |q.inFlight|
  {
    if q.inFlight != [] && q.inFlight[0] <= t {
      AdvanceKeepsInv(c, Collect(q), t);
    }
  }

  lemma TakeKeepsInv(c: Config, q: Queue, tGen: real, size: nat, arrive: real, app: real)
    requires Inv(c, q) && q.credits > 0 && app >= 0.0
    ensures Inv(c, Take(c, q, tGen, size, arrive, app))
  {
    var q' := Take(c, q, tGen, size, arrive, app);
    var n := |q.inFlight|;
    forall i, j | 0 <= i < j < |q'.inFlight| ensures q'.inFlight[i] <= q'.inFlight[j] {
      if j == n {
        assert q.inFlight[i] <= q.inFlight[n - 1];
      }
    }
  }

  /** What an advance leaves alone, and that nothing due is left behind. */
  lemma {:induction false} AdvanceEffect(q: Queue, t: real)
    ensures var q' := Advance(q, t);
      && q'.free == q.free
      && |q'.inFlight| <= |q.inFlight|
      && q'.inFlight == q.inFlight[|q.inFlight| - |q'.inFlight|..]
      && q'.credits == q.credits + (|q.inFlight| - |q'.inFlight|)
      && q'.stats == q.stats.(returned := q.stats.returned + (|q.inFlight| - |q'.inFlight|))
      && (forall i :: 0 <= i < |q.inFlight| - |q'.inFlight| ==> q.inFlight[i] <= t)
      && (q'.inFlight != [] ==> q'.inFlight[0] > t)
    decreases |q.inFlight|
  {
    if q.inFlight != [] && q.inFlight[0] <= t {
      AdvanceEffect(Collect(q), t);
    }
  }

  /** Stopping on the way makes no difference: two advances equal the later one alone. */
  lemma {:induction false} AdvanceCompose(q: Queue, t1: real, t2: real)
    requires t1 <= t2
    ensures Advance(Advance(q, t1), t2) == Advance(q, t2)
    decreases |q.inFlight|
  {
    if q.inFlight != [] && q.inFlight[0] <= t1 {
      AdvanceCompose(Collect(q), t1, t2);
    }
  }

  /** Advancing to or past the last scheduled return restores all D_q credits; stopping short of it does not. */
  lemma DrainRestoresAllCredits(c: Config, q: Queue, t: real)
    requires Inv(c, q)
    ensures Advance(q, t).credits == c.depth <==> (q.inFlight == [] || q.free + c.writeback <= t)
  {
    AdvanceKeepsInv(c, q, t);
    AdvanceEffect(q, t);
    var q' := Advance(q, t);
    if q'.inFlight != [] {
      assert q'.inFlight[|q'.inFlight| - 1] >= q'.inFlight[0] > t;
    }
  }

  // ---------- Occupancy against a reference definition ----------

  /** How many entries of `backs` lie after time t. */
  function CountAfter(backs: seq<real>, t: real): nat {
    if backs == [] then 0
    else CountAfter(backs[..|backs| - 1], t) + if backs[|backs| - 1] > t then 1 else 0
  }

  lemma {:induction false} CountAfterConcat(a: seq<real>, b: seq<real>, t: real)
    ensures CountAfter(a + b, t) == CountAfter(a, t) + CountAfter(b, t)
  {
    if b == [] {
      assert a + b == a;
    } else {
      var n := |b| - 1;
      CountAfterConcat(a, b[..n], t);
      assert (a + b)[..|a + b| - 1] == a + b[..n];
    }
  }

  lemma {:induction false} CountAfterAll(b: seq<real>, t: real)
    requires forall i :: 0 <= i < |b| ==> b[i] > t
    ensures CountAfter(b, t) == |b|
  {
    if b != [] {
      CountAfterAll(b[..|b| - 1], t);
    }
  }

  lemma {:induction false} CountAfterNone(a: seq<real>, t: real)
    ensures CountAfter(a, t) == 0 <==> AllBy(a, t)
  {
    if a != [] {
      var n := |a| - 1;
      CountAfterNone(a[..n], t);
      assert a == a[..n] + [a[n]];
    }
  }

  /** `backs` lists the credit-return time of every packet the queue ever admitted: the first of them were
      collected, the others are in flight. */
  ghost predicate Tracks(c: Config, q: Queue, backs: seq<real>, collected: seq<real>) {
    && Inv(c, q) && backs == collected + q.inFlight && Sorted(backs)
    && (backs != [] ==> backs[|backs| - 1] == q.free + c.writeback)
  }

  ghost predicate AllBy(collected: seq<real>, t: real) {
    forall i :: 0 <= i < |collected| ==> collected[i] <= t
  }

  /** The returns collected so far, of all those ever scheduled. */
  function Collected(q: Queue, backs: seq<real>): seq<real> {
    if |q.inFlight| <= |backs| then backs[..|backs| - |q.inFlight|] else []
  }

  /** No credit was collected before its return was due by t. */
  ghost predicate NoneEarly(q: Queue, backs: seq<real>, t: real) {
    AllBy(Collected(q, backs), t)
  }

  lemma TracksParts(c: Config, q: Queue, backs: seq<real>, collected: seq<real>)
    ensures Tracks(c, q, backs, collected) <==>
      && Inv(c, q) && backs == collected + q.inFlight && Sorted(backs)
      && (backs != [] ==> backs[|backs| - 1] == q.free + c.writeback)
  {
  }

  /** What an advance collects, and what it leaves. */
  lemma {:induction false} AdvanceSplits(q: Queue, t: real)
    ensures var k := |q.inFlight| - |Advance(q, t).inFlight|;
      && 0 <= k <= |q.inFlight| && q.inFlight == q.inFlight[..k] + Advance(q, t).inFlight
      && AllBy(q.inFlight[..k], t) && Advance(q, t).free == q.free
  {
    AdvanceEffect(q, t);
    hide Advance;
  }

  lemma {:induction false} AllByConcat(a: seq<real>, b: seq<real>, t: real)
    ensures AllBy(a + b, t) <==> AllBy(a, t) && AllBy(b, t)
  {
    if AllBy(a + b, t) {
      forall i | 0 <= i < |a| ensures a[i] <= t {
        assert (a + b)[i] == a[i];
      }
      forall i | 0 <= i < |b| ensures b[i] <= t {
        assert (a + b)[|a| + i] == b[i];
      }
    }
  }

  lemma {:induction false} AllByLater(a: seq<real>, t: real, u: real)
    requires AllBy(a, t) && t <= u
    ensures AllBy(a, u)
  {
  }

  lemma {:induction false} AdvanceKeepsTracks(c: Config, q: Queue, backs: seq<real>, collected: seq<real>, t: real)
    returns (collected': seq<real>)
    requires Tracks(c, q, backs, collected)
    ensures Tracks(c, Advance(q, t), backs, collected')
    ensures forall u :: u >= t && AllBy(collected, u) ==> AllBy(collected', u)
  {
    hide *;
    TracksParts(c, q, backs, collected);
    AdvanceKeepsInv(c, q, t);
    AdvanceSplits(q, t);
    var due := q.inFlight[..|q.inFlight| - |Advance(q, t).inFlight|];
    collected' := collected + due;
    assert backs == collected' + Advance(q, t).inFlight;
    forall u | u >= t && AllBy(collected, u) ensures AllBy(collected', u) {
      AllByLater(due, t, u);
      AllByConcat(collected, due, u);
    }
    TracksParts(c, Advance(q, t), backs, collected');
  }

  lemma {:induction false} TakeKeepsTracks(c: Config, q: Queue, backs: seq<real>, collected: seq<real>, tGen: real,
        size: nat, arrive: real, app: real)
    requires Tracks(c, q, backs, collected) && q.credits > 0 && app >= 0.0
    ensures var q' := Take(c, q, tGen, size, arrive, app);
      Tracks(c, q', backs + [q'.free + c.writeback], collected)
  {
    TakeKeepsInv(c, q, tGen, size, arrive, app);
    TracksParts(c, q, backs, collected);
    var q' := Take(c, q, tGen, size, arrive, app);
    var back := q'.free + c.writeback;
    assert q'.inFlight == q.inFlight + [back] && q.free <= q'.free;
    hide *;
    assert backs + [back] == collected + (q.inFlight + [back]);
    SortedSnoc(backs, back);
    TracksParts(c, q', backs + [back], collected);
  }

  lemma {:induction false} DropKeepsTracks(c: Config, q: Queue, q': Queue, backs: seq<real>, collected: seq<real>)
    requires Tracks(c, q, backs, collected)
    requires q'.credits == q.credits && q'.free == q.free && q'.inFlight == q.inFlight
    ensures Tracks(c, q', backs, collected)
  {
  }

  lemma {:induction false} SortedSnoc(s: seq<real>, x: real)
    requires Sorted(s) && (s != [] ==> s[|s| - 1] <= x)
    ensures Sorted(s + [x])
  {
    forall i, j | 0 <= i < j < |s + [x]| ensures (s + [x])[i] <= (s + [x])[j] {
      if j == |s| {
        assert s[i] <= s[|s| - 1];
      }
    }
  }

  /** The law of occupancy, at any time of reading: the packets still in flight by the return times are those
      the occupancy counts and those whose credit was collected early. */
  lemma {:induction false} InFlightIsOccupancyPlusEarly(c: Config, q: Queue, backs: seq<real>, collected: seq<real>,
        t: real)
    requires Tracks(c, q, backs, collected)
    ensures Collected(q, backs) == collected
    ensures CountAfter(backs, t) == (c.depth - Advance(q, t).credits) + CountAfter(collected, t)
    ensures CountAfter(collected, t) == 0 <==> AllBy(collected, t)
  {
    TracksParts(c, q, backs, collected);
    assert Collected(q, backs) == collected;
    OccupancyCounts(c, q, t);
    hide *;
    CountAfterConcat(collected, q.inFlight, t);
    CountAfterNone(collected, t);
  }

  /** The occupancy after an advance counts the returns in flight that lie ahead. */
  lemma {:induction false} OccupancyCounts(c: Config, q: Queue, t: real)
    requires Inv(c, q)
    ensures CountAfter(q.inFlight, t) == c.depth - Advance(q, t).credits
  {
    AdvanceKeepsInv(c, q, t);
    AdvanceSplits(q, t);
    RestIsAhead(c, q, t);
    var rest := Advance(q, t).inFlight;
    var due := q.inFlight[..|q.inFlight| - |rest|];
    assert |rest| == c.depth - Advance(q, t).credits;
    hide *;
    CountAfterNone(due, t);
    CountAfterAll(rest, t);
    CountAfterConcat(due, rest, t);
  }

  lemma {:induction false} RestIsAhead(c: Config, q: Queue, t: real)
    requires Inv(c, q)
    ensures var rest := Advance(q, t).inFlight; forall i :: 0 <= i < |rest| ==> rest[i] > t
  {
    AdvanceKeepsInv(c, q, t);
    AdvanceEffect(q, t);
    hide Advance;
    var rest := Advance(q, t).inFlight;
    forall i | 0 <= i < |rest| ensures rest[i] > t {
      if i > 0 {
        assert rest[0] <= rest[i];
      }
    }
  }

  // ---------- Runs of operations ----------

  /** An operation of the queue: a clock advance, or an attempt to admit a packet. */
  datatype Op = Clock(t: real) | Offer(t: real, size: nat, arrive: real, app: real)

  /** The queue after a run, with the credit-return time of every packet it ever admitted and the
      latest time it has seen. */
  datatype History = History(q: Queue, backs: seq<real>, latest: Option<real>)

  function Later(latest: Option<real>, t: real): real {
    if latest.Some? then Max(latest.value, t) else t
  }

  function Step(c: Config, h: History, op: Op): History {
    var latest := Some(Later(h.latest, op.t));
    match op
    case Clock(t) => History(Advance(h.q, t), h.backs, latest)
    case Offer(t, size, arrive, app) =>
      var (q, ok) := TryAdmit(c, h.q, t, size, arrive, app);
      History(q, if ok then h.backs + [q.free + c.writeback] else h.backs, latest)
  }

  function Run(c: Config, ops: seq<Op>): History {
    if ops == [] then History(Initial(c), [], None) else Step(c, Run(c, ops[..|ops| - 1]), ops[|ops| - 1])
  }

  ghost predicate NonNegativeService(ops: seq<Op>) {
    forall i :: 0 <= i < |ops| && ops[i].Offer? ==> ops[i].app >= 0.0
  }

  lemma TryAdmitKeepsInv(c: Config, q: Queue, tGen: real, size: nat, arrive: real, app: real)
    requires Inv(c, q) && app >= 0.0
    ensures Inv(c, TryAdmit(c, q, tGen, size, arrive, app).0)
  {
    AdvanceKeepsInv(c, q, tGen);
    var q1 := Advance(q, tGen);
    if q1.credits > 0 {
      TakeKeepsInv(c, q1, tGen, size, arrive, app);
    }
  }

  /** An attempt to admit: the return time of an admitted packet joins the list. */
  lemma {:induction false} TryAdmitKeepsTracks(c: Config, q: Queue, backs: seq<real>, collected: seq<real>, tGen: real,
        size: nat, arrive: real, app: real) returns (collected': seq<real>)
    requires Tracks(c, q, backs, collected) && app >= 0.0
    ensures var (q', ok) := TryAdmit(c, q, tGen, size, arrive, app);
      Tracks(c, q', if ok then backs + [q'.free + c.writeback] else backs, collected')
    ensures forall u :: u >= tGen && AllBy(collected, u) ==> AllBy(collected', u)
  {
    hide *;
    var q1 := Advance(q, tGen);
    TryAdmitCases(c, q, tGen, size, arrive, app);
    collected' := AdvanceKeepsTracks(c, q, backs, collected, tGen);
    if q1.credits > 0 {
      TakeKeepsTracks(c, q1, backs, collected', tGen, size, arrive, app);
    } else {
      CreditDropKeepsTracks(c, q1, backs, collected', size);
    }
  }

  lemma {:induction false} CreditDropKeepsTracks(c: Config, q: Queue, backs: seq<real>, collected: seq<real>, size: nat)
    requires Tracks(c, q, backs, collected)
    ensures Tracks(c, CreditDrop(q, size), backs, collected)
  {
    DropKeepsTracks(c, q, CreditDrop(q, size), backs, collected);
  }

  lemma TryAdmitCases(c: Config, q: Queue, tGen: real, size: nat, arrive: real, app: real)
    ensures var q1 := Advance(q, tGen);
      TryAdmit(c, q, tGen, size, arrive, app)
      == if q1.credits > 0 then (Take(c, q1, tGen, size, arrive, app), true) else (CreditDrop(q1, size), false)
  {
    hide Advance;
  }

  /** The list of a history is complete, and nothing was collected later than the latest time seen. */
  ghost predicate Complete(c: Config, h: History, collected: seq<real>) {
    && Tracks(c, h.q, h.backs, collected) && (h.latest.None? ==> collected == [])
    && (h.latest.Some? ==> AllBy(collected, h.latest.value))
  }

  lemma {:induction false} StepStaysComplete(c: Config, h: History, collected: seq<real>, op: Op)
    returns (collected': seq<real>)
    requires Complete(c, h, collected) && (op.Offer? ==> op.app >= 0.0)
    ensures Complete(c, Step(c, h, op), collected')
  {
    hide *;
    CompleteParts(c, h, collected, op.t);
    StepCases(c, h, op);
    if op.Clock? {
      collected' := AdvanceKeepsTracks(c, h.q, h.backs, collected, op.t);
    } else {
      collected' := TryAdmitKeepsTracks(c, h.q, h.backs, collected, op.t, op.size, op.arrive, op.app);
    }
    CompleteBy(c, Step(c, h, op), collected');
  }

  lemma {:induction false} CompleteParts(c: Config, h: History, collected: seq<real>, t: real)
    requires Complete(c, h, collected)
    ensures Tracks(c, h.q, h.backs, collected)
    ensures Later(h.latest, t) >= t && AllBy(collected, Later(h.latest, t))
  {
    if h.latest.Some? {
      AllByLater(collected, h.latest.value, Later(h.latest, t));
    }
    hide Tracks;
  }

  lemma StepCases(c: Config, h: History, op: Op)
    ensures Step(c, h, op).latest == Some(Later(h.latest, op.t))
    ensures op.Clock? ==> Step(c, h, op).q == Advance(h.q, op.t) && Step(c, h, op).backs == h.backs
    ensures op.Offer? ==>
      var (q, ok) := TryAdmit(c, h.q, op.t, op.size, op.arrive, op.app);
      Step(c, h, op).q == q && Step(c, h, op).backs == if ok then h.backs + [q.free + c.writeback] else h.backs
  {
    hide Advance, TryAdmit;
  }

  lemma CompleteBy(c: Config, h: History, collected: seq<real>)
    requires Tracks(c, h.q, h.backs, collected) && h.latest.Some? && AllBy(collected, h.latest.value)
    ensures Complete(c, h, collected)
  {
  }

  lemma {:induction false} RunTracks(c: Config, ops: seq<Op>) returns (collected: seq<real>)
    requires NonNegativeService(ops)
    ensures Complete(c, Run(c, ops), collected)
  {
    if ops == [] {
      collected := [];
    } else {
      var op, before := ops[|ops| - 1], ops[..|ops| - 1];
      assert NonNegativeService(before) && Run(c, ops) == Step(c, Run(c, before), op);
      hide Run, Step, Complete, Tracks;
      collected := RunTracks(c, before);
      collected := StepStaysComplete(c, Run(c, before), collected, op);
    }
  }

  /** After any run, read at any time: the occupancy D_q - V_q is the number of admitted packets whose return
      still lies ahead if and only if no credit was collected whose return lies ahead, which holds at every
      time not before those the queue has seen. */
  lemma {:induction false} OccupancyIsInFlight(c: Config, ops: seq<Op>, t: real)
    requires NonNegativeService(ops)
    ensures var h := Run(c, ops);
      && (c.depth - Advance(h.q, t).credits == CountAfter(h.backs, t) <==> NoneEarly(h.q, h.backs, t))
      && ((h.latest.Some? ==> h.latest.value <= t) ==> NoneEarly(h.q, h.backs, t))
  {
    var collected := RunTracks(c, ops);
    var h := Run(c, ops);
    InFlightIsOccupancyPlusEarly(c, h.q, h.backs, collected, t);
    hide Advance, CountAfter, Run, Tracks;
    if h.latest.Some? && h.latest.value <= t {
      AllByLater(collected, h.latest.value, t);
    }
  }

  /** A packet is refused exactly when as many packets are in flight as there are descriptors and credits
      collected early. So a drop always means a full ring, and a full ring always means a drop if and only if
      no credit was collected early. */
  lemma {:induction false} RefusedIffRingFull(c: Config, ops: seq<Op>, t: real, size: nat, arrive: real, app: real)
    requires NonNegativeService(ops)
    ensures var h := Run(c, ops);
      var inFlight, early := CountAfter(h.backs, t), CountAfter(Collected(h.q, h.backs), t);
      var refused := !TryAdmit(c, h.q, t, size, arrive, app).1;
      && inFlight <= c.depth + early && (refused <==> inFlight == c.depth + early)
      && (early == 0 <==> NoneEarly(h.q, h.backs, t))
  {
    var collected := RunTracks(c, ops);
    var h := Run(c, ops);
    AdvanceKeepsInv(c, h.q, t);
    hide Advance, CountAfter, Run, Sorted;
    InFlightIsOccupancyPlusEarly(c, h.q, h.backs, collected, t);
  }

  /** A ring of two descriptors and no writeback time; two packets, the second stamped ahead of what comes next. */
  const TIGHT := Config(2, 0.0, 0.0, 0.0, 0.0, 1.0)
  const FIRST := Offer(0.0, 100, 5.0, 5.0)
  const AHEAD := Offer(12.0, 100, 112.0, 5.0)

  lemma FirstReturns()
    ensures var h := Run(TIGHT, [FIRST]);
      h.backs == [10.0] && h.q.inFlight == [10.0] && h.q.credits == 1 && h.q.free == 10.0
  {
    assert [FIRST][..0] == [];
    assert Run(TIGHT, [FIRST]) == Step(TIGHT, Run(TIGHT, []), FIRST);
  }

  lemma AheadCollects()
    ensures var h := Run(TIGHT, [FIRST, AHEAD]);
      h.backs == [10.0, 117.0] && h.q.inFlight == [117.0] && h.q.credits == 1
  {
    FirstReturns();
    var h := Run(TIGHT, [FIRST]);
    assert [FIRST, AHEAD][..1] == [FIRST];
    assert Run(TIGHT, [FIRST, AHEAD]) == Step(TIGHT, h, AHEAD);
    hide Run;
    assert Advance(h.q, 12.0) == Collect(h.q);
  }

  /** A packet admitted into a full ring: one descriptor too many is in flight at time 8, since the second
      packet, stamped 12, has collected the return of the first one, due at 10. */
  lemma StampAheadOverfillsRing()
    ensures var h := Run(TIGHT, [FIRST, AHEAD]);
      CountAfter(h.backs, 8.0) == TIGHT.depth && TryAdmit(TIGHT, h.q, 8.0, 100, 108.0, 5.0).1
  {
    AheadCollects();
    hide Run;
    assert [10.0, 117.0][..1] == [10.0] && [10.0][..0] == [];
    assert CountAfter([10.0], 8.0) == 1;
  }

  /** A queue never holds more than D_q packets between credit take and credit return, whatever the run. */
  lemma CreditsConserved(c: Config, ops: seq<Op>)
    requires NonNegativeService(ops)
    ensures var q := Run(c, ops).q;
      && q.credits + |q.inFlight| == c.depth
      && 0 <= q.credits <= c.depth
      && Sorted(q.inFlight)
  {
    var _ := RunTracks(c, ops);
    hide Run;
  }

  // ---------- Order of service ----------

  lemma TryAdmitServes(c: Config, q: Queue, tGen: real, size: nat, arrive: real, app: real)
    requires app >= 0.0
    ensures var (q', ok) := TryAdmit(c, q, tGen, size, arrive, app);
      && q'.free >= q.free
      && (ok ==> q'.free >= arrive + app && q'.free >= q.free + app)
  {
    AdvanceEffect(q, tGen);
  }

  lemma {:induction false} FreeNeverGoesBack(c: Config, ops: seq<Op>, i: nat)
    requires NonNegativeService(ops) && i <= |ops|
    ensures Run(c, ops[..i]).q.free <= Run(c, ops).q.free
  {
    if i == |ops| {
      assert ops[..i] == ops;
    } else {
      var n := |ops| - 1;
      FreeNeverGoesBack(c, ops[..n], i);
      assert ops[..n][..i] == ops[..i];
      StepNeverGoesBack(c, Run(c, ops[..n]), ops[n]);
      hide Step;
    }
  }

  lemma StepNeverGoesBack(c: Config, h: History, op: Op)
    requires op.Offer? ==> op.app >= 0.0
    ensures Step(c, h, op).q.free >= h.q.free
  {
    if op.Offer? {
      TryAdmitServes(c, h.q, op.t, op.size, op.arrive, op.app);
    }
    AdvanceEffect(h.q, op.t);
    hide TryAdmit, Advance;
  }

  /** The end of service of the packet that the i-th operation of a run admits. */
  function EndOfService(c: Config, ops: seq<Op>, i: nat): Option<real>
    requires i < |ops|
  {
    match ops[i]
    case Clock(_) => None
    case Offer(t, size, arrive, app) =>
      var (q, ok) := TryAdmit(c, Run(c, ops[..i]).q, t, size, arrive, app);
      if ok then Some(q.free) else None
  }

  lemma EndIsFree(c: Config, ops: seq<Op>, i: nat)
    requires NonNegativeService(ops) && i < |ops| && EndOfService(c, ops, i).Some?
    ensures EndOfService(c, ops, i).value == Run(c, ops[..i + 1]).q.free
    ensures EndOfService(c, ops, i).value >= ops[i].arrive + ops[i].app
    ensures EndOfService(c, ops, i).value >= Run(c, ops[..i]).q.free + ops[i].app
  {
    var op := ops[i];
    assert ops[..i + 1][..i] == ops[..i];
    TryAdmitServes(c, Run(c, ops[..i]).q, op.t, op.size, op.arrive, op.app);
    hide TryAdmit, Advance;
  }

  /** Of two packets a run admits, the one admitted later ends its service later, by at least its own service
      time, and no sooner than its own ring arrival allows: one core, first come first served. */
  lemma ServiceIsFifo(c: Config, ops: seq<Op>, i: nat, j: nat)
    requires NonNegativeService(ops) && i < j < |ops|
    requires EndOfService(c, ops, i).Some? && EndOfService(c, ops, j).Some?
    ensures EndOfService(c, ops, i).value + ops[j].app <= EndOfService(c, ops, j).value
    ensures ops[j].arrive + ops[j].app <= EndOfService(c, ops, j).value
  {
    EndIsFree(c, ops, i);
    EndIsFree(c, ops, j);
    assert ops[..j][..i + 1] == ops[..i + 1];
    FreeNeverGoesBack(c, ops[..j], i + 1);
    hide EndOfService, Run;
  }
}

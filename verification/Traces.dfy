/** Cursor slicing of per-flow packet timelines into bins, as values. The class that advances the
    cursors in place is in TraceSet.dfy. */
module Traces {
  import opened Common
  import R = Redirection

  /** One flow's timeline, its RSS bucket, and the index of its first packet not yet emitted. */
  datatype Flow = Flow(times: seq<int>, sizes: seq<nat>, bucket: nat, cursor: nat)

  predicate Ascending(times: seq<int>) {
    forall i, j :: 0 <= i < j < |times| ==> times[i] <= times[j]
  }

  predicate WellFormed(f: Flow) {
    |f.sizes| == |f.times| && f.cursor <= |f.times| && Ascending(f.times)
  }

  predicate AllWellFormed(flows: seq<Flow>) {
    forall i :: 0 <= i < |flows| ==> WellFormed(flows[i])
  }

  /** Left insertion point of t in a sorted sequence. */
  function Below(times: seq<int>, t: int): (k: nat)
    ensures k <= |times|
    ensures forall i :: 0 <= i < k ==> times[i] < t
    ensures k < |times| ==> times[k] >= t
  {
    if times == [] || times[0] >= t then 0
    else
      assert forall i :: 0 < i < |times| ==> times[i] == times[1..][i - 1];
      1 + Below(times[1..], t)
  }

  // ---------- One bin ----------

  /** Cursor of a flow once everything before tEnd is emitted. */
  function CursorAt(f: Flow, tEnd: int): (k: nat)
    requires WellFormed(f)
    ensures f.cursor <= k <= |f.times|
  {
    f.cursor + Below(f.times[f.cursor..], tEnd)
  }

  function PacketAt(f: Flow, i: nat): Packet
    requires i < |f.times| && |f.sizes| == |f.times|
  {
    Packet(f.times[i], f.sizes[i], f.bucket)
  }

  /** Packets a up to b of a flow. */
  function Span(f: Flow, a: nat, b: nat): (s: seq<Packet>)
    requires WellFormed(f) && a <= b <= |f.times|
    ensures |s| == b - a
  {
    seq(b - a, i requires 0 <= i < b - a => PacketAt(f, a + i))
  }

  function Slice(f: Flow, tEnd: int): seq<Packet>
    requires WellFormed(f)
  {
    Span(f, f.cursor, CursorAt(f, tEnd))
  }

  function Advanced(f: Flow, tEnd: int): (f': Flow)
    requires WellFormed(f)
    ensures WellFormed(f')
  {
    f.(cursor := CursorAt(f, tEnd))
  }

  function AllAdvanced(flows: seq<Flow>, tEnd: int): (r: seq<Flow>)
    requires AllWellFormed(flows)
    ensures |r| == |flows| && AllWellFormed(r)
    ensures forall i :: 0 <= i < |r| ==> r[i] == Advanced(flows[i], tEnd)
  {
    seq(|flows|, i requires 0 <= i < |flows| => Advanced(flows[i], tEnd))
  }

  /** The cursor moves by the insertion point in what is left. */
  lemma AdvanceByBelow(f: Flow, tEnd: int)
    requires WellFormed(f)
    ensures var hi := Below(f.times[f.cursor..], tEnd);
      && (f.cursor >= |f.times| ==> hi == 0) && f.cursor + hi <= |f.times|
      && Advanced(f, tEnd) == f.(cursor := f.cursor + hi) && Slice(f, tEnd) == Span(f, f.cursor, f.cursor + hi)
  {
  }

  /** The slices of all flows, flow after flow. */
  function Collected(flows: seq<Flow>, tEnd: int): seq<Packet>
    requires AllWellFormed(flows)
  {
    if flows == [] then []
    else Collected(flows[..|flows| - 1], tEnd) + Slice(flows[|flows| - 1], tEnd)
  }

  lemma CollectedNext(flows: seq<Flow>, k: nat, tEnd: int)
    requires AllWellFormed(flows) && k < |flows|
    ensures Collected(flows[..k + 1], tEnd) == Collected(flows[..k], tEnd) + Slice(flows[k], tEnd)
  {
    assert flows[..k + 1][..k] == flows[..k];
  }

  lemma NothingCollected(tEnd: int)
    ensures Collected([], tEnd) == []
  {
  }

  // ---------- Stable sort by time ----------

  /** Insert after every packet that is not later. */
  function InsertByTime(s: seq<Packet>, p: Packet): seq<Packet> {
    if s == [] || s[|s| - 1].t <= p.t then s + [p]
    else InsertByTime(s[..|s| - 1], p) + [s[|s| - 1]]
  }

  function SortByTime(s: seq<Packet>): seq<Packet> {
    if s == [] then [] else InsertByTime(SortByTime(s[..|s| - 1]), s[|s| - 1])
  }

  lemma {:induction false} SortLast(s: seq<Packet>)
    requires s != []
    ensures s == s[..|s| - 1] + [s[|s| - 1]]
    ensures SortByTime(s) == InsertByTime(SortByTime(s[..|s| - 1]), s[|s| - 1])
  {
    hide InsertByTime;
  }

  /** The packets of one instant, in order. */
  function AtInstant(s: seq<Packet>, t: int): seq<Packet> {
    if s == [] then []
    else AtInstant(s[..|s| - 1], t) + if s[|s| - 1].t == t then [s[|s| - 1]] else []
  }

  lemma AtInstantSnoc(s: seq<Packet>, p: Packet, t: int)
    ensures AtInstant(s + [p], t) == AtInstant(s, t) + if p.t == t then [p] else []
  {
    assert (s + [p])[..|s|] == s;
  }

  lemma {:induction false} InsertPermutes(s: seq<Packet>, p: Packet)
    ensures multiset(InsertByTime(s, p)) == multiset(s) + multiset{p}
  {
    if s != [] && s[|s| - 1].t > p.t {
      InsertPermutes(s[..|s| - 1], p);
      assert s == s[..|s| - 1] + [s[|s| - 1]];
    }
  }

  lemma {:induction false} InsertSorts(s: seq<Packet>, p: Packet)
    requires TimeOrdered(s)
    ensures TimeOrdered(InsertByTime(s, p))
  {
    if s != [] && s[|s| - 1].t > p.t {
      var front, last := s[..|s| - 1], s[|s| - 1];
      InsertSorts(front, p);
      InsertPermutes(front, p);
      var r := InsertByTime(front, p);
      hide InsertByTime;
      forall i | 0 <= i < |r| ensures r[i].t <= last.t {
        assert r[i] in multiset(r);
        assert r[i] in front || r[i] == p;
      }
    }
  }

  lemma InsertLast(s: seq<Packet>, p: Packet)
    ensures s == [] || s[|s| - 1].t <= p.t ==> InsertByTime(s, p) == s + [p]
    ensures s != [] && s[|s| - 1].t > p.t ==> InsertByTime(s, p) == InsertByTime(s[..|s| - 1], p) + [s[|s| - 1]]
  {
  }

  lemma {:induction false} InsertIsStable(s: seq<Packet>, p: Packet, t: int)
    requires TimeOrdered(s)
    ensures AtInstant(InsertByTime(s, p), t) == AtInstant(s, t) + if p.t == t then [p] else []
  {
    InsertLast(s, p);
    if s == [] || s[|s| - 1].t <= p.t {
      hide *;
      AtInstantSnoc(s, p, t);
    } else {
      var front, last := s[..|s| - 1], s[|s| - 1];
      assert TimeOrdered(front);
      hide *;
      InsertIsStable(front, p, t);
      AtInstantSnoc(InsertByTime(front, p), last, t);
      AtInstantSnoc(front, last, t);
      assert s == front + [last];
      if p.t == t {
        assert last.t != t;
      }
    }
  }

  /** The sorted output is in time order, is a permutation, and keeps the order of simultaneous packets. */
  lemma {:induction false} SortIsStable(s: seq<Packet>, t: int)
    ensures TimeOrdered(SortByTime(s)) && multiset(SortByTime(s)) == multiset(s)
    ensures AtInstant(SortByTime(s), t) == AtInstant(s, t)
  {
    if s != [] {
      var front, last := s[..|s| - 1], s[|s| - 1];
      SortIsStable(front, t);
      InsertSorts(SortByTime(front), last);
      InsertPermutes(SortByTime(front), last);
      InsertIsStable(SortByTime(front), last, t);
      AtInstantSnoc(front, last, t);
      SortLast(s);
      hide *;
    }
  }

  function BinPackets(flows: seq<Flow>, tEnd: int): seq<Packet>
    requires AllWellFormed(flows)
  {
    SortByTime(Collected(flows, tEnd))
  }

  lemma BinIsSorted(flows: seq<Flow>, tEnd: int)
    requires AllWellFormed(flows)
    ensures BinPackets(flows, tEnd) == SortByTime(Collected(flows, tEnd))
  {
  }

  // ---------- Windows: what a bin should contain ----------

  /** Every packet of every flow with its current bucket. */
  function AllPackets(flows: seq<Flow>): seq<Packet>
    requires AllWellFormed(flows)
  {
    if flows == [] then []
    else AllPackets(flows[..|flows| - 1]) + Span(flows[|flows| - 1], 0, |flows[|flows| - 1].times|)
  }

  /** The packets with lo <= t < hi. */
  function Window(s: seq<Packet>, lo: int, hi: int): seq<Packet> {
    if s == [] then []
    else Window(s[..|s| - 1], lo, hi) + if lo <= s[|s| - 1].t < hi then [s[|s| - 1]] else []
  }

  /** Everything before time t has been emitted and nothing from t on. */
  predicate Synced(f: Flow, t: int)
    requires WellFormed(f)
  {
    f.cursor == Below(f.times, t)
  }

  predicate AllSynced(flows: seq<Flow>, t: int)
    requires AllWellFormed(flows)
  {
    forall i :: 0 <= i < |flows| ==> Synced(flows[i], t)
  }

  /** A flow that starts a run: nothing emitted yet and no packet before the start. */
  lemma FreshIsSynced(f: Flow, start: int)
    requires WellFormed(f) && f.cursor == 0 && forall i :: 0 <= i < |f.times| ==> f.times[i] >= start
    ensures Synced(f, start)
  {
  }

  lemma AdvanceSyncs(f: Flow, lo: int, hi: int)
    requires WellFormed(f) && Synced(f, lo) && lo <= hi
    ensures Synced(Advanced(f, hi), hi)
  {
    var k, m := CursorAt(f, hi), Below(f.times, hi);
    var rest := f.times[f.cursor..];
    assert k < |f.times| ==> f.times[k] == rest[k - f.cursor] >= hi;
    assert k > f.cursor ==> rest[k - f.cursor - 1] == f.times[k - 1];
    assert f.cursor <= m;
  }

  lemma {:induction false} WindowConcat(a: seq<Packet>, b: seq<Packet>, lo: int, hi: int)
    ensures Window(a + b, lo, hi) == Window(a, lo, hi) + Window(b, lo, hi)
  {
    if b == [] {
      assert a + b == a;
    } else {
      var n := |b| - 1;
      WindowConcat(a, b[..n], lo, hi);
      assert (a + b)[..|a + b| - 1] == a + b[..n];
    }
  }

  lemma {:induction false} WindowAll(s: seq<Packet>, lo: int, hi: int)
    requires forall i :: 0 <= i < |s| ==> lo <= s[i].t < hi
    ensures Window(s, lo, hi) == s
  {
    if s != [] {
      WindowAll(s[..|s| - 1], lo, hi);
    }
  }

  lemma {:induction false} WindowNone(s: seq<Packet>, lo: int, hi: int)
    requires forall i :: 0 <= i < |s| ==> !(lo <= s[i].t < hi)
    ensures Window(s, lo, hi) == []
  {
    if s != [] {
      WindowNone(s[..|s| - 1], lo, hi);
    }
  }

  /** Where the times of a flow lie around its slice. */
  lemma SliceTimes(f: Flow, lo: int, hi: int)
    requires WellFormed(f) && Synced(f, lo) && lo <= hi
    ensures forall i :: 0 <= i < f.cursor ==> f.times[i] < lo
    ensures forall i :: f.cursor <= i < CursorAt(f, hi) ==> lo <= f.times[i] < hi
    ensures forall i :: CursorAt(f, hi) <= i < |f.times| ==> f.times[i] >= hi
    ensures Slice(f, hi) == Span(f, f.cursor, CursorAt(f, hi))
  {
    AdvanceSyncs(f, lo, hi);
  }

  lemma SpanSplit(f: Flow, a: nat, b: nat)
    requires WellFormed(f) && a <= b <= |f.times|
    ensures Span(f, 0, |f.times|) == Span(f, 0, a) + Span(f, a, b) + Span(f, b, |f.times|)
  {
  }

  lemma SpanOutside(f: Flow, a: nat, b: nat, lo: int, hi: int)
    requires WellFormed(f) && a <= b <= |f.times|
    requires forall i :: a <= i < b ==> f.times[i] < lo || f.times[i] >= hi
    ensures Window(Span(f, a, b), lo, hi) == []
  {
    forall i | 0 <= i < b - a ensures !(lo <= Span(f, a, b)[i].t < hi) {
      assert Span(f, a, b)[i] == PacketAt(f, a + i);
    }
    WindowNone(Span(f, a, b), lo, hi);
  }

  lemma SpanInside(f: Flow, a: nat, b: nat, lo: int, hi: int)
    requires WellFormed(f) && a <= b <= |f.times|
    requires forall i :: a <= i < b ==> lo <= f.times[i] < hi
    ensures Window(Span(f, a, b), lo, hi) == Span(f, a, b)
  {
    forall i | 0 <= i < b - a ensures lo <= Span(f, a, b)[i].t < hi {
      assert Span(f, a, b)[i] == PacketAt(f, a + i);
    }
    WindowAll(Span(f, a, b), lo, hi);
  }

  /** The slice of a flow in step with the clock is the window of its timeline. */
  lemma SliceIsWindow(f: Flow, lo: int, hi: int)
    requires WellFormed(f) && Synced(f, lo) && lo <= hi
    ensures Slice(f, hi) == Window(Span(f, 0, |f.times|), lo, hi)
  {
    var a, b, n := f.cursor, CursorAt(f, hi), |f.times|;
    assert a <= n;
    hide *;
    SliceTimes(f, lo, hi);
    SpanSplit(f, a, b);
    SpanOutside(f, 0, a, lo, hi);
    SpanInside(f, a, b, lo, hi);
    SpanOutside(f, b, n, lo, hi);
    var before, mid, after := Span(f, 0, a), Span(f, a, b), Span(f, b, n);
    WindowConcat(before + mid, after, lo, hi);
    WindowConcat(before, mid, lo, hi);
  }

  lemma {:induction false} CollectedIsWindow(flows: seq<Flow>, lo: int, hi: int)
    requires AllWellFormed(flows) && AllSynced(flows, lo) && lo <= hi
    ensures Collected(flows, hi) == Window(AllPackets(flows), lo, hi)
  {
    if flows != [] {
      hide Synced, Slice, Span;
      var n := |flows| - 1;
      CollectedIsWindow(flows[..n], lo, hi);
      SliceIsWindow(flows[n], lo, hi);
      WindowConcat(AllPackets(flows[..n]), Span(flows[n], 0, |flows[n].times|), lo, hi);
    }
  }

  // ---------- Runs of bins, with flows moved to other buckets in between ----------

  datatype Step = Bin(tEnd: int) | Rebucket(buckets: seq<nat>)

  function Moved(flows: seq<Flow>, buckets: seq<nat>): (r: seq<Flow>)
    requires AllWellFormed(flows) && |buckets| == |flows|
    ensures |r| == |flows| && AllWellFormed(r)
  {
    seq(|flows|, i requires 0 <= i < |flows| => flows[i].(bucket := buckets[i]))
  }

  /** Bin ends do not go back, and a move names a bucket for every flow. */
  predicate Ordered(steps: seq<Step>, start: int, n: nat) {
    if steps == [] then true
    else
      var before, last := steps[..|steps| - 1], steps[|steps| - 1];
      && Ordered(before, start, n)
      && match last
         case Bin(tEnd) => Clock(before, start) <= tEnd
         case Rebucket(buckets) => |buckets| == n
  }

  /** The end of the last bin. */
  function Clock(steps: seq<Step>, start: int): int {
    if steps == [] then start
    else match steps[|steps| - 1]
      case Bin(tEnd) => tEnd
      case Rebucket(_) => Clock(steps[..|steps| - 1], start)
  }

  function After(flows: seq<Flow>, steps: seq<Step>, start: int): (r: seq<Flow>)
    requires AllWellFormed(flows) && Ordered(steps, start, |flows|)
    ensures |r| == |flows| && AllWellFormed(r)
  {
    if steps == [] then flows
    else
      var r := After(flows, steps[..|steps| - 1], start);
      match steps[|steps| - 1]
      case Bin(tEnd) => AllAdvanced(r, tEnd)
      case Rebucket(buckets) => Moved(r, buckets)
  }

  lemma {:induction false} RunStaysSynced(flows: seq<Flow>, steps: seq<Step>, start: int)
    requires AllWellFormed(flows) && AllSynced(flows, start) && Ordered(steps, start, |flows|)
    ensures AllSynced(After(flows, steps, start), Clock(steps, start))
  {
    if steps != [] {
      var before, last := steps[..|steps| - 1], steps[|steps| - 1];
      RunStaysSynced(flows, before, start);
      var r := After(flows, before, start);
      hide Below;
      match last
      case Bin(tEnd) =>
        forall i | 0 <= i < |r| ensures Synced(AllAdvanced(r, tEnd)[i], tEnd) {
          AdvanceSyncs(r[i], Clock(before, start), tEnd);
        }
      case Rebucket(buckets) =>
    }
  }

  /** After any run, the next bin emits exactly the packets whose time lies between the end of the last
      bin and its own end, in time order. */
  lemma NextBinIsItsWindow(flows: seq<Flow>, steps: seq<Step>, start: int, tEnd: int)
    requires AllWellFormed(flows) && AllSynced(flows, start) && Ordered(steps, start, |flows|)
    requires Clock(steps, start) <= tEnd
    ensures var r := After(flows, steps, start);
      && TimeOrdered(BinPackets(r, tEnd))
      && multiset(BinPackets(r, tEnd)) == multiset(Window(AllPackets(r), Clock(steps, start), tEnd))
      && (forall p :: p in BinPackets(r, tEnd) ==> Clock(steps, start) <= p.t < tEnd)
  {
    RunStaysSynced(flows, steps, start);
    var r := After(flows, steps, start);
    CollectedIsWindow(r, Clock(steps, start), tEnd);
    SortIsStable(Collected(r, tEnd), 0);
    WindowMembers(AllPackets(r), Clock(steps, start), tEnd);
    hide SortByTime, Collected, Window, AllPackets, After, Clock, Ordered;
    forall p | p in BinPackets(r, tEnd) ensures Clock(steps, start) <= p.t < tEnd {
      assert p in multiset(BinPackets(r, tEnd));
    }
  }

  lemma {:induction false} WindowMembers(s: seq<Packet>, lo: int, hi: int)
    ensures forall p :: p in Window(s, lo, hi) ==> lo <= p.t < hi
  {
    if s != [] {
      WindowMembers(s[..|s| - 1], lo, hi);
    }
  }

  // ---------- Exactly once ----------

  /** A packet by its time and size: its bucket depends on when its flow was moved. */
  function Bare(s: seq<Packet>): (r: seq<Packet>)
    ensures |r| == |s|
  {
    seq(|s|, i requires 0 <= i < |s| => s[i].(bucket := 0))
  }

  lemma BareConcat(a: seq<Packet>, b: seq<Packet>)
    ensures Bare(a + b) == Bare(a) + Bare(b)
  {
  }

  lemma {:induction false} BarePermutation(a: seq<Packet>, b: seq<Packet>)
    requires multiset(a) == multiset(b)
    ensures multiset(Bare(a)) == multiset(Bare(b))
  {
    if a == [] {
      assert |b| == |multiset(b)| == 0;
    } else {
      var n := |a| - 1;
      assert a[n] in multiset(b);
      var i :| 0 <= i < |b| && b[i] == a[n];
      var b' := b[..i] + b[i + 1..];
      assert a == a[..n] + [a[n]];
      assert b == b[..i] + [b[i]] + b[i + 1..];
      assert multiset(b') == multiset(b) - multiset{a[n]};
      BarePermutation(a[..n], b');
      BareConcat(a[..n], [a[n]]);
      BareConcat(b[..i], b[i + 1..]);
      BareConcat(b[..i], [b[i]]);
      BareConcat(b[..i] + [b[i]], b[i + 1..]);
    }
  }

  lemma {:induction false} BareWindow(s: seq<Packet>, lo: int, hi: int)
    ensures Bare(Window(s, lo, hi)) == Window(Bare(s), lo, hi)
  {
    if s != [] {
      var n := |s| - 1;
      BareWindow(s[..n], lo, hi);
      assert Bare(s)[..n] == Bare(s[..n]);
      BareConcat(Window(s[..n], lo, hi), [s[n]]);
    }
  }

  /** All packets emitted by the bins of a run, one bin after the other. */
  function Emitted(flows: seq<Flow>, steps: seq<Step>, start: int): seq<Packet>
    requires AllWellFormed(flows) && Ordered(steps, start, |flows|)
  {
    if steps == [] then []
    else
      var before := steps[..|steps| - 1];
      Emitted(flows, before, start)
      + match steps[|steps| - 1]
        case Bin(tEnd) => BinPackets(After(flows, before, start), tEnd)
        case Rebucket(_) => []
  }

  lemma {:induction false} WindowsAdjoin(s: seq<Packet>, lo: int, mid: int, hi: int)
    requires lo <= mid <= hi
    ensures multiset(Window(s, lo, hi)) == multiset(Window(s, lo, mid)) + multiset(Window(s, mid, hi))
  {
    if s != [] {
      var n := |s| - 1;
      WindowsAdjoin(s[..n], lo, mid, hi);
    }
  }

  predicate SameTimeline(a: Flow, b: Flow) {
    a.times == b.times && a.sizes == b.sizes
  }

  /** Neither cursors nor buckets matter for the timeline. */
  lemma {:induction false} SamePackets(a: seq<Flow>, b: seq<Flow>)
    requires AllWellFormed(a) && AllWellFormed(b) && |a| == |b|
    requires forall i :: 0 <= i < |a| ==> SameTimeline(a[i], b[i])
    ensures Bare(AllPackets(a)) == Bare(AllPackets(b))
  {
    if a != [] {
      var n := |a| - 1;
      SamePackets(a[..n], b[..n]);
      var x, y := Span(a[n], 0, |a[n].times|), Span(b[n], 0, |b[n].times|);
      assert SameTimeline(a[n], b[n]);
      assert Bare(x) == Bare(y);
      BareConcat(AllPackets(a[..n]), x);
      BareConcat(AllPackets(b[..n]), y);
    }
  }

  lemma {:induction false} RunKeepsTimelines(flows: seq<Flow>, steps: seq<Step>, start: int)
    requires AllWellFormed(flows) && Ordered(steps, start, |flows|)
    ensures start <= Clock(steps, start)
    ensures forall i :: 0 <= i < |flows| ==> SameTimeline(After(flows, steps, start)[i], flows[i])
  {
    if steps != [] {
      RunKeepsTimelines(flows, steps[..|steps| - 1], start);
    }
  }

  /** One more bin emits what lies between the last end and its own, by time and size. */
  lemma NextBinIsBareWindow(flows: seq<Flow>, steps: seq<Step>, start: int, tEnd: int)
    requires AllWellFormed(flows) && AllSynced(flows, start) && Ordered(steps, start, |flows|)
    requires Clock(steps, start) <= tEnd
    ensures multiset(Bare(BinPackets(After(flows, steps, start), tEnd)))
         == multiset(Window(Bare(AllPackets(flows)), Clock(steps, start), tEnd))
  {
    var r := After(flows, steps, start);
    NextBinIsItsWindow(flows, steps, start, tEnd);
    RunKeepsTimelines(flows, steps, start);
    SamePackets(r, flows);
    hide BinPackets, After, Clock, Ordered, AllPackets, Window, Bare, AllWellFormed, AllSynced;
    BarePermutation(BinPackets(r, tEnd), Window(AllPackets(r), Clock(steps, start), tEnd));
    BareWindow(AllPackets(r), Clock(steps, start), tEnd);
  }

  /** The bins of a run, whatever flows are moved to other buckets between them, emit every packet before the
      last end exactly once and no other packet: together, by time and size, they emit the window from the
      start of the first to the end of the last. */
  lemma {:induction false} EachPacketOnce(flows: seq<Flow>, steps: seq<Step>, start: int)
    requires AllWellFormed(flows) && AllSynced(flows, start) && Ordered(steps, start, |flows|)
    ensures multiset(Bare(Emitted(flows, steps, start)))
         == multiset(Window(Bare(AllPackets(flows)), start, Clock(steps, start)))
  {
    if steps == [] {
      WindowNone(Bare(AllPackets(flows)), start, start);
    } else {
      var before, last := steps[..|steps| - 1], steps[|steps| - 1];
      EachPacketOnce(flows, before, start);
      if last.Bin? {
        RunKeepsTimelines(flows, before, start);
        NextBinIsBareWindow(flows, before, start, last.tEnd);
        WindowsAdjoin(Bare(AllPackets(flows)), start, Clock(before, start), last.tEnd);
        BareConcat(Emitted(flows, before, start), BinPackets(After(flows, before, start), last.tEnd));
      } else {
        assert Emitted(flows, before, start) + [] == Emitted(flows, before, start);
      }
      hide BinPackets, After, AllPackets, Window, Bare, AllSynced;
    }
  }

  /** The packets of a run come out in time order, all of them before its last end. */
  lemma {:induction false} EmittedInOrder(flows: seq<Flow>, steps: seq<Step>, start: int)
    requires AllWellFormed(flows) && AllSynced(flows, start) && Ordered(steps, start, |flows|)
    ensures TimeOrdered(Emitted(flows, steps, start))
    ensures forall p :: p in Emitted(flows, steps, start) ==> p.t < Clock(steps, start)
  {
    if steps != [] {
      var before, last := steps[..|steps| - 1], steps[|steps| - 1];
      EmittedInOrder(flows, before, start);
      RunKeepsTimelines(flows, before, start);
      var front := Emitted(flows, before, start);
      if last.Bin? {
        NextBinIsItsWindow(flows, before, start, last.tEnd);
        var bin := BinPackets(After(flows, before, start), last.tEnd);
        hide BinPackets, After, AllPackets, Window, AllSynced;
        forall i, j | 0 <= i < |front| && 0 <= j < |bin| ensures front[i].t <= bin[j].t {
          assert front[i] in front && bin[j] in bin;
        }
      } else {
        assert front + [] == front;
      }
    }
  }

  ghost predicate OnlyBins(steps: seq<Step>) {
    forall i :: 0 <= i < |steps| ==> steps[i].Bin?
  }

  lemma {:induction false} BinsKeepBuckets(flows: seq<Flow>, steps: seq<Step>, start: int)
    requires AllWellFormed(flows) && Ordered(steps, start, |flows|) && OnlyBins(steps)
    ensures AllPackets(After(flows, steps, start)) == AllPackets(flows)
  {
    if steps != [] {
      var before := steps[..|steps| - 1];
      BinsKeepBuckets(flows, before, start);
      AdvanceKeepsPackets(After(flows, before, start), steps[|steps| - 1].tEnd);
    }
  }

  lemma {:induction false} AdvanceKeepsPackets(flows: seq<Flow>, tEnd: int)
    requires AllWellFormed(flows)
    ensures AllPackets(AllAdvanced(flows, tEnd)) == AllPackets(flows)
  {
    if flows != [] {
      var n := |flows| - 1;
      AdvanceKeepsPackets(flows[..n], tEnd);
      assert AllAdvanced(flows, tEnd)[..n] == AllAdvanced(flows[..n], tEnd);
      assert Span(Advanced(flows[n], tEnd), 0, |flows[n].times|) == Span(flows[n], 0, |flows[n].times|);
    }
  }

  /** While no flow is moved, the packets come out exactly once with their buckets too. */
  lemma {:induction false} EachPacketOnceInItsBucket(flows: seq<Flow>, steps: seq<Step>, start: int)
    requires AllWellFormed(flows) && AllSynced(flows, start) && Ordered(steps, start, |flows|) && OnlyBins(steps)
    ensures multiset(Emitted(flows, steps, start)) == multiset(Window(AllPackets(flows), start, Clock(steps, start)))
  {
    if steps == [] {
      WindowNone(AllPackets(flows), start, start);
    } else {
      var before, last := steps[..|steps| - 1], steps[|steps| - 1];
      EachPacketOnceInItsBucket(flows, before, start);
      RunKeepsTimelines(flows, before, start);
      BinsKeepBuckets(flows, before, start);
      NextBinIsItsWindow(flows, before, start, last.tEnd);
      WindowsAdjoin(AllPackets(flows), start, Clock(before, start), last.tEnd);
      hide BinPackets, After, AllPackets, Window, AllSynced;
    }
  }

  // ---------- What the packets carry ----------

  /** The packets of a flow are those of its timeline. */
  lemma {:induction false} SpanCarries(f: Flow, a: nat, b: nat)
    requires WellFormed(f) && a <= b <= |f.times|
    ensures R.TotalSize(Span(f, a, b)) + SumNat(f.sizes[..a]) == SumNat(f.sizes[..b])
    ensures forall i :: 0 <= i < b - a ==> Span(f, a, b)[i].t == f.times[a + i] && Span(f, a, b)[i].bucket == f.bucket
  {
    var s := Span(f, a, b);
    forall i | 0 <= i < b - a ensures s[i].t == f.times[a + i] && s[i].bucket == f.bucket {
      assert s[i] == PacketAt(f, a + i);
    }
    if a < b {
      SpanCarries(f, a, b - 1);
      assert s[..|s| - 1] == Span(f, a, b - 1) && s[|s| - 1] == PacketAt(f, b - 1);
      assert f.sizes[..b][..b - 1] == f.sizes[..b - 1];
    }
  }

  /** Bytes of the timelines up to the cursors. */
  function Passed(flows: seq<Flow>): nat
    requires AllWellFormed(flows)
  {
    if flows == [] then 0
    else
      var f := flows[|flows| - 1];
      Passed(flows[..|flows| - 1]) + SumNat(f.sizes[..f.cursor])
  }

  lemma SizeConcat(a: seq<Packet>, b: seq<Packet>)
    ensures R.TotalSize(a + b) == R.TotalSize(a) + R.TotalSize(b)
  {
    if b == [] {
      assert a + b == a;
    } else {
      var n := |b| - 1;
      SizeConcat(a, b[..n]);
      assert (a + b)[..|a + b| - 1] == a + b[..n];
    }
  }

  lemma {:induction false} InsertKeepsSize(s: seq<Packet>, p: Packet)
    ensures R.TotalSize(InsertByTime(s, p)) == R.TotalSize(s) + p.size
  {
    SizeConcat(s, [p]);
    assert R.TotalSize([p]) == p.size by { assert [p][..0] == []; }
    if s != [] && s[|s| - 1].t > p.t {
      var front, last := s[..|s| - 1], s[|s| - 1];
      InsertKeepsSize(front, p);
      SizeConcat(InsertByTime(front, p), [last]);
      assert R.TotalSize([last]) == last.size by { assert [last][..0] == []; }
    }
  }

  lemma {:induction false} SortKeepsSize(s: seq<Packet>)
    ensures R.TotalSize(SortByTime(s)) == R.TotalSize(s)
  {
    if s != [] {
      SortKeepsSize(s[..|s| - 1]);
      InsertKeepsSize(SortByTime(s[..|s| - 1]), s[|s| - 1]);
      hide InsertByTime;
    }
  }

  lemma {:induction false} CollectedCarries(flows: seq<Flow>, tEnd: int)
    requires AllWellFormed(flows)
    ensures R.TotalSize(Collected(flows, tEnd)) + Passed(flows) == Passed(AllAdvanced(flows, tEnd))
  {
    if flows != [] {
      var n := |flows| - 1;
      CollectedCarries(flows[..n], tEnd);
      assert AllAdvanced(flows, tEnd)[..n] == AllAdvanced(flows[..n], tEnd);
      SpanCarries(flows[n], flows[n].cursor, CursorAt(flows[n], tEnd));
      SizeConcat(Collected(flows[..n], tEnd), Slice(flows[n], tEnd));
      hide R.TotalSize, SumNat, Span;
    }
  }

  lemma {:induction false} MovedKeepsPassed(flows: seq<Flow>, buckets: seq<nat>)
    requires AllWellFormed(flows) && |buckets| == |flows|
    ensures Passed(Moved(flows, buckets)) == Passed(flows)
  {
    if flows != [] {
      var n := |flows| - 1;
      MovedKeepsPassed(flows[..n], buckets[..n]);
      assert Moved(flows, buckets)[..n] == Moved(flows[..n], buckets[..n]);
    }
  }

  /** Over any run of bins and rebuckets the bytes emitted are those of the timelines that the cursors have passed. */
  lemma {:induction false} RunCarriesTimelines(flows: seq<Flow>, steps: seq<Step>, start: int)
    requires AllWellFormed(flows) && Ordered(steps, start, |flows|)
    ensures R.TotalSize(Emitted(flows, steps, start)) + Passed(flows) == Passed(After(flows, steps, start))
  {
    if steps != [] {
      var before, last := steps[..|steps| - 1], steps[|steps| - 1];
      RunCarriesTimelines(flows, before, start);
      var r := After(flows, before, start);
      match last
      case Bin(tEnd) =>
        CollectedCarries(r, tEnd);
        SortKeepsSize(Collected(r, tEnd));
        SizeConcat(Emitted(flows, before, start), BinPackets(r, tEnd));
        hide R.TotalSize, Passed, SortByTime, Collected;
      case Rebucket(buckets) =>
        MovedKeepsPassed(r, buckets);
        assert Emitted(flows, before, start) + [] == Emitted(flows, before, start);
    }
  }

  // ---------- The aggregate form ----------

  /** Per-bucket totals of a bin, flow by flow. */
  function BucketBytes(flows: seq<Flow>, tEnd: int, b: nat): nat
    requires AllWellFormed(flows)
  {
    if flows == [] then 0
    else
      var f := flows[|flows| - 1];
      BucketBytes(flows[..|flows| - 1], tEnd, b) + if f.bucket == b then R.TotalSize(Slice(f, tEnd)) else 0
  }

  function BucketCount(flows: seq<Flow>, tEnd: int, b: nat): nat
    requires AllWellFormed(flows)
  {
    if flows == [] then 0
    else
      var f := flows[|flows| - 1];
      BucketCount(flows[..|flows| - 1], tEnd, b) + if f.bucket == b then |Slice(f, tEnd)| else 0
  }

  /** The totals of all buckets. */
  function BytesPerBucket(flows: seq<Flow>, tEnd: int, n: nat): (r: seq<nat>)
    requires AllWellFormed(flows)
    ensures |r| == n
  {
    seq(n, b requires 0 <= b < n => BucketBytes(flows, tEnd, b))
  }

  function CountsPerBucket(flows: seq<Flow>, tEnd: int, n: nat): (r: seq<nat>)
    requires AllWellFormed(flows)
    ensures |r| == n
  {
    seq(n, b requires 0 <= b < n => BucketCount(flows, tEnd, b))
  }

  function Bump(s: seq<nat>, i: nat, x: nat): seq<nat>
    requires i < |s|
  {
    s[i := s[i] + x]
  }

  lemma NoTotals(tEnd: int, n: nat)
    ensures BytesPerBucket([], tEnd, n) == CountsPerBucket([], tEnd, n) == Fill(n, 0)
  {
  }

  lemma TotalsNext(flows: seq<Flow>, k: nat, tEnd: int, n: nat)
    requires AllWellFormed(flows) && k < |flows| && flows[k].bucket < n
    ensures BytesPerBucket(flows[..k + 1], tEnd, n)
         == Bump(BytesPerBucket(flows[..k], tEnd, n), flows[k].bucket, R.TotalSize(Slice(flows[k], tEnd)))
    ensures CountsPerBucket(flows[..k + 1], tEnd, n)
         == Bump(CountsPerBucket(flows[..k], tEnd, n), flows[k].bucket, |Slice(flows[k], tEnd)|)
  {
    assert flows[..k + 1][..k] == flows[..k];
    hide R.TotalSize, Slice;
  }

  lemma {:induction false} CountsConcat(a: seq<Packet>, s: seq<Packet>, b: nat)
    ensures R.BytesOf(a + s, b) == R.BytesOf(a, b) + R.BytesOf(s, b)
    ensures R.CountOf(a + s, b) == R.CountOf(a, b) + R.CountOf(s, b)
  {
    if s == [] {
      assert a + s == a;
    } else {
      var n := |s| - 1;
      CountsConcat(a, s[..n], b);
      assert (a + s)[..|a + s| - 1] == a + s[..n];
    }
  }

  lemma {:induction false} CountsOfOneBucket(s: seq<Packet>, home: nat, b: nat)
    requires forall i :: 0 <= i < |s| ==> s[i].bucket == home
    ensures R.BytesOf(s, b) == if home == b then R.TotalSize(s) else 0
    ensures R.CountOf(s, b) == if home == b then |s| else 0
  {
    if s != [] {
      CountsOfOneBucket(s[..|s| - 1], home, b);
    }
  }

  lemma CountsSnoc(s: seq<Packet>, p: Packet, b: nat)
    ensures R.BytesOf(s + [p], b) == R.BytesOf(s, b) + if p.bucket == b then p.size else 0
    ensures R.CountOf(s + [p], b) == R.CountOf(s, b) + if p.bucket == b then 1 else 0
  {
    assert (s + [p])[..|s|] == s;
  }

  lemma {:induction false} InsertKeepsCounts(s: seq<Packet>, p: Packet, b: nat)
    ensures R.BytesOf(InsertByTime(s, p), b) == R.BytesOf(s + [p], b)
    ensures R.CountOf(InsertByTime(s, p), b) == R.CountOf(s + [p], b)
  {
    if s != [] && s[|s| - 1].t > p.t {
      var front, last := s[..|s| - 1], s[|s| - 1];
      InsertKeepsCounts(front, p, b);
      CountsSnoc(InsertByTime(front, p), last, b);
      CountsSnoc(front, p, b);
      CountsSnoc(front, last, b);
      CountsSnoc(s, p, b);
      assert s == front + [last];
    }
  }

  lemma {:induction false} SortKeepsCounts(s: seq<Packet>, b: nat)
    ensures R.BytesOf(SortByTime(s), b) == R.BytesOf(s, b) && R.CountOf(SortByTime(s), b) == R.CountOf(s, b)
  {
    if s != [] {
      var front, last := s[..|s| - 1], s[|s| - 1];
      SortKeepsCounts(front, b);
      InsertKeepsCounts(SortByTime(front), last, b);
      CountsSnoc(SortByTime(front), last, b);
      CountsSnoc(front, last, b);
      SortLast(s);
      hide *;
    }
  }

  lemma SliceCounts(f: Flow, tEnd: int, b: nat)
    requires WellFormed(f)
    ensures R.BytesOf(Slice(f, tEnd), b) == if f.bucket == b then R.TotalSize(Slice(f, tEnd)) else 0
    ensures R.CountOf(Slice(f, tEnd), b) == if f.bucket == b then |Slice(f, tEnd)| else 0
  {
    var s := Slice(f, tEnd);
    assert forall i :: 0 <= i < |s| ==> s[i] == PacketAt(f, f.cursor + i);
    CountsOfOneBucket(s, f.bucket, b);
  }

  lemma {:induction false} CollectedCounts(flows: seq<Flow>, tEnd: int, b: nat)
    requires AllWellFormed(flows)
    ensures R.BytesOf(Collected(flows, tEnd), b) == BucketBytes(flows, tEnd, b)
    ensures R.CountOf(Collected(flows, tEnd), b) == BucketCount(flows, tEnd, b)
  {
    if flows == [] {
    } else {
      var n := |flows| - 1;
      CollectedCounts(flows[..n], tEnd, b);
      hide Slice, R.BytesOf, R.CountOf;
      SliceCounts(flows[n], tEnd, b);
      CountsConcat(Collected(flows[..n], tEnd), Slice(flows[n], tEnd), b);
    }
  }

  /** From the same cursors, the aggregate form of a bin is the per-bucket fold of its packets. */
  lemma AggregateIsFold(flows: seq<Flow>, tEnd: int, n: nat, b: nat)
    requires AllWellFormed(flows) && b < n
    ensures BytesPerBucket(flows, tEnd, n)[b] == R.BytesOf(BinPackets(flows, tEnd), b)
    ensures CountsPerBucket(flows, tEnd, n)[b] == R.CountOf(BinPackets(flows, tEnd), b)
  {
    CollectedCounts(flows, tEnd, b);
    SortKeepsCounts(Collected(flows, tEnd), b);
  }
}

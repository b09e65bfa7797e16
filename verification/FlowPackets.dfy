/** From the emissions of a flow to its packet timeline: packets of at most one MTU, spread evenly over each
    window, already in time order over the whole flow. */
module FlowPackets {
  import opened Common
  import F = FairShare
  import T = Traces

  /** Rounding of a non-negative number to the nearest integer, ties to the even one. */
  function Round(x: real): int
    requires x >= 0.0
  {
    var f := x.Floor;
    if x - f as real < 0.5 then f
    else if x - f as real > 0.5 then f + 1
    else if f % 2 == 0 then f else f + 1
  }

  /** How many packets carry the bytes of an emission. */
  function PacketCount(bytes: real, mtu: nat): (n: int)
    requires mtu > 0
  {
    Ceil(Ratio(bytes, mtu as real))
  }

  /** Time of the i-th of n packets spread evenly over a window. */
  function Stamp(e: F.Emission, n: int, i: nat): int
    requires n > 0
  {
    (e.start as real + Portion(i as real + 0.5, Ratio((e.end - e.start) as real, n as real))).Floor
  }

  function Stamps(e: F.Emission, n: int, k: nat): (s: seq<int>)
    requires n > 0
    ensures |s| == k
  {
    seq(k, i requires 0 <= i < k => Stamp(e, n, i))
  }

  /** The times before the horizon. */
  function Clamp(times: seq<int>, horizon: int): (s: seq<int>)
    ensures |s| <= |times|
  {
    if times == [] then []
    else Clamp(times[..|times| - 1], horizon) + if times[|times| - 1] < horizon then [times[|times| - 1]] else []
  }

  /** Sizes of k packets: full ones, and the remainder last when there is one. */
  function Sizes(bytes: real, mtu: nat, k: nat): (s: seq<nat>)
    requires bytes >= 0.0 && k > 0
    ensures |s| == k
  {
    var rem := Round(bytes) - Full(k - 1, mtu);
    var last := if 0 < rem < mtu then MaxInt(rem, 1) else mtu;
    seq(k - 1, _ => mtu) + [last]
  }

  /** Timeline of one emission. */
  function Timeline(e: F.Emission, mtu: nat, horizon: int): (r: (seq<int>, seq<nat>))
    requires mtu > 0
    ensures |r.0| == |r.1|
  {
    if e.bytes <= 0.0 || e.end <= e.start || PacketCount(e.bytes, mtu) <= 0 then ([], [])
    else
      var times := Clamp(Stamps(e, PacketCount(e.bytes, mtu), PacketCount(e.bytes, mtu)), horizon);
      if times == [] then ([], []) else (times, Sizes(e.bytes, mtu, |times|))
  }

  /** Timeline of a flow before the closing sort. */
  function Concatenated(es: seq<F.Emission>, mtu: nat, horizon: int): (r: (seq<int>, seq<nat>))
    requires mtu > 0
    ensures |r.0| == |r.1|
  {
    if es == [] then ([], [])
    else
      var front := Concatenated(es[..|es| - 1], mtu, horizon);
      var last := Timeline(es[|es| - 1], mtu, horizon);
      (front.0 + last.0, front.1 + last.1)
  }

  // ---------- Times ----------

  lemma FloorBounds(x: real, lo: int, hi: int)
    requires lo as real <= x < hi as real
    ensures lo <= x.Floor < hi
  {
  }

  lemma FloorMonotone(x: real, y: real)
    requires x <= y
    ensures x.Floor <= y.Floor
  {
  }

  /** Every time stamp lies in its window, and later packets are not earlier. */
  lemma StampBounds(e: F.Emission, n: int, i: nat, j: nat)
    requires e.start < e.end && i <= j < n
    ensures e.start <= Stamp(e, n, i) <= Stamp(e, n, j) < e.end
  {
    var win := (e.end - e.start) as real;
    var gap := Ratio(win, n as real);
    assert gap >= 0.0 && gap * n as real == win;
    GapBounds(gap, n, i, j, win);
    var a, b := Portion(i as real + 0.5, gap), Portion(j as real + 0.5, gap);
    FloorBounds(e.start as real + a, e.start, e.end);
    FloorBounds(e.start as real + b, e.start, e.end);
    FloorMonotone(e.start as real + a, e.start as real + b);
  }

  lemma GapBounds(gap: real, n: int, i: nat, j: nat, win: real)
    requires gap >= 0.0 && win > 0.0 && gap * n as real == win && i <= j < n
    ensures 0.0 <= Portion(i as real + 0.5, gap) <= Portion(j as real + 0.5, gap) < win
  {
    MulNonNegative(i as real + 0.5, gap);
    MulNonNegative((j - i) as real, gap);
    var left := n as real - (j as real + 0.5);
    assert left >= 0.5 && gap > 0.0;
    assert left * gap > 0.0;
  }

  /** Where the i-th of n packets is sent: in the middle of the i-th of n equal parts of the window, rounded down to
      the nanosecond. */
  lemma StampIsMiddle(e: F.Emission, n: int, i: nat)
    requires e.start < e.end && n > 0
    ensures var x, win := Stamp(e, n, i) - e.start, e.end - e.start;
      2 * n * x <= (2 * i + 1) * win < 2 * n * (x + 1)
  {
    hide *;
    var m, win, x := n as real, (e.end - e.start) as real, Stamp(e, n, i) - e.start;
    var at := Portion(i as real + 0.5, Ratio(win, m));
    StampIsFloor(e, n, i);
    MiddleTimes(i, n, e.end - e.start);
    TwiceTimes(m, x as real, at);
    TwiceTimes(m, at, (x + 1) as real);
    Integers(n, x, i, e.end - e.start);
  }

  lemma StampIsFloor(e: F.Emission, n: int, i: nat)
    requires n > 0
    ensures var x := Stamp(e, n, i) - e.start;
      x as real <= Portion(i as real + 0.5, Ratio((e.end - e.start) as real, n as real)) < (x + 1) as real
  {
  }

  lemma MiddleTimes(i: nat, n: int, win: int)
    requires n > 0
    ensures Portion(2.0 * n as real, Portion(i as real + 0.5, Ratio(win as real, n as real)))
         == Portion((2 * i + 1) as real, win as real)
  {
    var gap, m := Ratio(win as real, n as real), n as real;
    assert m * gap == win as real;
    assert (2.0 * m) * ((i as real + 0.5) * gap) == (2.0 * (i as real + 0.5)) * (m * gap);
  }

  lemma TwiceTimes(m: real, x: real, y: real)
    requires m > 0.0
    ensures x <= y ==> Portion(2.0 * m, x) <= Portion(2.0 * m, y)
    ensures x < y ==> Portion(2.0 * m, x) < Portion(2.0 * m, y)
  {
  }

  lemma Integers(n: int, x: int, i: nat, win: int)
    requires Portion(2.0 * n as real, x as real) <= Portion((2 * i + 1) as real, win as real)
        < Portion(2.0 * n as real, (x + 1) as real)
    ensures 2 * n * x <= (2 * i + 1) * win < 2 * n * (x + 1)
  {
    assert (2 * n * x) as real == Portion(2.0 * n as real, x as real);
    assert (2 * n * (x + 1)) as real == Portion(2.0 * n as real, (x + 1) as real);
    assert ((2 * i + 1) * win) as real == Portion((2 * i + 1) as real, win as real);
  }

  /** Times in order, all in [lo, hi). */
  ghost predicate OrderedIn(s: seq<int>, lo: int, hi: int) {
    && (forall i :: 0 <= i < |s| ==> lo <= s[i] < hi)
    && (forall i, j :: 0 <= i < j < |s| ==> s[i] <= s[j])
  }

  /** The clamp keeps exactly the times before the horizon. */
  lemma {:induction false} ClampKeepsBelow(times: seq<int>, horizon: int)
    ensures forall t :: t in Clamp(times, horizon) <==> t in times && t < horizon
  {
    if times != [] {
      ClampKeepsBelow(times[..|times| - 1], horizon);
      assert times == times[..|times| - 1] + [times[|times| - 1]];
    }
  }

  lemma {:induction false} ClampNothing(times: seq<int>, horizon: int)
    requires forall i :: 0 <= i < |times| ==> times[i] < horizon
    ensures Clamp(times, horizon) == times
  {
    if times != [] {
      ClampNothing(times[..|times| - 1], horizon);
    }
  }

  lemma StampsOrdered(e: F.Emission, n: int)
    requires e.start < e.end && n > 0
    ensures OrderedIn(Stamps(e, n, n), e.start, e.end)
  {
    forall i, j | 0 <= i <= j < n ensures e.start <= Stamp(e, n, i) <= Stamp(e, n, j) < e.end {
      StampBounds(e, n, i, j);
    }
    hide Stamp;
  }

  /** A positive emission inside the horizon keeps all its packets, in its window. */
  lemma TimelineOrdered(e: F.Emission, mtu: nat, horizon: int)
    requires mtu > 0 && e.start < e.end <= horizon && e.bytes > 0.0
    ensures PacketCount(e.bytes, mtu) > 0 && |Timeline(e, mtu, horizon).0| == PacketCount(e.bytes, mtu)
    ensures OrderedIn(Timeline(e, mtu, horizon).0, e.start, e.end)
    ensures Timeline(e, mtu, horizon).1 == Sizes(e.bytes, mtu, PacketCount(e.bytes, mtu))
  {
    assert Ratio(e.bytes, mtu as real) > 0.0;
    var n := PacketCount(e.bytes, mtu);
    StampsOrdered(e, n);
    ClampNothing(Stamps(e, n, n), horizon);
    hide PacketCount, Stamps, Clamp, Sizes;
  }

  /** Successive emissions give non-decreasing times: the closing stable sort never moves a packet. */
  lemma {:induction false} TimesAscend(es: seq<F.Emission>, mtu: nat, horizon: int)
    requires mtu > 0 && F.Successive(es, horizon)
    ensures OrderedIn(Concatenated(es, mtu, horizon).0, 0, if es == [] then 0 else es[|es| - 1].end)
  {
    if es != [] {
      var n := |es| - 1;
      TimesAscend(es[..n], mtu, horizon);
      TimelineOrdered(es[n], mtu, horizon);
      hide Timeline;
      if n > 0 {
        assert es[..n][n - 1] == es[n - 1];
        assert es[n - 1].end <= es[n].start;
      }
    }
  }

  /** The timeline as packets of one bucket. */
  function Zipped(r: (seq<int>, seq<nat>), bucket: nat): (s: seq<Packet>)
    requires |r.0| == |r.1|
    ensures |s| == |r.0|
  {
    seq(|r.0|, i requires 0 <= i < |r.0| => Packet(r.0[i], r.1[i], bucket))
  }

  lemma {:induction false} SortOfSorted(s: seq<Packet>)
    requires TimeOrdered(s)
    ensures T.SortByTime(s) == s
  {
    if s != [] {
      SortOfSorted(s[..|s| - 1]);
    }
  }

  /** Emissions in successive windows of the horizon, as every flow of every run has them, give a
      timeline already in time order and within the horizon: the closing stable sort is the identity. */
  lemma SortIsRedundant(es: seq<F.Emission>, mtu: nat, horizon: int, bucket: nat)
    requires mtu > 0 && F.Successive(es, horizon)
    ensures var packets := Zipped(Concatenated(es, mtu, horizon), bucket);
      && T.SortByTime(packets) == packets
      && forall k :: 0 <= k < |packets| ==> 0 <= packets[k].t < horizon
  {
    TimesAscend(es, mtu, horizon);
    var r := Concatenated(es, mtu, horizon);
    hide Concatenated;
    SortOfSorted(Zipped(r, bucket));
  }

  lemma ConcatenatedNext(es: seq<F.Emission>, k: nat, mtu: nat, horizon: int)
    requires mtu > 0 && k < |es|
    ensures var front, last := Concatenated(es[..k], mtu, horizon), Timeline(es[k], mtu, horizon);
      && Concatenated(es[..k + 1], mtu, horizon) == (front.0 + last.0, front.1 + last.1)
      && (last == ([], []) ==> Concatenated(es[..k + 1], mtu, horizon) == front)
  {
    assert es[..k + 1][..k] == es[..k];
    hide Timeline;
    var front := Concatenated(es[..k], mtu, horizon);
    assert front.0 + [] == front.0 && front.1 + [] == front.1;
  }

  /** Build the timeline emission by emission. */
  method BuildPackets(es: seq<F.Emission>, mtu: nat, horizon: int) returns (times: seq<int>, sizes: seq<nat>)
    requires mtu > 0
    ensures (times, sizes) == Concatenated(es, mtu, horizon)
  {
    times, sizes := [], [];
    var k := 0;
    while k < |es|
      invariant k <= |es|
      invariant (times, sizes) == Concatenated(es[..k], mtu, horizon)
    {
      ConcatenatedNext(es, k, mtu, horizon);
      hide Concatenated, Clamp, Stamps, Sizes, PacketCount;
      var e := es[k];
      k := k + 1;
      if e.bytes <= 0.0 || e.end <= e.start {
        continue;
      }
      var n := PacketCount(e.bytes, mtu);
      if n <= 0 {
        continue;
      }
      var ts := Clamp(Stamps(e, n, n), horizon);
      if ts == [] {
        continue;
      }
      times := times + ts;
      sizes := sizes + Sizes(e.bytes, mtu, |ts|);
    }
    assert es[..k] == es;
  }

  // ---------- Bytes ----------

  /** Rounding goes to a nearest integer, and half-way to the even one. */
  lemma RoundIsNearest(x: real)
    requires x >= 0.0
    ensures Round(x) as real - 0.5 <= x <= Round(x) as real + 0.5
    ensures x == Round(x) as real - 0.5 || x == Round(x) as real + 0.5 ==> Round(x) % 2 == 0
  {
  }

  /** Every packet but the last is full, and the last is neither empty nor more than full. */
  lemma SizesAreFull(bytes: real, mtu: nat, k: nat)
    requires bytes >= 0.0 && k > 0 && mtu > 0
    ensures var s := Sizes(bytes, mtu, k);
      1 <= s[k - 1] <= mtu && forall i :: 0 <= i < k - 1 ==> s[i] == mtu
  {
    hide Round, Full;
  }

  lemma {:induction false} TotalOfFull(mtu: nat, k: nat)
    ensures SumNat(seq(k, _ => mtu)) == Full(k, mtu)
  {
    if k > 0 {
      TotalOfFull(mtu, k - 1);
      assert seq(k, _ => mtu)[..k - 1] == seq(k - 1, _ => mtu);
    }
  }

  lemma ScaleBetween(lo: real, x: real, hi: real, m: real)
    requires lo < x <= hi && m > 0.0
    ensures Portion(lo, m) < Portion(x, m) <= Portion(hi, m)
  {
  }

  /** Bytes of n full packets. */
  function Full(n: int, mtu: nat): int {
    n * mtu
  }

  lemma FullAsReal(n: int, mtu: nat)
    ensures Full(n, mtu) as real == Portion(n as real, mtu as real)
  {
  }

  lemma RatioTimes(x: real, y: real)
    requires y != 0.0
    ensures Portion(Ratio(x, y), y) == x
  {
  }

  /** n packets are enough and n - 1 are not. */
  lemma CeilTimes(bytes: real, mtu: nat, n: int)
    requires mtu > 0 && n == PacketCount(bytes, mtu)
    ensures Full(n - 1, mtu) as real < bytes <= Full(n, mtu) as real
  {
    var x, m := Ratio(bytes, mtu as real), mtu as real;
    assert (n - 1) as real < x <= n as real;
    hide *;
    RatioTimes(bytes, m);
    ScaleBetween((n - 1) as real, x, n as real, m);
    FullAsReal(n - 1, mtu);
    FullAsReal(n, mtu);
  }

  lemma RoundBelow(x: real, n: int)
    requires 0.0 <= x <= n as real
    ensures Round(x) <= n
  {
  }

  /** The packets of an emission carry its bytes rounded to an integer exactly when that integer is more
      than what all packets but the last can carry; otherwise the last packet is sent full. */
  lemma PacketsCarryBytes(bytes: real, mtu: nat)
    requires mtu > 0 && bytes > 0.0
    ensures var n := PacketCount(bytes, mtu);
      && n > 0
      && (SumNat(Sizes(bytes, mtu, n)) == Round(bytes) <==> Round(bytes) > Full(n - 1, mtu))
      && (Round(bytes) <= Full(n - 1, mtu) ==> SumNat(Sizes(bytes, mtu, n)) == Full(n, mtu))
  {
    var n := PacketCount(bytes, mtu);
    assert Ratio(bytes, mtu as real) > 0.0;
    CeilTimes(bytes, mtu, n);
    RoundBelow(bytes, Full(n, mtu));
    TotalOfFull(mtu, n - 1);
    var sizes := Sizes(bytes, mtu, n);
    assert sizes[..n - 1] == seq(n - 1, _ => mtu);
    assert Full(n, mtu) == Full(n - 1, mtu) + mtu;
    hide Round, PacketCount, Full;
  }

  /** 3000.4 bytes at an MTU of 1500 become three full packets: 4500 bytes. */
  lemma FullPacketTooMany()
    ensures PacketCount(3000.4, 1500) == 3 && Round(3000.4) == 3000
    ensures SumNat(Sizes(3000.4, 1500, 3)) == 4500
  {
    assert Ratio(3000.4, 1500.0) == 3000.4 / 1500.0;
    assert 2.0 < 3000.4 / 1500.0 < 3.0;
    assert (3000.4).Floor == 3000;
    PacketsCarryBytes(3000.4, 1500);
  }
}

/** How late the replays of the program's own loop are stamped, and the latency bound that follows for its runs
    and for the epochs it reports. */
module LatencyTheorems {
  import opened Common
  import CQ = CreditQueue
  import L = Latency
  import P = PathTheorems
  import TT = TelemetryTheorems
  import opened Emulator
  import opened RunLoop

  // ---------- Lateness ----------

  /** Bin length: the loop truncates the configured one, the replay stamps do not. */
  function BinLength(delta: real): int {
    delta.Floor
  }

  /** What n epochs lose to the truncation, less the nanosecond by which replays are stamped early. */
  function Lateness(sf: Quota, delta: real, n: nat): real {
    (n * sf.bins) as real * (delta - BinLength(delta) as real) - 1.0
  }

  /** The replays of the k-th stateful boundary are stamped exactly the lateness of k + 1 epochs after the
      clock; before it, where that is negative. */
  lemma ReplayLateness(sf: Quota, delta: real, k: nat)
    ensures ReplayTime(delta * sf.bins as real, k)
        == EpochEnd(sf, BinLength(delta), k) as real + Lateness(sf, delta, k + 1)
  {
    var n, dt := (k + 1) * sf.bins, BinLength(delta);
    CastProduct(n, dt);
    CastProduct(k + 1, sf.bins);
    Regroup((k + 1) as real, delta, sf.bins as real);
    assert n as real * (delta - dt as real) == n as real * delta - n as real * dt as real;
  }

  lemma CastProduct(a: int, b: int)
    ensures (a * b) as real == a as real * b as real
  {
  }

  lemma Regroup(x: real, y: real, z: real)
    ensures x * (y * z) == x * z * y
  {
  }

  /** The replays of the k-th stateful boundary are stamped no later than the clock exactly when the
      fractions the loop has cut off from its bins so far add up to at most a nanosecond. */
  lemma ReplayOnTimeIff(sf: Quota, delta: real, k: nat)
    requires k < sf.target
    ensures ReplayTime(delta * sf.bins as real, k) <= Boundaries(sf, BinLength(delta), sf.target)[k] as real
      <==> ((k + 1) * sf.bins) as real * (delta - BinLength(delta) as real) <= 1.0
  {
    ReplayLateness(sf, delta, k);
  }

  /** Bins of a whole number of nanoseconds keep every replay on time. */
  lemma WholeBinsAreOnTime(sf: Quota, dt: nat, k: nat)
    requires k < sf.target
    ensures ReplayTime(dt as real * sf.bins as real, k) <= Boundaries(sf, dt, sf.target)[k] as real
  {
    assert BinLength(dt as real) == dt;
    ReplayOnTimeIff(sf, dt as real, k);
  }

  /** Bins of 10000.5 ns: with 100 of them in an epoch the first replays are already stamped 49 ns late. */
  lemma FractionalBinsAreLate()
    ensures var sf := Quota(true, 100, 1);
      ReplayTime(10000.5 * sf.bins as real, 0) == Boundaries(sf, BinLength(10000.5), sf.target)[0] as real + 49.0
  {
    assert (10000.5).Floor == 10000;
  }

  lemma LatenessGrows(sf: Quota, delta: real, m: nat, n: nat)
    requires m <= n
    ensures Lateness(sf, delta, m) <= Lateness(sf, delta, n)
  {
    var f := delta - BinLength(delta) as real;
    MulMonotone(m, n, sf.bins);
    assert ((n * sf.bins) as real - (m * sf.bins) as real) * f >= 0.0;
  }

  // ---------- Latency on the loop's schedule ----------

  lemma DueIsLateBy(c: Config, s: Sys, e: Event, sf: Quota, delta: real)
    requires Due(s, e, sf, BinLength(delta)) && c.sched.epochNs == delta * sf.bins as real
    ensures e.StatefulEpoch? ==> ReplayTime(c.sched.epochNs, s.epoch) <= s.now as real + Lateness(sf, delta, sf.target)
  {
    if e.StatefulEpoch? {
      ReplayLateness(sf, delta, s.epoch);
      LatenessGrows(sf, delta, s.epoch + 1, sf.target);
      hide Lateness, ReplayTime, EpochEnd, BinLength;
    }
  }

  /** On the loop's schedule no boundary is later than the last one can be. */
  lemma {:induction false} ScheduleIsLateBy(c: Config, s: Sys, events: seq<Event>, sf: Quota, delta: real)
    requires IsRun(c, s, events) && OnSchedule(c, s, events, sf, BinLength(delta))
    requires c.sched.epochNs == delta * sf.bins as real
    ensures P.LateBy(c, s, events, Lateness(sf, delta, sf.target))
    decreases |events|
  {
    if events != [] {
      hide Next, Enabled, Due, Lateness, ReplayTime;
      ScheduleIsLateBy(c, Next(c, s, events[0]), events[1..], sf, delta);
      DueIsLateBy(c, s, events[0], sf, delta);
    }
  }

  /** The latency bound for the program's own loop, whatever its bin length: the stateful delay covers the
      one-way time of a released packet plus the lateness that all of the run's epochs accumulate. */
  lemma LoopLatency(c: Config, pb: L.PathBounds, s: Sys, events: seq<Event>, bin: Event, sf: Quota, delta: real)
    requires c.Valid() && L.Covers(c.path, pb) && IsInitial(c, s)
    requires IsRun(c, s, events) && P.AllBounded(c, pb, events) && OnSchedule(c, s, events, sf, BinLength(delta))
    requires c.sched.epochNs == delta * sf.bins as real
    requires forall size: nat :: Lateness(sf, delta, sf.target) + c.path.sf.Dma(size) <= pb.sf.delay
    requires bin.Bin? && Enabled(c, After(c, s, events), bin) && P.Bounded(c, pb, bin)
    ensures P.SamplesWithin(c, pb, Next(c, After(c, s, events), bin).path)
  {
    hide *;
    ScheduleIsLateBy(c, s, events, sf, delta);
    P.LatencyWithLateness(c, pb, s, events, bin, Lateness(sf, delta, sf.target));
  }

  // ---------- Reported samples ----------

  lemma {:induction false} GatheredWithin(qs: seq<CQ.Queue>, bound: real)
    requires forall i :: 0 <= i < |qs| ==> L.SamplesBounded(qs[i], bound)
    ensures forall x :: x in TT.Gathered(qs) ==> x <= bound
  {
    if qs != [] {
      GatheredWithin(qs[..|qs| - 1], bound);
      assert L.SamplesBounded(qs[|qs| - 1], bound);
    }
  }

  lemma {:induction false} SamplesStayWithin(c: Config, pb: L.PathBounds, s: Sys, d: Domain, events: seq<Event>)
    requires c.Valid() && L.Covers(c.path, pb) && L.PathSettled(c.path, pb, s.path, s.now as real)
    requires IsRun(c, s, events) && P.AllBounded(c, pb, events) && P.AllTimely(c, pb, s, events)
    ensures forall x :: x in TT.Samples(c, s, d, events) ==> x <= pb.Of(d).Worst(c.path.Of(d).queue.depth)
    decreases |events|
  {
    if events != [] {
      var s1 := Next(c, s, events[0]);
      P.NextStaysSettled(c, pb, s, events[0]);
      if events[0].Bin? {
        P.BinStaysSettled(c, pb, s, events[0]);
        GatheredWithin(s1.path.Of(d), pb.Of(d).Worst(c.path.Of(d).queue.depth));
      }
      hide L.Covers, L.PathSettled, Next, Enabled, P.Bounded, P.Timely, TT.Gathered, L.Bounds.Worst;
      SamplesStayWithin(c, pb, s1, d, events[1..]);
    }
  }

  /** Every latency sample that the recorder gathers over any stretch of any run, and so the maximum that an
      epoch reports, obeys the bound. */
  lemma ReportedLatency(c: Config, pb: L.PathBounds, s: Sys, before: seq<Event>, d: Domain, events: seq<Event>)
    requires c.Valid() && L.Covers(c.path, pb) && IsInitial(c, s)
    requires IsRun(c, s, before) && P.AllBounded(c, pb, before) && P.AllTimely(c, pb, s, before)
    requires var s1 := After(c, s, before);
      IsRun(c, s1, events) && P.AllBounded(c, pb, events) && P.AllTimely(c, pb, s1, events)
    ensures forall x :: x in TT.Samples(c, After(c, s, before), d, events) ==>
      x <= pb.Of(d).Worst(c.path.Of(d).queue.depth)
  {
    P.InitialSettled(c, pb, s);
    InitialNow(c, s);
    hide *;
    P.RunStaysSettled(c, pb, s, before);
    SamplesStayWithin(c, pb, After(c, s, before), d, events);
  }

  lemma InitialNow(c: Config, s: Sys)
    requires IsInitial(c, s)
    ensures s.now == 0 && s.epoch == 0
  {
  }
}

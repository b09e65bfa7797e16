/** The schedule of the top-level loop: how many bins a run has, when each domain's epochs close, and what it
    means that the events of a run are on that schedule.

    Each enabled domain has its own epoch length and its own number of epochs; the loop runs until the longer
    of the two is done and holds the other one's counters still. The loop itself is in Emulation.dfy. */
module RunLoop {
  import opened Common
  import opened Emulator
  import D = TraceDriven

  /** A domain's part in the run: its epoch length in bins and how many epochs it gets. */
  datatype Quota = Quota(enabled: bool, bins: nat, target: nat) {
    predicate Valid() {
      bins >= 1
    }

    function Span(): nat {
      target * bins
    }
  }

  /** Bins of a run: enough for every enabled domain. */
  function TotalBins(sl: Quota, sf: Quota): nat {
    MaxInt(if sl.enabled then sl.Span() else 0, if sf.enabled then sf.Span() else 0)
  }

  /** The clock after i bins, and when the k-th epoch of a domain closes. */
  function ClockAt(i: nat, dt: int): int {
    i * dt
  }

  function EpochEnd(q: Quota, dt: int, k: nat): int {
    (k + 1) * q.bins * dt
  }

  lemma ClockNext(i: nat, dt: int)
    ensures ClockAt(0, dt) == 0 && ClockAt(i + 1, dt) == ClockAt(i, dt) + dt
  {
  }

  /** Closing times of the first n epochs. */
  function Boundaries(q: Quota, dt: int, n: nat): (s: seq<int>)
    ensures |s| == n
  {
    seq(n, k requires 0 <= k < n => EpochEnd(q, dt, k))
  }

  /** A domain's place in the run: its epoch and the bin within it, and when its epochs closed. */
  datatype Counter = Counter(bin: nat, epoch: nat, closed: seq<int>)

  /** The counters after i bins. */
  ghost predicate InStep(q: Quota, dt: int, i: nat, k: Counter) {
    if !q.enabled then k == Counter(0, 0, [])
    else
      && k.epoch <= q.target && k.closed == Boundaries(q, dt, k.epoch)
      && (k.epoch < q.target ==> k.bin < q.bins && i == k.epoch * q.bins + k.bin)
      && (k.epoch == q.target ==> k.bin == 0)
  }

  /** Closing an epoch at the end of bin i. */
  lemma EpochCloses(q: Quota, dt: int, i: nat, k: Counter)
    requires q.Valid() && q.enabled && InStep(q, dt, i, k) && k.epoch < q.target && k.bin + 1 >= q.bins
    ensures k.bin + 1 == q.bins && ClockAt(i + 1, dt) == EpochEnd(q, dt, k.epoch)
    ensures InStep(q, dt, i + 1, Counter(0, k.epoch + 1, k.closed + [ClockAt(i + 1, dt)]))
  {
    assert (k.epoch + 1) * q.bins == k.epoch * q.bins + q.bins;
    assert i + 1 == (k.epoch + 1) * q.bins;
    assert ClockAt(i + 1, dt) == EpochEnd(q, dt, k.epoch);
    assert k.closed + [ClockAt(i + 1, dt)] == Boundaries(q, dt, k.epoch + 1);
  }

  lemma NothingClosed(q: Quota, dt: int)
    requires q.Valid()
    ensures InStep(q, dt, 0, Counter(0, 0, [])) && q.bins > 0
  {
    assert 0 * q.bins == 0;
  }

  /** After the run's number of bins a domain has closed all its epochs. */
  lemma AllEpochsClose(q: Quota, dt: int, i: nat, k: Counter)
    requires q.Valid() && InStep(q, dt, i, k) && (q.enabled ==> i >= q.Span())
    ensures k.epoch == if q.enabled then q.target else 0
    ensures k.closed == if q.enabled then Boundaries(q, dt, q.target) else []
  {
    if q.enabled && k.epoch < q.target {
      MulMonotone(k.epoch + 1, q.target, q.bins);
    }
  }

  /** The run is long enough for every enabled domain, and ends with the last epoch of one of them. */
  lemma EnoughBins(sl: Quota, sf: Quota)
    ensures sl.enabled ==> TotalBins(sl, sf) >= sl.Span()
    ensures sf.enabled ==> TotalBins(sl, sf) >= sf.Span()
    ensures TotalBins(sl, sf) == 0 || (sl.enabled && TotalBins(sl, sf) == sl.target * sl.bins)
      || (sf.enabled && TotalBins(sl, sf) == sf.target * sf.bins)
  {
  }

  lemma MulMonotone(a: nat, b: nat, m: nat)
    requires a <= b
    ensures a * m <= b * m && a * m == (a - 1) * m + m
  {
    assert b * m == a * m + (b - a) * m;
  }

  // ---------- The machine along the loop ----------

  /** Tables, queues and flows keep their numbers along a run. */
  ghost predicate SameSizes(w: D.World, w': D.World) {
    && |w'.s.slTable| == |w.s.slTable| && |w'.s.sfTable| == |w.s.sfTable| && |w'.s.path.sl| == |w.s.path.sl|
    && |w'.sl| == |w.sl| && |w'.sf| == |w.sf|
  }

  /** Bins follow one another and stateful epochs close where the loop closes them. */
  ghost predicate OnSchedule(c: Config, s: Sys, events: seq<Event>, sf: Quota, dt: int)
    requires IsRun(c, s, events)
    decreases |events|
  {
    events == [] || (Due(s, events[0], sf, dt) && OnSchedule(c, Next(c, s, events[0]), events[1..], sf, dt))
  }

  ghost predicate Due(s: Sys, e: Event, sf: Quota, dt: int) {
    && (e.Bin? ==> e.tEnd == s.now + dt)
    && (e.StatefulEpoch? ==> s.epoch < sf.target && s.now == EpochEnd(sf, dt, s.epoch))
  }

  lemma {:induction false} RunExtends(c: Config, s: Sys, events: seq<Event>, e: Event, sf: Quota, dt: int)
    requires IsRun(c, s, events) && OnSchedule(c, s, events, sf, dt)
    requires Enabled(c, After(c, s, events), e) && Due(After(c, s, events), e, sf, dt)
    ensures IsRun(c, s, events + [e]) && OnSchedule(c, s, events + [e], sf, dt)
    ensures After(c, s, events + [e]) == Next(c, After(c, s, events), e)
    decreases |events|
  {
    hide Next, Enabled, Due;
    if events == [] {
      assert ([] + [e])[1..] == [];
    } else {
      RunExtends(c, Next(c, s, events[0]), events[1..], e, sf, dt);
      assert (events + [e])[1..] == events[1..] + [e];
    }
  }

  /** The events so far form a run on schedule from w0 to w. */
  ghost predicate Follows(x: D.Setup, w0: D.World, events: seq<Event>, w: D.World, sf: Quota, dt: int) {
    && SameSizes(w0, w)
    && IsRun(x.c, w0.s, events) && After(x.c, w0.s, events) == w.s && OnSchedule(x.c, w0.s, events, sf, dt)
  }

  lemma SizesStay(x: D.Setup, w: D.World, step: D.Step)
    requires D.Sound(x, w) && D.Possible(x, w, step)
    ensures SameSizes(w, D.Apply(x, w, step))
    ensures var s' := D.Apply(x, w, step).s;
      && s'.now == (if step.Emit? then step.tEnd else w.s.now)
      && s'.epoch == w.s.epoch + if step.CloseStateful? then 1 else 0
  {
    D.StepOfMachine(x, w, step);
    if !step.Shift? {
      EventSizes(x.c, w.s, D.EventOf(x, w, step));
    }
    hide Next, Enabled, D.Sound, D.Possible;
  }

  lemma EventSizes(c: Config, s: Sys, e: Event)
    requires Enabled(c, s, e)
    ensures var s' := Next(c, s, e);
      && |s'.slTable| == |s.slTable| && |s'.sfTable| == |s.sfTable| && |s'.path.sl| == |s.path.sl|
      && s'.now == (if e.Bin? then e.tEnd else s.now)
      && s'.epoch == s.epoch + if e.StatefulEpoch? then 1 else 0
  {
    match e
    case Bin(sl, sf, noise, tEnd) => NextOfBin(c, s, sl, sf, noise, tEnd);
    case StatelessEpoch(_) =>
    case StatefulEpoch(telem, order, draw, noise) => NextOfEpoch(c, s, telem, order, draw, noise);
  }

  lemma FollowsParts(x: D.Setup, w0: D.World, events: seq<Event>, w: D.World, sf: Quota, dt: int)
    requires D.Sound(x, w)
    ensures Follows(x, w0, events, w, sf, dt) <==>
      && SameSizes(w0, w) && IsRun(x.c, w0.s, events) && After(x.c, w0.s, events) == w.s
      && OnSchedule(x.c, w0.s, events, sf, dt)
  {
  }

  lemma NothingFollowed(x: D.Setup, w0: D.World, sf: Quota, dt: int)
    requires D.Sound(x, w0)
    ensures Follows(x, w0, [], w0, sf, dt)
  {
  }

  lemma SizesChain(w0: D.World, w: D.World, w': D.World)
    requires SameSizes(w0, w) && SameSizes(w, w')
    ensures SameSizes(w0, w')
  {
  }

  lemma EventIsDue(x: D.Setup, w: D.World, step: D.Step, sf: Quota, dt: int)
    requires D.Sound(x, w) && D.Possible(x, w, step) && !step.Shift?
    requires step.Emit? ==> step.tEnd == w.s.now + dt
    requires step.CloseStateful? ==> w.s.epoch < sf.target && w.s.now == EpochEnd(sf, dt, w.s.epoch)
    ensures Due(w.s, D.EventOf(x, w, step), sf, dt)
  {
    hide D.Sound, D.Possible;
  }

  /** One step of the driver extends the run. */
  lemma Drive(x: D.Setup, w0: D.World, events: seq<Event>, w: D.World, step: D.Step, sf: Quota, dt: int)
    returns (events': seq<Event>, w': D.World)
    requires D.Sound(x, w) && Follows(x, w0, events, w, sf, dt) && D.Possible(x, w, step)
    requires step.Emit? ==> step.tEnd == w.s.now + dt
    requires step.CloseStateful? ==> w.s.epoch < sf.target && w.s.now == EpochEnd(sf, dt, w.s.epoch)
    ensures w' == D.Apply(x, w, step) && D.Sound(x, w') && Follows(x, w0, events', w', sf, dt) && SameSizes(w, w')
    ensures w'.s.now == (if step.Emit? then step.tEnd else w.s.now)
    ensures w'.s.epoch == w.s.epoch + if step.CloseStateful? then 1 else 0
  {
    hide *;
    w' := D.Apply(x, w, step);
    D.ApplyKeepsSound(x, w, step);
    D.StepOfMachine(x, w, step);
    SizesStay(x, w, step);
    SizesChain(w0, w, w') by { FollowsParts(x, w0, events, w, sf, dt); }
    FollowsParts(x, w0, events, w, sf, dt);
    events' := events;
    if !step.Shift? {
      EventIsDue(x, w, step, sf, dt);
      RunExtends(x.c, w0.s, events, D.EventOf(x, w, step), sf, dt);
      events' := events + [D.EventOf(x, w, step)];
    }
    FollowsParts(x, w0, events', w', sf, dt);
  }

  // ---------- Counting bins and epochs ----------

  /** One domain at the end of a bin: count the bin, close the epoch when it is full, and hold the bin
      counter at zero once all epochs are closed. */
  method EndOfBin(q: Quota, tEnd: int, k: Counter, ghost dt: int, ghost i: nat) returns (k': Counter)
    requires q.Valid() && InStep(q, dt, i, k) && tEnd == ClockAt(i + 1, dt)
    ensures InStep(q, dt, i + 1, k') && k'.bin < q.bins && (k'.epoch == k.epoch || k'.epoch == k.epoch + 1)
    ensures k'.epoch == k.epoch + 1 ==>
      q.enabled && k.epoch < q.target && k.bin + 1 == q.bins && k'.bin == 0 && tEnd == EpochEnd(q, dt, k.epoch)
    ensures q.enabled && k'.epoch == k.epoch < q.target ==> k'.bin == k.bin + 1
  {
    k' := k;
    if q.enabled {
      k' := k'.(bin := k'.bin + 1);
    }
    if q.enabled && k'.bin >= q.bins && k'.epoch < q.target {
      EpochCloses(q, dt, i, k);
      k' := Counter(0, k'.epoch + 1, k'.closed + [tEnd]);
    }
    if k'.epoch >= q.target {
      k' := k'.(bin := 0);
    }
  }
}

/** The handoff-time estimates in every run of the emulator. */
module EstimateTheorems {
  import opened Common
  import H = Handoffs
  import T = HandoffTime
  import SS = StatefulScheduler
  import C = ControlTheorems
  import opened Emulator

  /** The scheduler's step changes neither the estimates nor the history. */
  lemma {:induction false} StepKeepsEstimates(x: SS.Context, st: SS.State, order: seq<nat>, k: nat)
    requires SS.Fits(x, st) && SS.Buckets(x, order) && k <= |order|
    ensures SS.StepTo(x, st, order, k).m.tHand == st.m.tHand && SS.StepTo(x, st, order, k).m.history == st.m.history
  {
    if k > 0 {
      hide SS.Choice, H.IsPending;
      StepKeepsEstimates(x, st, order, k - 1);
    }
  }

  /** Bounds that enclose every realised latency enclose every estimate. */
  ghost predicate Encloses(m: H.Manager, lo: real, hi: real) {
    T.RealisedWithin(m.history, lo, hi) ==> T.Within(m.tHand, lo, hi)
  }

  ghost predicate Enclosed(s: Sys, lo: real, hi: real) {
    Encloses(s.m, lo, hi)
  }

  lemma TickKeepsEncloses(c: H.Config, m: H.Manager, dt: real, lo: real, hi: real)
    requires H.InDomain(m, c.queues) && H.InRange(m.pending, c.queues) && 0.0 <= c.alpha <= 1.0 && Encloses(m, lo, hi)
    ensures Encloses(H.Tick(c, m, dt).0, lo, hi)
  {
    var w, m' := H.SweepTo(c, m, dt, |m.pending|), H.Tick(c, m, dt).0;
    assert m'.history == m.history + w.finished && m'.tHand == w.tHand;
    hide H.SweepTo, H.Tick;
    if T.RealisedWithin(m'.history, lo, hi) {
      assert forall i :: 0 <= i < |m.history| ==> m'.history[i] == m.history[i];
      assert forall i :: 0 <= i < |w.finished| ==> m'.history[|m.history| + i] == w.finished[i];
      T.SweepKeepsEstimates(c, m, dt, |m.pending|, lo, hi);
    }
  }

  /** What an epoch boundary leaves of estimates and history is what its tick made of them. */
  lemma EpochRecords(c: Config, s: Sys, e: Event)
    requires Enabled(c, s, e) && e.StatefulEpoch?
    ensures H.InDomain(s.m, c.handoff.queues) && H.InRange(s.m.pending, c.handoff.queues)
    ensures var m', ticked := Next(c, s, e).m, H.Tick(c.handoff, s.m, c.sched.epochNs).0;
      m'.history == ticked.history && m'.tHand == ticked.tHand
  {
    var x, st := StepContext(c, s, e.telem, e.draw), InitialStep(c, s, e.telem);
    C.EpochShape(c, s, e);
    hide Next, SS.StepTo, H.Tick, H.SweepTo;
    StepKeepsEstimates(x, st, e.order, |e.order|);
  }

  lemma NextKeepsEnclosed(c: Config, s: Sys, e: Event, lo: real, hi: real)
    requires Enabled(c, s, e) && 0.0 <= c.handoff.alpha <= 1.0 && Enclosed(s, lo, hi)
    ensures Enclosed(Next(c, s, e), lo, hi)
  {
    match e
    case Bin(_, _, _, _) =>
      C.BinKeepsShape(c, s, e);
    case StatelessEpoch(_) =>
    case StatefulEpoch(_, _, _, _) =>
      EpochRecords(c, s, e);
      hide Next, Enabled, H.Tick;
      TickKeepsEncloses(c.handoff, s.m, c.sched.epochNs, lo, hi);
  }

  lemma {:induction false} RunKeepsEnclosed(c: Config, s: Sys, events: seq<Event>, lo: real, hi: real)
    requires IsRun(c, s, events) && 0.0 <= c.handoff.alpha <= 1.0 && Enclosed(s, lo, hi)
    ensures Enclosed(After(c, s, events), lo, hi)
    decreases |events|
  {
    if events != [] {
      hide Next, Enabled, Enclosed;
      NextKeepsEnclosed(c, s, events[0], lo, hi);
      RunKeepsEnclosed(c, Next(c, s, events[0]), events[1..], lo, hi);
    }
  }

  /** In every run, whatever the weight in [0, 1]: each estimate lies between any bounds that enclose the
      initial value and the latencies of the handoffs completed so far. */
  lemma EstimatesAreAverages(c: Config, s: Sys, events: seq<Event>, lo: real, hi: real)
    requires IsInitial(c, s) && IsRun(c, s, events) && 0.0 <= c.handoff.alpha <= 1.0
    requires lo <= H.InitialEstimate(c.handoff) <= hi
    requires T.RealisedWithin(After(c, s, events).m.history, lo, hi)
    ensures T.Within(After(c, s, events).m.tHand, lo, hi)
  {
    assert T.Within(s.m.tHand, lo, hi);
    RunKeepsEnclosed(c, s, events, lo, hi);
  }

  // ---------- The estimates in closed form ----------

  ghost predicate Closed(c: Config, m: H.Manager) {
    T.AllClosed(c.handoff, m.tHand, m.history)
  }

  lemma EpochStaysClosed(c: Config, s: Sys, e: Event)
    requires Enabled(c, s, e) && e.StatefulEpoch? && Closed(c, s.m)
    ensures Closed(c, Next(c, s, e).m)
  {
    EpochRecords(c, s, e);
    var w, m' := H.SweepTo(c.handoff, s.m, c.sched.epochNs, |s.m.pending|), H.Tick(c.handoff, s.m, c.sched.epochNs).0;
    assert m'.history == s.m.history + w.finished && m'.tHand == w.tHand;
    hide Next, Enabled, H.SweepTo, H.Tick, T.AllClosed;
    T.SweepStaysClosed(c.handoff, s.m, c.sched.epochNs, |s.m.pending|);
  }

  lemma NextStaysClosed(c: Config, s: Sys, e: Event)
    requires Enabled(c, s, e) && Closed(c, s.m)
    ensures Closed(c, Next(c, s, e).m)
  {
    match e
    case Bin(_, _, _, _) =>
      C.BinKeepsShape(c, s, e);
      hide T.AllClosed;
    case StatelessEpoch(_) =>
    case StatefulEpoch(_, _, _, _) => EpochStaysClosed(c, s, e);
  }

  lemma {:induction false} RunStaysClosed(c: Config, s: Sys, events: seq<Event>)
    requires IsRun(c, s, events) && Closed(c, s.m)
    ensures Closed(c, After(c, s, events).m)
    decreases |events|
  {
    if events != [] {
      hide Next, Enabled, Closed;
      NextStaysClosed(c, s, events[0]);
      RunStaysClosed(c, Next(c, s, events[0]), events[1..]);
    }
  }

  lemma StartsClosed(c: Config, s: Sys)
    requires IsInitial(c, s)
    ensures Closed(c, s.m)
  {
    forall q: nat | q < c.handoff.queues
      ensures T.InClosedForm(c.handoff.alpha, H.InitialEstimate(c.handoff), s.m.tHand[q], T.LatenciesTo([], q))
    {
    }
  }

  /** In every run the estimate of a queue weighs the latencies of all handoffs completed to it exponentially:
      after k of them the initial estimate counts (1 - alpha)^k, and the i-th latency alpha (1 - alpha)^(k - 1 - i).
      Handoffs to other queues do not count. */
  lemma EstimatesInClosedForm(c: Config, s: Sys, events: seq<Event>, q: nat)
    requires IsInitial(c, s) && IsRun(c, s, events) && q < c.handoff.queues
    ensures var m := After(c, s, events).m;
      && |m.tHand| == c.handoff.queues
      && T.InClosedForm(c.handoff.alpha, H.InitialEstimate(c.handoff), m.tHand[q], T.LatenciesTo(m.history, q))
  {
    StartsClosed(c, s);
    RunStaysClosed(c, s, events);
  }

  // ---------- The scheduler's potential in every run ----------

  /** Every completed handoff took at least a nanosecond. */
  ghost predicate Realistic(history: seq<H.Handoff>) {
    forall i :: 0 <= i < |history| ==> history[i].latency >= 1.0
  }

  lemma TickKeepsRealistic(c: H.Config, m: H.Manager, table: seq<nat>, dt: real)
    requires H.Inv(c, m, table) && H.InDomain(m, c.queues) && H.InRange(m.pending, c.queues) && Realistic(m.history)
    ensures Realistic(H.Tick(c, m, dt).0.history)
  {
    H.SweepClosedForm(c, m, dt, |m.pending|);
    var finished, m' := H.Tick(c, m, dt).1, H.Tick(c, m, dt).0;
    var idx := H.Select(m.pending, dt, true, |m.pending|);
    assert m'.history == m.history + finished && finished == H.Elapsed(m.pending, dt, idx);
    hide H.Tick, H.SweepTo, H.Select;
    forall i | 0 <= i < |finished| ensures finished[i].latency >= 1.0 {
      assert H.WellPlaced(m.pending[idx[i]], c.queues, table);
    }
  }

  lemma NextKeepsRealistic(c: Config, table0: seq<nat>, s: Sys, e: Event)
    requires Enabled(c, s, e) && C.ControlInv(c, table0, s) && Realistic(s.m.history)
    ensures Realistic(Next(c, s, e).m.history)
  {
    match e
    case Bin(_, _, _, _) => C.BinKeepsShape(c, s, e);
    case StatelessEpoch(_) =>
    case StatefulEpoch(_, _, _, _) =>
      EpochRecords(c, s, e);
      TickKeepsRealistic(c.handoff, s.m, s.sfTable, c.sched.epochNs);
      hide Next, H.Tick, H.Inv;
  }

  lemma {:induction false} RunIsRealistic(c: Config, table0: seq<nat>, s: Sys, events: seq<Event>)
    requires IsRun(c, s, events) && C.ControlInv(c, table0, s) && Realistic(s.m.history)
    ensures C.ControlInv(c, table0, After(c, s, events)) && Realistic(After(c, s, events).m.history)
    decreases |events|
  {
    if events != [] {
      NextKeepsRealistic(c, table0, s, events[0]);
      C.NextKeepsControl(c, table0, s, events[0]);
      hide Next, Enabled, C.ControlInv, Realistic;
      RunIsRealistic(c, table0, Next(c, s, events[0]), events[1..]);
    }
  }

  lemma {:induction false} SomeBound(history: seq<H.Handoff>, least: real) returns (hi: real)
    requires Realistic(history)
    ensures hi >= least && T.RealisedWithin(history, 0.0, hi)
  {
    hi := least;
    if history != [] {
      var n := |history| - 1;
      var before := SomeBound(history[..n], least);
      hi := Max(before, history[n].latency);
      assert forall i :: 0 <= i < n ==> history[..n][i] == history[i];
    }
  }

  /** At every boundary of every run the estimates are non-negative, after its tick too. */
  lemma EstimatesNotNegative(c: Config, s: Sys, events: seq<Event>, e: Event)
    requires IsInitial(c, s) && IsRun(c, s, events) && Enabled(c, After(c, s, events), e) && e.StatefulEpoch?
    requires 0.0 <= c.handoff.alpha <= 1.0 && H.InitialEstimate(c.handoff) >= 0.0
    ensures var s' := After(c, s, events);
      && H.InDomain(s'.m, c.handoff.queues) && H.InRange(s'.m.pending, c.handoff.queues)
      && forall q :: 0 <= q < |H.Tick(c.handoff, s'.m, c.sched.epochNs).0.tHand| ==>
           H.Tick(c.handoff, s'.m, c.sched.epochNs).0.tHand[q] >= 0.0
  {
    hide *;
    C.InitialControl(c, s);
    StartsRealistic(c, s);
    RunIsRealistic(c, s.sfTable, s, events);
    var s', dt := After(c, s, events), c.sched.epochNs;
    ControlParts(c, s.sfTable, s');
    TickKeepsRealistic(c.handoff, s'.m, s'.sfTable, dt);
    var m' := H.Tick(c.handoff, s'.m, dt).0;
    var hi := SomeBound(m'.history, H.InitialEstimate(c.handoff));
    StartsEnclosed(c, s, hi);
    RunKeepsEnclosed(c, s, events, 0.0, hi);
    EnclosedParts(s', 0.0, hi);
    TickKeepsEncloses(c.handoff, s'.m, dt, 0.0, hi);
    EnclosedEstimates(m', 0.0, hi);
  }

  lemma StartsRealistic(c: Config, s: Sys)
    requires IsInitial(c, s)
    ensures Realistic(s.m.history)
  {
  }

  lemma StartsEnclosed(c: Config, s: Sys, hi: real)
    requires IsInitial(c, s) && 0.0 <= H.InitialEstimate(c.handoff) <= hi
    ensures Enclosed(s, 0.0, hi)
  {
    assert T.Within(s.m.tHand, 0.0, hi);
  }

  lemma ControlParts(c: Config, table0: seq<nat>, s: Sys)
    requires C.ControlInv(c, table0, s)
    ensures H.Inv(c.handoff, s.m, s.sfTable)
    ensures H.InDomain(s.m, c.handoff.queues) && H.InRange(s.m.pending, c.handoff.queues)
  {
  }

  lemma EnclosedParts(s: Sys, lo: real, hi: real)
    requires Enclosed(s, lo, hi)
    ensures Encloses(s.m, lo, hi)
  {
  }

  lemma EnclosedEstimates(m: H.Manager, lo: real, hi: real)
    requires Encloses(m, lo, hi) && T.RealisedWithin(m.history, lo, hi)
    ensures forall q :: 0 <= q < |m.tHand| ==> m.tHand[q] >= lo
  {
  }

  /** No stateful boundary of any run raises the maximum score: with a weight in [0, 1], a non-negative initial
      estimate, threshold and penalty weight, every bound on the scores of all queues before the step is one
      after it, and the step conserves the total load. */
  lemma NoBoundaryRaisesPeak(c: Config, s: Sys, events: seq<Event>, e: Event, bound: real)
    requires IsInitial(c, s) && IsRun(c, s, events) && Enabled(c, After(c, s, events), e) && e.StatefulEpoch?
    requires 0.0 <= c.handoff.alpha <= 1.0 && H.InitialEstimate(c.handoff) >= 0.0
    requires c.sched.epsilon >= 0.0 && c.sched.lambda >= 0.0
    ensures var s' := After(c, s, events);
      var x, st := StepContext(c, s', e.telem, e.draw), InitialStep(c, s', e.telem);
      && SS.Fits(x, st) && SS.Buckets(x, e.order)
      && var st' := SS.StepTo(x, st, e.order, |e.order|);
        && (SS.ScoresBelow(x, st, bound) ==> SS.ScoresBelow(x, st', bound))
        && Sum(st'.load) == Sum(e.telem.queueBytes)
  {
    var s' := After(c, s, events);
    EstimatesNotNegative(c, s, events, e);
    C.EpochShape(c, s', e);
    var x, st := StepContext(c, s', e.telem, e.draw), InitialStep(c, s', e.telem);
    hide IsRun, After, Next, Enabled, H.Tick, SS.StepTo;
    SS.StepKeepsTotal(x, st, e.order, |e.order|);
    if SS.ScoresBelow(x, st, bound) {
      SS.StepNeverRaisesPeak(x, st, e.order, |e.order|, bound);
    }
  }
}

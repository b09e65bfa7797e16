/** What the stateful scheduler does at the boundaries of a run, in the numbers of the closed epoch's report. */
module ScheduleTheorems {
  import opened Common
  import Selection
  import H = Handoffs
  import SS = StatefulScheduler
  import TM = Telemetry
  import RS = ReactiveScheduler
  import C = ControlTheorems
  import opened Emulator

  /** The bytes of the bucket in the report, as a share of all reported bytes and weighed, exceed the threshold
      plus the expected handoff time in epochs, weighed. */
  ghost predicate Pays(c: SS.Config, telem: TM.Report, b: nat, tHand: real)
    requires b < |telem.bucketBytes| && Sum(telem.queueBytes) >= 0.0 && c.epochNs > 0.0
  {
    c.eta2 * (telem.bucketBytes[b] / (Sum(telem.queueBytes) + 0.000000001))
    > c.epsilon + c.lambda * (tHand / c.epochNs)
  }

  /** A record issued on a report: from the hot queue that the new table maps the bucket to, to a cold one, in
      this epoch, with its whole latency to go and an empty buffer; and it pays. */
  ghost predicate IssuedOn(c: SS.Config, telem: TM.Report, table: seq<nat>, epoch: nat, tHand: seq<real>,
        h: H.Handoff) {
    && h.bucket < |table| == |telem.bucketBytes| && h.src == table[h.bucket] && h.src != h.dst
    && h.src < |telem.pressure| && h.dst < |telem.pressure| == |tHand|
    && telem.pressure[h.src] > c.tauHot && telem.pressure[h.dst] < c.tauCold
    && h.startEpoch == epoch && h.remaining == h.latency && !h.completed && H.Phased(h)
    && h.bufferedBytes == h.bufferedPkts == h.overflowBytes == h.overflowPkts == 0
    && Sum(telem.queueBytes) >= 0.0 && c.epochNs > 0.0
    && (c.eta2 >= 0.0 && telem.bucketBytes[h.bucket] >= 0.0 ==> Pays(c, telem, h.bucket, tHand[h.dst]))
  }

  /** A record that pays in the terms of the step, read in those of the report. */
  lemma PaysOnReport(c: Config, s: Sys, e: Event, tHand: seq<real>, b: nat, h: H.Handoff)
    requires Enabled(c, s, e) && e.StatefulEpoch? && |tHand| == c.handoff.queues
    requires b in e.order && b < |StepContext(c, s, e.telem, e.draw).table|
    requires SS.Pays(StepContext(c, s, e.telem, e.draw), tHand, b, h)
    ensures IssuedOn(c.sched, e.telem, StepContext(c, s, e.telem, e.draw).table, s.epoch, tHand, h)
  {
    hide H.Tick, Sum, Selection.Descending;
  }

  lemma OrderMember(order: seq<nat>, i: nat)
    requires i < |order|
    ensures order[i] in order
  {
  }

  /** The parts of a boundary: a step in its context, from the ticked manager. */
  lemma BoundaryParts(c: Config, s: Sys, e: Event)
    requires Enabled(c, s, e) && e.StatefulEpoch?
    ensures Shaped(c, s) && H.InDomain(s.m, c.handoff.queues) && H.InRange(s.m.pending, c.handoff.queues)
    ensures var x, st := StepContext(c, s, e.telem, e.draw), InitialStep(c, s, e.telem);
      && SS.Fits(x, st) && SS.Buckets(x, e.order) && Selection.Descending(e.order, x.bucketBytes)
      && x.bucketBytes == e.telem.bucketBytes && x.cfg == c.sched && st.issued == 0
      && |st.m.tHand| == c.handoff.queues
      && st.m == H.Tick(c.handoff, s.m, c.sched.epochNs).0
      && Next(c, s, e).sfTable == x.table
      && Next(c, s, e).m == SS.StepTo(x, st, e.order, |e.order|).m
  {
    C.EpochShape(c, s, e);
    hide Next, SS.StepTo, H.Tick;
  }

  /** At every stateful boundary: after the records the tick kept come those the step issued, no more than its
      cap. Each is for a bucket of a hot queue and goes to a cold one, and is worth its handoff by the report;
      and they are issued in the order of their bytes, the heaviest first. */
  lemma BoundaryIssues(c: Config, s: Sys, e: Event)
    requires Enabled(c, s, e) && e.StatefulEpoch?
    ensures H.InDomain(s.m, c.handoff.queues) && H.InRange(s.m.pending, c.handoff.queues)
    ensures var ticked, s' := H.Tick(c.handoff, s.m, c.sched.epochNs).0, Next(c, s, e);
      var n := |ticked.pending|;
      && n <= |s'.m.pending| <= n + MaxInt(0, c.sched.maxPerEpoch) && s'.m.pending[..n] == ticked.pending
      && (forall i :: n <= i < |s'.m.pending| ==>
            IssuedOn(c.sched, e.telem, s'.sfTable, s.epoch, ticked.tHand, s'.m.pending[i]))
      && (forall i, j :: n <= i < j < |s'.m.pending| ==> Heavier(e.telem, s'.m.pending[i], s'.m.pending[j]))
  {
    hide *;
    BoundaryParts(c, s, e);
    var x, st := StepContext(c, s, e.telem, e.draw), InitialStep(c, s, e.telem);
    var idx, pending := SS.IssuedAt(x, st, e.order, |e.order|), Next(c, s, e).m.pending;
    SS.StepRecords(x, st, e.order, |e.order|);
    SS.StepIssuesWithinCap(x, st, e.order, |e.order|);
    RecordsParts(x, st, e.order, idx, SS.StepTo(x, st, e.order, |e.order|));
    var n := |st.m.pending|;
    forall i | n <= i < |pending|
      ensures IssuedOn(c.sched, e.telem, x.table, s.epoch, st.m.tHand, pending[i])
      ensures pending[i].bucket == e.order[idx[i - n]]
    {
      OrderMember(e.order, idx[i - n]);
      PaysOnReport(c, s, e, st.m.tHand, e.order[idx[i - n]], pending[i]);
      PaysBucket(x, st.m.tHand, e.order[idx[i - n]], pending[i]);
    }
    forall i, j | n <= i < j < |pending| ensures Heavier(e.telem, pending[i], pending[j]) {
      DescendingAt(e.order, x.bucketBytes, idx[i - n], idx[j - n]);
      HeavierIs(e.telem, pending[i], pending[j]);
    }
  }

  ghost predicate Heavier(telem: TM.Report, a: H.Handoff, b: H.Handoff) {
    a.bucket < |telem.bucketBytes| && b.bucket < |telem.bucketBytes|
    && telem.bucketBytes[a.bucket] >= telem.bucketBytes[b.bucket]
  }

  lemma HeavierIs(telem: TM.Report, a: H.Handoff, b: H.Handoff)
    requires a.bucket < |telem.bucketBytes| && b.bucket < |telem.bucketBytes|
    requires telem.bucketBytes[a.bucket] >= telem.bucketBytes[b.bucket]
    ensures Heavier(telem, a, b)
  {
  }

  lemma DescendingAt(order: seq<nat>, key: seq<real>, i: nat, j: nat)
    requires (forall k :: 0 <= k < |order| ==> order[k] < |key|) && Selection.Descending(order, key) && i < j < |order|
    ensures key[order[i]] >= key[order[j]]
  {
  }

  lemma PaysBucket(x: SS.Context, tHand: seq<real>, b: nat, h: H.Handoff)
    requires x.Valid() && |tHand| == x.hc.queues && b < |x.table| && SS.Pays(x, tHand, b, h)
    ensures h.bucket == b
  {
  }

  lemma RecordsParts(x: SS.Context, st: SS.State, order: seq<nat>, idx: seq<nat>, st': SS.State)
    requires SS.Fits(x, st) && SS.Buckets(x, order) && forall i :: 0 <= i < |idx| ==> idx[i] < |order|
    requires SS.Records(x, st, order, idx, st')
    ensures |st.m.tHand| == x.hc.queues && x.Valid() && |x.bucketBytes| == |x.table|
    ensures forall i :: 0 <= i < |order| ==> order[i] < |x.table|
    ensures |st'.m.pending| == |st.m.pending| + |idx| && st'.m.pending[..|st.m.pending|] == st.m.pending
    ensures forall i :: 0 <= i < |idx| ==> SS.Pays(x, st.m.tHand, order[idx[i]], st'.m.pending[|st.m.pending| + i])
    ensures forall i, j :: 0 <= i < j < |idx| ==> idx[i] < idx[j]
  {
    hide SS.Pays;
  }

  /** Every bucket of a hot queue by the new table is left with nothing to gain. */
  ghost predicate NothingLeft(x: SS.Context, st: SS.State)
    requires SS.Fits(x, st)
  {
    forall b: nat :: b < |x.table| && x.pressure[x.table[b]] > x.cfg.tauHot ==> SS.NothingToGain(x, st, b)
  }

  /** At every stateful boundary of every run: either the per-epoch cap is reached, or no bucket of a hot queue
      has anything to gain, by the loads as the step left them; and the scores of all queues, which the step only
      moves about, add up to the weighed pressures plus the weighed share of the reported loads in their total. */
  lemma BoundaryIsExhaustive(c: Config, s: Sys, events: seq<Event>, e: Event)
    requires IsInitial(c, s) && IsRun(c, s, events) && Enabled(c, After(c, s, events), e) && e.StatefulEpoch?
    ensures var s' := After(c, s, events);
      var x, st := StepContext(c, s', e.telem, e.draw), InitialStep(c, s', e.telem);
      && SS.Fits(x, st) && SS.Buckets(x, e.order)
      && var st', total := SS.StepTo(x, st, e.order, |e.order|), Sum(e.telem.queueBytes);
        && (st'.issued >= c.sched.maxPerEpoch || NothingLeft(x, st'))
        && total >= 0.0
        && Sum(SS.Scores(x, st'.load, x.hc.queues))
           == c.sched.eta1 * Sum(e.telem.pressure) + c.sched.eta2 * (total / (total + 0.000000001))
  {
    hide *;
    var s' := After(c, s, events);
    C.InitialControl(c, s);
    C.RunKeepsControl(c, s.sfTable, s, events);
    C.TickedStep(c, s.sfTable, s', e);
    BoundaryParts(c, s', e);
    ContextParts(c, s', e);
    var x, st := StepContext(c, s', e.telem, e.draw), InitialStep(c, s', e.telem);
    SS.StepLeavesNothingToGain(x, st, e.order);
    SS.ScoresAddUp(x, st, e.order, |e.order|);
    var st' := SS.StepTo(x, st, e.order, |e.order|);
    if st'.issued < c.sched.maxPerEpoch {
      AllCandidates(x, st', e.order);
    }
  }

  lemma ContextParts(c: Config, s: Sys, e: Event)
    requires Enabled(c, s, e) && e.StatefulEpoch?
    ensures H.InDomain(s.m, c.handoff.queues) && H.InRange(s.m.pending, c.handoff.queues) && Shaped(c, s)
    ensures var x, st := StepContext(c, s, e.telem, e.draw), InitialStep(c, s, e.telem);
      && x.Valid() && RS.IsCandidateOrder(x, e.order) && x.hc == c.handoff && !st.raised
      && x.pressure == e.telem.pressure && x.sigma == Sum(st.load) == Sum(e.telem.queueBytes) >= 0.0
  {
    hide H.Tick, Sum, RS.IsCandidateOrder;
  }

  lemma AllCandidates(x: SS.Context, st: SS.State, order: seq<nat>)
    requires SS.Fits(x, st) && SS.Buckets(x, order) && RS.IsCandidateOrder(x, order)
    requires forall i :: 0 <= i < |order| ==> SS.NothingToGain(x, st, order[i])
    ensures NothingLeft(x, st)
  {
    hide SS.NothingToGain, Selection.Descending;
    forall b: nat | b < |x.table| && x.pressure[x.table[b]] > x.cfg.tauHot ensures SS.NothingToGain(x, st, b) {
      assert b in order;
      var i :| 0 <= i < |order| && order[i] == b;
    }
  }
}

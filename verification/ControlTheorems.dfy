/** What holds of the handoff protocol in every run of the emulator. */
module ControlTheorems {
  import opened Common
  import H = Handoffs
  import T = HandoffTime
  import R = Redirection
  import SS = StatefulScheduler
  import opened Emulator

  /** Handoff records, flags and table agree; every record's age is what its start says; and the table
      is the initial one with the completed handoffs applied in order, each from the queue its bucket was in. */
  ghost predicate ControlInv(c: Config, table0: seq<nat>, s: Sys) {
    && Shaped(c, s)
    && H.Inv(c.handoff, s.m, s.sfTable)
    && T.AllAged(s.m, s.epoch - 1, c.sched.epochNs)
    && s.sfTable == H.Commit(table0, s.m.history)
    && T.Chained(table0, s.m.history)
  }

  lemma InitialControl(c: Config, s: Sys)
    requires IsInitial(c, s)
    ensures ControlInv(c, s.sfTable, s)
  {
    H.InitialInv(c.handoff, s.sfTable);
  }

  // ---------- Bins ----------

  lemma FeedKeepsAges(c: H.Config, m: H.Manager, pkts: seq<Packet>, epoch: int, dt: real)
    requires T.AllAged(m, epoch, dt)
    ensures T.AllAged(R.Feed(c, m, pkts), epoch, dt)
  {
    forall i | 0 <= i < |m.pending| ensures T.Aged(R.Feed(c, m, pkts).pending[i], epoch, dt) {
      R.FedIsSame(c, m.pending[i], pkts);
      assert T.Aged(m.pending[i], epoch, dt);
    }
  }

  lemma BinKeepsControl(c: Config, table0: seq<nat>, s: Sys, e: Event)
    requires Enabled(c, s, e) && e.Bin? && ControlInv(c, table0, s)
    ensures ControlInv(c, table0, Next(c, s, e))
  {
    R.FeedKeepsInv(c.handoff, s.m, s.sfTable, e.sf);
    FeedKeepsAges(c.handoff, s.m, e.sf, s.epoch - 1, c.sched.epochNs);
    BinKeepsShape(c, s, e);
    hide H.Inv, T.AllAged, T.Chained, Shaped, Enabled;
  }

  lemma BinKeepsShape(c: Config, s: Sys, e: Event)
    requires Enabled(c, s, e) && e.Bin?
    ensures var s' := Next(c, s, e);
      && Shaped(c, s') && s'.sfTable == s.sfTable && s'.m == R.Feed(c.handoff, s.m, e.sf) && s'.epoch == s.epoch
      && |s'.path.sl| == |s.path.sl| && |s'.path.sf| == |s.path.sf|
  {
    StreamIsRoutable(c, s, e.sl, e.sf, e.noise);
  }

  // ---------- Stateful epochs ----------

  /** The step of an epoch issues only fresh records, stamped with the epoch. */
  lemma {:induction false} StepKeepsAges(x: SS.Context, st: SS.State, order: seq<nat>, k: nat)
    requires SS.Fits(x, st) && SS.Buckets(x, order) && k <= |order|
    requires T.AllAged(st.m, x.epoch, x.cfg.epochNs)
    ensures T.AllAged(SS.StepTo(x, st, order, k).m, x.epoch, x.cfg.epochNs)
    ensures SS.StepTo(x, st, order, k).m.history == st.m.history
  {
    if k > 0 {
      hide T.AllAged, SS.Choice;
      StepKeepsAges(x, st, order, k - 1);
      var st1, b := SS.StepTo(x, st, order, k - 1), order[k - 1];
      if SS.Choice(x, st1, b).Some? {
        MoveKeepsAges(x, st1, b, x.table[b], SS.Choice(x, st1, b).value);
      }
    }
  }

  lemma MoveKeepsAges(x: SS.Context, st: SS.State, b: nat, src: nat, dst: nat)
    requires SS.Fits(x, st) && b < |x.table| && src < x.hc.queues && dst < x.hc.queues
    requires T.AllAged(st.m, x.epoch, x.cfg.epochNs)
    ensures T.AllAged(SS.Move(x, st, b, src, dst).m, x.epoch, x.cfg.epochNs)
    ensures SS.Move(x, st, b, src, dst).m.history == st.m.history
  {
    hide H.IsPending;
  }

  /** The state in which the step of an epoch starts, after the tick. */
  lemma TickedStep(c: Config, table0: seq<nat>, s: Sys, e: Event)
    requires Enabled(c, s, e) && e.StatefulEpoch? && ControlInv(c, table0, s)
    ensures var x, st := StepContext(c, s, e.telem, e.draw), InitialStep(c, s, e.telem);
      var finished := H.Tick(c.handoff, s.m, c.sched.epochNs).1;
      && SS.Fits(x, st) && SS.Buckets(x, e.order)
      && H.Inv(c.handoff, st.m, x.table)
      && T.AllAged(st.m, s.epoch, c.sched.epochNs)
      && x.table == H.Commit(table0, s.m.history + finished) == H.Commit(table0, st.m.history)
      && T.Chained(table0, s.m.history + finished)
      && MapsInto(x.table, c.handoff.queues)
  {
    var dt := c.sched.epochNs;
    var (m', finished) := H.Tick(c.handoff, s.m, dt);
    H.CommitKeepsInv(c.handoff, s.m, s.sfTable, dt);
    T.TickAges(c.handoff, s.m, s.epoch - 1, dt);
    T.FinishedIsBatch(c.handoff, s.m, s.sfTable, dt);
    T.CommitAppend(table0, s.m.history, finished);
    DistinctBuckets(finished);
    T.ChainExtends(table0, s.m.history, finished);
    CommitMapsInto(s.sfTable, finished, c.handoff.queues);
  }

  lemma DistinctBuckets(batch: seq<H.Handoff>)
    requires forall i, j :: 0 <= i < j < |batch| ==> H.Disjoint(batch[i], batch[j])
    ensures forall i, j :: 0 <= i < j < |batch| ==> batch[i].bucket != batch[j].bucket
  {
  }

  lemma {:induction false} CommitMapsInto(table: seq<nat>, finished: seq<H.Handoff>, n: nat)
    requires MapsInto(table, n) && forall i :: 0 <= i < |finished| ==> finished[i].dst < n
    ensures MapsInto(H.Commit(table, finished), n)
  {
    if finished != [] {
      CommitMapsInto(table, finished[..|finished| - 1], n);
    }
  }

  lemma EpochKeepsControl(c: Config, table0: seq<nat>, s: Sys, e: Event)
    requires Enabled(c, s, e) && e.StatefulEpoch? && ControlInv(c, table0, s)
    ensures ControlInv(c, table0, Next(c, s, e))
  {
    TickedStep(c, table0, s, e);
    var x, st := StepContext(c, s, e.telem, e.draw), InitialStep(c, s, e.telem);
    SS.StepKeepsInv(x, st, e.order, |e.order|);
    StepKeepsAges(x, st, e.order, |e.order|);
    EpochShape(c, s, e);
    hide H.Inv, T.AllAged, T.Chained, SS.StepTo, H.Commit, Enabled;
  }

  lemma EpochShape(c: Config, s: Sys, e: Event)
    requires Enabled(c, s, e) && e.StatefulEpoch?
    ensures var s' := Next(c, s, e);
      var x := StepContext(c, s, e.telem, e.draw);
      && |s'.path.sf| == |s.path.sf| && s'.path.sl == s.path.sl && s'.slTable == s.slTable
      && s'.sfTable == x.table && s'.epoch == s.epoch + 1
      && SS.Fits(x, InitialStep(c, s, e.telem)) && SS.Buckets(x, e.order)
      && s'.m == SS.StepTo(x, InitialStep(c, s, e.telem), e.order, |e.order|).m
  {
  }

  // ---------- Every run ----------

  lemma NextKeepsControl(c: Config, table0: seq<nat>, s: Sys, e: Event)
    requires Enabled(c, s, e) && ControlInv(c, table0, s)
    ensures ControlInv(c, table0, Next(c, s, e))
  {
    match e
    case Bin(_, _, _, _) => BinKeepsControl(c, table0, s, e);
    case StatelessEpoch(_) =>
    case StatefulEpoch(_, _, _, _) => EpochKeepsControl(c, table0, s, e);
  }

  lemma {:induction false} RunKeepsControl(c: Config, table0: seq<nat>, s: Sys, events: seq<Event>)
    requires IsRun(c, s, events) && ControlInv(c, table0, s)
    ensures ControlInv(c, table0, After(c, s, events))
    decreases |events|
  {
    if events != [] {
      hide ControlInv, Next, Enabled;
      NextKeepsControl(c, table0, s, events[0]);
      RunKeepsControl(c, table0, Next(c, s, events[0]), events[1..]);
    }
  }

  /** After any run from an initial state: the handoff invariant holds, no issue raised the error of a
      bucket already in handoff, and the stateful table is the initial one with the completed
      handoffs applied in order, each starting from the queue the previous one left its bucket in. */
  lemma EveryRun(c: Config, s: Sys, events: seq<Event>)
    requires IsInitial(c, s) && IsRun(c, s, events)
    ensures var s' := After(c, s, events);
      && H.Inv(c.handoff, s'.m, s'.sfTable)
      && s'.sfTable == H.Commit(s.sfTable, s'.m.history)
      && T.Chained(s.sfTable, s'.m.history)
  {
    InitialControl(c, s);
    RunKeepsControl(c, s.sfTable, s, events);
  }

  /** The scheduler's step at a reachable epoch boundary never reaches the error branch of issue. */
  lemma IssueNeverRaises(c: Config, s: Sys, events: seq<Event>, e: Event)
    requires IsInitial(c, s) && IsRun(c, s, events) && Enabled(c, After(c, s, events), e) && e.StatefulEpoch?
    ensures var s' := After(c, s, events);
      var x, st := StepContext(c, s', e.telem, e.draw), InitialStep(c, s', e.telem);
      SS.Fits(x, st) && SS.Buckets(x, e.order) && !SS.StepTo(x, st, e.order, |e.order|).raised
  {
    InitialControl(c, s);
    RunKeepsControl(c, s.sfTable, s, events);
    var s' := After(c, s, events);
    TickedStep(c, s.sfTable, s', e);
    var x, st := StepContext(c, s', e.telem, e.draw), InitialStep(c, s', e.telem);
    SS.StepKeepsInv(x, st, e.order, |e.order|);
  }

  /** In every run consecutive completed handoffs of one bucket chain. */
  lemma EveryRunChains(c: Config, s: Sys, events: seq<Event>, i: nat, j: nat)
    requires IsInitial(c, s) && IsRun(c, s, events)
    requires var h := After(c, s, events).m.history;
      i < j < |h| && h[i].bucket == h[j].bucket && forall k :: i < k < j ==> h[k].bucket != h[i].bucket
    ensures After(c, s, events).m.history[i].dst == After(c, s, events).m.history[j].src
  {
    EveryRun(c, s, events);
    T.ConsecutiveHandoffsChain(s.sfTable, After(c, s, events).m.history, i, j);
  }
}

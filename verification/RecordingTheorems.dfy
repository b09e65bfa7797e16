/** The report that the scheduler reads at a boundary of a trace-driven run is the one that the results about reports
    speak of: what the recorder has gathered since the last boundary are the rows and the credits of the epoch. */
module RecordingTheorems {
  import opened Common
  import T = Traces
  import TM = Telemetry
  import TT = TelemetryTheorems
  import RP = ReportTheorems
  import BC = BinConservation
  import opened Emulator
  import opened TraceDriven

  /** No stateful boundary among the steps. */
  ghost predicate Inside(steps: seq<Step>) {
    forall i :: 0 <= i < |steps| ==> !steps[i].CloseStateful?
  }

  ghost function Ends(x: Setup, w: World, steps: seq<Step>): World
    requires Sound(x, w) && IsDriven(x, w, steps)
    decreases |steps|
  {
    if steps == [] then w
    else
      ApplyKeepsSound(x, w, steps[0]);
      Ends(x, Apply(x, w, steps[0]), steps[1..])
  }

  /** What the stateful traces emit with each event, and what the arbiter keeps of it. */
  ghost function Gens(x: Setup, w: World, steps: seq<Step>): seq<TT.Generated>
    requires Sound(x, w) && IsDriven(x, w, steps)
    decreases |steps|
  {
    if steps == [] then []
    else
      ApplyKeepsSound(x, w, steps[0]);
      var rest := Gens(x, Apply(x, w, steps[0]), steps[1..]);
      match steps[0]
      case Shift(_, _) => rest
      case Emit(_, keepSf, _, tEnd) => [TT.Generated(T.BinPackets(w.sf, tEnd), keepSf)] + rest
      case _ => [TT.Generated([], [])] + rest
  }

  /** The first step of a driven run. */
  lemma DrivenHead(x: Setup, w: World, steps: seq<Step>)
    requires Sound(x, w) && IsDriven(x, w, steps) && steps != []
    ensures Possible(x, w, steps[0])
    ensures var w1 := Apply(x, w, steps[0]);
      && Sound(x, w1) && IsDriven(x, w1, steps[1..]) && Ends(x, w, steps) == Ends(x, w1, steps[1..])
      && Events(x, w, steps)
         == (if steps[0].Shift? then [] else [EventOf(x, w, steps[0])]) + Events(x, w1, steps[1..])
  {
    ApplyKeepsSound(x, w, steps[0]);
    hide Apply, EventOf, Possible, Sound;
    var rest := Events(x, Apply(x, w, steps[0]), steps[1..]);
    assert [] + rest == rest;
  }

  lemma GensHead(x: Setup, w: World, steps: seq<Step>)
    requires Sound(x, w) && IsDriven(x, w, steps) && steps != []
    ensures Possible(x, w, steps[0])
    ensures var w1 := Apply(x, w, steps[0]);
      && Sound(x, w1) && IsDriven(x, w1, steps[1..])
      && (steps[0].Shift? ==> Gens(x, w, steps) == Gens(x, w1, steps[1..]))
      && (steps[0].CloseStateless? ==> Gens(x, w, steps) == [TT.Generated([], [])] + Gens(x, w1, steps[1..]))
      && (steps[0].Emit? ==>
            && T.AllWellFormed(w.sf)
            && Gens(x, w, steps)
               == [TT.Generated(T.BinPackets(w.sf, steps[0].tEnd), steps[0].keepSf)] + Gens(x, w1, steps[1..]))
  {
    ApplyKeepsSound(x, w, steps[0]);
    hide Apply, Possible, T.BinPackets;
  }

  /** A run of the machine, told as driven: where it ends, what it recorded. */
  ghost predicate Follows(x: Setup, w: World, events: seq<Event>, gens: seq<TT.Generated>, w': World) {
    && |gens| == |events| && IsRun(x.c, w.s, events) && TT.WithinEpoch(Stateful, events)
    && TT.GeneratedFor(Stateful, w.s.sfTable, events, gens)
    && Sound(x, w') && w'.s == After(x.c, w.s, events) && w'.start == w.start && w'.s.sfTable == w.s.sfTable
    && w'.rows == w.rows + TT.Rows(x.c, w.s, Stateful, events, gens)
    && var v := TT.Snapshots(x.c, w.s, Stateful, events);
      && |v| == |TT.Rows(x.c, w.s, Stateful, events, gens)| + 1
      && v[0] == TT.Credits(w.s.path.sf) && v[|v| - 1] == TT.Credits(w'.s.path.sf)
  }

  lemma FollowsNothing(x: Setup, w: World)
    requires Sound(x, w)
    ensures Follows(x, w, [], [], w)
  {
    hide Sound, TT.Credits;
    assert w.rows + [] == w.rows;
  }

  lemma FollowsParts(x: Setup, w: World, events: seq<Event>, gens: seq<TT.Generated>, w': World)
    requires Follows(x, w, events, gens, w')
    ensures |gens| == |events| && IsRun(x.c, w.s, events) && TT.WithinEpoch(Stateful, events)
    ensures TT.GeneratedFor(Stateful, w.s.sfTable, events, gens)
    ensures Sound(x, w') && w'.s == After(x.c, w.s, events) && w'.start == w.start && w'.s.sfTable == w.s.sfTable
    ensures w'.rows == w.rows + TT.Rows(x.c, w.s, Stateful, events, gens)
    ensures var v := TT.Snapshots(x.c, w.s, Stateful, events);
      && |v| == |TT.Rows(x.c, w.s, Stateful, events, gens)| + 1
      && v[0] == TT.Credits(w.s.path.sf) && v[|v| - 1] == TT.Credits(w'.s.path.sf)
  {
    hide *;
    FollowsIff(x, w, events, gens, w');
  }

  lemma FollowsIff(x: Setup, w: World, events: seq<Event>, gens: seq<TT.Generated>, w': World)
    ensures Follows(x, w, events, gens, w') <==>
      && |gens| == |events| && IsRun(x.c, w.s, events) && TT.WithinEpoch(Stateful, events)
      && TT.GeneratedFor(Stateful, w.s.sfTable, events, gens)
      && Sound(x, w') && w'.s == After(x.c, w.s, events) && w'.start == w.start && w'.s.sfTable == w.s.sfTable
      && w'.rows == w.rows + TT.Rows(x.c, w.s, Stateful, events, gens)
      && var v := TT.Snapshots(x.c, w.s, Stateful, events);
        && |v| == |TT.Rows(x.c, w.s, Stateful, events, gens)| + 1
        && v[0] == TT.Credits(w.s.path.sf) && v[|v| - 1] == TT.Credits(w'.s.path.sf)
  {
    hide Sound, IsRun, After, TT.Rows, TT.Snapshots, TT.Credits, TT.WithinEpoch, TT.GeneratedFor;
  }

  /** What one more event in front means for a run. */
  lemma EventInFront(c: Config, s: Sys, e: Event, gen: TT.Generated, events: seq<Event>, gens: seq<TT.Generated>)
    requires Enabled(c, s, e) && !e.StatefulEpoch? && Next(c, s, e).sfTable == s.sfTable
    requires e.Bin? ==>
      && |gen.keep| == |gen.pkts| && InTables(gen.pkts, s.sfTable) && e.sf == BC.Thin(gen.pkts, gen.keep, true)
    requires |gens| == |events| && IsRun(c, Next(c, s, e), events) && TT.WithinEpoch(Stateful, events)
    requires TT.GeneratedFor(Stateful, s.sfTable, events, gens)
    ensures |[gen] + gens| == |[e] + events| && IsRun(c, s, [e] + events) && TT.WithinEpoch(Stateful, [e] + events)
    ensures TT.GeneratedFor(Stateful, s.sfTable, [e] + events, [gen] + gens)
    ensures After(c, s, [e] + events) == After(c, Next(c, s, e), events)
  {
    hide Next, Enabled, InTables, BC.Thin;
    assert ([e] + events)[1..] == events && ([gen] + gens)[1..] == gens;
  }

  lemma RowsInFront(c: Config, s: Sys, e: Event, gen: TT.Generated, events: seq<Event>, gens: seq<TT.Generated>)
    requires |gens| == |events| && IsRun(c, s, [e] + events) && IsRun(c, Next(c, s, e), events)
    ensures var s1 := Next(c, s, e);
      var rows, v := TT.Rows(c, s1, Stateful, events, gens), TT.Snapshots(c, s1, Stateful, events);
      if e.Bin? then
        && TT.Rows(c, s, Stateful, [e] + events, [gen] + gens) == [TT.RowOf(s1.path.sf, gen.pkts, s.sfTable)] + rows
        && TT.Snapshots(c, s, Stateful, [e] + events) == [TT.Credits(s.path.sf)] + v
      else
        && TT.Rows(c, s, Stateful, [e] + events, [gen] + gens) == rows
        && TT.Snapshots(c, s, Stateful, [e] + events) == v
  {
    assert ([e] + events)[1..] == events && ([gen] + gens)[1..] == gens;
    TT.RecordedHead(c, s, Stateful, [e] + events, [gen] + gens);
    hide Next, Enabled, TT.RowOf, TT.Credits, TT.Rows, TT.Snapshots;
    assert ([e] + events)[0] == e && ([gen] + gens)[0] == gen;
  }

  lemma FollowsEvent(x: Setup, w: World, e: Event, gen: TT.Generated, w1: World, events: seq<Event>,
        gens: seq<TT.Generated>, w': World)
    requires Follows(x, w1, events, gens, w')
    requires Enabled(x.c, w.s, e) && !e.StatefulEpoch? && w1.s == Next(x.c, w.s, e) && w1.s.sfTable == w.s.sfTable
    requires e.Bin? ==>
      && |gen.keep| == |gen.pkts| && InTables(gen.pkts, w.s.sfTable) && e.sf == BC.Thin(gen.pkts, gen.keep, true)
    requires w1.start == w.start
    requires w1.rows == w.rows + if e.Bin? then [TT.RowOf(w1.s.path.sf, gen.pkts, w.s.sfTable)] else []
    requires !e.Bin? ==> w1.s.path.sf == w.s.path.sf
    ensures Follows(x, w, [e] + events, [gen] + gens, w')
  {
    hide *;
    FollowsParts(x, w1, events, gens, w');
    EventInFront(x.c, w.s, e, gen, events, gens);
    RowsInFront(x.c, w.s, e, gen, events, gens);
    var rows := TT.Rows(x.c, w1.s, Stateful, events, gens);
    assert w.rows + [] + rows == w.rows + rows;
    FollowsIff(x, w, [e] + events, [gen] + gens, w');
  }

  lemma FollowsShift(x: Setup, w: World, w1: World, events: seq<Event>, gens: seq<TT.Generated>, w': World)
    requires Follows(x, w1, events, gens, w') && w1.s == w.s && w1.rows == w.rows && w1.start == w.start
    ensures Follows(x, w, events, gens, w')
  {
    hide *;
    FollowsIff(x, w1, events, gens, w');
    FollowsIff(x, w, events, gens, w');
  }

  /** The packets that the stateful traces emit hash into the table. */
  lemma EmittedInTables(x: Setup, w: World, tEnd: int)
    requires Sound(x, w) && w.s.now <= tEnd
    ensures T.AllWellFormed(w.sf) && InTables(T.BinPackets(w.sf, tEnd), w.s.sfTable)
  {
    EmittedWithin(w.sf, w.s.now, tEnd, w.s.sfTable);
    hide T.BinPackets;
    var pkts := T.BinPackets(w.sf, tEnd);
    assert forall i :: 0 <= i < |pkts| ==> pkts[i] in pkts;
  }

  /** What the first step is to the machine and the recorder. */
  lemma EmitIsEvent(x: Setup, w: World, step: Step)
    requires Sound(x, w) && Possible(x, w, step) && step.Emit?
    ensures T.AllWellFormed(w.sf) && w.s.now <= step.tEnd
    ensures var e, w1, pkts := EventOf(x, w, step), Apply(x, w, step), T.BinPackets(w.sf, step.tEnd);
      && e.Bin? && Enabled(x.c, w.s, e) && w1.s == Next(x.c, w.s, e) && w1.s.sfTable == w.s.sfTable
      && |step.keepSf| == |pkts| && e.sf == BC.Thin(pkts, step.keepSf, true)
      && w1.start == w.start && w1.rows == w.rows + [TT.RowOf(w1.s.path.sf, pkts, w.s.sfTable)]
  {
    EmitOfWorld(x, w, step);
    hide Sound, Next, Enabled, Apply, T.BinPackets, TT.RowOf;
  }

  lemma TableIsEvent(x: Setup, w: World, step: Step)
    requires Sound(x, w) && Possible(x, w, step) && step.CloseStateless?
    ensures var e, w1 := EventOf(x, w, step), Apply(x, w, step);
      && e.StatelessEpoch? && Enabled(x.c, w.s, e) && w1.s == Next(x.c, w.s, e) && w1.s.sfTable == w.s.sfTable
      && w1.s.path.sf == w.s.path.sf && w1.start == w.start && w1.rows == w.rows
  {
    StepIsEnabled(x, w, step);
    hide Sound;
  }

  lemma ShiftIsNone(x: Setup, w: World, step: Step)
    requires Sound(x, w) && Possible(x, w, step) && step.Shift?
    ensures var w1 := Apply(x, w, step); w1.s == w.s && w1.start == w.start && w1.rows == w.rows
  {
    hide Sound;
  }

  lemma {:induction false} RecorderFollows(x: Setup, w: World, steps: seq<Step>)
    requires Sound(x, w) && IsDriven(x, w, steps) && Inside(steps)
    ensures Follows(x, w, Events(x, w, steps), Gens(x, w, steps), Ends(x, w, steps))
    decreases |steps|
  {
    hide *;
    if steps == [] {
      NothingDriven(x, w, steps);
      FollowsNothing(x, w);
    } else {
      var step := steps[0];
      DrivenHead(x, w, steps);
      GensHead(x, w, steps);
      InsideTail(steps);
      var w1, w' := Apply(x, w, step), Ends(x, w, steps);
      RecorderFollows(x, w1, steps[1..]);
      var events, gens := Events(x, w1, steps[1..]), Gens(x, w1, steps[1..]);
      if step.Shift? {
        ShiftIsNone(x, w, step);
        FollowsShift(x, w, w1, events, gens, w');
        assert [] + events == events;
      } else if step.Emit? {
        EmitIsEvent(x, w, step);
        EmittedInTables(x, w, step.tEnd);
        FollowsEvent(x, w, EventOf(x, w, step), TT.Generated(T.BinPackets(w.sf, step.tEnd), step.keepSf), w1, events,
                     gens, w');
      } else {
        TableIsEvent(x, w, step);
        assert w.rows + [] == w.rows;
        FollowsEvent(x, w, EventOf(x, w, step), TT.Generated([], []), w1, events, gens, w');
      }
    }
  }

  lemma NothingDriven(x: Setup, w: World, steps: seq<Step>)
    requires Sound(x, w) && IsDriven(x, w, steps) && steps == []
    ensures Events(x, w, steps) == [] && Gens(x, w, steps) == [] && Ends(x, w, steps) == w
  {
  }

  lemma InsideTail(steps: seq<Step>)
    requires Inside(steps) && steps != []
    ensures Inside(steps[1..]) && !steps[0].CloseStateful?
  {
  }

  /** At any moment of an epoch, the report that would close it is that of the rows and the credits which the run
      since the last boundary has recorded. */
  lemma ClosedIsReported(x: Setup, w: World, steps: seq<Step>)
    requires Sound(x, w) && IsDriven(x, w, steps) && Inside(steps)
    requires w.rows == [] && w.start == TT.Credits(w.s.path.sf)
    ensures Follows(x, w, Events(x, w, steps), Gens(x, w, steps), Ends(x, w, steps))
    ensures var events, gens, w' := Events(x, w, steps), Gens(x, w, steps), Ends(x, w, steps);
      && |gens| == |events| && IsRun(x.c, w.s, events) && Sound(x, w')
      && var rows, credits := TT.Rows(x.c, w.s, Stateful, events, gens), TT.Snapshots(x.c, w.s, Stateful, events);
        && |credits| == |rows| + 1 && TM.Closing(x.tc, rows, credits[0], credits[|rows|])
        && Closed(x, w') == TM.ReportOf(x.tc, rows, credits[0], credits[|rows|])
  {
    hide *;
    RecorderFollows(x, w, steps);
    var w' := Ends(x, w, steps);
    FollowsParts(x, w, Events(x, w, steps), Gens(x, w, steps), w');
    var rows := TT.Rows(x.c, w.s, Stateful, Events(x, w, steps), Gens(x, w, steps));
    assert [] + rows == rows;
    ClosedParts(x, w');
  }

  lemma ClosedParts(x: Setup, w: World)
    requires Sound(x, w)
    ensures TM.Closing(x.tc, w.rows, w.start, TT.Credits(w.s.path.sf))
    ensures Closed(x, w) == TM.ReportOf(x.tc, w.rows, w.start, TT.Credits(w.s.path.sf))
  {
    RecordedCloses(x.tc, w.rows, w.start, TT.Credits(w.s.path.sf));
    hide TM.ReportOf, TT.Credits;
  }

  lemma {:induction false} EndsAfter(x: Setup, w: World, steps: seq<Step>)
    requires Sound(x, w) && IsDriven(x, w, steps)
    ensures IsRun(x.c, w.s, Events(x, w, steps)) && Sound(x, Ends(x, w, steps))
    ensures Ends(x, w, steps).s == After(x.c, w.s, Events(x, w, steps))
    decreases |steps|
  {
    hide *;
    if steps == [] {
      NothingDriven(x, w, steps);
      NoEvents(x.c, w.s);
    } else {
      var step := steps[0];
      DrivenHead(x, w, steps);
      var w1 := Apply(x, w, step);
      StepOfMachine(x, w, step);
      EndsAfter(x, w1, steps[1..]);
      var rest := Events(x, w1, steps[1..]);
      if step.Shift? {
        assert [] + rest == rest;
      } else {
        EventFirst(x.c, w.s, EventOf(x, w, step), rest);
      }
    }
  }

  lemma NoEvents(c: Config, s: Sys)
    ensures IsRun(c, s, []) && After(c, s, []) == s
  {
  }

  lemma EventFirst(c: Config, s: Sys, e: Event, events: seq<Event>)
    requires Enabled(c, s, e) && IsRun(c, Next(c, s, e), events)
    ensures IsRun(c, s, [e] + events) && After(c, s, [e] + events) == After(c, Next(c, s, e), events)
  {
    assert ([e] + events)[1..] == events;
    hide Next, Enabled;
  }

  lemma FittingMatches(x: Setup, w: World)
    requires Sound(x, w) && x.tc.depth == x.c.path.sf.queue.depth
    ensures TT.Matches(x.c, w.s, Stateful, x.tc) && w.s.Tables().Of(Stateful) == w.s.sfTable
    ensures x.tc.eps > 0.0 && x.tc.depth > 0
  {
  }

  /** What the scheduler reads at a boundary of a trace-driven run from the start, whose recorder was last restarted
      after the steps before: a bucket's bytes are those the traces emitted for it in the bins since then, before the
      arbiter and the redirection, and what a queue dropped is what came to it in these bins and was not admitted. */
  lemma SchedulerReadsTheEpoch(x: Setup, w0: World, before: seq<Step>, steps: seq<Step>, b: nat, q: nat)
    requires IsInitial(x.c, w0.s) && Sound(x, w0) && IsDriven(x, w0, before)
    requires var w := Ends(x, w0, before);
      Sound(x, w) && w.rows == [] && w.start == TT.Credits(w.s.path.sf) && IsDriven(x, w, steps) && Inside(steps)
    requires b < x.tc.buckets && q < x.tc.queues && x.tc.depth == x.c.path.sf.queue.depth
    ensures var w := Ends(x, w0, before);
      var events, gens, w' := Events(x, w, steps), Gens(x, w, steps), Ends(x, w, steps);
      && |gens| == |events| && IsRun(x.c, w.s, events) && Sound(x, w')
      && var r := Closed(x, w');
        && b < |r.bucketBytes| && r.bucketBytes[b] == RP.BytesGenerated(events, gens, b) as real
        && q < |r.dropBytes| && r.dropBytes[q] == RP.BytesLost(x.c, w.s, Stateful, events, q) as real
  {
    hide *;
    EndsAfter(x, w0, before);
    var w := Ends(x, w0, before);
    ClosedIsReported(x, w, steps);
    FollowsParts(x, w, Events(x, w, steps), Gens(x, w, steps), Ends(x, w, steps));
    FittingMatches(x, w);
    RP.ReportedBytes(x.c, w0.s, Events(x, w0, before), Stateful, Events(x, w, steps), Gens(x, w, steps), x.tc, b, q);
  }
}

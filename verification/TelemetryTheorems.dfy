/** What the recorder sees in a run: every epoch it closes satisfies the conditions under which the
    pressure needs no clipping, and the loads it reports are the fold of the bucket bytes. */
module TelemetryTheorems {
  import opened Common
  import T = Telemetry
  import CQ = CreditQueue
  import PP = PacketPath
  import A = Accounting
  import CT = CreditTheorems
  import BC = BinConservation
  import R = Redirection
  import opened Emulator

  /** What was generated for the domain in a bin, and the arbiter's mask. */
  datatype Generated = Generated(pkts: seq<Packet>, keep: seq<bool>)

  function Credits(qs: seq<CQ.Queue>): (v: seq<int>)
    ensures |v| == |qs|
  {
    seq(|qs|, i requires 0 <= i < |qs| => qs[i].credits)
  }

  function BucketPkts(gen: seq<Packet>, n: nat): (v: seq<int>)
    ensures |v| == n
  {
    seq(n, b requires 0 <= b < n => R.CountOf(gen, b))
  }

  /** The row recorded at the end of a bin from the queues' counters. */
  function RowOf(qs: seq<CQ.Queue>, gen: seq<Packet>, table: seq<nat>): T.Row {
    var n := |qs|;
    var bytes := BC.BucketBytes(gen, |table|);
    T.Row(bytes,
          BucketPkts(gen, |table|),
          T.FoldToQueues(table, bytes, n),
          seq(n, i requires 0 <= i < n => qs[i].stats.admPkts),
          seq(n, i requires 0 <= i < n => qs[i].stats.admBytes as real),
          seq(n, i requires 0 <= i < n => qs[i].stats.dropPkts),
          seq(n, i requires 0 <= i < n => qs[i].stats.dropBytes as real),
          seq(n, i requires 0 <= i < n => qs[i].stats.returned))
  }

  /** The latency samples of a bin, queue by queue. */
  function Gathered(qs: seq<CQ.Queue>): seq<real> {
    if qs == [] then [] else Gathered(qs[..|qs| - 1]) + qs[|qs| - 1].stats.latencies
  }

  /** The events of a run that a domain's recorder sees within one of its epochs: none is the boundary
      of the domain itself. */
  ghost predicate WithinEpoch(d: Domain, events: seq<Event>) {
    forall i :: 0 <= i < |events| ==>
      !(d.Stateful? && events[i].StatefulEpoch?) && !(d.Stateless? && events[i].StatelessEpoch?)
  }

  function EventPackets(e: Event, d: Domain): seq<Packet>
    requires e.Bin?
  {
    if d.Stateless? then e.sl else e.sf
  }

  /** Each bin's packets are what the arbiter kept of the generated ones. */
  ghost predicate GeneratedFor(d: Domain, table: seq<nat>, events: seq<Event>, gens: seq<Generated>) {
    && |gens| == |events|
    && forall i :: 0 <= i < |events| && events[i].Bin? ==>
         && |gens[i].keep| == |gens[i].pkts| && InTables(gens[i].pkts, table)
         && EventPackets(events[i], d) == BC.Thin(gens[i].pkts, gens[i].keep, true)
  }

  /** Rows and credit snapshots recorded over the events. */
  ghost function Rows(c: Config, s: Sys, d: Domain, events: seq<Event>, gens: seq<Generated>): seq<T.Row>
    requires IsRun(c, s, events) && |gens| == |events|
    decreases |events|
  {
    if events == [] then []
    else
      var s1 := Next(c, s, events[0]);
      (if events[0].Bin? then [RowOf(s1.path.Of(d), gens[0].pkts, s.Tables().Of(d))] else [])
      + Rows(c, s1, d, events[1..], gens[1..])
  }

  /** All latency samples recorded over the events. */
  ghost function Samples(c: Config, s: Sys, d: Domain, events: seq<Event>): seq<real>
    requires IsRun(c, s, events)
    decreases |events|
  {
    if events == [] then []
    else
      var s1 := Next(c, s, events[0]);
      (if events[0].Bin? then Gathered(s1.path.Of(d)) else []) + Samples(c, s1, d, events[1..])
  }

  ghost function Snapshots(c: Config, s: Sys, d: Domain, events: seq<Event>): seq<seq<int>>
    requires IsRun(c, s, events)
    decreases |events|
  {
    if events == [] then [Credits(s.path.Of(d))]
    else
      (if events[0].Bin? then [Credits(s.path.Of(d))] else [])
      + Snapshots(c, Next(c, s, events[0]), d, events[1..])
  }

  ghost predicate Matches(c: Config, s: Sys, d: Domain, tc: T.Config) {
    && tc.queues == |s.path.Of(d)| && tc.buckets == |s.Tables().Of(d)|
    && tc.depth == c.path.Of(d).queue.depth
  }

  /** Within an epoch the domain's table and queue count stay, and so do its credits between bins. */
  lemma EventWithinEpoch(c: Config, s: Sys, d: Domain, e: Event)
    requires Enabled(c, s, e) && WithinEpoch(d, [e])
    ensures var s' := Next(c, s, e);
      && |s'.path.Of(d)| == |s.path.Of(d)| && s'.Tables().Of(d) == s.Tables().Of(d)
      && (!e.Bin? ==> s'.path.Of(d) == s.path.Of(d))
  {
    var e0 := [e][0];
    if e.Bin? {
      NextOfBin(c, s, e.sl, e.sf, e.noise, e.tEnd);
    }
    assert !(d.Stateful? && e0.StatefulEpoch?) && !(d.Stateless? && e0.StatelessEpoch?);
  }

  lemma RowShape(qs: seq<CQ.Queue>, gen: seq<Packet>, table: seq<nat>, tc: T.Config)
    requires |qs| == tc.queues && |table| == tc.buckets
    ensures var row := RowOf(qs, gen, table);
      T.Sized(tc, row) && row.genBytes == T.FoldToQueues(table, row.bucketBytes, tc.queues)
  {
    hide T.FoldToQueues, BC.BucketBytes, R.CountOf;
  }

  lemma RowFields(qs: seq<CQ.Queue>, gen: seq<Packet>, table: seq<nat>, tc: T.Config, i: nat)
    requires |qs| == tc.queues && |table| == tc.buckets && i < tc.queues
    ensures var row := RowOf(qs, gen, table);
      && T.Sized(tc, row)
      && row.genBytes[i] == TableLoad(table, BC.BucketBytes(gen, |table|), i)
      && row.dropBytes[i] == qs[i].stats.dropBytes as real
      && row.admPkts[i] == qs[i].stats.admPkts && row.returned[i] == qs[i].stats.returned
  {
    hide TableLoad, BC.BucketBytes, R.CountOf;
  }

  /** One bin: drops are part of what was generated, and credits change by returns minus admissions. */
  lemma BinRow(c: Config, s: Sys, d: Domain, e: Event, gen: Generated, tc: T.Config, i: nat)
    requires Enabled(c, s, e) && e.Bin? && Matches(c, s, d, tc) && i < tc.queues
    requires |gen.keep| == |gen.pkts| && InTables(gen.pkts, s.Tables().Of(d))
    requires EventPackets(e, d) == BC.Thin(gen.pkts, gen.keep, true)
    ensures var s' := Next(c, s, e);
      var row := RowOf(s'.path.Of(d), gen.pkts, s.Tables().Of(d));
      && |s'.path.Of(d)| == tc.queues && T.Sized(tc, row)
      && 0.0 <= row.dropBytes[i] <= row.genBytes[i]
      && s'.path.Of(d)[i].credits == s.path.Of(d)[i].credits - row.admPkts[i] + row.returned[i]
  {
    BC.DropsWithinGenerated(c, s, e, d, gen.pkts, gen.keep, i);
    NextOfBin(c, s, e.sl, e.sf, e.noise, e.tEnd);
    var r := Stream(s, e.sl, e.sf, e.noise);
    A.BinAccount(c.path, s.Tables(), s.path, r, e.tEnd);
    hide Next, Enabled, PP.Bin, Stream, TableLoad, A.RoutedPkts, A.RoutedBytes, BC.Thin, RowOf;
    RowFields(Next(c, s, e).path.Of(d), gen.pkts, s.Tables().Of(d), tc, i);
    var q := PP.Bin(c.path, s.Tables(), s.path, r, e.tEnd).Of(d)[i];
    assert A.Account(s.path.Of(d)[i].credits, q, A.RoutedPkts(s.Tables(), d, i, r), A.RoutedBytes(s.Tables(), d, i, r));
    assert Next(c, s, e).path.Of(d)[i] == q;
  }

  /** The row of a bin, for all queues, and its place before the rest of the epoch. */
  ghost predicate RowOk(tc: T.Config, row: T.Row, before: seq<int>, after: seq<int>, table: seq<nat>) {
    && T.Sized(tc, row) && |table| == tc.buckets && InRange(tc, before) && Balanced(tc, row, before, after)
    && row.genBytes == T.FoldToQueues(table, row.bucketBytes, tc.queues)
  }

  ghost predicate InRange(tc: T.Config, credits: seq<int>) {
    |credits| == tc.queues && forall q: nat :: q < tc.queues ==> 0 <= credits[q] <= tc.depth
  }

  /** Drops are part of what was generated, and credits change by returns minus admissions. */
  ghost predicate Balanced(tc: T.Config, row: T.Row, before: seq<int>, after: seq<int>) {
    && T.Sized(tc, row) && |before| == |after| == tc.queues
    && (forall q: nat :: q < tc.queues ==> 0.0 <= row.dropBytes[q] <= row.genBytes[q])
    && (forall q: nat :: q < tc.queues ==> after[q] == before[q] - row.admPkts[q] + row.returned[q])
  }

  lemma CreditsInRange(c: Config, s: Sys, d: Domain, tc: T.Config)
    requires Matches(c, s, d, tc) && CT.CreditsOk(c.path, s.path)
    ensures InRange(tc, Credits(s.path.Of(d)))
  {
    forall q: nat | q < tc.queues ensures 0 <= Credits(s.path.Of(d))[q] <= tc.depth {
      assert CQ.Inv(c.path.Of(d).queue, s.path.Of(d)[q]);
    }
  }

  lemma BinRowBalanced(c: Config, s: Sys, d: Domain, e: Event, gen: Generated, tc: T.Config)
    requires Enabled(c, s, e) && e.Bin? && Matches(c, s, d, tc)
    requires |gen.keep| == |gen.pkts| && InTables(gen.pkts, s.Tables().Of(d))
    requires EventPackets(e, d) == BC.Thin(gen.pkts, gen.keep, true)
    ensures var qs' := Next(c, s, e).path.Of(d);
      |qs'| == tc.queues && Balanced(tc, RowOf(qs', gen.pkts, s.Tables().Of(d)), Credits(s.path.Of(d)), Credits(qs'))
  {
    EventWithinEpoch(c, s, d, e);
    var qs, qs', table := s.path.Of(d), Next(c, s, e).path.Of(d), s.Tables().Of(d);
    var row := RowOf(qs', gen.pkts, table);
    RowShape(qs', gen.pkts, table, tc);
    hide Next, Enabled, BC.Thin, RowOf, InTables, EventPackets;
    forall q: nat | q < tc.queues
      ensures 0.0 <= row.dropBytes[q] <= row.genBytes[q]
      ensures Credits(qs')[q] == Credits(qs)[q] - row.admPkts[q] + row.returned[q]
    {
      BinRow(c, s, d, e, gen, tc, q);
    }
  }

  lemma BinRowIsOk(c: Config, s: Sys, d: Domain, e: Event, gen: Generated, tc: T.Config)
    requires Enabled(c, s, e) && e.Bin? && Matches(c, s, d, tc) && CT.CreditsOk(c.path, s.path)
    requires |gen.keep| == |gen.pkts| && InTables(gen.pkts, s.Tables().Of(d))
    requires EventPackets(e, d) == BC.Thin(gen.pkts, gen.keep, true)
    ensures var s' := Next(c, s, e);
      RowOk(tc, RowOf(s'.path.Of(d), gen.pkts, s.Tables().Of(d)), Credits(s.path.Of(d)), Credits(s'.path.Of(d)),
          s.Tables().Of(d))
  {
    hide Next, Enabled, CT.CreditsOk, BC.Thin, RowOf, Credits, InRange, Balanced, T.FoldToQueues, T.Sized, InTables,
        EventPackets;
    CreditsInRange(c, s, d, tc);
    BinRowBalanced(c, s, d, e, gen, tc);
    RowShape(Next(c, s, e).path.Of(d), gen.pkts, s.Tables().Of(d), tc);
  }

  /** Prepending a well-behaved bin to a well-behaved rest of an epoch. */
  lemma EpochOkCons(tc: T.Config, row: T.Row, v: seq<int>, rows: seq<T.Row>, credits: seq<seq<int>>, table: seq<nat>)
    requires T.EpochOk(tc, rows, credits) && T.FoldedWith(tc, rows, table) && RowOk(tc, row, v, credits[0], table)
    ensures T.EpochOk(tc, [row] + rows, [v] + credits) && T.FoldedWith(tc, [row] + rows, table)
  {
    var rs, cs := [row] + rows, [v] + credits;
    forall k, q | 0 <= k < |rs| && 0 <= q < tc.queues
      ensures 0.0 <= rs[k].dropBytes[q] <= rs[k].genBytes[q]
      ensures cs[k + 1][q] == cs[k][q] - rs[k].admPkts[q] + rs[k].returned[q]
    {
      if k > 0 {
        assert rs[k] == rows[k - 1] && cs[k] == credits[k - 1] && cs[k + 1] == credits[k];
      }
    }
  }

  /** The head of the rows and of the snapshots. */
  lemma RecordedHead(c: Config, s: Sys, d: Domain, events: seq<Event>, gens: seq<Generated>)
    requires IsRun(c, s, events) && |gens| == |events| && events != []
    ensures var s1 := Next(c, s, events[0]);
      && IsRun(c, s1, events[1..]) && Enabled(c, s, events[0])
      && (events[0].Bin? ==>
            && Rows(c, s, d, events, gens)
                == [RowOf(s1.path.Of(d), gens[0].pkts, s.Tables().Of(d))] + Rows(c, s1, d, events[1..], gens[1..])
            && Snapshots(c, s, d, events) == [Credits(s.path.Of(d))] + Snapshots(c, s1, d, events[1..]))
      && (!events[0].Bin? ==>
            && Rows(c, s, d, events, gens) == Rows(c, s1, d, events[1..], gens[1..])
            && Snapshots(c, s, d, events) == Snapshots(c, s1, d, events[1..]))
  {
    hide Next, Enabled, RowOf, Credits;
    var s1 := Next(c, s, events[0]);
    assert [] + Rows(c, s1, d, events[1..], gens[1..]) == Rows(c, s1, d, events[1..], gens[1..]);
    assert [] + Snapshots(c, s1, d, events[1..]) == Snapshots(c, s1, d, events[1..]);
  }

  lemma RecordedNothing(c: Config, s: Sys, d: Domain, tc: T.Config)
    requires Matches(c, s, d, tc) && CT.CreditsOk(c.path, s.path)
    ensures T.EpochOk(tc, Rows(c, s, d, [], []), Snapshots(c, s, d, []))
    ensures Snapshots(c, s, d, [])[0] == Credits(s.path.Of(d))
    ensures T.FoldedWith(tc, Rows(c, s, d, [], []), s.Tables().Of(d))
  {
    CreditsInRange(c, s, d, tc);
  }

  /** What an event within the epoch leaves of the recorder's assumptions. */
  lemma StillMatches(c: Config, s: Sys, d: Domain, events: seq<Event>, gens: seq<Generated>, tc: T.Config)
    requires IsRun(c, s, events) && events != [] && WithinEpoch(d, events)
        && GeneratedFor(d, s.Tables().Of(d), events, gens)
    requires Matches(c, s, d, tc) && CT.CreditsOk(c.path, s.path)
    ensures var s1 := Next(c, s, events[0]);
      && WithinEpoch(d, events[1..]) && GeneratedFor(d, s.Tables().Of(d), events[1..], gens[1..])
      && Matches(c, s1, d, tc) && CT.CreditsOk(c.path, s1.path) && s1.Tables().Of(d) == s.Tables().Of(d)
      && (!events[0].Bin? ==> s1.path.Of(d) == s.path.Of(d))
      && (events[0].Bin? ==>
            RowOk(tc, RowOf(s1.path.Of(d), gens[0].pkts, s.Tables().Of(d)), Credits(s.path.Of(d)),
                Credits(s1.path.Of(d)), s.Tables().Of(d)))
  {
    TailFacts(d, s.Tables().Of(d), events, gens);
    hide Next, Enabled, CT.CreditsOk, RowOf, RowOk, BC.Thin, Credits;
    EventWithinEpoch(c, s, d, events[0]);
    CT.NextKeepsCredits(c, s, events[0]);
    if events[0].Bin? {
      BinRowIsOk(c, s, d, events[0], gens[0], tc);
    }
  }

  /** Every epoch recorded in a run, wherever it starts and whatever replays came before it, is one for
      which the clip is redundant and the growth identity holds. */
  lemma {:induction false} RecordedEpochIsOk(c: Config, s: Sys, d: Domain, events: seq<Event>,
        gens: seq<Generated>, tc: T.Config)
    requires IsRun(c, s, events) && WithinEpoch(d, events) && GeneratedFor(d, s.Tables().Of(d), events, gens)
    requires Matches(c, s, d, tc) && CT.CreditsOk(c.path, s.path)
    ensures T.EpochOk(tc, Rows(c, s, d, events, gens), Snapshots(c, s, d, events))
    ensures Snapshots(c, s, d, events)[0] == Credits(s.path.Of(d))
    ensures T.FoldedWith(tc, Rows(c, s, d, events, gens), s.Tables().Of(d))
    decreases |events|
  {
    if events == [] {
      RecordedNothing(c, s, d, tc);
      hide *;
    } else {
      RecordedHead(c, s, d, events, gens);
      StillMatches(c, s, d, events, gens, tc);
      hide *;
      var s1 := Next(c, s, events[0]);
      RecordedEpochIsOk(c, s1, d, events[1..], gens[1..], tc);
      if events[0].Bin? {
        EpochOkCons(tc, RowOf(s1.path.Of(d), gens[0].pkts, s.Tables().Of(d)), Credits(s.path.Of(d)),
                    Rows(c, s1, d, events[1..], gens[1..]), Snapshots(c, s1, d, events[1..]), s.Tables().Of(d));
      }
    }
  }

  lemma TailFacts(d: Domain, table: seq<nat>, events: seq<Event>, gens: seq<Generated>)
    requires events != [] && WithinEpoch(d, events) && GeneratedFor(d, table, events, gens)
    ensures WithinEpoch(d, [events[0]]) && WithinEpoch(d, events[1..]) && GeneratedFor(d, table, events[1..], gens[1..])
  {
  }

  /** In every run from an initial state, in the report of every epoch of either domain: pressure lies in
      [0, 1] before the clip, occupancy grew by admissions minus credit returns, each queue's load is the fold
      of the bucket bytes over the table, and what it dropped is part of that load. */
  lemma PressureInEveryRun(c: Config, s: Sys, before: seq<Event>, d: Domain, events: seq<Event>,
        gens: seq<Generated>, tc: T.Config, q: nat)
    requires IsInitial(c, s) && IsRun(c, s, before) && IsRun(c, After(c, s, before), events)
    requires var s1 := After(c, s, before);
      Matches(c, s1, d, tc) && WithinEpoch(d, events) && GeneratedFor(d, s1.Tables().Of(d), events, gens)
    requires q < tc.queues && tc.eps > 0.0 && tc.depth > 0
    requires tc.w1 >= 0.0 && tc.w2 >= 0.0 && tc.w3 >= 0.0 && tc.w1 + tc.w2 + tc.w3 == 1.0
    ensures var s1 := After(c, s, before);
      var rows, credits := Rows(c, s1, d, events, gens), Snapshots(c, s1, d, events);
      && T.EpochOk(tc, rows, credits) && T.FoldedWith(tc, rows, s1.Tables().Of(d))
      && T.Closing(tc, rows, credits[0], credits[|rows|])
      && var r := T.ReportOf(tc, rows, credits[0], credits[|rows|]);
        && 0.0 <= r.pressure[q] == T.RawPressure(tc, rows, credits[0], credits[|rows|], q) <= 1.0
        && T.Occupancy(tc, credits[|rows|], q) - T.Occupancy(tc, credits[0], q) == r.admPkts[q] - r.returned[q]
        && 0.0 <= r.dropBytes[q] <= r.queueBytes[q] == TableLoad(s1.Tables().Of(d), r.bucketBytes, q)
  {
    CT.InitialCredits(c, s);
    CT.RunKeepsCredits(c, s, before);
    var s1 := After(c, s, before);
    RecordedEpochIsOk(c, s1, d, events, gens, tc);
    T.ReportFitsTogether(tc, Rows(c, s1, d, events, gens), Snapshots(c, s1, d, events), s1.Tables().Of(d), q);
    hide *;
  }
}

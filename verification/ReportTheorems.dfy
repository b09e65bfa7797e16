/** What the report of an epoch says of its packets: the bytes generated per bucket and the bytes lost per queue are
    exactly those of the epoch's bins. */
module ReportTheorems {
  import opened Common
  import CQ = CreditQueue
  import T = Telemetry
  import TT = TelemetryTheorems
  import A = Accounting
  import CT = CreditTheorems
  import PP = PacketPath
  import R = Redirection
  import opened Emulator

  /** Bytes generated for a bucket over the events. */
  ghost function BytesGenerated(events: seq<Event>, gens: seq<TT.Generated>, b: nat): nat
    requires |gens| == |events|
  {
    if events == [] then 0
    else (if events[0].Bin? then R.BytesOf(gens[0].pkts, b) else 0) + BytesGenerated(events[1..], gens[1..], b)
  }

  /** Bytes of a bin that came to a queue and were not admitted there. */
  ghost function LostInBin(c: Config, s: Sys, d: Domain, e: Event, q: nat): int
    requires Enabled(c, s, e) && e.Bin? && q < |Next(c, s, e).path.Of(d)|
  {
    A.RoutedBytes(s.Tables(), d, q, Stream(s, e.sl, e.sf, e.noise)) - Next(c, s, e).path.Of(d)[q].stats.admBytes
  }

  /** The same over the events; a queue that does not exist loses nothing. */
  ghost function BytesLost(c: Config, s: Sys, d: Domain, events: seq<Event>, q: nat): int
    requires IsRun(c, s, events)
    decreases |events|
  {
    if events == [] then 0
    else
      var s1 := Next(c, s, events[0]);
      (if events[0].Bin? && q < |s1.path.Of(d)| then LostInBin(c, s, d, events[0], q) else 0)
      + BytesLost(c, s1, d, events[1..], q)
  }

  lemma {:induction false} SumBucketCons(tc: T.Config, row: T.Row, rows: seq<T.Row>, b: nat)
    requires T.AllSized(tc, rows) && T.Sized(tc, row) && b < tc.buckets
    ensures T.AllSized(tc, [row] + rows)
    ensures T.SumBucketBytes(tc, [row] + rows, b) == row.bucketBytes[b] + T.SumBucketBytes(tc, rows, b)
  {
    var all := [row] + rows;
    if rows == [] {
      assert all[..0] == [];
    } else {
      var n := |rows| - 1;
      SumBucketCons(tc, row, rows[..n], b);
      assert all[..|all| - 1] == [row] + rows[..n] && all[|all| - 1] == rows[n];
    }
  }

  lemma {:induction false} SumDropCons(tc: T.Config, row: T.Row, rows: seq<T.Row>, q: nat)
    requires T.AllSized(tc, rows) && T.Sized(tc, row) && q < tc.queues
    ensures T.AllSized(tc, [row] + rows)
    ensures T.SumDrop(tc, [row] + rows, q) == row.dropBytes[q] + T.SumDrop(tc, rows, q)
  {
    var all := [row] + rows;
    if rows == [] {
      assert all[..0] == [];
    } else {
      var n := |rows| - 1;
      SumDropCons(tc, row, rows[..n], q);
      assert all[..|all| - 1] == [row] + rows[..n] && all[|all| - 1] == rows[n];
    }
  }

  /** The row of one bin. */
  lemma BinTotals(c: Config, s: Sys, d: Domain, e: Event, gen: TT.Generated, tc: T.Config, b: nat, q: nat)
    requires Enabled(c, s, e) && e.Bin? && TT.Matches(c, s, d, tc) && b < tc.buckets && q < tc.queues
    ensures |Next(c, s, e).path.Of(d)| == tc.queues
    ensures var row := TT.RowOf(Next(c, s, e).path.Of(d), gen.pkts, s.Tables().Of(d));
      && T.Sized(tc, row) && row.bucketBytes[b] == R.BytesOf(gen.pkts, b) as real
      && row.dropBytes[q] == LostInBin(c, s, d, e, q) as real
  {
    NextOfBin(c, s, e.sl, e.sf, e.noise, e.tEnd);
    var r := Stream(s, e.sl, e.sf, e.noise);
    A.BinAccount(c.path, s.Tables(), s.path, r, e.tEnd);
    hide Next, Enabled, PP.Bin, Stream, R.BytesOf, A.RoutedPkts, A.RoutedBytes, TT.RowOf;
    var q', tab := PP.Bin(c.path, s.Tables(), s.path, r, e.tEnd).Of(d)[q], s.Tables();
    assert A.Account(s.path.Of(d)[q].credits, q', A.RoutedPkts(tab, d, q, r), A.RoutedBytes(tab, d, q, r));
    assert Next(c, s, e).path.Of(d)[q] == q';
    TT.RowFields(Next(c, s, e).path.Of(d), gen.pkts, s.Tables().Of(d), tc, q);
    RowBuckets(Next(c, s, e).path.Of(d), gen.pkts, s.Tables().Of(d), b);
  }

  lemma RowBuckets(qs: seq<CQ.Queue>, gen: seq<Packet>, table: seq<nat>, b: nat)
    requires b < |table|
    ensures var row := TT.RowOf(qs, gen, table);
      && |row.bucketBytes| == |row.bucketPkts| == |table|
      && row.bucketBytes[b] == R.BytesOf(gen, b) as real && row.bucketPkts[b] == R.CountOf(gen, b)
  {
    hide R.BytesOf, R.CountOf, TableLoad;
  }

  /** The row that a bin records accounts for the bin's packets: per bucket those generated, and per queue what was
      admitted and what was dropped make up what was routed to it, in packets and in bytes. */
  lemma RowAccounts(c: Config, s: Sys, d: Domain, e: Event, gen: seq<Packet>, b: nat, q: nat)
    requires Enabled(c, s, e) && e.Bin? && b < |s.Tables().Of(d)| && q < |Next(c, s, e).path.Of(d)|
    ensures var row, r, tab := TT.RowOf(Next(c, s, e).path.Of(d), gen, s.Tables().Of(d)),
        Stream(s, e.sl, e.sf, e.noise), s.Tables();
      && b < |row.bucketPkts| && row.bucketPkts[b] == R.CountOf(gen, b)
      && q < |row.admPkts| == |row.dropPkts| == |row.admBytes| == |row.dropBytes|
      && row.admPkts[q] + row.dropPkts[q] == A.RoutedPkts(tab, d, q, r)
      && row.admBytes[q] + row.dropBytes[q] == A.RoutedBytes(tab, d, q, r) as real
  {
    NextOfBin(c, s, e.sl, e.sf, e.noise, e.tEnd);
    var r, tab := Stream(s, e.sl, e.sf, e.noise), s.Tables();
    A.BinAccount(c.path, tab, s.path, r, e.tEnd);
    hide Next, Enabled, PP.Bin, Stream, R.BytesOf, R.CountOf, A.RoutedPkts, A.RoutedBytes, TT.RowOf;
    var q' := PP.Bin(c.path, tab, s.path, r, e.tEnd).Of(d)[q];
    assert A.Account(s.path.Of(d)[q].credits, q', A.RoutedPkts(tab, d, q, r), A.RoutedBytes(tab, d, q, r));
    assert Next(c, s, e).path.Of(d)[q] == q';
    RowCounters(Next(c, s, e).path.Of(d), gen, tab.Of(d), q);
    RowBuckets(Next(c, s, e).path.Of(d), gen, tab.Of(d), b);
  }

  lemma RowCounters(qs: seq<CQ.Queue>, gen: seq<Packet>, table: seq<nat>, q: nat)
    requires q < |qs|
    ensures var row, st := TT.RowOf(qs, gen, table), qs[q].stats;
      && |row.admPkts| == |row.dropPkts| == |row.admBytes| == |row.dropBytes| == |qs|
      && row.admPkts[q] == st.admPkts && row.dropPkts[q] == st.dropPkts
      && row.admBytes[q] == st.admBytes as real && row.dropBytes[q] == st.dropBytes as real
  {
    hide R.BytesOf, R.CountOf, TableLoad;
  }

  /** Packets that the queues of a domain admit in the bins of the events. */
  ghost function Admissions(c: Config, s: Sys, d: Domain, events: seq<Event>): nat
    requires IsRun(c, s, events)
    decreases |events|
  {
    if events == [] then 0
    else
      var s1 := Next(c, s, events[0]);
      (if events[0].Bin? then A.Total(s1.path.Of(d), A.AdmPkts) else 0) + Admissions(c, s1, d, events[1..])
  }

  lemma {:induction false} GatheredCount(qs: seq<CQ.Queue>)
    requires forall i :: 0 <= i < |qs| ==> |qs[i].stats.latencies| == qs[i].stats.admPkts
    ensures |TT.Gathered(qs)| == A.Total(qs, A.AdmPkts)
    ensures forall i, k :: 0 <= i < |qs| && 0 <= k < |qs[i].stats.latencies| ==>
      qs[i].stats.latencies[k] in TT.Gathered(qs)
  {
    if qs != [] {
      var n := |qs| - 1;
      GatheredCount(qs[..n]);
      forall i, k | 0 <= i < |qs| && 0 <= k < |qs[i].stats.latencies|
        ensures qs[i].stats.latencies[k] in TT.Gathered(qs)
      {
        if i < n {
          assert qs[..n][i] == qs[i];
        }
      }
    }
  }

  lemma BinSampleCount(c: Config, s: Sys, d: Domain, e: Event)
    requires Enabled(c, s, e) && e.Bin?
    ensures |TT.Gathered(Next(c, s, e).path.Of(d))| == A.Total(Next(c, s, e).path.Of(d), A.AdmPkts)
  {
    NextOfBin(c, s, e.sl, e.sf, e.noise, e.tEnd);
    var r, tab := Stream(s, e.sl, e.sf, e.noise), s.Tables();
    A.BinAccount(c.path, tab, s.path, r, e.tEnd);
    hide Next, Enabled, PP.Bin, Stream, A.RoutedPkts, A.RoutedBytes, A.Total, TT.Gathered;
    var qs := Next(c, s, e).path.Of(d);
    forall i | 0 <= i < |qs| ensures |qs[i].stats.latencies| == qs[i].stats.admPkts {
      assert A.Account(s.path.Of(d)[i].credits, PP.Bin(c.path, tab, s.path, r, e.tEnd).Of(d)[i],
                       A.RoutedPkts(tab, d, i, r), A.RoutedBytes(tab, d, i, r));
    }
    GatheredCount(qs);
  }

  /** Over any stretch of any run the recorder gathers one latency sample for each packet admitted in a bin. */
  lemma {:induction false} OneSampleEach(c: Config, s: Sys, d: Domain, events: seq<Event>)
    requires IsRun(c, s, events)
    ensures |TT.Samples(c, s, d, events)| == Admissions(c, s, d, events)
    decreases |events|
  {
    if events != [] {
      OneSampleEach(c, Next(c, s, events[0]), d, events[1..]);
      if events[0].Bin? {
        BinSampleCount(c, s, d, events[0]);
      }
      hide Next, Enabled, TT.Gathered, A.Total;
    }
  }

  lemma {:induction false} EpochTotals(c: Config, s: Sys, d: Domain, events: seq<Event>, gens: seq<TT.Generated>,
        tc: T.Config, b: nat, q: nat)
    requires IsRun(c, s, events) && TT.WithinEpoch(d, events) && TT.GeneratedFor(d, s.Tables().Of(d), events, gens)
    requires TT.Matches(c, s, d, tc) && CT.CreditsOk(c.path, s.path) && b < tc.buckets && q < tc.queues
    ensures var rows := TT.Rows(c, s, d, events, gens);
      && |gens| == |events| && T.AllSized(tc, rows)
      && T.SumBucketBytes(tc, rows, b) == BytesGenerated(events, gens, b) as real
      && T.SumDrop(tc, rows, q) == BytesLost(c, s, d, events, q) as real
    decreases |events|
  {
    assert |gens| == |events|;
    hide *;
    if events == [] {
      NothingTotals(c, s, d, events, gens, tc, b, q);
    } else {
      TT.RecordedHead(c, s, d, events, gens);
      TT.StillMatches(c, s, d, events, gens, tc);
      var s1 := Next(c, s, events[0]);
      EpochTotals(c, s1, d, events[1..], gens[1..], tc, b, q);
      TotalsHead(c, s, d, events, gens, b, q);
      if events[0].Bin? {
        BinTotals(c, s, d, events[0], gens[0], tc, b, q);
        var row := TT.RowOf(s1.path.Of(d), gens[0].pkts, s.Tables().Of(d));
        SumsCons(tc, row, TT.Rows(c, s1, d, events[1..], gens[1..]), b, q);
      }
    }
  }

  lemma NothingTotals(c: Config, s: Sys, d: Domain, events: seq<Event>, gens: seq<TT.Generated>, tc: T.Config, b: nat,
        q: nat)
    requires IsRun(c, s, events) && events == [] && TT.GeneratedFor(d, s.Tables().Of(d), events, gens)
    requires b < tc.buckets && q < tc.queues
    ensures |gens| == |events| && TT.Rows(c, s, d, events, gens) == [] && T.AllSized(tc, [])
    ensures T.SumBucketBytes(tc, [], b) == 0.0 && BytesGenerated(events, gens, b) == 0
    ensures T.SumDrop(tc, [], q) == 0.0 && BytesLost(c, s, d, events, q) == 0
  {
  }

  lemma SumsCons(tc: T.Config, row: T.Row, rows: seq<T.Row>, b: nat, q: nat)
    requires T.AllSized(tc, rows) && T.Sized(tc, row) && b < tc.buckets && q < tc.queues
    ensures T.AllSized(tc, [row] + rows) && b < |row.bucketBytes| && q < |row.dropBytes|
    ensures T.SumBucketBytes(tc, [row] + rows, b) == row.bucketBytes[b] + T.SumBucketBytes(tc, rows, b)
    ensures T.SumDrop(tc, [row] + rows, q) == row.dropBytes[q] + T.SumDrop(tc, rows, q)
  {
    SumBucketCons(tc, row, rows, b);
    SumDropCons(tc, row, rows, q);
  }

  lemma TotalsHead(c: Config, s: Sys, d: Domain, events: seq<Event>, gens: seq<TT.Generated>, b: nat, q: nat)
    requires IsRun(c, s, events) && |gens| == |events| && events != []
    ensures BytesGenerated(events, gens, b)
         == (if events[0].Bin? then R.BytesOf(gens[0].pkts, b) else 0) + BytesGenerated(events[1..], gens[1..], b)
    ensures var s1 := Next(c, s, events[0]);
      BytesLost(c, s, d, events, q)
      == (if events[0].Bin? && q < |s1.path.Of(d)| then LostInBin(c, s, d, events[0], q) else 0)
          + BytesLost(c, s1, d, events[1..], q)
  {
    hide Next, Enabled, LostInBin, R.BytesOf;
  }

  /** In every run, in the report of every epoch of either domain: the bytes of a bucket are those generated for it
      in the epoch's bins, before thinning and redirection, and the bytes dropped by a queue are those that came to
      it in these bins less those it admitted. */
  lemma ReportedBytes(c: Config, s: Sys, before: seq<Event>, d: Domain, events: seq<Event>, gens: seq<TT.Generated>,
        tc: T.Config, b: nat, q: nat)
    requires IsInitial(c, s) && IsRun(c, s, before) && IsRun(c, After(c, s, before), events)
    requires var s1 := After(c, s, before);
      TT.Matches(c, s1, d, tc) && TT.WithinEpoch(d, events) && TT.GeneratedFor(d, s1.Tables().Of(d), events, gens)
    requires b < tc.buckets && q < tc.queues && tc.eps > 0.0 && tc.depth > 0
    ensures var s1 := After(c, s, before);
      var rows, credits := TT.Rows(c, s1, d, events, gens), TT.Snapshots(c, s1, d, events);
      && |credits| == |rows| + 1 && T.Closing(tc, rows, credits[0], credits[|rows|])
      && var r := T.ReportOf(tc, rows, credits[0], credits[|rows|]);
        && b < |r.bucketBytes| && r.bucketBytes[b] == BytesGenerated(events, gens, b) as real
        && q < |r.dropBytes| && r.dropBytes[q] == BytesLost(c, s1, d, events, q) as real
  {
    CT.InitialCredits(c, s);
    CT.RunKeepsCredits(c, s, before);
    var s1 := After(c, s, before);
    TT.RecordedEpochIsOk(c, s1, d, events, gens, tc);
    EpochTotals(c, s1, d, events, gens, tc, b, q);
    var rows, credits := TT.Rows(c, s1, d, events, gens), TT.Snapshots(c, s1, d, events);
    hide IsRun, After, TT.Rows, TT.Snapshots, BytesGenerated, BytesLost, TT.Matches, CT.CreditsOk;
    T.EpochCloses(tc, rows, credits);
    TotalsReported(tc, rows, credits[0], credits[|rows|], b, q);
  }

  lemma TotalsReported(tc: T.Config, rows: seq<T.Row>, start: seq<int>, end: seq<int>, b: nat, q: nat)
    requires T.Closing(tc, rows, start, end) && b < tc.buckets && q < tc.queues
    ensures var r := T.ReportOf(tc, rows, start, end);
      && b < |r.bucketBytes| && r.bucketBytes[b] == T.SumBucketBytes(tc, rows, b)
      && q < |r.dropBytes| && r.dropBytes[q] == T.SumDrop(tc, rows, q)
  {
    hide T.SumBucketBytes, T.SumDrop, T.Pressure, T.SumGen;
  }
}

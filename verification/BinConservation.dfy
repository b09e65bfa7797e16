/** From generation to fate: over one bin every generated packet is thinned, absorbed by the handoff buffer,
    admitted, or dropped for one of two causes, and what a queue drops was generated for it. */
module BinConservation {
  import opened Common
  import PP = PacketPath
  import A = Accounting
  import CQ = CreditQueue
  import H = Handoffs
  import R = Redirection
  import SM = StreamMerge
  import opened Emulator

  /** The packets the arbiter's random mask keeps (or removes). */
  function Thin(pkts: seq<Packet>, keep: seq<bool>, kept: bool): seq<Packet>
    requires |keep| == |pkts|
  {
    if pkts == [] then []
    else
      var n := |pkts| - 1;
      Thin(pkts[..n], keep[..n], kept) + if keep[n] == kept then [pkts[n]] else []
  }

  lemma SizeSnoc(pkts: seq<Packet>, p: Packet)
    ensures R.TotalSize(pkts + [p]) == R.TotalSize(pkts) + p.size
  {
    assert (pkts + [p])[..|pkts|] == pkts;
  }

  lemma {:induction false} ThinSplits(pkts: seq<Packet>, keep: seq<bool>)
    requires |keep| == |pkts|
    ensures |pkts| == |Thin(pkts, keep, true)| + |Thin(pkts, keep, false)|
    ensures R.TotalSize(pkts) == R.TotalSize(Thin(pkts, keep, true)) + R.TotalSize(Thin(pkts, keep, false))
  {
    if pkts != [] {
      var n := |pkts| - 1;
      ThinSplits(pkts[..n], keep[..n]);
      SizeSnoc(Thin(pkts[..n], keep[..n], keep[n]), pkts[n]);
      var rest := Thin(pkts[..n], keep[..n], !keep[n]);
      assert rest + [] == rest;
    }
  }

  /** A domain's share of the merged stream is the stream it came from. */
  lemma {:induction false} DomainShare(r: seq<PP.Arrival>, d: Domain)
    ensures A.DomainPkts(d, r) == |SM.Project(r, d)|
    ensures A.DomainBytes(d, r) == R.TotalSize(SM.Project(r, d))
  {
    if r != [] {
      var n := |r| - 1;
      DomainShare(r[..n], d);
      SizeSnoc(SM.Project(r[..n], d), r[n].pkt);
      assert SM.Project(r[..n], d) + [] == SM.Project(r[..n], d);
    }
  }

  function FatePkts(qs: seq<CQ.Queue>): nat {
    A.Total(qs, A.AdmPkts) + A.Total(qs, A.CreditDropPkts) + A.Total(qs, A.PcieDropPkts)
  }

  function FateBytes(qs: seq<CQ.Queue>): nat {
    A.Total(qs, A.AdmBytes) + A.Total(qs, A.CreditDropBytes) + A.Total(qs, A.PcieDropBytes)
  }

  /** What the queues of each domain did with the packets that reached them. */
  lemma BinFates(c: Config, s: Sys, e: Event)
    requires Enabled(c, s, e) && e.Bin?
    ensures var s' := Next(c, s, e);
      && |e.sl| == FatePkts(s'.path.sl) && R.TotalSize(e.sl) == FateBytes(s'.path.sl)
      && |R.Passing(s.m, e.sf)| == FatePkts(s'.path.sf) && R.TotalSize(R.Passing(s.m, e.sf)) == FateBytes(s'.path.sf)
      && (c.path.link.Some? ==>
            s'.path.link.stats.acceptedPkts == A.Total(s'.path.sl, A.AdmPkts) + A.Total(s'.path.sf, A.AdmPkts))
      && s'.m == R.Feed(c.handoff, s.m, e.sf)
  {
    var r := Stream(s, e.sl, e.sf, e.noise);
    NextOfBin(c, s, e.sl, e.sf, e.noise, e.tEnd);
    hide Next, Enabled, PP.Bin, A.Total, R.Feed, R.Passing, SM.Merge, SM.Project, R.TotalSize, A.DomainPkts,
        A.DomainBytes;
    SM.MergeInterleaves(e.sl, R.Passing(s.m, e.sf), e.noise);
    DomainShare(r, Stateless);
    DomainShare(r, Stateful);
    A.BinTotals(c.path, s.Tables(), s.path, r, e.tEnd);
    var s' := Next(c, s, e);
    assert A.DomainTotals(c.path, s'.path, Stateless, r) && A.DomainTotals(c.path, s'.path, Stateful, r);
    assert s'.path.Of(Stateless) == s'.path.sl && s'.path.Of(Stateful) == s'.path.sf;
  }

  /** Per-bin conservation in packets and bytes for both domains: generated = thinned + absorbed
      (buffered or overflowed) + admitted + credit-dropped + link-dropped; and the link accepted exactly
      the packets the queues of both domains admitted. */
  lemma BinConserves(c: Config, s: Sys, e: Event, genSl: seq<Packet>, keepSl: seq<bool>, genSf: seq<Packet>,
        keepSf: seq<bool>)
    requires Enabled(c, s, e) && e.Bin? && R.DistinctBuckets(s.m.pending)
    requires |keepSl| == |genSl| && e.sl == Thin(genSl, keepSl, true)
    requires |keepSf| == |genSf| && e.sf == Thin(genSf, keepSf, true)
    ensures var s' := Next(c, s, e);
      && |genSl| == |Thin(genSl, keepSl, false)| + FatePkts(s'.path.sl)
      && R.TotalSize(genSl) == R.TotalSize(Thin(genSl, keepSl, false)) + FateBytes(s'.path.sl)
      && |genSf| == |Thin(genSf, keepSf, false)| + (R.HeldPkts(s'.m.pending) - R.HeldPkts(s.m.pending))
          + FatePkts(s'.path.sf)
      && R.TotalSize(genSf) == R.TotalSize(Thin(genSf, keepSf, false))
           + (R.HeldBytes(s'.m.pending) - R.HeldBytes(s.m.pending)) + FateBytes(s'.path.sf)
      && (c.path.link.Some? ==>
            s'.path.link.stats.acceptedPkts == A.Total(s'.path.sl, A.AdmPkts) + A.Total(s'.path.sf, A.AdmPkts))
  {
    BinFates(c, s, e);
    ThinSplits(genSl, keepSl);
    ThinSplits(genSf, keepSf);
    R.RedirectionAccount(c.handoff, s.m, e.sf);
    hide *;
  }

  // ---------- Per queue: drops are part of what was generated ----------

  function RoutedSize(pkts: seq<Packet>, table: seq<nat>, q: nat): nat {
    if pkts == [] then 0
    else
      var p := pkts[|pkts| - 1];
      RoutedSize(pkts[..|pkts| - 1], table, q) + if p.bucket < |table| && table[p.bucket] == q then p.size else 0
  }

  lemma RoutedSnoc(pkts: seq<Packet>, p: Packet, table: seq<nat>, q: nat)
    ensures RoutedSize(pkts + [p], table, q)
         == RoutedSize(pkts, table, q) + if p.bucket < |table| && table[p.bucket] == q then p.size else 0
  {
    assert (pkts + [p])[..|pkts|] == pkts;
  }

  lemma {:induction false} ThinRoutesLess(pkts: seq<Packet>, keep: seq<bool>, table: seq<nat>, q: nat)
    requires |keep| == |pkts|
    ensures RoutedSize(Thin(pkts, keep, true), table, q) <= RoutedSize(pkts, table, q)
  {
    if pkts != [] {
      var n := |pkts| - 1;
      ThinRoutesLess(pkts[..n], keep[..n], table, q);
      RoutedSnoc(Thin(pkts[..n], keep[..n], true), pkts[n], table, q);
      var rest := Thin(pkts[..n], keep[..n], true);
      assert rest + [] == rest;
    }
  }

  lemma {:induction false} PassingRoutesLess(m: H.Manager, pkts: seq<Packet>, table: seq<nat>, q: nat)
    ensures RoutedSize(R.Passing(m, pkts), table, q) <= RoutedSize(pkts, table, q)
  {
    if pkts != [] {
      hide H.IsPending;
      var n := |pkts| - 1;
      PassingRoutesLess(m, pkts[..n], table, q);
      RoutedSnoc(R.Passing(m, pkts[..n]), pkts[n], table, q);
      var rest := R.Passing(m, pkts[..n]);
      assert rest + [] == rest;
    }
  }

  lemma RoutedNone(table: seq<nat>, q: nat)
    ensures RoutedSize([], table, q) == 0
  {
  }

  lemma {:induction false} RoutedShare(r: seq<PP.Arrival>, tab: PP.Tables, d: Domain, q: nat)
    ensures A.RoutedBytes(tab, d, q, r) == RoutedSize(SM.Project(r, d), tab.Of(d), q)
  {
    hide RoutedSize;
    if r == [] {
      RoutedNone(tab.Of(d), q);
    } else {
      var n := |r| - 1;
      RoutedShare(r[..n], tab, d, q);
      RoutedSnoc(SM.Project(r[..n], d), r[n].pkt, tab.Of(d), q);
      assert SM.Project(r[..n], d) + [] == SM.Project(r[..n], d);
    }
  }

  /** Generated bytes per bucket. */
  function BucketBytes(pkts: seq<Packet>, n: nat): (s: seq<real>)
    ensures |s| == n
  {
    seq(n, b requires 0 <= b < n => R.BytesOf(pkts, b) as real)
  }

  lemma {:induction false} TableLoadBump(table: seq<nat>, w: seq<real>, b: nat, x: real, q: nat)
    requires |table| == |w| && b < |table|
    ensures TableLoad(table, w[b := w[b] + x], q) == TableLoad(table, w, q) + if table[b] == q then x else 0.0
  {
    var n := |table| - 1;
    if b < n {
      TableLoadBump(table[..n], w[..n], b, x, q);
      assert w[b := w[b] + x][..n] == w[..n][b := w[b] + x];
    } else {
      assert w[b := w[b] + x][..n] == w[..n];
    }
  }

  /** Counting per bucket and then folding by the table is the same as routing packet by packet. */
  lemma {:induction false} FoldIsRouting(pkts: seq<Packet>, table: seq<nat>, q: nat)
    requires InTables(pkts, table)
    ensures TableLoad(table, BucketBytes(pkts, |table|), q) == RoutedSize(pkts, table, q) as real
  {
    if pkts == [] {
      TableLoadOfZeros(table, BucketBytes(pkts, |table|), q);
    } else {
      var n := |pkts| - 1;
      var p := pkts[n];
      FoldIsRouting(pkts[..n], table, q);
      var w := BucketBytes(pkts[..n], |table|);
      TableLoadBump(table, w, p.bucket, p.size as real, q);
      assert BucketBytes(pkts, |table|) == w[p.bucket := w[p.bucket] + p.size as real];
    }
  }

  /** In one bin, the bytes a queue drops never exceed the bytes generated for it, counted per bucket
      before thinning and redirection and folded with the table. */
  lemma DropsWithinGenerated(c: Config, s: Sys, e: Event, d: Domain, gen: seq<Packet>, keep: seq<bool>, i: nat)
    requires Enabled(c, s, e) && e.Bin? && |keep| == |gen| && i < |s.path.Of(d)|
    requires (if d.Stateless? then e.sl else e.sf) == Thin(gen, keep, true)
    requires InTables(gen, s.Tables().Of(d))
    ensures |Next(c, s, e).path.Of(d)| == |s.path.Of(d)|
    ensures var table := s.Tables().Of(d);
      Next(c, s, e).path.Of(d)[i].stats.dropBytes as real <= TableLoad(table, BucketBytes(gen, |table|), i)
  {
    var r := Stream(s, e.sl, e.sf, e.noise);
    var table := s.Tables().Of(d);
    NextOfBin(c, s, e.sl, e.sf, e.noise, e.tEnd);
    A.BinAccount(c.path, s.Tables(), s.path, r, e.tEnd);
    RoutedShare(r, s.Tables(), d, i);
    SM.MergeInterleaves(e.sl, R.Passing(s.m, e.sf), e.noise);
    PassingRoutesLess(s.m, e.sf, table, i);
    ThinRoutesLess(gen, keep, table, i);
    FoldIsRouting(gen, table, i);
    hide Next, Enabled, PP.Bin, R.Passing, SM.Merge, SM.Project, Thin, RoutedSize, TableLoad, A.RoutedBytes,
        A.RoutedPkts;
    var q := PP.Bin(c.path, s.Tables(), s.path, r, e.tEnd).Of(d)[i];
    assert A.Account(s.path.Of(d)[i].credits, q, A.RoutedPkts(s.Tables(), d, i, r), A.RoutedBytes(s.Tables(), d, i, r));
    assert Next(c, s, e).path.Of(d)[i] == q;
  }
}

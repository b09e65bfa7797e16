/** Where the packets of a bin go: every counter of every queue and of the link is tied to the stream of
    packets offered in the bin.

    First one queue at a time, then summed over the queues of a domain, then against the link. */
module Accounting {
  import opened Common
  import CQ = CreditQueue
  import PL = PcieLink
  import opened PacketPath

  // ---------- What was routed to a queue, from the packet stream alone ----------

  predicate RoutedTo(tab: Tables, d: Domain, i: nat, a: Arrival) {
    a.d == d && a.pkt.bucket < |tab.Of(d)| && tab.Of(d)[a.pkt.bucket] == i
  }

  function RoutedPkts(tab: Tables, d: Domain, i: nat, arrivals: seq<Arrival>): nat {
    if arrivals == [] then 0
    else RoutedPkts(tab, d, i, arrivals[..|arrivals| - 1]) +
         if RoutedTo(tab, d, i, arrivals[|arrivals| - 1]) then 1 else 0
  }

  function RoutedBytes(tab: Tables, d: Domain, i: nat, arrivals: seq<Arrival>): nat {
    if arrivals == [] then 0
    else RoutedBytes(tab, d, i, arrivals[..|arrivals| - 1]) +
         if RoutedTo(tab, d, i, arrivals[|arrivals| - 1]) then arrivals[|arrivals| - 1].pkt.size else 0
  }

  function DomainPkts(d: Domain, arrivals: seq<Arrival>): nat {
    if arrivals == [] then 0
    else DomainPkts(d, arrivals[..|arrivals| - 1]) + if arrivals[|arrivals| - 1].d == d then 1 else 0
  }

  function DomainBytes(d: Domain, arrivals: seq<Arrival>): nat {
    if arrivals == [] then 0
    else DomainBytes(d, arrivals[..|arrivals| - 1]) +
         if arrivals[|arrivals| - 1].d == d then arrivals[|arrivals| - 1].pkt.size else 0
  }

  // ---------- One queue ----------

  /** The account of one queue since its counters were reset, when it held `credits0` credits:
      `pkts` packets of `bytes` bytes were routed to it, each admitted or dropped for one of two causes,
      each admitted one has one latency sample, and credits changed by returns minus admissions. */
  ghost predicate Account(credits0: int, q: CQ.Queue, pkts: nat, bytes: nat) {
    var st := q.stats;
    && st.admPkts + st.dropPkts == pkts && st.admBytes + st.dropBytes == bytes
    && st.dropPkts == st.creditDropPkts + st.pcieDropPkts
    && st.dropBytes == st.creditDropBytes + st.pcieDropBytes
    && |st.latencies| == st.admPkts
    && q.credits == credits0 + st.returned - st.admPkts
  }

  lemma AdvanceKeepsAccount(credits0: int, q: CQ.Queue, pkts: nat, bytes: nat, t: real)
    requires Account(credits0, q, pkts, bytes)
    ensures Account(credits0, CQ.Advance(q, t), pkts, bytes)
  {
    CQ.AdvanceEffect(q, t);
  }

  lemma OfferAccount(c: Config, credits0: int, q: CQ.Queue, l: PL.Link, a: Arrival, pkts: nat, bytes: nat)
    requires c.Valid() && Account(credits0, q, pkts, bytes)
    ensures Account(credits0, Offer(c, q, l, a).0, pkts + 1, bytes + a.pkt.size)
  {
    AdvanceKeepsAccount(credits0, q, pkts, bytes, a.pkt.t as real);
    var _ := OfferCases(c, q, l, a);
    hide Offer, CQ.Advance;
  }

  ghost predicate PathAccount(tab: Tables, s0: Path, s: Path, arrivals: seq<Arrival>) {
    && |s.sl| == |s0.sl| && |s.sf| == |s0.sf|
    && forall d: Domain, i :: 0 <= i < |s.Of(d)| ==>
         Account(s0.Of(d)[i].credits, s.Of(d)[i], RoutedPkts(tab, d, i, arrivals), RoutedBytes(tab, d, i, arrivals))
  }

  lemma StepAccount(c: Config, tab: Tables, s0: Path, s: Path, arrivals: seq<Arrival>, a: Arrival)
    requires c.Valid() && Routable(tab, s, a) && PathAccount(tab, s0, s, arrivals)
    ensures PathAccount(tab, s0, Step(c, tab, s, a), arrivals + [a])
  {
    var r := Route(tab, a);
    var s' := Step(c, tab, s, a);
    var all := arrivals + [a];
    assert all[..|all| - 1] == arrivals;
    OfferAccount(c, s0.Of(a.d)[r].credits, s.Of(a.d)[r], s.link, a,
                 RoutedPkts(tab, a.d, r, arrivals), RoutedBytes(tab, a.d, r, arrivals));
    hide Offer, Account;
    forall d: Domain, i | 0 <= i < |s'.Of(d)|
      ensures Account(s0.Of(d)[i].credits, s'.Of(d)[i], RoutedPkts(tab, d, i, all), RoutedBytes(tab, d, i, all))
    {
      assert RoutedTo(tab, d, i, a) <==> d == a.d && i == r;
      assert (d == a.d && i == r) || s'.Of(d)[i] == s.Of(d)[i];
    }
  }

  lemma {:induction false} ProcessAccount(c: Config, tab: Tables, s0: Path, arrivals: seq<Arrival>)
    requires c.Valid() && AllRoutable(tab, s0, arrivals) && PathAccount(tab, s0, s0, [])
    ensures PathAccount(tab, s0, Process(c, tab, s0, arrivals), arrivals)
  {
    if arrivals != [] {
      ProcessLast(c, tab, s0, arrivals);
      hide *;
      var n := |arrivals| - 1;
      ProcessAccount(c, tab, s0, arrivals[..n]);
      StepAccount(c, tab, s0, Process(c, tab, s0, arrivals[..n]), arrivals[..n], arrivals[n]);
    }
  }

  /** The account of every queue over one bin. */
  lemma BinAccount(c: Config, tab: Tables, s: Path, arrivals: seq<Arrival>, tEnd: int)
    requires c.Valid() && AllRoutable(tab, s, arrivals)
    ensures PathAccount(tab, s, Bin(c, tab, s, arrivals, tEnd), arrivals)
  {
    var s0 := ResetStats(s);
    ProcessAccount(c, tab, s0, arrivals);
    var s1 := Process(c, tab, s0, arrivals);
    var s2 := AdvanceAll(c, s1, tEnd as real);
    hide Process, Account;
    forall d: Domain, i | 0 <= i < |s2.Of(d)|
      ensures Account(s.Of(d)[i].credits, s2.Of(d)[i], RoutedPkts(tab, d, i, arrivals),
                      RoutedBytes(tab, d, i, arrivals))
    {
      assert s0.Of(d)[i].credits == s.Of(d)[i].credits;
      AdvanceKeepsAccount(s.Of(d)[i].credits, s1.Of(d)[i], RoutedPkts(tab, d, i, arrivals),
                          RoutedBytes(tab, d, i, arrivals), tEnd as real);
    }
  }

  // ---------- Totals over the queues of a domain ----------

  function AdmPkts(st: CQ.Stats): nat { st.admPkts }
  function AdmBytes(st: CQ.Stats): nat { st.admBytes }
  function CreditDropPkts(st: CQ.Stats): nat { st.creditDropPkts }
  function CreditDropBytes(st: CQ.Stats): nat { st.creditDropBytes }
  function PcieDropPkts(st: CQ.Stats): nat { st.pcieDropPkts }
  function PcieDropBytes(st: CQ.Stats): nat { st.pcieDropBytes }

  function Total(qs: seq<CQ.Queue>, f: CQ.Stats -> nat): nat {
    if qs == [] then 0 else Total(qs[..|qs| - 1], f) + f(qs[|qs| - 1].stats)
  }

  lemma {:induction false} TotalUpdate(qs: seq<CQ.Queue>, i: nat, q: CQ.Queue, f: CQ.Stats -> nat)
    requires i < |qs|
    ensures Total(qs[i := q], f) == Total(qs, f) - f(qs[i].stats) + f(q.stats)
  {
    var n := |qs| - 1;
    if i < n {
      TotalUpdate(qs[..n], i, q, f);
      assert qs[i := q][..n] == qs[..n][i := q];
    } else {
      assert qs[i := q][..n] == qs[..n];
    }
  }

  lemma {:induction false} TotalOf(qs: seq<CQ.Queue>, qs': seq<CQ.Queue>, f: CQ.Stats -> nat)
    requires |qs| == |qs'| && forall i :: 0 <= i < |qs| ==> f(qs[i].stats) == f(qs'[i].stats)
    ensures Total(qs, f) == Total(qs', f)
  {
    if qs != [] {
      TotalOf(qs[..|qs| - 1], qs'[..|qs| - 1], f);
    }
  }

  lemma {:induction false} TotalZero(qs: seq<CQ.Queue>, f: CQ.Stats -> nat)
    requires forall i :: 0 <= i < |qs| ==> f(qs[i].stats) == 0
    ensures Total(qs, f) == 0
  {
    if qs != [] {
      TotalZero(qs[..|qs| - 1], f);
    }
  }

  /** Six totals of a domain that no packet of the stream escapes. */
  ghost predicate DomainTotals(c: Config, s: Path, d: Domain, arrivals: seq<Arrival>) {
    && Total(s.Of(d), AdmPkts) + Total(s.Of(d), CreditDropPkts) + Total(s.Of(d), PcieDropPkts)
        == DomainPkts(d, arrivals)
    && Total(s.Of(d), AdmBytes) + Total(s.Of(d), CreditDropBytes) + Total(s.Of(d), PcieDropBytes)
        == DomainBytes(d, arrivals)
    && (c.link.None? ==> Total(s.Of(d), PcieDropPkts) == 0 && Total(s.Of(d), PcieDropBytes) == 0)
  }

  ghost predicate Totals(c: Config, s: Path, arrivals: seq<Arrival>) {
    && (forall d: Domain :: DomainTotals(c, s, d, arrivals))
    && (c.link.Some? ==> LinkTotals(s))
  }

  /** The link accepted exactly what the queues of both domains admitted, and refused, domain by
      domain, exactly what they counted as link drops. */
  ghost predicate LinkTotals(s: Path) {
    var st := s.link.stats;
    && st.acceptedPkts == Total(s.sl, AdmPkts) + Total(s.sf, AdmPkts)
    && st.acceptedBytes == Total(s.sl, AdmBytes) + Total(s.sf, AdmBytes)
    && st.droppedPkts == Total(s.sl, PcieDropPkts) + Total(s.sf, PcieDropPkts)
    && st.droppedBytes == Total(s.sl, PcieDropBytes) + Total(s.sf, PcieDropBytes)
    && forall d: Domain ::
         && PL.Get(st.droppedPktsBy, d) == Total(s.Of(d), PcieDropPkts)
         && PL.Get(st.droppedBytesBy, d) == Total(s.Of(d), PcieDropBytes)
  }

  /** How one packet moves its queue's six counters. */
  lemma OfferCounters(c: Config, q: CQ.Queue, l: PL.Link, a: Arrival)
    requires c.Valid()
    ensures var (q', l', o) := Offer(c, q, l, a);
      var z := a.pkt.size;
      && o != Refused
      && AdmPkts(q'.stats) == AdmPkts(q.stats) + (if o == Admitted then 1 else 0)
      && AdmBytes(q'.stats) == AdmBytes(q.stats) + (if o == Admitted then z else 0)
      && CreditDropPkts(q'.stats) == CreditDropPkts(q.stats) + (if o == CreditDropped then 1 else 0)
      && CreditDropBytes(q'.stats) == CreditDropBytes(q.stats) + (if o == CreditDropped then z else 0)
      && PcieDropPkts(q'.stats) == PcieDropPkts(q.stats) + (if o == PcieDropped then 1 else 0)
      && PcieDropBytes(q'.stats) == PcieDropBytes(q.stats) + (if o == PcieDropped then z else 0)
  {
    CQ.AdvanceEffect(q, a.pkt.t as real);
    var _ := OfferCases(c, q, l, a);
    hide Offer, CQ.Advance;
  }

  lemma OfferLink(c: Config, q: CQ.Queue, l: PL.Link, a: Arrival)
    requires c.Valid()
    ensures var (_, l', o) := Offer(c, q, l, a);
      && (c.link.None? ==> l' == l && o != PcieDropped)
      && (c.link.Some? ==>
            && l'.stats.acceptedPkts == l.stats.acceptedPkts + (if o == Admitted then 1 else 0)
            && l'.stats.acceptedBytes == l.stats.acceptedBytes + (if o == Admitted then a.pkt.size else 0)
            && l'.stats.droppedPkts == l.stats.droppedPkts + (if o == PcieDropped then 1 else 0)
            && l'.stats.droppedBytes == l.stats.droppedBytes + (if o == PcieDropped then a.pkt.size else 0)
            && forall d: Domain ::
                 && PL.Get(l'.stats.droppedPktsBy, d)
                    == PL.Get(l.stats.droppedPktsBy, d) + (if o == PcieDropped && d == a.d then 1 else 0)
                 && PL.Get(l'.stats.droppedBytesBy, d)
                    == PL.Get(l.stats.droppedBytesBy, d) + (if o == PcieDropped && d == a.d then a.pkt.size else 0))
  {
    var _ := OfferCases(c, q, l, a);
    hide Offer, CQ.Advance;
  }

  lemma StepTotal(c: Config, tab: Tables, s: Path, a: Arrival, f: CQ.Stats -> nat, d: Domain)
    requires c.Valid() && Routable(tab, s, a)
    ensures var i := Route(tab, a);
      Total(Step(c, tab, s, a).Of(d), f)
      == Total(s.Of(d), f) + (if d == a.d then f(Offer(c, s.Of(d)[i], s.link, a).0.stats) - f(s.Of(d)[i].stats) else 0)
  {
    if d == a.d {
      var i := Route(tab, a);
      TotalUpdate(s.Of(d), i, Offer(c, s.Of(d)[i], s.link, a).0, f);
    }
  }

  lemma DomainGrows(d: Domain, arrivals: seq<Arrival>, a: Arrival)
    ensures DomainPkts(d, arrivals + [a]) == DomainPkts(d, arrivals) + (if a.d == d then 1 else 0)
    ensures DomainBytes(d, arrivals + [a]) == DomainBytes(d, arrivals) + (if a.d == d then a.pkt.size else 0)
  {
    var all := arrivals + [a];
    assert all[..|all| - 1] == arrivals;
  }

  lemma StepDomainTotals(c: Config, tab: Tables, s: Path, arrivals: seq<Arrival>, a: Arrival, d: Domain)
    requires c.Valid() && Routable(tab, s, a) && DomainTotals(c, s, d, arrivals)
    ensures DomainTotals(c, Step(c, tab, s, a), d, arrivals + [a])
  {
    hide Offer, Step, Total, DomainPkts, DomainBytes, Config.Valid;
    DomainGrows(d, arrivals, a);
    StepTotal(c, tab, s, a, AdmPkts, d);
    StepTotal(c, tab, s, a, AdmBytes, d);
    StepTotal(c, tab, s, a, CreditDropPkts, d);
    StepTotal(c, tab, s, a, CreditDropBytes, d);
    StepTotal(c, tab, s, a, PcieDropPkts, d);
    StepTotal(c, tab, s, a, PcieDropBytes, d);
    if d == a.d {
      var q := s.Of(d)[Route(tab, a)];
      OfferCounters(c, q, s.link, a);
      OfferLink(c, q, s.link, a);
    }
  }

  lemma StepLink(c: Config, tab: Tables, s: Path, a: Arrival)
    requires c.Valid() && Routable(tab, s, a)
    ensures Step(c, tab, s, a).link == Offer(c, s.Of(a.d)[Route(tab, a)], s.link, a).1
  {
  }

  lemma StepLinkTotals(c: Config, tab: Tables, s: Path, a: Arrival)
    requires c.Valid() && Routable(tab, s, a) && c.link.Some? && LinkTotals(s)
    ensures LinkTotals(Step(c, tab, s, a))
  {
    hide Offer, Step, Total, Config.Valid;
    var q := s.Of(a.d)[Route(tab, a)];
    var s' := Step(c, tab, s, a);
    StepLink(c, tab, s, a);
    OfferCounters(c, q, s.link, a);
    OfferLink(c, q, s.link, a);
    forall d: Domain
      ensures Total(s'.Of(d), PcieDropPkts) == PL.Get(s'.link.stats.droppedPktsBy, d)
      ensures Total(s'.Of(d), PcieDropBytes) == PL.Get(s'.link.stats.droppedBytesBy, d)
    {
      StepTotal(c, tab, s, a, PcieDropPkts, d);
      StepTotal(c, tab, s, a, PcieDropBytes, d);
    }
    StepTotalBoth(c, tab, s, a, AdmPkts);
    StepTotalBoth(c, tab, s, a, AdmBytes);
    StepTotalBoth(c, tab, s, a, PcieDropPkts);
    StepTotalBoth(c, tab, s, a, PcieDropBytes);
  }

  lemma StepTotalBoth(c: Config, tab: Tables, s: Path, a: Arrival, f: CQ.Stats -> nat)
    requires c.Valid() && Routable(tab, s, a)
    ensures var s' := Step(c, tab, s, a);
      var q := s.Of(a.d)[Route(tab, a)];
      Total(s'.sl, f) + Total(s'.sf, f)
          == Total(s.sl, f) + Total(s.sf, f) + f(Offer(c, q, s.link, a).0.stats) - f(q.stats)
  {
    StepTotal(c, tab, s, a, f, Stateless);
    StepTotal(c, tab, s, a, f, Stateful);
    assert s.Of(Stateless) == s.sl && s.Of(Stateful) == s.sf;
  }

  lemma StepTotals(c: Config, tab: Tables, s: Path, arrivals: seq<Arrival>, a: Arrival)
    requires c.Valid() && Routable(tab, s, a) && Totals(c, s, arrivals)
    ensures Totals(c, Step(c, tab, s, a), arrivals + [a])
  {
    forall d: Domain ensures DomainTotals(c, Step(c, tab, s, a), d, arrivals + [a]) {
      StepDomainTotals(c, tab, s, arrivals, a, d);
    }
    if c.link.Some? {
      StepLinkTotals(c, tab, s, a);
    }
  }

  lemma {:induction false} ProcessTotals(c: Config, tab: Tables, s: Path, arrivals: seq<Arrival>)
    requires c.Valid() && AllRoutable(tab, s, arrivals) && Totals(c, s, [])
    ensures Totals(c, Process(c, tab, s, arrivals), arrivals)
  {
    if arrivals != [] {
      ProcessLast(c, tab, s, arrivals);
      hide *;
      var n := |arrivals| - 1;
      ProcessTotals(c, tab, s, arrivals[..n]);
      StepTotals(c, tab, Process(c, tab, s, arrivals[..n]), arrivals[..n], arrivals[n]);
    }
  }

  /** Per-bin conservation after the arbiter and the handoff redirection: over all queues of a domain,
      offered = admitted + credit-dropped + link-dropped, in packets and in bytes, and the link accepted
      exactly the packets the two domains admitted. */
  lemma BinTotals(c: Config, tab: Tables, s: Path, arrivals: seq<Arrival>, tEnd: int)
    requires c.Valid() && AllRoutable(tab, s, arrivals)
    ensures Totals(c, Bin(c, tab, s, arrivals, tEnd), arrivals)
  {
    var s0 := ResetStats(s);
    ResetTotals(c, s);
    ProcessTotals(c, tab, s0, arrivals);
    AdvanceAllTotals(c, Process(c, tab, s0, arrivals), arrivals, tEnd as real);
  }

  lemma ResetTotals(c: Config, s: Path)
    ensures Totals(c, ResetStats(s), [])
  {
    var s0 := ResetStats(s);
    forall d: Domain ensures DomainTotals(c, s0, d, []) && AllZero(s0.Of(d)) {
      assert forall i :: 0 <= i < |s0.Of(d)| ==> s0.Of(d)[i].stats == CQ.ZERO_STATS;
      AllTotalsZero(s0.Of(d));
    }
    assert s0.Of(Stateless) == s0.sl && s0.Of(Stateful) == s0.sf;
  }

  ghost predicate AllZero(qs: seq<CQ.Queue>) {
    && Total(qs, AdmPkts) == 0 && Total(qs, AdmBytes) == 0
    && Total(qs, CreditDropPkts) == 0 && Total(qs, CreditDropBytes) == 0
    && Total(qs, PcieDropPkts) == 0 && Total(qs, PcieDropBytes) == 0
  }

  lemma AllTotalsZero(qs: seq<CQ.Queue>)
    requires forall i :: 0 <= i < |qs| ==> qs[i].stats == CQ.ZERO_STATS
    ensures AllZero(qs)
  {
    TotalZero(qs, AdmPkts);
    TotalZero(qs, AdmBytes);
    TotalZero(qs, CreditDropPkts);
    TotalZero(qs, CreditDropBytes);
    TotalZero(qs, PcieDropPkts);
    TotalZero(qs, PcieDropBytes);
  }

  ghost predicate SameTotals(qs: seq<CQ.Queue>, qs': seq<CQ.Queue>) {
    && Total(qs, AdmPkts) == Total(qs', AdmPkts) && Total(qs, AdmBytes) == Total(qs', AdmBytes)
    && Total(qs, CreditDropPkts) == Total(qs', CreditDropPkts)
    && Total(qs, CreditDropBytes) == Total(qs', CreditDropBytes)
    && Total(qs, PcieDropPkts) == Total(qs', PcieDropPkts) && Total(qs, PcieDropBytes) == Total(qs', PcieDropBytes)
  }

  lemma AdvanceSameTotals(qs: seq<CQ.Queue>, t: real)
    ensures SameTotals(qs, AdvanceQueues(qs, t))
  {
    var qs' := AdvanceQueues(qs, t);
    forall i | 0 <= i < |qs| ensures qs'[i].stats == qs[i].stats.(returned := qs'[i].stats.returned) {
      CQ.AdvanceEffect(qs[i], t);
    }
    TotalOf(qs, qs', AdmPkts);
    TotalOf(qs, qs', AdmBytes);
    TotalOf(qs, qs', CreditDropPkts);
    TotalOf(qs, qs', CreditDropBytes);
    TotalOf(qs, qs', PcieDropPkts);
    TotalOf(qs, qs', PcieDropBytes);
  }

  lemma AdvanceAllTotals(c: Config, s: Path, arrivals: seq<Arrival>, t: real)
    requires Totals(c, s, arrivals)
    ensures Totals(c, AdvanceAll(c, s, t), arrivals)
  {
    AdvanceSameTotals(s.sl, t);
    AdvanceSameTotals(s.sf, t);
    hide AdvanceQueues, Total;
    var s' := AdvanceAll(c, s, t);
    forall d: Domain ensures SameTotals(s.Of(d), s'.Of(d)) {
    }
    forall d: Domain ensures DomainTotals(c, s', d, arrivals) {
      assert DomainTotals(c, s, d, arrivals);
    }
  }
}

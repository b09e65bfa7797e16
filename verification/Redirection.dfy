/** Packets of buckets in handoff leave the packet path: they are absorbed by the handoff buffer, and
    all other packets go on in their order. */
module Redirection {
  import opened Common
  import opened Handoffs

  function BytesOf(pkts: seq<Packet>, b: nat): nat {
    if pkts == [] then 0
    else BytesOf(pkts[..|pkts| - 1], b) + if pkts[|pkts| - 1].bucket == b then pkts[|pkts| - 1].size else 0
  }

  function CountOf(pkts: seq<Packet>, b: nat): nat {
    if pkts == [] then 0
    else CountOf(pkts[..|pkts| - 1], b) + if pkts[|pkts| - 1].bucket == b then 1 else 0
  }

  function TotalSize(pkts: seq<Packet>): nat {
    if pkts == [] then 0 else TotalSize(pkts[..|pkts| - 1]) + pkts[|pkts| - 1].size
  }

  /** The packets that keep going, in order. */
  function Passing(m: Manager, pkts: seq<Packet>): seq<Packet> {
    if pkts == [] then []
    else
      var last := pkts[|pkts| - 1];
      Passing(m, pkts[..|pkts| - 1]) + if IsPending(m, last.bucket) then [] else [last]
  }

  /** One record after its bucket's packets of the bin were offered to it. */
  function Fed(c: Config, h: Handoff, pkts: seq<Packet>): Handoff {
    if CountOf(pkts, h.bucket) == 0 then h
    else Absorb(c, h, BytesOf(pkts, h.bucket), CountOf(pkts, h.bucket))
  }

  function Feed(c: Config, m: Manager, pkts: seq<Packet>): Manager {
    m.(pending := seq(|m.pending|, i requires 0 <= i < |m.pending| => Fed(c, m.pending[i], pkts)))
  }

  // ---------- Exclusion ----------

  /** No packet of a bucket in handoff passes, and every other packet does. */
  lemma {:induction false} PassingExcludes(m: Manager, pkts: seq<Packet>)
    ensures forall p :: p in Passing(m, pkts) <==> p in pkts && !IsPending(m, p.bucket)
  {
    if pkts != [] {
      var n := |pkts| - 1;
      PassingExcludes(m, pkts[..n]);
      hide IsPending;
      assert pkts == pkts[..n] + [pkts[n]];
      forall p ensures p in Passing(m, pkts) <==> p in pkts && !IsPending(m, p.bucket) {
        assert p in pkts <==> p in pkts[..n] || p == pkts[n];
        assert p in Passing(m, pkts) <==> p in Passing(m, pkts[..n]) || (p == pkts[n] && !IsPending(m, p.bucket));
      }
    }
  }

  lemma {:induction false} PassingKeepsOrder(m: Manager, pkts: seq<Packet>)
    requires TimeOrdered(pkts)
    ensures TimeOrdered(Passing(m, pkts))
  {
    if pkts != [] {
      var n := |pkts| - 1;
      PassingKeepsOrder(m, pkts[..n]);
      PassingExcludes(m, pkts[..n]);
      hide IsPending;
      var front := Passing(m, pkts[..n]);
      forall i | 0 <= i < |front| ensures front[i].t <= pkts[n].t {
        assert front[i] in front;
        var k :| 0 <= k < n && pkts[..n][k] == front[i];
      }
    }
  }

  // ---------- Conservation ----------

  /** What is offered to all records together: bytes and packets. */
  function OfferedBytes(pending: seq<Handoff>, pkts: seq<Packet>): nat {
    if pending == [] then 0
    else OfferedBytes(pending[..|pending| - 1], pkts) + BytesOf(pkts, pending[|pending| - 1].bucket)
  }

  function OfferedCount(pending: seq<Handoff>, pkts: seq<Packet>): nat {
    if pending == [] then 0
    else OfferedCount(pending[..|pending| - 1], pkts) + CountOf(pkts, pending[|pending| - 1].bucket)
  }

  ghost predicate DistinctBuckets(pending: seq<Handoff>) {
    forall i, j :: 0 <= i < j < |pending| ==> pending[i].bucket != pending[j].bucket
  }

  /** One more packet adds to the offer exactly if some record has its bucket, and then once. */
  lemma {:induction false} OfferGrows(pending: seq<Handoff>, pkts: seq<Packet>, p: Packet)
    requires DistinctBuckets(pending)
    ensures OfferedBytes(pending, pkts + [p])
        == OfferedBytes(pending, pkts) + (if Has(pending, p.bucket) then p.size else 0)
    ensures OfferedCount(pending, pkts + [p]) == OfferedCount(pending, pkts) + (if Has(pending, p.bucket) then 1 else 0)
  {
    if pending != [] {
      var n := |pending| - 1;
      OfferGrows(pending[..n], pkts, p);
      assert (pkts + [p])[..|pkts|] == pkts;
      assert Has(pending, p.bucket) <==> Has(pending[..n], p.bucket) || pending[n].bucket == p.bucket;
    }
  }

  lemma {:induction false} NothingOffered(pending: seq<Handoff>)
    ensures OfferedBytes(pending, []) == 0 && OfferedCount(pending, []) == 0
  {
    if pending != [] {
      NothingOffered(pending[..|pending| - 1]);
    }
  }

  /** Every packet either passes or is offered to exactly one record. */
  lemma {:induction false} RedirectionConserves(m: Manager, pkts: seq<Packet>)
    requires DistinctBuckets(m.pending)
    ensures TotalSize(pkts) == TotalSize(Passing(m, pkts)) + OfferedBytes(m.pending, pkts)
    ensures |pkts| == |Passing(m, pkts)| + OfferedCount(m.pending, pkts)
  {
    if pkts == [] {
      NothingOffered(m.pending);
    } else {
      var n := |pkts| - 1;
      RedirectionConserves(m, pkts[..n]);
      OfferGrows(m.pending, pkts[..n], pkts[n]);
      assert pkts == pkts[..n] + [pkts[n]];
      assert IsPending(m, pkts[n].bucket) <==> Has(m.pending, pkts[n].bucket);
      var front := Passing(m, pkts[..n]);
      assert (front + [pkts[n]])[..|front|] == front && front + [] == front;
    }
  }

  /** Bytes and packets a record holds or has overflowed. */
  function HeldBytes(pending: seq<Handoff>): nat {
    if pending == [] then 0
    else
      var h := pending[|pending| - 1];
      HeldBytes(pending[..|pending| - 1]) + h.bufferedBytes + h.overflowBytes
  }

  function HeldPkts(pending: seq<Handoff>): nat {
    if pending == [] then 0
    else HeldPkts(pending[..|pending| - 1]) + pending[|pending| - 1].bufferedPkts + pending[|pending| - 1].overflowPkts
  }

  lemma {:induction false} CountZeroBytesZero(pkts: seq<Packet>, b: nat)
    requires CountOf(pkts, b) == 0
    ensures BytesOf(pkts, b) == 0
  {
    if pkts != [] {
      CountZeroBytesZero(pkts[..|pkts| - 1], b);
    }
  }

  lemma {:induction false} FeedHolds(c: Config, m: Manager, pkts: seq<Packet>, k: nat)
    requires k <= |m.pending|
    ensures HeldBytes(Feed(c, m, pkts).pending[..k]) == HeldBytes(m.pending[..k]) + OfferedBytes(m.pending[..k], pkts)
    ensures HeldPkts(Feed(c, m, pkts).pending[..k]) == HeldPkts(m.pending[..k]) + OfferedCount(m.pending[..k], pkts)
  {
    if k > 0 {
      FeedHolds(c, m, pkts, k - 1);
      var fed := Feed(c, m, pkts).pending;
      assert fed[..k][..k - 1] == fed[..k - 1] && m.pending[..k][..k - 1] == m.pending[..k - 1];
      if CountOf(pkts, m.pending[k - 1].bucket) == 0 {
        CountZeroBytesZero(pkts, m.pending[k - 1].bucket);
      }
    }
  }

  /** The redirection of one bin conserves packets and bytes: generated = passing + newly buffered +
      newly overflowed, over all records together. */
  lemma RedirectionAccount(c: Config, m: Manager, pkts: seq<Packet>)
    requires DistinctBuckets(m.pending)
    ensures var m' := Feed(c, m, pkts);
      && TotalSize(pkts) == TotalSize(Passing(m, pkts)) + (HeldBytes(m'.pending) - HeldBytes(m.pending))
      && |pkts| == |Passing(m, pkts)| + (HeldPkts(m'.pending) - HeldPkts(m.pending))
  {
    RedirectionConserves(m, pkts);
    FeedHolds(c, m, pkts, |m.pending|);
    assert m.pending[..|m.pending|] == m.pending;
    assert Feed(c, m, pkts).pending[..|m.pending|] == Feed(c, m, pkts).pending;
  }

  // ---------- What feeding leaves alone ----------

  /** Feeding changes only buffer counters, so the handoff invariant survives every bin. */
  lemma FeedKeepsInv(c: Config, m: Manager, table: seq<nat>, pkts: seq<Packet>)
    requires Inv(c, m, table)
    ensures Inv(c, Feed(c, m, pkts), table)
  {
    var m' := Feed(c, m, pkts);
    hide Fed, BytesOf, CountOf, Absorb, MaxInt;
    forall i | 0 <= i < |m.pending| ensures SameHandoff(m.pending[i], m'.pending[i]) {
      FedIsSame(c, m.pending[i], pkts);
    }
    forall i, j | 0 <= i < j < |m'.pending| ensures Disjoint(m'.pending[i], m'.pending[j]) {
      assert Disjoint(m.pending[i], m.pending[j]);
      forall q ensures !(m'.pending[i].Touches(q) && m'.pending[j].Touches(q)) {
        assert !(m.pending[i].Touches(q) && m.pending[j].Touches(q));
      }
    }
    forall i | 0 <= i < |m'.pending| ensures WellPlaced(m'.pending[i], c.queues, table) {
      assert WellPlaced(m.pending[i], c.queues, table);
    }
    forall q: nat | q < c.queues ensures Raised(m.pending, q) <==> Raised(m'.pending, q) {
      SameRaised(m.pending, m'.pending, q);
      SameRaised(m'.pending, m.pending, q);
    }
  }

  ghost predicate SameHandoff(h: Handoff, h': Handoff) {
    h' == h.(bufferedBytes := h'.bufferedBytes, bufferedPkts := h'.bufferedPkts,
             overflowBytes := h'.overflowBytes, overflowPkts := h'.overflowPkts)
  }

  lemma FedIsSame(c: Config, h: Handoff, pkts: seq<Packet>)
    ensures SameHandoff(h, Fed(c, h, pkts))
  {
  }

  lemma SameRaised(a: seq<Handoff>, b: seq<Handoff>, q: nat)
    requires |a| == |b| && forall i :: 0 <= i < |a| ==> a[i].src == b[i].src && a[i].dst == b[i].dst
    ensures Raised(a, q) ==> Raised(b, q)
  {
    if Raised(a, q) {
      var i :| 0 <= i < |a| && a[i].Touches(q);
      assert b[i].Touches(q);
    }
  }
}

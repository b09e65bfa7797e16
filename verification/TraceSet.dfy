/** The flows of a domain as objects: each bin advances their cursors in place.

    Both forms of a bin visit the flows in order and move each cursor the same way; one adds up bytes and
    packets per bucket, the other collects the packets and sorts them by time. */
module TraceSets {
  import opened Common
  import R = Redirection
  import T = Traces

  class FlowTrace {
    const times: seq<int>
    const sizes: seq<nat>
    var bucket: nat
    var cursor: nat

    constructor (times: seq<int>, sizes: seq<nat>, bucket: nat)
      ensures Value() == T.Flow(times, sizes, bucket, 0)
    {
      this.times, this.sizes, this.bucket, this.cursor := times, sizes, bucket, 0;
    }

    function Value(): T.Flow
      reads this
    {
      T.Flow(times, sizes, bucket, cursor)
    }

    /** Advance the cursor past tEnd and return the packets it passes. */
    method EmitUntil(tEnd: int) returns (slice: seq<Packet>)
      requires T.WellFormed(Value())
      modifies `cursor
      ensures T.WellFormed(old(Value())) && Value() == T.Advanced(old(Value()), tEnd)
      ensures slice == T.Slice(old(Value()), tEnd)
    {
      T.AdvanceByBelow(Value(), tEnd);
      hide T.Advanced, T.Slice, T.Below;
      slice := [];
      if cursor >= |times| {
        return;
      }
      var hi := T.Below(times[cursor..], tEnd);
      if hi == 0 {
        return;
      }
      slice := T.Span(Value(), cursor, cursor + hi);
      cursor := cursor + hi;
    }
  }

  class TraceSet {
    const flows: seq<FlowTrace>
    const buckets: nat

    /** The flows are distinct objects with sorted timelines and buckets in range. */
    ghost predicate Valid()
      reads flows
    {
      && (forall i, j :: 0 <= i < j < |flows| ==> flows[i] != flows[j])
      && forall i :: 0 <= i < |flows| ==> T.WellFormed(flows[i].Value()) && flows[i].bucket < buckets
    }

    function Values(): (s: seq<T.Flow>)
      reads flows
      ensures |s| == |flows| && forall i :: 0 <= i < |s| ==> s[i] == flows[i].Value()
    {
      seq(|flows|, i requires 0 <= i < |flows| reads flows => flows[i].Value())
    }

    lemma ValuesWellFormed()
      requires Valid()
      ensures T.AllWellFormed(Values())
    {
    }

    constructor (flows: seq<FlowTrace>, buckets: nat)
      ensures this.flows == flows && this.buckets == buckets
    {
      this.flows, this.buckets := flows, buckets;
    }

    method ResetCursors()
      requires Valid()
      modifies flows
      ensures Valid()
      ensures forall i :: 0 <= i < |flows| ==> flows[i].Value() == old(flows[i].Value()).(cursor := 0)
    {
      var k := 0;
      while k < |flows|
        invariant k <= |flows|
        invariant forall i :: 0 <= i < k ==> flows[i].Value() == old(flows[i].Value()).(cursor := 0)
        invariant forall i :: k <= i < |flows| ==> flows[i].Value() == old(flows[i].Value())
      {
        flows[k].cursor := 0;
        k := k + 1;
      }
    }

    /** The first k flows have emitted their packets of the bin, the others are untouched. */
    ghost predicate Emitting(before: seq<T.Flow>, k: nat, tEnd: int)
      requires T.AllWellFormed(before) && |before| == |flows| && k <= |flows|
      reads flows
    {
      && (forall i :: 0 <= i < k ==> flows[i].Value() == T.Advanced(before[i], tEnd))
      && (forall i :: k <= i < |flows| ==> flows[i].Value() == before[i])
    }

    /** All flows have emitted theirs. */
    lemma EmittedAll(before: seq<T.Flow>, tEnd: int)
      requires T.AllWellFormed(before) && |before| == |flows| && Emitting(before, |flows|, tEnd)
      requires forall i, j :: 0 <= i < j < |flows| ==> flows[i] != flows[j]
      requires forall i :: 0 <= i < |before| ==> before[i].bucket < buckets
      ensures Valid() && Values() == T.AllAdvanced(before, tEnd) && before[..|flows|] == before
    {
      var after := T.AllAdvanced(before, tEnd);
      forall i | 0 <= i < |flows| ensures flows[i].Value() == after[i] && flows[i].bucket < buckets {
        assert flows[i].Value() == T.Advanced(before[i], tEnd);
      }
    }

    /** Advance the cursor of flow k past tEnd and return the packets that emits and their bucket. */
    method EmitNext(ghost before: seq<T.Flow>, k: nat, tEnd: int) returns (slice: seq<Packet>, home: nat)
      requires T.AllWellFormed(before) && |before| == |flows| && k < |flows| && Emitting(before, k, tEnd)
      requires forall i :: 0 <= i < |flows| && i != k ==> flows[i] != flows[k]
      modifies flows[k]
      ensures Emitting(before, k + 1, tEnd)
      ensures slice == T.Slice(before[k], tEnd) && home == before[k].bucket
    {
      assert flows[k].Value() == before[k];
      hide T.Advanced, T.Slice, T.WellFormed;
      home := flows[k].bucket;
      slice := flows[k].EmitUntil(tEnd);
      hide FlowTrace.Value;
      assert forall i :: 0 <= i < |flows| && i != k ==> flows[i].Value() == old(flows[i].Value());
    }

    /** Before a bin no flow has emitted. */
    lemma NoneEmitted(before: seq<T.Flow>, tEnd: int)
      requires Valid() && before == Values()
      ensures T.AllWellFormed(before) && |before| == |flows| && Emitting(before, 0, tEnd)
      ensures forall i :: 0 <= i < |before| ==> before[i].bucket < buckets
      ensures forall i, j :: 0 <= i < j < |flows| ==> flows[i] != flows[j]
    {
      assert forall i :: 0 <= i < |flows| ==> before[i].bucket == flows[i].bucket < buckets;
    }

    /** Bytes and packets of a bin per bucket. */
    method GenerateBin(tEnd: int) returns (bytes: seq<nat>, counts: seq<nat>)
      requires Valid()
      modifies flows
      ensures Valid() && T.AllWellFormed(old(Values())) && Values() == T.AllAdvanced(old(Values()), tEnd)
      ensures bytes == T.BytesPerBucket(old(Values()), tEnd, buckets)
      ensures counts == T.CountsPerBucket(old(Values()), tEnd, buckets)
    {
      ghost var before := Values();
      NoneEmitted(before, tEnd);
      hide *;
      assert before[..0] == [];
      T.NoTotals(tEnd, buckets);
      bytes := Fill(buckets, 0);
      counts := Fill(buckets, 0);
      var k := 0;
      while k < |flows|
        invariant k <= |flows|
        invariant Emitting(before, k, tEnd)
        invariant bytes == T.BytesPerBucket(before[..k], tEnd, buckets)
        invariant counts == T.CountsPerBucket(before[..k], tEnd, buckets)
      {
        var slice, home := EmitNext(before, k, tEnd);
        T.TotalsNext(before, k, tEnd, buckets);
        bytes := T.Bump(bytes, home, R.TotalSize(slice));
        counts := T.Bump(counts, home, |slice|);
        k := k + 1;
      }
      EmittedAll(before, tEnd);
    }

    /** The packets of a bin in time order. */
    method GenerateBinPackets(tEnd: int) returns (pkts: seq<Packet>)
      requires Valid()
      modifies flows
      ensures Valid() && T.AllWellFormed(old(Values())) && Values() == T.AllAdvanced(old(Values()), tEnd)
      ensures pkts == T.BinPackets(old(Values()), tEnd)
    {
      ghost var before := Values();
      NoneEmitted(before, tEnd);
      T.NothingCollected(tEnd);
      hide *;
      assert before[..0] == [];
      var all: seq<Packet> := [];
      var k := 0;
      while k < |flows|
        invariant k <= |flows|
        invariant Emitting(before, k, tEnd)
        invariant all == T.Collected(before[..k], tEnd)
      {
        var slice, _ := EmitNext(before, k, tEnd);
        T.CollectedNext(before, k, tEnd);
        all := all + slice;
        k := k + 1;
      }
      EmittedAll(before, tEnd);
      pkts := T.SortByTime(all);
      T.BinIsSorted(before, tEnd);
    }

    /** Move every flow to the bucket its new 5-tuple hashes to. */
    method Rebucket(hashed: seq<nat>)
      requires Valid() && |hashed| == |flows| && forall i :: 0 <= i < |hashed| ==> hashed[i] < buckets
      modifies flows
      ensures Valid() && T.AllWellFormed(old(Values())) && Values() == T.Moved(old(Values()), hashed)
    {
      ghost var before := Values();
      ValuesWellFormed();
      var k := 0;
      while k < |flows|
        invariant k <= |flows|
        invariant forall i :: 0 <= i < k ==> flows[i].Value() == before[i].(bucket := hashed[i])
        invariant forall i :: k <= i < |flows| ==> flows[i].Value() == before[i]
      {
        assert flows[k].Value() == before[k];
        flows[k].bucket := hashed[k];
        k := k + 1;
      }
      assert Values() == T.Moved(before, hashed);
    }
  }
}

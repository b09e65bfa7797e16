/** The two domains' packet streams of a bin, merged in global time order. Both streams are sorted, so a
    stable sort of their concatenation is the merge that takes the stateless packet first on ties. */
module StreamMerge {
  import opened Common
  import opened PacketPath

  /** The k-th merged packet gets the k-th service draw. */
  function Merge(sl: seq<Packet>, sf: seq<Packet>, noise: nat -> real): (r: seq<Arrival>)
    ensures |r| == |sl| + |sf|
    decreases |sl| + |sf|
  {
    if LastIsStateless(sl, sf) then
      Merge(sl[..|sl| - 1], sf, noise) + [Arrival(sl[|sl| - 1], Stateless, noise(|sl| + |sf| - 1))]
    else if sf == [] then []
    else
      Merge(sl, sf[..|sf| - 1], noise) + [Arrival(sf[|sf| - 1], Stateful, noise(|sl| + |sf| - 1))]
  }

  /** The packets of one domain in a merged stream, in order. */
  function Project(r: seq<Arrival>, d: Domain): seq<Packet> {
    if r == [] then []
    else Project(r[..|r| - 1], d) + if r[|r| - 1].d == d then [r[|r| - 1].pkt] else []
  }

  /** Time order, the stateless packet first when two packets carry the same time. */
  predicate Before(a: Arrival, b: Arrival) {
    a.pkt.t < b.pkt.t || (a.pkt.t == b.pkt.t && !(a.d.Stateful? && b.d.Stateless?))
  }

  ghost predicate StablyOrdered(r: seq<Arrival>) {
    forall i, j :: 0 <= i < j < |r| ==> Before(r[i], r[j])
  }

  /** Is the last merged packet the last one of the stateless stream? */
  predicate LastIsStateless(sl: seq<Packet>, sf: seq<Packet>) {
    sl != [] && (sf == [] || sl[|sl| - 1].t > sf[|sf| - 1].t)
  }

  lemma {:induction false} MergeBefore(sl: seq<Packet>, sf: seq<Packet>, noise: nat -> real, a: Arrival)
    requires forall i :: 0 <= i < |sl| ==> Before(Arrival(sl[i], Stateless, 0.0), a)
    requires forall i :: 0 <= i < |sf| ==> Before(Arrival(sf[i], Stateful, 0.0), a)
    ensures forall i :: 0 <= i < |Merge(sl, sf, noise)| ==> Before(Merge(sl, sf, noise)[i], a)
    decreases |sl| + |sf|
  {
    if LastIsStateless(sl, sf) {
      MergeBefore(sl[..|sl| - 1], sf, noise, a);
    } else if sf != [] {
      MergeBefore(sl, sf[..|sf| - 1], noise, a);
    }
  }

  lemma AppendStable(r: seq<Arrival>, a: Arrival)
    requires StablyOrdered(r) && forall i :: 0 <= i < |r| ==> Before(r[i], a)
    ensures StablyOrdered(r + [a])
  {
    hide Before;
  }

  /** The merge is in stable time order. */
  lemma {:induction false} MergeIsSorted(sl: seq<Packet>, sf: seq<Packet>, noise: nat -> real)
    requires TimeOrdered(sl) && TimeOrdered(sf)
    ensures StablyOrdered(Merge(sl, sf, noise))
    decreases |sl| + |sf|
  {
    hide StablyOrdered;
    var k := |sl| + |sf| - 1;
    if LastIsStateless(sl, sf) {
      var n := |sl| - 1;
      MergeIsSorted(sl[..n], sf, noise);
      MergeBefore(sl[..n], sf, noise, Arrival(sl[n], Stateless, noise(k)));
      AppendStable(Merge(sl[..n], sf, noise), Arrival(sl[n], Stateless, noise(k)));
    } else if sf != [] {
      var n := |sf| - 1;
      MergeIsSorted(sl, sf[..n], noise);
      MergeBefore(sl, sf[..n], noise, Arrival(sf[n], Stateful, noise(k)));
      AppendStable(Merge(sl, sf[..n], noise), Arrival(sf[n], Stateful, noise(k)));
    } else {
      EmptyIsStable();
    }
  }

  lemma EmptyIsStable()
    ensures StablyOrdered([])
  {
  }

  lemma ProjectLast(r: seq<Arrival>, a: Arrival, d: Domain)
    ensures Project(r + [a], d) == Project(r, d) + if a.d == d then [a.pkt] else []
  {
    assert (r + [a])[..|r|] == r;
  }

  lemma ProjectEmpty()
    ensures Project([], Stateless) == [] && Project([], Stateful) == []
  {
  }

  /** The merge interleaves exactly the two streams, each in its own order. */
  lemma {:induction false} MergeInterleaves(sl: seq<Packet>, sf: seq<Packet>, noise: nat -> real)
    ensures Project(Merge(sl, sf, noise), Stateless) == sl && Project(Merge(sl, sf, noise), Stateful) == sf
    decreases |sl| + |sf|
  {
    hide Project;
    var k := |sl| + |sf| - 1;
    if LastIsStateless(sl, sf) {
      var n := |sl| - 1;
      var a := Arrival(sl[n], Stateless, noise(k));
      MergeInterleaves(sl[..n], sf, noise);
      ProjectLast(Merge(sl[..n], sf, noise), a, Stateless);
      ProjectLast(Merge(sl[..n], sf, noise), a, Stateful);
      assert sl == sl[..n] + [sl[n]];
    } else if sf != [] {
      var n := |sf| - 1;
      var a := Arrival(sf[n], Stateful, noise(k));
      MergeInterleaves(sl, sf[..n], noise);
      ProjectLast(Merge(sl, sf[..n], noise), a, Stateless);
      ProjectLast(Merge(sl, sf[..n], noise), a, Stateful);
      assert sf == sf[..n] + [sf[n]];
    } else {
      ProjectEmpty();
    }
  }

  /** Facts about single merged packets that come from the streams. */
  lemma {:induction false} MergeMembers(sl: seq<Packet>, sf: seq<Packet>, noise: nat -> real)
    ensures forall i :: 0 <= i < |Merge(sl, sf, noise)| ==>
      var a := Merge(sl, sf, noise)[i];
      a.noise == noise(i) && (if a.d == Stateless then a.pkt in sl else a.pkt in sf)
    decreases |sl| + |sf|
  {
    if LastIsStateless(sl, sf) {
      MergeMembers(sl[..|sl| - 1], sf, noise);
      assert forall p :: p in sl[..|sl| - 1] ==> p in sl;
    } else if sf != [] {
      MergeMembers(sl, sf[..|sf| - 1], noise);
      assert forall p :: p in sf[..|sf| - 1] ==> p in sf;
    }
  }
}

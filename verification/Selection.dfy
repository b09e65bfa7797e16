/** Index selection and ordering, as the schedulers use them on telemetry vectors. Ordering promises a
    permutation by descending key and nothing about ties: the sort the schedulers call is not stable. */
module Selection {
  /** The indices at which the mask is set, ascending. */
  function Where(mask: seq<bool>): (idx: seq<nat>)
    ensures forall i :: 0 <= i < |idx| ==> idx[i] < |mask|
  {
    if mask == [] then []
    else
      var n := |mask| - 1;
      Where(mask[..n]) + if mask[n] then [n] else []
  }

  lemma {:induction false} WhereFacts(mask: seq<bool>)
    ensures var idx := Where(mask);
      && (forall i, j :: 0 <= i < j < |idx| ==> idx[i] < idx[j])
      && (forall q: nat :: q in idx <==> q < |mask| && mask[q])
  {
    if mask != [] {
      var n := |mask| - 1;
      WhereFacts(mask[..n]);
      var front := Where(mask[..n]);
      forall q: nat ensures q in Where(mask) <==> q < |mask| && mask[q] {
        assert q in Where(mask) <==> q in front || (mask[n] && q == n);
        assert q < n ==> (mask[..n][q] <==> mask[q]);
      }
    }
  }

  ghost predicate Descending(order: seq<nat>, key: seq<real>)
    requires forall i :: 0 <= i < |order| ==> order[i] < |key|
  {
    forall i, j :: 0 <= i < j < |order| ==> key[order[i]] >= key[order[j]]
  }

  /** Order indices by descending key. Only the ordering and the permutation are promised: ties may
      come out in any order. */
  method ArgsortDescending(idx: seq<nat>, key: seq<real>) returns (order: seq<nat>)
    requires forall i :: 0 <= i < |idx| ==> idx[i] < |key|
    ensures multiset(order) == multiset(idx)
    ensures forall i :: 0 <= i < |order| ==> order[i] < |key|
    ensures Descending(order, key)
  {
    order := [];
    var k := 0;
    while k < |idx|
      invariant k <= |idx|
      invariant multiset(order) == multiset(idx[..k])
      invariant forall i :: 0 <= i < |order| ==> order[i] < |key|
      invariant Descending(order, key)
    {
      order := Insert(order, idx[k], key);
      assert idx[..k + 1] == idx[..k] + [idx[k]];
      k := k + 1;
    }
    assert idx[..k] == idx;
  }

  method Insert(order: seq<nat>, x: nat, key: seq<real>) returns (r: seq<nat>)
    requires x < |key|
    requires forall i :: 0 <= i < |order| ==> order[i] < |key|
    requires Descending(order, key)
    ensures multiset(r) == multiset(order) + multiset{x}
    ensures forall i :: 0 <= i < |r| ==> r[i] < |key|
    ensures Descending(r, key)
  {
    var p := 0;
    while p < |order| && key[order[p]] >= key[x]
      invariant p <= |order|
      invariant forall i :: 0 <= i < p ==> key[order[i]] >= key[x]
    {
      p := p + 1;
    }
    InsertionIsDescending(order, p, x, key);
    r := order[..p] + [x] + order[p..];
    assert order == order[..p] + order[p..];
  }

  lemma InsertionIsDescending(order: seq<nat>, p: nat, x: nat, key: seq<real>)
    requires x < |key| && p <= |order|
    requires forall i :: 0 <= i < |order| ==> order[i] < |key|
    requires Descending(order, key)
    requires forall i :: 0 <= i < p ==> key[order[i]] >= key[x]
    requires p < |order| ==> key[order[p]] < key[x]
    ensures var r := order[..p] + [x] + order[p..];
      && (forall i :: 0 <= i < |r| ==> r[i] < |key|)
      && Descending(r, key)
  {
    var r := order[..p] + [x] + order[p..];
    forall i, j | 0 <= i < j < |r| ensures key[r[i]] >= key[r[j]] {
      var a := if i < p then i else i - 1;
      var b := if j < p then j else j - 1;
      if i != p && j != p {
        assert key[order[a]] >= key[order[b]];
      } else if i == p {
        assert key[order[p]] >= key[order[b]];
      }
    }
  }

  /** A permutation of ascending indices has the same members, each once. */
  lemma PermutationFacts(a: seq<nat>, b: seq<nat>)
    requires multiset(a) == multiset(b) && forall i, j :: 0 <= i < j < |b| ==> b[i] < b[j]
    ensures forall q: nat :: q in a <==> q in b
    ensures forall i, j :: 0 <= i < j < |a| ==> a[i] != a[j]
  {
    SameMembers(a, b);
    forall i, j | 0 <= i < j < |a| ensures a[i] != a[j] {
      if a[i] == a[j] {
        CountTwice(a, i, j);
        CountOnce(b, a[i]);
      }
    }
  }

  lemma SameMembers(a: seq<nat>, b: seq<nat>)
    requires multiset(a) == multiset(b)
    ensures forall q: nat :: q in a <==> q in b
  {
    forall q: nat ensures q in a <==> q in b {
      assert q in a <==> q in multiset(a);
      assert q in b <==> q in multiset(b);
    }
  }

  lemma CountTwice(a: seq<nat>, i: nat, j: nat)
    requires i < j < |a| && a[i] == a[j]
    ensures multiset(a)[a[i]] >= 2
  {
    assert a == a[..j] + [a[j]] + a[j + 1..];
    assert a[i] in a[..j];
  }

  lemma {:induction false} CountOnce(b: seq<nat>, q: nat)
    requires forall i, j :: 0 <= i < j < |b| ==> b[i] < b[j]
    ensures multiset(b)[q] <= 1
  {
    if b != [] {
      var n := |b| - 1;
      CountOnce(b[..n], q);
      assert b == b[..n] + [b[n]];
      if b[n] == q {
        assert q !in b[..n];
      }
    }
  }

  /** The set indices of the mask, each once, by descending key. */
  method WhereDescending(mask: seq<bool>, key: seq<real>) returns (order: seq<nat>)
    requires |mask| <= |key|
    ensures forall q: nat :: q in order <==> q < |mask| && mask[q]
    ensures forall i, j :: 0 <= i < j < |order| ==> order[i] != order[j]
    ensures forall i :: 0 <= i < |order| ==> order[i] < |mask|
    ensures Descending(order, key)
  {
    var idx := Where(mask);
    WhereFacts(mask);
    assert forall i, j :: 0 <= i < j < |idx| ==> idx[i] < idx[j];
    hide Where;
    order := ArgsortDescending(idx, key);
    PermutationFacts(order, idx);
    hide Descending;
    forall i | 0 <= i < |order| ensures order[i] < |mask| {
      assert order[i] in order;
    }
  }
}

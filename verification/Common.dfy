/** Small definitions shared by the models: options, the two traffic domains, packets, arithmetic, sums
    over sequences, and the load of a queue according to a table. */
module Common {
  datatype Option<+T> = None | Some(value: T)

  /** The emulator runs two disjoint sets of queues over one shared link. */
  datatype Domain = Stateless | Stateful

  /** A generated packet: time in nanoseconds, size in bytes, and the RSS bucket of its flow. */
  datatype Packet = Packet(t: int, size: nat, bucket: nat)

  function Max(a: real, b: real): real {
    if a >= b then a else b
  }

  function Min(a: real, b: real): real {
    if a <= b then a else b
  }

  function MaxInt(a: int, b: int): int {
    if a >= b then a else b
  }

  function MinInt(a: int, b: int): int {
    if a <= b then a else b
  }

  /** Division and multiplication under names, so that proofs can hide them. */
  function Ratio(x: real, y: real): real
    requires y != 0.0
  {
    x / y
  }

  function Portion(x: real, f: real): real {
    x * f
  }

  function Ceil(x: real): (n: int)
    ensures n as real >= x > n as real - 1.0
  {
    -((-x).Floor)
  }

  function Fill<T>(n: nat, x: T): (s: seq<T>)
    ensures |s| == n && forall i :: 0 <= i < n ==> s[i] == x
  {
    seq(n, _ => x)
  }

  ghost predicate TimeOrdered(pkts: seq<Packet>) {
    forall i, j :: 0 <= i < j < |pkts| ==> pkts[i].t <= pkts[j].t
  }

  function Sum(s: seq<real>): real {
    if s == [] then 0.0 else Sum(s[..|s| - 1]) + s[|s| - 1]
  }

  function SumNat(s: seq<nat>): nat {
    if s == [] then 0 else SumNat(s[..|s| - 1]) + s[|s| - 1]
  }

  lemma {:induction false} SumUpdate(s: seq<real>, i: nat, v: real)
    requires i < |s|
    ensures Sum(s[i := v]) == Sum(s) - s[i] + v
  {
    var n := |s| - 1;
    if i < n {
      SumUpdate(s[..n], i, v);
      assert s[i := v][..n] == s[..n][i := v];
    } else {
      assert s[i := v][..n] == s[..n];
    }
  }

  /** The greatest number of a list, or zero if none is greater. */
  ghost predicate IsGreatest(s: seq<real>, x: real) {
    && (forall i :: 0 <= i < |s| ==> s[i] <= x)
    && (x == 0.0 || exists i :: 0 <= i < |s| && s[i] == x)
  }

  lemma GreatestSnoc(s: seq<real>, greatest: real, x: real)
    requires IsGreatest(s, greatest)
    ensures IsGreatest(s + [x], Max(greatest, x)) && IsGreatest(s + [], greatest)
  {
    assert s + [] == s && (s + [x])[|s|] == x;
    if i :| 0 <= i < |s| && s[i] == greatest {
      assert (s + [x])[i] == greatest;
    }
  }

  lemma MulNonNegative(x: real, y: real)
    requires x >= 0.0 && y >= 0.0
    ensures x * y >= 0.0
  {
  }

  /** The load of a queue according to a table: the sum of the weights of its buckets. */
  function TableLoad(table: seq<nat>, weight: seq<real>, q: nat): real
    requires |table| == |weight|
  {
    if table == [] then 0.0
    else
      var n := |table| - 1;
      TableLoad(table[..n], weight[..n], q) + if table[n] == q then weight[n] else 0.0
  }

  lemma {:induction false} TableLoadUpdate(table: seq<nat>, weight: seq<real>, b: nat, dst: nat, q: nat)
    requires |table| == |weight| && b < |table|
    ensures TableLoad(table[b := dst], weight, q)
         == TableLoad(table, weight, q) - (if table[b] == q then weight[b] else 0.0)
             + (if dst == q then weight[b] else 0.0)
  {
    var n := |table| - 1;
    if b < n {
      TableLoadUpdate(table[..n], weight[..n], b, dst, q);
      assert table[b := dst][..n] == table[..n][b := dst];
    } else {
      assert table[b := dst][..n] == table[..n];
    }
  }

  lemma {:induction false} TableLoadOfZeros(table: seq<nat>, z: seq<real>, q: nat)
    requires |table| == |z| && forall i :: 0 <= i < |z| ==> z[i] == 0.0
    ensures TableLoad(table, z, q) == 0.0
  {
    if table != [] {
      TableLoadOfZeros(table[..|table| - 1], z[..|table| - 1], q);
    }
  }
}

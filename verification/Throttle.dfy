/** The arbiter's scale applied to the packets of a bin.

    Each packet is kept when its draw is below the scale, so a scale of 1 keeps all of them and a scale of 0
    none. The mask depends on the draws alone; what it does to the packets is `Thin`. */
module Throttle {
  import opened Common
  import A = Arbiters
  import BC = BinConservation
  import R = Redirection

  /** Which packets stay; a scale of 1 or more keeps all of them whatever the draws. */
  function Mask(scale: real, draws: seq<real>): (keep: seq<bool>)
    ensures |keep| == |draws|
  {
    seq(|draws|, i requires 0 <= i < |draws| => scale >= 1.0 || draws[i] < scale)
  }

  /** How many packets a mask keeps. */
  function Kept(keep: seq<bool>): nat {
    if keep == [] then 0 else Kept(keep[..|keep| - 1]) + if keep[|keep| - 1] then 1 else 0
  }

  lemma {:induction false} KeptTo(scale: real, draws: seq<real>, n: nat)
    requires 0.0 <= scale <= 1.0 && |draws| <= n
    requires forall i :: 0 <= i < |draws| ==> Portion(draws[i], n as real) == i as real
    ensures Kept(Mask(scale, draws)) == MinInt(|draws|, Ceil(Portion(scale, n as real)))
  {
    if draws == [] {
      MulNonNegative(scale, n as real);
    } else {
      var k := |draws| - 1;
      KeptTo(scale, draws[..k], n);
      assert Mask(scale, draws)[..k] == Mask(scale, draws[..k]);
      BelowScale(draws[k], scale, n as real);
      assert scale == 1.0 ==> Portion(scale, n as real) == n as real;
      hide Portion;
    }
  }

  lemma BelowScale(x: real, y: real, n: real)
    requires n > 0.0
    ensures x < y <==> Portion(x, n) < Portion(y, n)
  {
  }

  /** The mask thins by the scale: of n packets whose draws are spread evenly over the unit interval it keeps scale * n,
      rounded up. */
  lemma MaskKeepsShare(scale: real, draws: seq<real>)
    requires 0.0 <= scale <= 1.0
    requires forall i :: 0 <= i < |draws| ==> Portion(draws[i], |draws| as real) == i as real
    ensures Kept(Mask(scale, draws)) == Ceil(Portion(scale, |draws| as real))
  {
    KeptTo(scale, draws, |draws|);
    var n := |draws| as real;
    MulNonNegative(scale, n);
    MulNonNegative(1.0 - scale, n);
    assert Portion(scale, n) <= n;
  }

  method ApplyArbiter(pkts: seq<Packet>, scale: real, draws: seq<real>) returns (kept: seq<Packet>)
    requires |draws| == |pkts|
    ensures kept == BC.Thin(pkts, Mask(scale, draws), true)
  {
    ghost var keep := Mask(scale, draws);
    if scale >= 1.0 || pkts == [] {
      ThinKeepsAll(pkts, keep);
      return pkts;
    }
    kept := [];
    var k := 0;
    while k < |pkts|
      invariant k <= |pkts|
      invariant kept == BC.Thin(pkts[..k], keep[..k], true)
    {
      assert pkts[..k + 1][..k] == pkts[..k] && keep[..k + 1][..k] == keep[..k];
      if draws[k] < scale {
        kept := kept + [pkts[k]];
      }
      k := k + 1;
    }
    assert pkts[..k] == pkts && keep[..k] == keep;
  }

  lemma {:induction false} ThinKeepsAll(pkts: seq<Packet>, keep: seq<bool>)
    requires |keep| == |pkts| && forall i :: 0 <= i < |keep| ==> keep[i]
    ensures BC.Thin(pkts, keep, true) == pkts
  {
    if pkts != [] {
      ThinKeepsAll(pkts[..|pkts| - 1], keep[..|pkts| - 1]);
    }
  }

  lemma {:induction false} ThinKeepsNone(pkts: seq<Packet>, keep: seq<bool>)
    requires |keep| == |pkts| && forall i :: 0 <= i < |keep| ==> !keep[i]
    ensures BC.Thin(pkts, keep, true) == []
  {
    if pkts != [] {
      ThinKeepsNone(pkts[..|pkts| - 1], keep[..|pkts| - 1]);
    }
  }

  /** A bin whose demand fits the cap loses no packet to the arbiter; in an overloaded one, a domain that
      is granted nothing loses all of its packets (draws are in [0, 1)). */
  lemma ThinsOnlyOverload(c: A.Config, deficits: A.Pair, sl: seq<Packet>, sf: seq<Packet>, drawSl: seq<real>,
        drawSf: seq<real>)
    requires c.Valid() && |drawSl| == |sl| && |drawSf| == |sf|
    requires forall i :: 0 <= i < |drawSl| ==> 0.0 <= drawSl[i] < 1.0
    requires forall i :: 0 <= i < |drawSf| ==> 0.0 <= drawSf[i] < 1.0
    ensures var demand := A.Pair(R.TotalSize(sl) as real, R.TotalSize(sf) as real);
      var scales := A.Call(c, deficits, demand).0;
      && (demand.sl + demand.sf <= c.cap ==>
            BC.Thin(sl, Mask(scales.sl, drawSl), true) == sl && BC.Thin(sf, Mask(scales.sf, drawSf), true) == sf)
      && (scales.sl == 0.0 ==> BC.Thin(sl, Mask(scales.sl, drawSl), true) == [])
      && (scales.sf == 0.0 ==> BC.Thin(sf, Mask(scales.sf, drawSf), true) == [])
  {
    var demand := A.Pair(R.TotalSize(sl) as real, R.TotalSize(sf) as real);
    var scales := A.Call(c, deficits, demand).0;
    hide A.Grant, BC.Thin;
    if demand.sl + demand.sf <= c.cap {
      ThinKeepsAll(sl, Mask(scales.sl, drawSl));
      ThinKeepsAll(sf, Mask(scales.sf, drawSf));
    }
    if scales.sl == 0.0 {
      ThinKeepsNone(sl, Mask(scales.sl, drawSl));
    }
    if scales.sf == 0.0 {
      ThinKeepsNone(sf, Mask(scales.sf, drawSf));
    }
  }
}

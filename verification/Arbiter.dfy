/** The egress arbiter between the two domains: how a per-bin byte budget is shared when the demand of
    a bin exceeds it. */
module Arbiters {
  import opened Common

  datatype Policy = Wrr | StrictStateless | StrictStateful | Drr | Proportional

  /** Weights are configured positive integers; the cap is the byte budget of one bin. */
  datatype Config = Config(policy: Policy, wSl: int, wSf: int, cap: real) {
    /** The weights are divided by only under the two weighted policies. */
    predicate Valid() {
      && cap >= 0.0
      && (policy.Wrr? || policy.Drr? ==> wSl >= 0 && wSf >= 0 && wSl + wSf > 0)
    }

    function ShareSl(): real
      requires Valid() && (policy.Wrr? || policy.Drr?)
    {
      Ratio(wSl as real, (wSl + wSf) as real)
    }
  }

  datatype Pair = Pair(sl: real, sf: real)

  function Overloaded(c: Config, demand: Pair): bool {
    demand.sl + demand.sf > c.cap && demand.sl + demand.sf != 0.0
  }

  // ---------- Bytes granted to each domain in an overloaded bin ----------

  /** Each domain gets its weighted share, then the stateless domain takes from what is left over, then
      the stateful one. */
  function WrrShares(cap: real, ratio: real, demand: Pair): Pair {
    var first := Pair(Min(demand.sl, Portion(cap, ratio)), Min(demand.sf, Portion(cap, 1.0 - ratio)));
    var leftover := cap - first.sl - first.sf;
    var addSl := if leftover > 0.0 && demand.sl - first.sl > 0.0 then Min(demand.sl - first.sl, leftover) else 0.0;
    var addSf :=
      if leftover - addSl > 0.0 && demand.sf - first.sf > 0.0 then Min(demand.sf - first.sf, leftover - addSl) else 0.0;
    Pair(first.sl + addSl, first.sf + addSf)
  }

  function Quanta(c: Config): Pair
    requires c.Valid() && c.policy.Drr?
  {
    var w := (c.wSl + c.wSf) as real;
    Pair(Ratio(Portion(c.wSl as real, c.cap), w), Ratio(Portion(c.wSf as real, c.cap), w))
  }

  function Plus(a: Pair, b: Pair): Pair {
    Pair(a.sl + b.sl, a.sf + b.sf)
  }

  function Minus(a: Pair, b: Pair): Pair {
    Pair(a.sl - b.sl, a.sf - b.sf)
  }

  /** What the deficit counters pay for, before the sum is cut down to the cap. */
  function Claimed(demand: Pair, deficits: Pair): Pair {
    Pair(Min(demand.sl, deficits.sl), Min(demand.sf, deficits.sf))
  }

  /** Both parts multiplied by the factor that makes them add up to the cap. */
  function ScaledTo(p: Pair, cap: real): Pair
    requires p.sl + p.sf != 0.0
  {
    var f := Ratio(cap, p.sl + p.sf);
    Pair(Portion(p.sl, f), Portion(p.sf, f))
  }

  function Capped(p: Pair, cap: real): Pair
    requires cap >= 0.0
  {
    if p.sl + p.sf > cap then ScaledTo(p, cap) else p
  }

  /** Grant of an overloaded bin and the deficits left. */
  function Grant(c: Config, deficits: Pair, demand: Pair): (Pair, Pair)
    requires c.Valid() && Overloaded(c, demand)
  {
    match c.policy
    case Wrr => (WrrShares(c.cap, c.ShareSl(), demand), deficits)
    case StrictStateless =>
      var sl := Min(demand.sl, c.cap);
      (Pair(sl, Min(demand.sf, c.cap - sl)), deficits)
    case StrictStateful =>
      var sf := Min(demand.sf, c.cap);
      (Pair(Min(demand.sl, c.cap - sf), sf), deficits)
    case Drr =>
      var funded := Plus(deficits, Quanta(c));
      var claimed := Claimed(demand, funded);
      (Capped(claimed, c.cap), Minus(funded, claimed))
    case Proportional =>
      (ScaledTo(demand, c.cap), deficits)
  }

  function Scale(share: real, demand: real): real {
    if demand > 0.0 then Ratio(share, demand) else 0.0
  }

  // ---------- Bounds of one call ----------

  predicate NonNegative(p: Pair) {
    p.sl >= 0.0 && p.sf >= 0.0
  }

  predicate AtMost(a: Pair, b: Pair) {
    a.sl <= b.sl && a.sf <= b.sf
  }

  lemma RatioInUnit(c: Config)
    requires c.Valid() && (c.policy.Wrr? || c.policy.Drr?)
    ensures 0.0 <= c.ShareSl() <= 1.0
  {
  }

  /** With weighted sharing the whole cap is used, and no domain gets less than its weighted share or
      its demand, whichever is smaller. */
  lemma WrrIsWorkConserving(cap: real, ratio: real, demand: Pair)
    requires 0.0 <= ratio <= 1.0 && cap >= 0.0 && NonNegative(demand) && demand.sl + demand.sf > cap
    ensures var g := WrrShares(cap, ratio, demand);
      && g.sl + g.sf == cap && NonNegative(g) && AtMost(g, demand)
      && g.sl >= Min(demand.sl, Portion(cap, ratio)) && g.sf >= Min(demand.sf, Portion(cap, 1.0 - ratio))
  {
    MulNonNegative(cap, ratio);
    MulNonNegative(cap, 1.0 - ratio);
    assert cap * ratio + cap * (1.0 - ratio) == cap;
  }

  lemma ScaleBounds(x: real, total: real, cap: real)
    requires 0.0 <= x && 0.0 <= cap < total
    ensures 0.0 <= Portion(x, Ratio(cap, total)) <= x
  {
    var f := Ratio(cap, total);
    assert 0.0 <= f <= 1.0 by {
      assert f * total == cap;
    }
    MulNonNegative(x, f);
    MulNonNegative(x, 1.0 - f);
  }

  lemma ScaledBounds(p: Pair, cap: real)
    requires NonNegative(p) && 0.0 <= cap < p.sl + p.sf
    ensures var g := ScaledTo(p, cap); NonNegative(g) && AtMost(g, p) && g.sl + g.sf == cap
  {
    var total := p.sl + p.sf;
    ScaleBounds(p.sl, total, cap);
    ScaleBounds(p.sf, total, cap);
    var f := Ratio(cap, total);
    assert p.sl * f + p.sf * f == total * f == cap;
  }

  lemma QuantaSum(c: Config)
    requires c.Valid() && c.policy.Drr? && c.cap >= 0.0
    ensures NonNegative(Quanta(c)) && Quanta(c).sl + Quanta(c).sf == c.cap
  {
    var w := (c.wSl + c.wSf) as real;
    var a, b := c.wSl as real, c.wSf as real;
    MulNonNegative(a, c.cap);
    MulNonNegative(b, c.cap);
    assert a + b == w;
    assert a * c.cap + b * c.cap == w * c.cap;
    assert a * c.cap / w + b * c.cap / w == (a * c.cap + b * c.cap) / w;
  }

  lemma CappedBounds(p: Pair, cap: real)
    requires NonNegative(p) && cap >= 0.0
    ensures var g := Capped(p, cap); NonNegative(g) && AtMost(g, p) && g.sl + g.sf <= cap
  {
    hide ScaledTo;
    if p.sl + p.sf > cap {
      ScaledBounds(p, cap);
    }
  }

  /** Every policy keeps an overloaded bin within the cap and no domain above its demand; all but
      deficit round robin grant exactly the cap; deficits stay non-negative. */
  lemma GrantWithinCap(c: Config, deficits: Pair, demand: Pair)
    requires c.Valid() && c.cap >= 0.0 && NonNegative(demand) && NonNegative(deficits) && Overloaded(c, demand)
    ensures var (g, left) := Grant(c, deficits, demand);
      && NonNegative(g) && AtMost(g, demand) && g.sl + g.sf <= c.cap
      && (!c.policy.Drr? ==> g.sl + g.sf == c.cap)
      && NonNegative(left)
  {
    hide WrrShares, ScaledTo, Capped, Quanta, c.ShareSl;
    match c.policy
    case Wrr =>
      RatioInUnit(c);
      WrrIsWorkConserving(c.cap, c.ShareSl(), demand);
    case StrictStateless =>
    case StrictStateful =>
    case Drr =>
      QuantaSum(c);
      CappedBounds(Claimed(demand, Plus(deficits, Quanta(c))), c.cap);
    case Proportional =>
      ScaledBounds(demand, c.cap);
  }

  // ---------- What each policy makes of an overloaded bin ----------

  lemma ShareOfCap(c: Config)
    requires c.Valid() && (c.policy.Wrr? || c.policy.Drr?)
    ensures var w := (c.wSl + c.wSf) as real;
      && w > 0.0 && Portion(w, Portion(c.cap, c.ShareSl())) == Portion(c.wSl as real, c.cap)
      && Portion(w, Portion(c.cap, 1.0 - c.ShareSl())) == Portion(c.wSf as real, c.cap)
  {
    var w, a := (c.wSl + c.wSf) as real, c.wSl as real;
    var r := a / w;
    assert w * r == a && w * (1.0 - r) == w - a == c.wSf as real;
    assert w * (c.cap * r) == (w * r) * c.cap && w * (c.cap * (1.0 - r)) == (w * (1.0 - r)) * c.cap;
  }

  lemma ScaledUp(w: real, x: real, y: real)
    requires w > 0.0 && x <= y
    ensures Portion(w, x) <= Portion(w, y)
  {
  }

  /** Under WRR a domain that does not get all it asks for gets at least its weight's part of the cap. */
  lemma WrrHonoursWeights(c: Config, deficits: Pair, demand: Pair)
    requires c.Valid() && c.policy.Wrr? && NonNegative(demand) && Overloaded(c, demand)
    ensures var g, w := Grant(c, deficits, demand).0, (c.wSl + c.wSf) as real;
      && (g.sl < demand.sl ==> Portion(w, g.sl) >= Portion(c.wSl as real, c.cap))
      && (g.sf < demand.sf ==> Portion(w, g.sf) >= Portion(c.wSf as real, c.cap))
  {
    RatioInUnit(c);
    ShareOfCap(c);
    WrrIsWorkConserving(c.cap, c.ShareSl(), demand);
    var g, w := Grant(c, deficits, demand).0, (c.wSl + c.wSf) as real;
    hide WrrShares, Portion, Ratio;
    if g.sl < demand.sl {
      ScaledUp(w, Portion(c.cap, c.ShareSl()), g.sl);
    }
    if g.sf < demand.sf {
      ScaledUp(w, Portion(c.cap, 1.0 - c.ShareSl()), g.sf);
    }
  }

  lemma ScaledAlike(p: Pair, cap: real)
    requires p.sl + p.sf != 0.0
    ensures var g := ScaledTo(p, cap); Portion(g.sl, p.sf) == Portion(g.sf, p.sl)
  {
    var f := Ratio(cap, p.sl + p.sf);
    assert (p.sl * f) * p.sf == (p.sf * f) * p.sl;
  }

  /** Proportional sharing cuts both domains by the same factor: the grants stand in the ratio of the demands. */
  lemma ProportionalKeepsRatio(c: Config, deficits: Pair, demand: Pair)
    requires c.Valid() && c.policy.Proportional? && Overloaded(c, demand)
    ensures var g := Grant(c, deficits, demand).0; Portion(g.sl, demand.sf) == Portion(g.sf, demand.sl)
  {
    ScaledAlike(demand, c.cap);
    hide ScaledTo, Portion;
  }

  lemma CappedAlike(p: Pair, cap: real)
    requires NonNegative(p) && cap >= 0.0
    ensures var g := Capped(p, cap);
      Portion(g.sl, p.sf) == Portion(g.sf, p.sl) && g.sl + g.sf == Min(cap, p.sl + p.sf)
  {
    if p.sl + p.sf > cap {
      ScaledAlike(p, cap);
      ScaledBounds(p, cap);
      hide ScaledTo, Portion;
    } else {
      assert p.sl * p.sf == p.sf * p.sl;
    }
  }

  /** What a domain saved and its quantum pay for: all of its demand, or all that they hold. */
  ghost predicate PaidFrom(funded: real, left: real, demand: real, claim: real) {
    claim == funded - left && 0.0 <= claim <= demand && (claim == demand || left == 0.0)
  }

  /** Deficit round robin in full: the quanta share the cap by the weights; what a domain claims is paid from its
      savings and its quantum, as far as they reach; the claims are granted where they fit the cap together, and
      otherwise cut by the same factor to the cap. */
  lemma DrrGrantsClaims(c: Config, deficits: Pair, demand: Pair) returns (claim: Pair, quanta: Pair)
    requires c.Valid() && c.policy.Drr? && NonNegative(demand) && NonNegative(deficits) && Overloaded(c, demand)
    ensures quanta.sl + quanta.sf == c.cap
    ensures Portion(quanta.sl, c.wSf as real) == Portion(quanta.sf, c.wSl as real)
    ensures var (g, left) := Grant(c, deficits, demand);
      && PaidFrom(deficits.sl + quanta.sl, left.sl, demand.sl, claim.sl)
      && PaidFrom(deficits.sf + quanta.sf, left.sf, demand.sf, claim.sf)
      && g.sl + g.sf == Min(c.cap, claim.sl + claim.sf)
      && Portion(g.sl, claim.sf) == Portion(g.sf, claim.sl)
  {
    quanta := Quanta(c);
    claim := Claimed(demand, Plus(deficits, quanta));
    QuantaSum(c);
    QuantaByWeight(c);
    hide Quanta, Capped, Portion;
    CappedAlike(claim, c.cap);
  }

  lemma QuantaByWeight(c: Config)
    requires c.Valid() && c.policy.Drr?
    ensures Portion(Quanta(c).sl, c.wSf as real) == Portion(Quanta(c).sf, c.wSl as real)
  {
    var w, a, b := (c.wSl + c.wSf) as real, c.wSl as real, c.wSf as real;
    assert (a * c.cap / w) * b == a * b * (c.cap / w) == (b * c.cap / w) * a;
  }

  // ---------- Scales, and runs of calls ----------

  /** The scales of one call and the deficits after it. */
  function Call(c: Config, deficits: Pair, demand: Pair): (Pair, Pair)
    requires c.Valid()
  {
    if !Overloaded(c, demand) then (Pair(1.0, 1.0), deficits)
    else
      var (g, left) := Grant(c, deficits, demand);
      (Pair(Scale(g.sl, demand.sl), Scale(g.sf, demand.sf)), left)
  }

  lemma ScaleOfShare(share: real, demand: real)
    requires 0.0 <= share <= demand
    ensures 0.0 <= Scale(share, demand) <= 1.0 && Scale(share, demand) * demand == share
  {
  }

  function Carried(scales: Pair, demand: Pair): real {
    scales.sl * demand.sl + scales.sf * demand.sf
  }

  /** Both scales lie in [0, 1]. What they let through is the demand itself when it fits, and nothing is scaled then;
      otherwise it is at most the cap, and exactly the cap under every policy but deficit round robin, and a domain
      without demand gets the scale 0. */
  lemma ScalesMeetCap(c: Config, deficits: Pair, demand: Pair)
    requires c.Valid() && NonNegative(demand) && NonNegative(deficits)
    ensures var (scales, left) := Call(c, deficits, demand);
      && NonNegative(scales) && AtMost(scales, Pair(1.0, 1.0)) && NonNegative(left)
      && Carried(scales, demand) <= c.cap
      && (!Overloaded(c, demand) ==> scales == Pair(1.0, 1.0) && Carried(scales, demand) == demand.sl + demand.sf)
      && (Overloaded(c, demand) ==> (demand.sl == 0.0 ==> scales.sl == 0.0) && (demand.sf == 0.0 ==> scales.sf == 0.0))
      && (Overloaded(c, demand) && !c.policy.Drr? ==> Carried(scales, demand) == c.cap)
  {
    hide Grant;
    if Overloaded(c, demand) {
      GrantWithinCap(c, deficits, demand);
      var (g, left) := Grant(c, deficits, demand);
      assert demand.sl == 0.0 ==> Scale(g.sl, demand.sl) == 0.0;
      assert demand.sf == 0.0 ==> Scale(g.sf, demand.sf) == 0.0;
      hide Scale;
      ScaleOfShare(g.sl, demand.sl);
      ScaleOfShare(g.sf, demand.sf);
    }
  }

  /** Bytes of each domain that the scales of a call let through. */
  function Through(c: Config, deficits: Pair, demand: Pair): Pair
    requires c.Valid()
  {
    var scales := Call(c, deficits, demand).0;
    Pair(scales.sl * demand.sl, scales.sf * demand.sf)
  }

  /** A call lets the grant through, or the demand where it fits. */
  lemma ThroughIsGrant(c: Config, deficits: Pair, demand: Pair)
    requires c.Valid() && NonNegative(demand) && NonNegative(deficits)
    ensures Through(c, deficits, demand) == if Overloaded(c, demand) then Grant(c, deficits, demand).0 else demand
  {
    hide Grant;
    if Overloaded(c, demand) {
      GrantWithinCap(c, deficits, demand);
      var g := Grant(c, deficits, demand).0;
      ScaleOfShare(g.sl, demand.sl);
      ScaleOfShare(g.sf, demand.sf);
      hide Scale;
    }
  }

  /** Strict priority isolates the favoured domain: what it gets does not depend on what the other one asks
      for, and as long as it is owed anything the other one gets nothing. */
  lemma StrictIsolates(c: Config, deficits: Pair, demand: Pair, other: real)
    requires c.Valid() && NonNegative(demand) && NonNegative(deficits) && other >= 0.0
    ensures c.policy.StrictStateless? ==>
      && Through(c, deficits, demand).sl == Through(c, deficits, demand.(sf := other)).sl
      && (Through(c, deficits, demand).sl < demand.sl ==> Through(c, deficits, demand).sf == 0.0)
    ensures c.policy.StrictStateful? ==>
      && Through(c, deficits, demand).sf == Through(c, deficits, demand.(sl := other)).sf
      && (Through(c, deficits, demand).sf < demand.sf ==> Through(c, deficits, demand).sl == 0.0)
  {
    ThroughIsGrant(c, deficits, demand);
    ThroughIsGrant(c, deficits, demand.(sf := other));
    ThroughIsGrant(c, deficits, demand.(sl := other));
    hide Through, WrrShares, ScaledTo, Capped, Quanta;
  }

  ghost predicate AllNonNegative(demands: seq<Pair>) {
    forall i :: 0 <= i < |demands| ==> NonNegative(demands[i])
  }

  /** The deficits after a sequence of calls to a new arbiter. */
  function Deficits(c: Config, demands: seq<Pair>): Pair
    requires c.Valid()
  {
    if demands == [] then Pair(0.0, 0.0)
    else Call(c, Deficits(c, demands[..|demands| - 1]), demands[|demands| - 1]).1
  }

  function Overloads(c: Config, demands: seq<Pair>): nat {
    if demands == [] then 0
    else Overloads(c, demands[..|demands| - 1]) + if Overloaded(c, demands[|demands| - 1]) then 1 else 0
  }

  /** Bytes granted over the overloaded calls of a sequence. */
  function Granted(c: Config, demands: seq<Pair>): Pair
    requires c.Valid()
  {
    if demands == [] then Pair(0.0, 0.0)
    else
      var before, last := demands[..|demands| - 1], demands[|demands| - 1];
      if Overloaded(c, last) then Plus(Granted(c, before), Grant(c, Deficits(c, before), last).0)
      else Granted(c, before)
  }

  function Times(k: nat, p: Pair): Pair {
    Pair(k as real * p.sl, k as real * p.sf)
  }

  lemma TimesSucc(k: nat, p: Pair)
    ensures Times(0, p) == Pair(0.0, 0.0) && Times(k + 1, p) == Plus(Times(k, p), p)
  {
    assert (k + 1) as real == k as real + 1.0;
  }

  lemma DrrCall(c: Config, deficits: Pair, demand: Pair)
    requires c.Valid() && c.policy.Drr? && NonNegative(deficits) && NonNegative(demand) && Overloaded(c, demand)
    ensures var (g, left) := Grant(c, deficits, demand);
      NonNegative(left) && AtMost(Plus(g, left), Plus(deficits, Quanta(c)))
  {
    QuantaSum(c);
    hide Quanta, Capped;
    CappedBounds(Claimed(demand, Plus(deficits, Quanta(c))), c.cap);
  }

  /** Nothing saved is negative, and grants and savings together stay within the quanta handed out. */
  ghost predicate Balanced(granted: Pair, saved: Pair, quanta: Pair) {
    NonNegative(saved) && AtMost(Plus(granted, saved), quanta)
  }

  lemma DrrStart(c: Config)
    requires c.Valid() && c.policy.Drr?
    ensures Balanced(Granted(c, []), Deficits(c, []), Times(Overloads(c, []), Quanta(c)))
  {
    TimesSucc(0, Quanta(c));
    hide Quanta, Times;
  }

  /** One more call of a sequence. */
  lemma CallsLast(c: Config, before: seq<Pair>, last: Pair)
    requires c.Valid()
    ensures var all := before + [last];
      if Overloaded(c, last) then
        var (g, left) := Grant(c, Deficits(c, before), last);
        && Deficits(c, all) == left && Granted(c, all) == Plus(Granted(c, before), g)
        && Overloads(c, all) == Overloads(c, before) + 1
      else
        && Deficits(c, all) == Deficits(c, before) && Granted(c, all) == Granted(c, before)
        && Overloads(c, all) == Overloads(c, before)
  {
    var all := before + [last];
    assert all[..|all| - 1] == before;
    hide Grant, Overloaded, Plus, Scale;
  }

  lemma BalancedSaved(granted: Pair, saved: Pair, quanta: Pair)
    requires Balanced(granted, saved, quanta)
    ensures NonNegative(saved)
  {
  }

  lemma BalancedNext(granted: Pair, saved: Pair, quanta: Pair, q: Pair, g: Pair, left: Pair)
    requires Balanced(granted, saved, quanta) && NonNegative(left) && AtMost(Plus(g, left), Plus(saved, q))
    ensures Balanced(Plus(granted, g), left, Plus(quanta, q))
  {
  }

  lemma DrrNext(c: Config, before: seq<Pair>, last: Pair)
    requires c.Valid() && c.policy.Drr? && NonNegative(last)
    requires Balanced(Granted(c, before), Deficits(c, before), Times(Overloads(c, before), Quanta(c)))
    ensures var all := before + [last];
      Balanced(Granted(c, all), Deficits(c, all), Times(Overloads(c, all), Quanta(c)))
  {
    hide *;
    CallsLast(c, before, last);
    BalancedSaved(Granted(c, before), Deficits(c, before), Times(Overloads(c, before), Quanta(c)));
    if Overloaded(c, last) {
      TimesSucc(Overloads(c, before), Quanta(c));
      DrrCall(c, Deficits(c, before), last);
      var (g, left) := Grant(c, Deficits(c, before), last);
      BalancedNext(Granted(c, before), Deficits(c, before), Times(Overloads(c, before), Quanta(c)), Quanta(c), g, left);
    }
  }

  lemma {:induction false} DrrBalanced(c: Config, demands: seq<Pair>)
    requires c.Valid() && c.policy.Drr? && AllNonNegative(demands)
    ensures Balanced(Granted(c, demands), Deficits(c, demands), Times(Overloads(c, demands), Quanta(c)))
  {
    if demands == [] {
      DrrStart(c);
      hide *;
    } else {
      var before, last := demands[..|demands| - 1], demands[|demands| - 1];
      assert NonNegative(last) && AllNonNegative(before);
      assert demands == before + [last];
      hide *;
      DrrBalanced(c, before);
      DrrNext(c, before, last);
    }
  }

  /** Deficit round robin over any sequence of calls: deficits never go negative, and what a domain
      was granted plus what it still has saved never exceeds one quantum for each overloaded call. */
  lemma DrrLedger(c: Config, demands: seq<Pair>)
    requires c.Valid() && c.policy.Drr? && AllNonNegative(demands)
    ensures NonNegative(Deficits(c, demands))
    ensures AtMost(Plus(Granted(c, demands), Deficits(c, demands)), Times(Overloads(c, demands), Quanta(c)))
    ensures AtMost(Granted(c, demands), Times(Overloads(c, demands), Quanta(c)))
  {
    DrrBalanced(c, demands);
    hide Granted, Deficits, Quanta, Times, Overloads;
  }

  // ---------- The arbiter ----------

  class Arbiter {
    const cfg: Config
    var drrSl: real
    var drrSf: real

    constructor (cfg: Config)
      ensures this.cfg == cfg && Saved() == Pair(0.0, 0.0)
    {
      this.cfg := cfg;
      drrSl, drrSf := 0.0, 0.0;
    }

    function Saved(): Pair
      reads this
    {
      Pair(drrSl, drrSf)
    }

    /** What each domain may send of an overloaded bin. */
    method Shares(bytesSl: real, bytesSf: real) returns (shareSl: real, shareSf: real)
      requires cfg.Valid() && Overloaded(cfg, Pair(bytesSl, bytesSf))
      modifies this
      ensures (Pair(shareSl, shareSf), Saved()) == Grant(cfg, old(Saved()), Pair(bytesSl, bytesSf))
    {
      hide Ratio, Portion;
      var total, cap := bytesSl + bytesSf, cfg.cap;
      match cfg.policy {
        case Wrr =>
          var fs := Ratio(cfg.wSl as real, (cfg.wSl + cfg.wSf) as real);
          var ft := 1.0 - fs;
          shareSl := Min(bytesSl, Portion(cap, fs));
          shareSf := Min(bytesSf, Portion(cap, ft));
          var leftover := cap - shareSl - shareSf;
          if leftover > 0.0 && bytesSl - shareSl > 0.0 {
            var add := Min(bytesSl - shareSl, leftover);
            shareSl := shareSl + add;
            leftover := leftover - add;
          }
          if leftover > 0.0 && bytesSf - shareSf > 0.0 {
            shareSf := shareSf + Min(bytesSf - shareSf, leftover);
          }
        case StrictStateless =>
          shareSl := Min(bytesSl, cap);
          shareSf := Min(bytesSf, cap - shareSl);
        case StrictStateful =>
          shareSf := Min(bytesSf, cap);
          shareSl := Min(bytesSl, cap - shareSf);
        case Drr =>
          drrSl := drrSl + Ratio(Portion(cfg.wSl as real, cap), (cfg.wSl + cfg.wSf) as real);
          drrSf := drrSf + Ratio(Portion(cfg.wSf as real, cap), (cfg.wSl + cfg.wSf) as real);
          shareSl := Min(bytesSl, drrSl);
          shareSf := Min(bytesSf, drrSf);
          drrSl := drrSl - shareSl;
          drrSf := drrSf - shareSf;
          var tot := shareSl + shareSf;
          if tot > cap {
            var f := Ratio(cap, tot);
            shareSl := Portion(shareSl, f);
            shareSf := Portion(shareSf, f);
          }
        case Proportional =>
          var f := Ratio(cap, total);
          shareSl := Portion(bytesSl, f);
          shareSf := Portion(bytesSf, f);
      }
    }

    method ScaleFactors(bytesSl: real, bytesSf: real) returns (scaleSl: real, scaleSf: real)
      requires cfg.Valid()
      modifies this
      ensures (Pair(scaleSl, scaleSf), Saved()) == Call(cfg, old(Saved()), Pair(bytesSl, bytesSf))
    {
      hide Ratio, Portion, Grant;
      var total, cap := bytesSl + bytesSf, cfg.cap;
      if total <= cap || total == 0.0 {
        return 1.0, 1.0;
      }
      var shareSl, shareSf := Shares(bytesSl, bytesSf);
      scaleSl := if bytesSl > 0.0 then Ratio(shareSl, bytesSl) else 0.0;
      scaleSf := if bytesSf > 0.0 then Ratio(shareSf, bytesSf) else 0.0;
    }
  }
}

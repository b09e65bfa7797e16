/** The scheduler object: it ticks the handoff manager it shares with the simulator and runs the step
    of module StatefulScheduler on it in place.

    Loads, scores and the cold list are updated incrementally as the program does; the contracts tie them
    to the formula on the current loads and to the queues that are still cold and free. */
module ReactiveScheduler {
  import opened Common
  import opened Selection
  import opened Handoffs
  import opened HandoffManagers
  import SS = StatefulScheduler
  import TM = Telemetry

  ghost function ContextOf(cfg: SS.Config, hc: Handoffs.Config, telem: TM.Report, table: seq<nat>, epoch: int,
        draw: nat -> Draw): SS.Context {
    SS.Context(cfg, hc, telem.pressure, telem.bucketBytes, Sum(telem.queueBytes), table, epoch, draw)
  }

  /** Exactly the buckets of hot queues, heaviest first. */
  ghost predicate IsCandidateOrder(x: SS.Context, order: seq<nat>)
    requires x.Valid()
  {
    && SS.Buckets(x, order)
    && (forall b: nat :: b in order <==> b < |x.table| && x.pressure[x.table[b]] > x.cfg.tauHot)
    && Descending(order, x.bucketBytes)
  }

  class ReactiveStatefulScheduler {
    const cfg: SS.Config
    const handoff: HandoffManager
    var issuedThisEpoch: nat
    var committedThisEpoch: nat
    var finished: seq<Handoff>

    constructor (cfg: SS.Config, handoff: HandoffManager)
      ensures this.cfg == cfg && this.handoff == handoff
      ensures finished == [] && issuedThisEpoch == committedThisEpoch == 0
    {
      this.cfg := cfg;
      this.handoff := handoff;
      issuedThisEpoch := 0;
      committedThisEpoch := 0;
      finished := [];
    }

    method TickHandoffs()
      requires handoff.Valid()
      modifies this, handoff, handoff.flag, handoff.tHand
      ensures handoff.Valid()
      ensures (handoff.Model(), finished) == Tick(handoff.cfg, old(handoff.Model()), cfg.epochNs)
      ensures committedThisEpoch == |finished| && issuedThisEpoch == old(issuedThisEpoch)
    {
      finished := handoff.AdvanceTime(cfg.epochNs);
      committedThisEpoch := |finished|;
    }

    method CommitFinished(table: seq<nat>) returns (newTable: seq<nat>)
      ensures newTable == Commit(table, finished)
    {
      newTable := table;
      var k := 0;
      while k < |finished|
        invariant k <= |finished| && |newTable| == |table|
        invariant newTable == Commit(table, finished[..k])
      {
        assert finished[..k + 1][..k] == finished[..k];
        if finished[k].bucket < |newTable| {
          newTable := newTable[finished[k].bucket := finished[k].dst];
        }
        k := k + 1;
      }
      assert finished[..k] == finished;
    }

    /** The free cold queues. */
    method ColdQueues(telem: TM.Report, ghost x: SS.Context) returns (cold: seq<nat>)
      requires handoff.Valid() && x.Valid() && x.hc == handoff.cfg && x.cfg == cfg
      requires x.pressure == telem.pressure
      ensures ColdList(x, handoff.Model(), cold)
    {
      var ready, flag := handoff.ready[..], handoff.flag[..];
      var mask := seq(|telem.pressure|, q requires 0 <= q < |telem.pressure| && |ready| == |flag| == |telem.pressure| =>
        telem.pressure[q] < cfg.tauCold && ready[q] && !flag[q]);
      cold := Where(mask);
      MaskGivesColdList(x, handoff.Model(), mask);
    }

    /** The buckets of hot queues in the order in which the step considers them. */
    method CandidateOrder(telem: TM.Report, table: seq<nat>, ghost x: SS.Context) returns (order: seq<nat>)
      requires x.Valid() && x.cfg == cfg
      requires x.pressure == telem.pressure && x.bucketBytes == telem.bucketBytes && x.table == table
      ensures IsCandidateOrder(x, order)
    {
      var n := |telem.pressure|;
      var hotMask := seq(n, q requires 0 <= q < n => telem.pressure[q] > cfg.tauHot);
      var hot := Where(hotMask);
      WhereFacts(hotMask);
      var candMask := seq(|table|, b requires 0 <= b < |table| => table[b] in hot);
      hide Where;
      order := WhereDescending(candMask, telem.bucketBytes);
      assert forall b: nat :: b < |table| ==> (candMask[b] <==> telem.pressure[table[b]] > cfg.tauHot);
    }

    /** One destination of the inner loop: keep it if it is admissible and better than the best so far. */
    method TryDestination(b: nat, dst: nat, telem: TM.Report, load: seq<real>, score: seq<real>, sigma: real, src: nat,
          best: Option<nat>, bestGain: real, ghost x: SS.Context, ghost st: SS.State)
      returns (best': Option<nat>, bestGain': real)
      requires handoff.Valid() && SS.Fits(x, st) && x.hc == handoff.cfg && x.cfg == cfg
      requires x.pressure == telem.pressure && x.bucketBytes == telem.bucketBytes && x.sigma == sigma
      requires st.m == handoff.Model() && st.load == load && b < |x.table| && src < x.hc.queues && dst < x.hc.queues
      requires Scored(x, load, score) && x.pressure[dst] < cfg.tauCold
      requires best == SS.Best(x, st, b, src, dst)
      requires best.Some? ==> bestGain == SS.Gain(x, st, b, src, best.value)
      ensures best' == SS.Best(x, st, b, src, dst + 1)
      ensures best'.Some? ==> bestGain' == SS.Gain(x, st, b, src, best'.value)
    {
      best', bestGain' := best, bestGain;
      hide SS.Gain, Scored;
      if dst != src {
        var ok := handoff.CheckIssue(src, dst);
        if ok {
          var gain := GainOf(b, dst, telem, load, score, sigma, src, x, st);
          if best.None? || gain > bestGain {
            best', bestGain' := Some(dst), gain;
          }
        }
      }
    }

    /** The inner loop: the best destination for bucket b, with its gain. */
    method BestDestination(b: nat, cold: seq<nat>, telem: TM.Report, load: seq<real>, score: seq<real>,
          sigma: real, src: nat, ghost x: SS.Context, ghost st: SS.State)
      returns (best: Option<nat>, bestGain: real)
      requires handoff.Valid() && SS.Fits(x, st) && x.hc == handoff.cfg && x.cfg == cfg
      requires x.pressure == telem.pressure && x.bucketBytes == telem.bucketBytes && x.sigma == sigma
      requires st.m == handoff.Model() && st.load == load && b < |x.table| && src < x.hc.queues
      requires Scored(x, load, score)
      requires ColdList(x, handoff.Model(), cold)
      ensures best == SS.Best(x, st, b, src, x.hc.queues)
      ensures best.Some? ==> bestGain == SS.Gain(x, st, b, src, best.value)
    {
      hide *;
      best, bestGain := None, 0.0;
      var j := 0;
      ghost var upTo: nat := 0;
      SearchStarts(x, st, b, src);
      while j < |cold|
        invariant j <= |cold| && upTo <= x.hc.queues
        invariant upTo == if j == 0 then 0 else cold[j - 1] + 1
        invariant best == SS.Best(x, st, b, src, upTo)
        invariant best.Some? ==> bestGain == SS.Gain(x, st, b, src, best.value)
      {
        var dst := cold[j];
        ColdMember(x, st.m, cold, j);
        GapIsInadmissible(x, st, cold, j, src, upTo);
        SS.BestSkips(x, st, b, src, upTo, dst);
        best, bestGain := TryDestination(b, dst, telem, load, score, sigma, src, best, bestGain, x, st);
        upTo := dst + 1;
        j := j + 1;
      }
      GapIsInadmissible(x, st, cold, |cold|, src, upTo);
      SS.BestSkips(x, st, b, src, upTo, x.hc.queues);
    }

    method GainOf(b: nat, dst: nat, telem: TM.Report, load: seq<real>, score: seq<real>, sigma: real, src: nat,
          ghost x: SS.Context, ghost st: SS.State)
      returns (gain: real)
      requires handoff.Valid() && SS.Fits(x, st) && x.hc == handoff.cfg && x.cfg == cfg
      requires x.pressure == telem.pressure && x.bucketBytes == telem.bucketBytes && x.sigma == sigma
      requires st.m == handoff.Model() && st.load == load && b < |x.table| && src < x.hc.queues && dst < x.hc.queues
      requires Scored(x, load, score)
      ensures gain == SS.Gain(x, st, b, src, dst)
    {
      var loadSrc := load[src] - telem.bucketBytes[b];
      var loadDst := load[dst] + telem.bucketBytes[b];
      var scoreSrc := SS.Weigh(cfg, telem.pressure[src], loadSrc, sigma);
      var scoreDst := SS.Weigh(cfg, telem.pressure[dst], loadDst, sigma);
      var benefit := Max(score[src], score[dst]) - Max(scoreSrc, scoreDst);
      hide SS.Weigh, SS.Cost;
      gain := benefit - SS.Cost(cfg, handoff.tHand[dst]);
    }

    /** One turn of the candidate loop: choose a destination and issue the handoff if it pays. */
    method ConsiderBucket(b: nat, cold: seq<nat>, telem: TM.Report, load: seq<real>, score: seq<real>, sigma: real,
          epoch: int, draw: nat -> Draw, table: seq<nat>, ghost x: SS.Context, ghost st: SS.State)
      returns (load': seq<real>, score': seq<real>, cold': seq<nat>, raised: bool)
      requires handoff.Valid() && SS.Fits(x, st) && x.hc == handoff.cfg && x.cfg == cfg
      requires x.pressure == telem.pressure && x.bucketBytes == telem.bucketBytes && x.sigma == sigma
      requires x.epoch == epoch && x.draw == draw && x.table == table
      requires st.m == handoff.Model() && st.load == load && b < |x.table|
      requires st.issued == issuedThisEpoch && !st.raised && st.issued < cfg.maxPerEpoch
      requires Scored(x, load, score) && ColdList(x, handoff.Model(), cold)
      modifies this`issuedThisEpoch, handoff, handoff.flag
      ensures handoff.Valid()
      ensures var st' := SS.Consider(x, st, b);
        && handoff.Model() == st'.m && raised == st'.raised
        && issuedThisEpoch == st'.issued && load' == st'.load
        && Scored(x, load', score') && ColdList(x, handoff.Model(), cold')
    {
      load', score', cold', raised := load, score, cold, false;
      var src := table[b];
      if handoff.flag[src] {
        return;
      }
      var best, gain := BestDestination(b, cold, telem, load, score, sigma, src, x, st);
      hide *;
      if best.Some? && gain > cfg.epsilon {
        ChoiceIsBest(x, st, b);
        load', score', cold', raised :=
          IssueTo(b, best.value, cold, telem, load, score, sigma, epoch, draw, table, x, st);
      } else {
        ChoiceIsBest(x, st, b);
      }
    }

    /** One scheduling step over the telemetry of the closed epoch. The new table is the current one
        with the finished handoffs committed; `order` is the candidate order the step used. */
    method Step(epoch: int, telem: TM.Report, currentTable: seq<nat>, draw: nat -> Draw)
      returns (newTable: seq<nat>, raised: bool, ghost order: seq<nat>)
      requires handoff.Valid() && cfg.epochNs > 0.0 && Sum(telem.queueBytes) >= 0.0
      requires |telem.pressure| == |telem.queueBytes| == handoff.cfg.queues
      requires |telem.bucketBytes| == |currentTable|
      requires forall b :: 0 <= b < |currentTable| ==> Commit(currentTable, finished)[b] < handoff.cfg.queues
      modifies this`issuedThisEpoch, handoff, handoff.flag
      ensures handoff.Valid()
      ensures newTable == Commit(currentTable, finished)
      ensures var x := ContextOf(cfg, handoff.cfg, telem, newTable, epoch, draw);
        var st := SS.State(old(handoff.Model()), telem.queueBytes, 0, false);
        && IsCandidateOrder(x, order)
        && handoff.Model() == SS.StepTo(x, st, order, |order|).m
        && issuedThisEpoch == SS.StepTo(x, st, order, |order|).issued
        && raised == SS.StepTo(x, st, order, |order|).raised
    {
      newTable := CommitFinished(currentTable);
      ghost var x := ContextOf(cfg, handoff.cfg, telem, newTable, epoch, draw);
      var load := telem.queueBytes;
      var sigma := Sum(load);
      var score := seq(|load|, q requires 0 <= q < |load| && |telem.pressure| == |load| && sigma >= 0.0 =>
        SS.Weigh(cfg, telem.pressure[q], load[q], sigma));
      ghost var st := SS.State(handoff.Model(), load, 0, false);
      var cold := ColdQueues(telem, x);
      var cand := CandidateOrder(telem, newTable, x);
      order := cand;
      issuedThisEpoch := 0;
      raised := false;
      assert Scored(x, load, score);
      StepStarts(x, st, cand);
      hide SS.Weigh, SS.Consider, SS.StepTo, SS.Move, SS.Buckets, SS.Context.Valid, IsCandidateOrder, ColdList,
          Scored, Commit, Sum;
      var i := 0;
      while i < |cand|
        invariant i <= |cand| && handoff.Valid()
        invariant SS.State(handoff.Model(), load, issuedThisEpoch, raised) == SS.StepTo(x, st, cand, i)
        invariant !raised && |load| == x.hc.queues
        invariant Scored(x, load, score) && ColdList(x, handoff.Model(), cold)
      {
        if issuedThisEpoch >= cfg.maxPerEpoch {
          SS.StepStops(x, st, cand, i, |cand|);
          return;
        }
        StepNext(x, st, cand, i);
        load, score, cold, raised := ConsiderBucket(cand[i], cold, telem, load, score, sigma, epoch, draw, newTable, x,
                                                    SS.StepTo(x, st, cand, i));
        i := i + 1;
        if raised {
          SS.StepStops(x, st, cand, i, |cand|);
          return;
        }
      }
    }

    /** Issue the handoff and update loads, scores and the cold list. */
    method IssueTo(b: nat, dst: nat, cold: seq<nat>, telem: TM.Report, load: seq<real>, score: seq<real>,
          sigma: real, epoch: int, draw: nat -> Draw, table: seq<nat>, ghost x: SS.Context, ghost st: SS.State)
      returns (load': seq<real>, score': seq<real>, cold': seq<nat>, raised: bool)
      requires handoff.Valid() && SS.Fits(x, st) && x.hc == handoff.cfg && x.cfg == cfg
      requires x.pressure == telem.pressure && x.bucketBytes == telem.bucketBytes && x.sigma == sigma
      requires x.epoch == epoch && x.draw == draw && x.table == table
      requires st.m == handoff.Model() && st.load == load && b < |x.table| && dst < x.hc.queues && dst != table[b]
      requires st.issued == issuedThisEpoch && !st.raised
      requires Scored(x, load, score) && ColdList(x, handoff.Model(), cold)
      modifies this`issuedThisEpoch, handoff, handoff.flag
      ensures handoff.Valid()
      ensures var st' := SS.Move(x, st, b, x.table[b], dst);
        && handoff.Model() == st'.m && raised == st'.raised
        && issuedThisEpoch == st'.issued && load' == st'.load
        && Scored(x, load', score') && ColdList(x, handoff.Model(), cold')
    {
      load', score', cold' := load, score, cold;
      var src := table[b];
      raised := handoff.Issue(b, src, dst, epoch, draw(issuedThisEpoch));
      hide SS.Weigh, IsPending;
      if raised {
        return;
      }
      WithoutKeepsColdList(x, st.m, handoff.Model(), cold, dst);
      hide ColdList;
      issuedThisEpoch := issuedThisEpoch + 1;
      load' := load'[src := load'[src] - telem.bucketBytes[b]];
      load' := load'[dst := load'[dst] + telem.bucketBytes[b]];
      score' := score'[src := SS.Weigh(cfg, telem.pressure[src], load'[src], sigma)];
      score' := score'[dst := SS.Weigh(cfg, telem.pressure[dst], load'[dst], sigma)];
      cold' := Without(cold, dst);
    }
  }

  lemma StepStarts(x: SS.Context, st: SS.State, order: seq<nat>)
    requires SS.Fits(x, st) && SS.Buckets(x, order)
    ensures SS.StepTo(x, st, order, 0) == st
  {
  }

  lemma StepNext(x: SS.Context, st: SS.State, order: seq<nat>, k: nat)
    requires SS.Fits(x, st) && SS.Buckets(x, order) && k < |order|
    ensures order[k] < |x.table|
    ensures SS.StepTo(x, st, order, k + 1) == SS.Consider(x, SS.StepTo(x, st, order, k), order[k])
  {
    hide SS.Consider;
  }

  /** The choice for a bucket of an unflagged queue, in terms of the best destination. */
  lemma ChoiceIsBest(x: SS.Context, st: SS.State, b: nat)
    requires SS.Fits(x, st) && b < |x.table|
    requires !st.raised && st.issued < x.cfg.maxPerEpoch && !st.m.flag[x.table[b]]
    ensures var best := SS.Best(x, st, b, x.table[b], x.hc.queues);
      var pays := best.Some? && SS.Gain(x, st, b, x.table[b], best.value) > x.cfg.epsilon;
      && (pays ==> best.value != x.table[b] && SS.Consider(x, st, b) == SS.Move(x, st, b, x.table[b], best.value))
      && (!pays ==> SS.Consider(x, st, b) == st)
  {
    hide SS.Best, SS.Gain;
  }

  /** The score vector agrees with the formula on the current loads. */
  ghost predicate Scored(x: SS.Context, load: seq<real>, score: seq<real>)
    requires x.Valid() && |load| == x.hc.queues
  {
    |score| == |load| && forall q: nat :: q < |score| ==> score[q] == SS.Score(x, load[q], q)
  }

  function Without(s: seq<nat>, x: nat): seq<nat> {
    if s == [] then []
    else
      var n := |s| - 1;
      Without(s[..n], x) + if s[n] == x then [] else [s[n]]
  }

  lemma {:induction false} WithoutFacts(s: seq<nat>, x: nat)
    requires forall i, j :: 0 <= i < j < |s| ==> s[i] < s[j]
    ensures var r := Without(s, x);
      && (forall y: nat :: y in r <==> y in s && y != x)
      && (forall i, j :: 0 <= i < j < |r| ==> r[i] < r[j])
  {
    if s != [] {
      var n := |s| - 1;
      WithoutFacts(s[..n], x);
      assert s == s[..n] + [s[n]];
      assert forall y: nat :: y in s <==> y in s[..n] || y == s[n];
      var front, r := Without(s[..n], x), Without(s, x);
      forall i, j | 0 <= i < j < |r| ensures r[i] < r[j] {
        assert front[i] in front;
        assert front[i] in s[..n];
      }
    }
  }

  /** Dropping a queue whose flag is now up leaves a cold list for the new flags. */
  lemma WithoutKeepsColdList(x: SS.Context, m: Manager, m': Manager, cold: seq<nat>, dst: nat)
    requires x.Valid() && InDomain(m, x.hc.queues) && InDomain(m', x.hc.queues) && dst < x.hc.queues
    requires ColdList(x, m, cold)
    requires m'.ready == m.ready && m'.flag[dst]
    requires forall q: nat :: q < x.hc.queues && m.flag[q] ==> m'.flag[q]
    ensures ColdList(x, m', cold) && ColdList(x, m', Without(cold, dst))
  {
    WithoutFacts(cold, dst);
    var r := Without(cold, dst);
    forall i | 0 <= i < |r| ensures r[i] < x.hc.queues && x.pressure[r[i]] < x.cfg.tauCold {
      assert r[i] in cold;
    }
  }

  /** The cold list a step works with: ascending, only cold queues, and all of those still free. */
  ghost predicate ColdList(x: SS.Context, m: Manager, cold: seq<nat>)
    requires x.Valid() && InDomain(m, x.hc.queues)
  {
    && (forall i, j :: 0 <= i < j < |cold| ==> cold[i] < cold[j])
    && (forall i :: 0 <= i < |cold| ==> cold[i] < x.hc.queues && x.pressure[cold[i]] < x.cfg.tauCold)
    && (forall q: nat :: q < x.hc.queues && x.pressure[q] < x.cfg.tauCold && m.ready[q] && !m.flag[q] ==> q in cold)
  }

  lemma MaskGivesColdList(x: SS.Context, m: Manager, mask: seq<bool>)
    requires x.Valid() && InDomain(m, x.hc.queues) && |mask| == x.hc.queues
    requires forall q: nat :: q < |mask| ==> mask[q] == (x.pressure[q] < x.cfg.tauCold && m.ready[q] && !m.flag[q])
    ensures ColdList(x, m, Where(mask))
  {
    WhereFacts(mask);
    var cold := Where(mask);
    hide Where;
    forall i | 0 <= i < |cold| ensures cold[i] < x.hc.queues && x.pressure[cold[i]] < x.cfg.tauCold {
      assert cold[i] in cold;
    }
  }

  lemma ColdMember(x: SS.Context, m: Manager, cold: seq<nat>, j: nat)
    requires x.Valid() && InDomain(m, x.hc.queues) && ColdList(x, m, cold) && j < |cold|
    ensures cold[j] < x.hc.queues && x.pressure[cold[j]] < x.cfg.tauCold
  {
  }

  lemma SearchStarts(x: SS.Context, st: SS.State, b: nat, src: nat)
    requires SS.Fits(x, st) && b < |x.table| && src < x.hc.queues
    ensures x.Valid() && InDomain(st.m, x.hc.queues) && SS.Best(x, st, b, src, 0) == None
  {
  }

  /** Between two neighbours in the cold list nothing is admissible. */
  lemma GapIsInadmissible(x: SS.Context, st: SS.State, cold: seq<nat>, j: nat, src: nat, lo: nat)
    requires SS.Fits(x, st) && ColdList(x, st.m, cold) && j <= |cold| && src < x.hc.queues
    requires lo == if j == 0 then 0 else cold[j - 1] + 1
    ensures lo <= x.hc.queues && (j < |cold| ==> lo <= cold[j])
    ensures forall d: nat :: lo <= d < (if j < |cold| then cold[j] else x.hc.queues) ==> !SS.Admissible(x, st, src, d)
  {
    forall d: nat | lo <= d < (if j < |cold| then cold[j] else x.hc.queues)
      ensures d !in cold
    {
      forall i | 0 <= i < |cold| ensures cold[i] != d {
      }
    }
  }
}

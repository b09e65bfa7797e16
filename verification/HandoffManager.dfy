/** The manager object: pending records, per-queue flag arrays and estimates, updated in place.

    `Model` is its value in the terms of module Handoffs. The pass over the pending records deletes the
    finished ones while it goes, lowers their flags and blends their latencies into the estimates. */
module HandoffManagers {
  import opened Common
  import opened Handoffs

  ghost predicate IsFirst(pending: seq<Handoff>, i: nat, bucket: nat)
    requires i < |pending|
  {
    pending[i].bucket == bucket && forall j :: 0 <= j < i ==> pending[j].bucket != bucket
  }

  class HandoffManager {
    const cfg: Config
    var pending: seq<Handoff>
    const ready: array<bool>
    const flag: array<bool>
    const tHand: array<real>
    var completedHistory: seq<Handoff>

    ghost predicate Valid()
      reads this, ready, flag, tHand
    {
      && ready != flag
      && InDomain(Model(), cfg.queues)
      && InRange(pending, cfg.queues)
    }

    ghost function Model(): Manager
      reads this, ready, flag, tHand
    {
      Manager(pending, ready[..], flag[..], tHand[..], completedHistory)
    }

    constructor (cfg: Config)
      ensures Valid() && this.cfg == cfg
      ensures Model() == Initial(cfg)
      ensures fresh(ready) && fresh(flag) && fresh(tHand)
    {
      this.cfg := cfg;
      pending := [];
      ready := new bool[cfg.queues](_ => true);
      flag := new bool[cfg.queues](_ => false);
      tHand := new real[cfg.queues](_ => InitialEstimate(cfg));
      completedHistory := [];
    }

    method FindPending(bucket: nat) returns (i: nat)
      ensures i <= |pending|
      ensures i < |pending| ==> pending[i].bucket == bucket
      ensures forall j :: 0 <= j < i ==> pending[j].bucket != bucket
    {
      i := 0;
      while i < |pending|
        invariant i <= |pending|
        invariant forall j :: 0 <= j < i ==> pending[j].bucket != bucket
      {
        if pending[i].bucket == bucket {
          return;
        }
        i := i + 1;
      }
    }

    method CheckIssue(src: nat, dst: nat) returns (ok: bool)
      requires Valid() && src < cfg.queues && dst < cfg.queues
      ensures ok == CanIssue(cfg, Model(), src, dst)
    {
      if |pending| >= cfg.maxConcurrent {
        return false;
      }
      if flag[src] || flag[dst] {
        return false;
      }
      return ready[dst];
    }

    /** `raised` reports the error of a bucket that is already in handoff. */
    method Issue(bucket: nat, src: nat, dst: nat, epoch: int, g: Draw) returns (raised: bool)
      requires Valid() && src < cfg.queues && dst < cfg.queues
      modifies this, flag
      ensures Valid()
      ensures var r := Handoffs.Issue(cfg, old(Model()), bucket, src, dst, epoch, g);
        && raised == r.None?
        && Model() == if r.Some? then r.value else old(Model())
    {
      var i := FindPending(bucket);
      if i < |pending| {
        return true;
      }
      var l := SampleLatency(cfg, g);
      pending := pending + [Handoff(bucket, src, dst, epoch, l.total, l.total, l.drain, l.migration, l.ack,
                                    0, 0, 0, 0, false)];
      flag[src] := true;
      flag[dst] := true;
      return false;
    }

    /** Absorb into one record: buffer what there is room for, count and return the rest as overflow. */
    method AbsorbInto(h: Handoff, bytes: nat, pkts: nat) returns (h': Handoff, overflowBytes: nat, overflowPkts: nat)
      ensures h' == Absorb(cfg, h, bytes, pkts)
      ensures overflowBytes == h'.overflowBytes - h.overflowBytes && overflowPkts == h'.overflowPkts - h.overflowPkts
    {
      var room := cfg.capacity - h.bufferedBytes;
      if bytes <= room {
        return h.(bufferedBytes := h.bufferedBytes + bytes, bufferedPkts := h.bufferedPkts + pkts), 0, 0;
      }
      var addedBytes := MaxInt(0, room);
      var addedPkts := pkts * addedBytes / MaxInt(1, bytes);
      ShareAtMostWhole(pkts, addedBytes, MaxInt(1, bytes));
      overflowBytes, overflowPkts := bytes - addedBytes, pkts - addedPkts;
      h' := h.(
        bufferedBytes := h.bufferedBytes + addedBytes, bufferedPkts := h.bufferedPkts + addedPkts,
        overflowBytes := h.overflowBytes + overflowBytes, overflowPkts := h.overflowPkts + overflowPkts);
    }

    /** Absorb a bucket's packets; the results are what overflowed, nothing if the bucket is not pending. */
    method AbsorbBucketTraffic(bucket: nat, bytes: nat, pkts: nat) returns (overflowBytes: nat, overflowPkts: nat)
      requires Valid()
      modifies `pending
      ensures Valid()
      ensures (forall j :: 0 <= j < |old(pending)| ==> old(pending)[j].bucket != bucket) ==>
        pending == old(pending) && overflowBytes == overflowPkts == 0
      ensures |pending| == |old(pending)|
      ensures forall i :: 0 <= i < |pending| && IsFirst(old(pending), i, bucket) ==>
        && pending == old(pending)[i := Absorb(cfg, old(pending)[i], bytes, pkts)]
        && overflowBytes == pending[i].overflowBytes - old(pending)[i].overflowBytes
        && overflowPkts == pending[i].overflowPkts - old(pending)[i].overflowPkts
    {
      var i := FindPending(bucket);
      if i == |pending| {
        return 0, 0;
      }
      assert IsFirst(pending, i, bucket);
      hide Absorb;
      var h;
      h, overflowBytes, overflowPkts := AbsorbInto(pending[i], bytes, pkts);
      pending := pending[i := h];
    }

    /** Let dt elapse for one record; if that completes it, lower its flags and feed the estimate. */
    method Visit(h: Handoff, dt: real, ghost w: Sweep) returns (h': Handoff)
      requires |w.flag| == |w.tHand| == cfg.queues && h.src < cfg.queues && h.dst < cfg.queues
      requires flag[..] == w.flag && tHand[..] == w.tHand
      modifies flag, tHand
      ensures h' == Elapse(h, dt)
      ensures flag[..] == SweepOne(cfg, w, h, dt).flag && tHand[..] == SweepOne(cfg, w, h, dt).tHand
    {
      h' := h.(remaining := h.remaining - dt);
      if h'.remaining <= 0.0 {
        h' := h'.(completed := true);
        flag[h.src] := false;
        flag[h.dst] := false;
        tHand[h.dst] := Blend(cfg.alpha, h.latency, tHand[h.dst]);
      }
    }

    /** Let dt elapse for every pending record, in order; the results are the records kept and finished. */
    method SweepPending(dt: real) returns (kept: seq<Handoff>, finished: seq<Handoff>)
      requires Valid()
      modifies flag, tHand
      ensures Sweep(kept, finished, flag[..], tHand[..]) == SweepTo(cfg, old(Model()), dt, |pending|)
    {
      ghost var m := Model();
      SweepStarts(cfg, m, dt);
      kept, finished := [], [];
      hide SweepTo, SweepOne, InRange, Blend, Elapse;
      var k := 0;
      while k < |pending|
        invariant k <= |pending|
        invariant Sweep(kept, finished, flag[..], tHand[..]) == SweepTo(cfg, m, dt, k)
      {
        SweepNext(cfg, m, dt, k);
        var h' := Visit(pending[k], dt, SweepTo(cfg, m, dt, k));
        if h'.remaining <= 0.0 {
          finished := finished + [h'];
        } else {
          kept := kept + [h'];
        }
        k := k + 1;
      }
    }

    /** Let dt elapse for every pending record; completed ones leave and join the history. */
    method AdvanceTime(dt: real) returns (finished: seq<Handoff>)
      requires Valid()
      modifies this, flag, tHand
      ensures Valid()
      ensures (Model(), finished) == Tick(cfg, old(Model()), dt)
    {
      ghost var m := Model();
      var kept;
      kept, finished := SweepPending(dt);
      SweepClosedForm(cfg, m, dt, |m.pending|);
      hide SweepTo;
      pending := kept;
      completedHistory := completedHistory + finished;
    }
  }
}

/** The queue object of the host pipeline: a heap of credit returns, popped earliest first.

    Every method is proved equal to the operation of module CreditQueue, where the returns are a plain
    FIFO. What is proved of runs there holds of the object. */
module QueuePipelines {
  import opened Common
  import CQ = CreditQueue

  /** A heap entry: when a return is due and how many credits it carries. */
  datatype Entry = Entry(due: real, credits: int)

  predicate Leq(a: Entry, b: Entry) {
    a.due < b.due || (a.due == b.due && a.credits <= b.credits)
  }

  ghost predicate IsMin(heap: multiset<Entry>, e: Entry) {
    e in heap && forall x :: x in heap ==> Leq(e, x)
  }

  lemma {:induction false} MinExists(heap: multiset<Entry>) returns (e: Entry)
    requires |heap| > 0
    ensures IsMin(heap, e)
    decreases |heap|
  {
    e :| e in heap;
    var rest := heap - multiset{e};
    if |rest| > 0 {
      var m := MinExists(rest);
      var e0 := e;
      if !Leq(e, m) {
        e := m;
      }
      forall x | x in heap ensures Leq(e, x) {
        assert x == e0 || x in rest;
      }
    } else {
      assert forall x :: x in heap ==> x == e || x in rest;
    }
  }

  method PopMin(heap: multiset<Entry>) returns (e: Entry, rest: multiset<Entry>)
    requires |heap| > 0
    ensures IsMin(heap, e)
    ensures rest == heap - multiset{e}
  {
    ghost var m := MinExists(heap);
    e :| e in heap && forall x :: x in heap ==> Leq(e, x);
    rest := heap - multiset{e};
  }

  /** Each credit return carries one credit. */
  function Entries(due: seq<real>): (s: seq<Entry>)
    ensures |s| == |due|
  {
    seq(|due|, i requires 0 <= i < |due| => Entry(due[i], 1))
  }

  ghost predicate HeapHolds(heap: multiset<Entry>, due: seq<real>) {
    heap == multiset(Entries(due))
  }

  /** In a sorted FIFO the earliest entry of the heap is the head of the FIFO. */
  lemma PopIsHead(heap: multiset<Entry>, due: seq<real>, e: Entry)
    requires HeapHolds(heap, due) && CQ.Sorted(due) && IsMin(heap, e)
    ensures due != [] && e == Entry(due[0], 1)
    ensures HeapHolds(heap - multiset{e}, due[1..])
  {
    var s := Entries(due);
    assert e in s;
    var i :| 0 <= i < |s| && s[i] == e;
    assert s[0] in heap;
    assert due[0] <= due[i];
    assert s == [s[0]] + Entries(due[1..]);
  }

  /** Pop the earliest entry of a heap that holds a sorted FIFO: it is the FIFO's head. */
  method PopHead(heap: multiset<Entry>, ghost due: seq<real>) returns (e: Entry, rest: multiset<Entry>)
    requires HeapHolds(heap, due) && CQ.Sorted(due) && due != []
    ensures e == Entry(due[0], 1) && HeapHolds(rest, due[1..])
  {
    assert |heap| == |Entries(due)|;
    e, rest := PopMin(heap);
    PopIsHead(heap, due, e);
  }

  lemma PushIsLast(heap: multiset<Entry>, due: seq<real>, t: real)
    requires HeapHolds(heap, due)
    ensures HeapHolds(heap + multiset{Entry(t, 1)}, due + [t])
  {
    assert Entries(due + [t]) == Entries(due) + [Entry(t, 1)];
  }

  class QueuePipeline {
    const cfg: CQ.Config
    var creditsAtFpga: int
    var nextServiceFree: real
    var creditReturnHeap: multiset<Entry>
    var stats: CQ.Stats
    ghost var fifo: seq<real>

    ghost predicate Valid()
      reads this
    {
      && cfg.Valid()
      && CQ.Inv(cfg, Model())
      && HeapHolds(creditReturnHeap, fifo)
    }

    ghost function Model(): CQ.Queue
      reads this
    {
      CQ.Queue(creditsAtFpga, nextServiceFree, fifo, stats)
    }

    constructor (cfg: CQ.Config)
      requires cfg.Valid()
      ensures Valid() && this.cfg == cfg
      ensures Model() == CQ.Initial(cfg)
    {
      this.cfg := cfg;
      creditsAtFpga := cfg.depth;
      nextServiceFree := 0.0;
      creditReturnHeap := multiset{};
      stats := CQ.ZERO_STATS;
      fifo := [];
    }

    /** One turn of the advance loop: pop the earliest return if it is due by t. */
    method CollectOne(t: real) returns (collected: bool)
      requires Valid()
      modifies this
      ensures Valid()
      ensures collected <==> old(fifo) != [] && old(fifo[0]) <= t
      ensures Model() == if collected then CQ.Collect(old(Model())) else old(Model())
    {
      assert |creditReturnHeap| == |Entries(fifo)|;
      if |creditReturnHeap| == 0 {
        return false;
      }
      var e, rest := PopHead(creditReturnHeap, fifo);
      if e.due > t {
        return false;
      }
      CQ.CollectKeepsInv(cfg, Model());
      var newCredits := MinInt(cfg.depth, creditsAtFpga + e.credits);
      stats := stats.(returned := stats.returned + (newCredits - creditsAtFpga));
      creditReturnHeap := rest;
      creditsAtFpga := newCredits;
      fifo := fifo[1..];
      return true;
    }

    method AdvanceTo(t: real)
      requires Valid()
      modifies this
      ensures Valid()
      ensures Model() == CQ.Advance(old(Model()), t)
    {
      var more := true;
      while more
        invariant Valid()
        invariant CQ.Advance(Model(), t) == CQ.Advance(old(Model()), t)
        invariant !more ==> fifo == [] || fifo[0] > t
        decreases |fifo|, more
      {
        more := CollectOne(t);
      }
    }

    /** Put one credit return on the heap, later than all those already there. */
    method Schedule(end: real)
      requires cfg.Valid() && HeapHolds(creditReturnHeap, fifo)
      modifies `creditReturnHeap, `fifo
      ensures HeapHolds(creditReturnHeap, fifo)
      ensures fifo == old(fifo) + [end + cfg.writeback]
    {
      var back := end + cfg.writeback;
      PushIsLast(creditReturnHeap, fifo, back);
      creditReturnHeap := creditReturnHeap + multiset{Entry(back, 1)};
      fifo := fifo + [back];
    }

    /** `arrive` is the ring arrival the link computed, if a link is in use; `dma` is the calibrated
        one-way time used otherwise; `noise` is the service-time draw. */
    method TryAdmit(tGen: real, size: nat, arrive: Option<real>, dma: real, noise: real) returns (ok: bool)
      requires Valid()
      modifies this
      ensures Valid()
      ensures var a := if arrive.Some? then arrive.value else tGen + dma;
        (Model(), ok) == CQ.TryAdmit(cfg, old(Model()), tGen, size, a, CQ.ServiceTime(cfg, noise))
    {
      AdvanceTo(tGen);
      if creditsAtFpga <= 0 {
        RecordCreditDrop(size);
        return false;
      }
      var ringArrive := if arrive.Some? then arrive.value else tGen + dma;
      Launch(tGen, size, ringArrive, CQ.ServiceTime(cfg, noise));
      return true;
    }

    /** The admitting branch of TryAdmit. */
    method Launch(tGen: real, size: nat, ringArrive: real, app: real)
      requires Valid() && creditsAtFpga > 0 && app >= 0.0
      modifies this
      ensures Valid()
      ensures Model() == CQ.Take(cfg, old(Model()), tGen, size, ringArrive, app)
    {
      CQ.TakeKeepsInv(cfg, Model(), tGen, size, ringArrive, app);
      hide CQ.Inv, HeapHolds;
      TakeCredit();
      var start := Max(ringArrive, nextServiceFree);
      var end := start + app;
      nextServiceFree := end;
      Schedule(end);
      CountAdmission(size, end - tGen);
    }

    method CountAdmission(size: nat, latency: real)
      modifies `stats
      ensures stats == old(stats).(admPkts := old(stats).admPkts + 1, admBytes := old(stats).admBytes + size,
                                   latencies := old(stats).latencies + [latency])
    {
      stats := stats.(admPkts := stats.admPkts + 1, admBytes := stats.admBytes + size,
                      latencies := stats.latencies + [latency]);
    }

    /** One credit leaves the FPGA; the highest occupancy is remembered. */
    method TakeCredit()
      requires creditsAtFpga > 0
      modifies `creditsAtFpga, `stats
      ensures creditsAtFpga == old(creditsAtFpga) - 1
      ensures stats == old(stats).(uMax := MaxInt(old(stats).uMax, cfg.depth - creditsAtFpga))
    {
      creditsAtFpga := creditsAtFpga - 1;
      var occupancy := cfg.depth - creditsAtFpga;
      if occupancy > stats.uMax {
        stats := stats.(uMax := occupancy);
      }
    }

    method RecordCreditDrop(size: nat)
      requires Valid()
      modifies this
      ensures Valid() && Model() == CQ.CreditDrop(old(Model()), size)
    {
      stats := stats.(dropPkts := stats.dropPkts + 1, dropBytes := stats.dropBytes + size,
                      creditDropPkts := stats.creditDropPkts + 1,
                      creditDropBytes := stats.creditDropBytes + size);
    }

    method RecordPcieDrop(size: nat)
      requires Valid()
      modifies this
      ensures Valid() && Model() == CQ.PcieDrop(old(Model()), size)
    {
      stats := stats.(dropPkts := stats.dropPkts + 1, dropBytes := stats.dropBytes + size,
                      pcieDropPkts := stats.pcieDropPkts + 1,
                      pcieDropBytes := stats.pcieDropBytes + size);
    }

    method ResetStats()
      requires Valid()
      modifies this
      ensures Valid() && Model() == old(Model()).(stats := CQ.ZERO_STATS)
    {
      stats := CQ.ZERO_STATS;
    }
  }
}

/** Per-bin counters of one domain and the pressure computed from them at the end of an epoch. */
module Telemetry {
  import opened Common

  /** What one bin records: bytes and packets generated per bucket, the same folded per queue, and the
      queues' admissions, drops and credit returns. */
  datatype Row = Row(
    bucketBytes: seq<real>, bucketPkts: seq<int>, genBytes: seq<real>,
    admPkts: seq<int>, admBytes: seq<real>, dropPkts: seq<int>, dropBytes: seq<real>, returned: seq<int>)

  /** What the schedulers read of a closed epoch, and the totals that belong to it. */
  datatype Report = Report(
    pressure: seq<real>, queueBytes: seq<real>, bucketBytes: seq<real>,
    admPkts: seq<int>, dropBytes: seq<real>, returned: seq<int>)

  datatype Config = Config(bins: nat, buckets: nat, queues: nat, depth: nat, w1: real, w2: real, w3: real, eps: real)

  function ZeroRow(c: Config): Row {
    Row(Fill(c.buckets, 0.0), Fill(c.buckets, 0), Fill(c.queues, 0.0), Fill(c.queues, 0), Fill(c.queues, 0.0),
        Fill(c.queues, 0), Fill(c.queues, 0.0), Fill(c.queues, 0))
  }

  /** Fold per-bucket values to queues with the table. */
  function FoldToQueues(table: seq<nat>, weight: seq<real>, queues: nat): (s: seq<real>)
    requires |table| == |weight|
    ensures |s| == queues
  {
    seq(queues, q requires 0 <= q < queues => TableLoad(table, weight, q))
  }

  // ---------- Sums over an epoch ----------

  predicate Sized(c: Config, r: Row) {
    && |r.bucketBytes| == c.buckets && |r.genBytes| == c.queues
    && |r.admPkts| == |r.dropPkts| == |r.returned| == c.queues
    && |r.admBytes| == |r.dropBytes| == c.queues
  }

  predicate AllSized(c: Config, rows: seq<Row>) {
    forall k :: 0 <= k < |rows| ==> Sized(c, rows[k])
  }

  function SumBucketBytes(c: Config, rows: seq<Row>, b: nat): real
    requires AllSized(c, rows) && b < c.buckets
  {
    if rows == [] then 0.0
    else SumBucketBytes(c, rows[..|rows| - 1], b) + rows[|rows| - 1].bucketBytes[b]
  }

  function SumGen(c: Config, rows: seq<Row>, q: nat): real
    requires AllSized(c, rows) && q < c.queues
  {
    if rows == [] then 0.0 else SumGen(c, rows[..|rows| - 1], q) + rows[|rows| - 1].genBytes[q]
  }

  function SumDrop(c: Config, rows: seq<Row>, q: nat): real
    requires AllSized(c, rows) && q < c.queues
  {
    if rows == [] then 0.0 else SumDrop(c, rows[..|rows| - 1], q) + rows[|rows| - 1].dropBytes[q]
  }

  function SumAdmitted(c: Config, rows: seq<Row>, q: nat): int
    requires AllSized(c, rows) && q < c.queues
  {
    if rows == [] then 0 else SumAdmitted(c, rows[..|rows| - 1], q) + rows[|rows| - 1].admPkts[q]
  }

  function SumReturned(c: Config, rows: seq<Row>, q: nat): int
    requires AllSized(c, rows) && q < c.queues
  {
    if rows == [] then 0 else SumReturned(c, rows[..|rows| - 1], q) + rows[|rows| - 1].returned[q]
  }

  function BucketTotals(c: Config, rows: seq<Row>): (s: seq<real>)
    requires AllSized(c, rows)
    ensures |s| == c.buckets
  {
    seq(c.buckets, b requires 0 <= b < c.buckets && AllSized(c, rows) => SumBucketBytes(c, rows, b))
  }

  // ---------- The fold commutes with the sum over bins ----------

  ghost predicate FoldedWith(c: Config, rows: seq<Row>, table: seq<nat>) {
    && AllSized(c, rows) && |table| == c.buckets
    && forall k :: 0 <= k < |rows| ==> rows[k].genBytes == FoldToQueues(table, rows[k].bucketBytes, c.queues)
  }

  ghost predicate IsSum(a: seq<real>, b: seq<real>, s: seq<real>) {
    |a| == |b| == |s| && forall i :: 0 <= i < |s| ==> s[i] == a[i] + b[i]
  }

  lemma {:induction false} TableLoadAdds(table: seq<nat>, a: seq<real>, b: seq<real>, s: seq<real>, q: nat)
    requires |table| == |s| && IsSum(a, b, s)
    ensures TableLoad(table, s, q) == TableLoad(table, a, q) + TableLoad(table, b, q)
  {
    if table != [] {
      var n := |table| - 1;
      TableLoadAdds(table[..n], a[..n], b[..n], s[..n], q);
    }
  }

  /** The queue loads the schedulers read agree with the table: over an epoch whose table did not change,
      the per-queue generated bytes equal the fold of the epoch's per-bucket bytes. */
  lemma {:induction false} QueueLoadsAreFolds(c: Config, rows: seq<Row>, table: seq<nat>, q: nat)
    requires FoldedWith(c, rows, table) && q < c.queues
    ensures SumGen(c, rows, q) == TableLoad(table, BucketTotals(c, rows), q)
  {
    if rows == [] {
      TableLoadOfZeros(table, BucketTotals(c, rows), q);
    } else {
      var n := |rows| - 1;
      QueueLoadsAreFolds(c, rows[..n], table, q);
      assert Sized(c, rows[n]);
      TableLoadAdds(table, BucketTotals(c, rows[..n]), rows[n].bucketBytes, BucketTotals(c, rows), q);
    }
  }

  // ---------- Pressure ----------

  /** Bin by bin: drops never exceed what was generated for the queue, credits change by returns minus
      admissions, and stay between 0 and the ring depth. */
  ghost predicate EpochOk(c: Config, rows: seq<Row>, credits: seq<seq<int>>) {
    && AllSized(c, rows) && |credits| == |rows| + 1
    && (forall k :: 0 <= k < |credits| ==> |credits[k]| == c.queues)
    && (forall k, q :: 0 <= k < |rows| && 0 <= q < c.queues ==> 0.0 <= rows[k].dropBytes[q] <= rows[k].genBytes[q])
    && (forall k, q :: 0 <= k < |rows| && 0 <= q < c.queues ==>
          credits[k + 1][q] == credits[k][q] - rows[k].admPkts[q] + rows[k].returned[q])
    && (forall k, q :: 0 <= k < |credits| && 0 <= q < c.queues ==> 0 <= credits[k][q] <= c.depth)
  }

  function Occupancy(c: Config, v: seq<int>, q: nat): int
    requires q < |v|
  {
    c.depth - v[q]
  }

  function LossRatio(c: Config, rows: seq<Row>, q: nat): real
    requires AllSized(c, rows) && q < c.queues && SumGen(c, rows, q) >= 0.0 && c.eps > 0.0
  {
    Ratio(SumDrop(c, rows, q), SumGen(c, rows, q) + c.eps)
  }

  /** Occupancy at the end of the epoch, as a share of the ring. */
  function Level(c: Config, end: seq<int>, q: nat): real
    requires q < |end| && c.depth > 0
  {
    Ratio(Occupancy(c, end, q) as real, c.depth as real)
  }

  /** Growth of the occupancy over the epoch, as a share of the ring. */
  function Growth(c: Config, start: seq<int>, end: seq<int>, q: nat): real
    requires q < |start| == |end| && c.depth > 0
  {
    Ratio(Max(0.0, (Occupancy(c, end, q) - Occupancy(c, start, q)) as real), c.depth as real)
  }

  /** Weighted occupancy, occupancy growth and loss. */
  function RawPressure(c: Config, rows: seq<Row>, start: seq<int>, end: seq<int>, q: nat): real
    requires AllSized(c, rows) && q < c.queues && |start| == |end| == c.queues
    requires SumGen(c, rows, q) >= 0.0 && c.eps > 0.0 && c.depth > 0
  {
    Portion(c.w1, Level(c, end, q)) + Portion(c.w2, Growth(c, start, end, q)) + Portion(c.w3, LossRatio(c, rows, q))
  }

  function Pressure(c: Config, rows: seq<Row>, start: seq<int>, end: seq<int>, q: nat): real
    requires AllSized(c, rows) && q < c.queues && |start| == |end| == c.queues
    requires SumGen(c, rows, q) >= 0.0 && c.eps > 0.0 && c.depth > 0
  {
    Max(0.0, Min(1.0, RawPressure(c, rows, start, end, q)))
  }

  lemma {:induction false} DropsWithinGenerated(c: Config, rows: seq<Row>, credits: seq<seq<int>>, q: nat)
    requires EpochOk(c, rows, credits) && q < c.queues
    ensures 0.0 <= SumDrop(c, rows, q) <= SumGen(c, rows, q)
  {
    if rows != [] {
      var n := |rows| - 1;
      assert 0.0 <= rows[n].dropBytes[q] <= rows[n].genBytes[q];
      EpochOkPrefix(c, rows, credits);
      DropsWithinGenerated(c, rows[..n], credits[..n + 1], q);
    }
  }

  lemma EpochOkPrefix(c: Config, rows: seq<Row>, credits: seq<seq<int>>)
    requires EpochOk(c, rows, credits) && rows != []
    ensures EpochOk(c, rows[..|rows| - 1], credits[..|rows|])
  {
    var n := |rows| - 1;
    forall k, q | 0 <= k < n && 0 <= q < c.queues
      ensures credits[..n + 1][k + 1][q] == credits[..n + 1][k][q] - rows[..n][k].admPkts[q] + rows[..n][k].returned[q]
    {
      assert credits[k + 1][q] == credits[k][q] - rows[k].admPkts[q] + rows[k].returned[q];
    }
  }

  /** Over an epoch the occupancy of a queue grows by its admissions minus its credit returns. */
  lemma {:induction false} GrowthIsAdmittedMinusReturned(c: Config, rows: seq<Row>, credits: seq<seq<int>>, q: nat)
    requires EpochOk(c, rows, credits) && q < c.queues
    ensures Occupancy(c, credits[|rows|], q) - Occupancy(c, credits[0], q)
        == SumAdmitted(c, rows, q) - SumReturned(c, rows, q)
  {
    if rows != [] {
      var n := |rows| - 1;
      EpochOkPrefix(c, rows, credits);
      GrowthIsAdmittedMinusReturned(c, rows[..n], credits[..n + 1], q);
      assert credits[n + 1][q] == credits[n][q] - rows[n].admPkts[q] + rows[n].returned[q];
    }
  }

  lemma UnitRatio(x: real, y: real)
    requires 0.0 <= x <= y && y > 0.0
    ensures 0.0 <= Ratio(x, y) <= 1.0
  {
  }

  lemma PortionWithin(w: real, x: real)
    requires w >= 0.0 && 0.0 <= x <= 1.0
    ensures 0.0 <= Portion(w, x) <= w
  {
    var rest := 1.0 - x;
    assert w * x >= 0.0 && w * rest >= 0.0;
    assert w * x + w * rest == w;
  }

  lemma SharesInUnit(c: Config, start: seq<int>, end: seq<int>, q: nat)
    requires q < |start| == |end| && c.depth > 0 && 0 <= start[q] <= c.depth && 0 <= end[q] <= c.depth
    ensures 0.0 <= Level(c, end, q) <= 1.0 && 0.0 <= Growth(c, start, end, q) <= 1.0
  {
    var d := c.depth as real;
    UnitRatio(Occupancy(c, end, q) as real, d);
    UnitRatio(Max(0.0, (Occupancy(c, end, q) - Occupancy(c, start, q)) as real), d);
  }

  lemma LossInUnit(c: Config, rows: seq<Row>, credits: seq<seq<int>>, q: nat)
    requires EpochOk(c, rows, credits) && q < c.queues && c.eps > 0.0
    ensures SumGen(c, rows, q) >= 0.0 && 0.0 <= LossRatio(c, rows, q) <= 1.0
  {
    DropsWithinGenerated(c, rows, credits, q);
    UnitRatio(SumDrop(c, rows, q), SumGen(c, rows, q) + c.eps);
  }

  /** The clip to [0, 1] is redundant: for non-negative weights that sum to 1, the weighted pressure of
      every queue over every recorded epoch already lies in [0, 1]. */
  lemma ClipIsRedundant(c: Config, rows: seq<Row>, credits: seq<seq<int>>, q: nat)
    requires EpochOk(c, rows, credits) && q < c.queues && c.eps > 0.0 && c.depth > 0
    requires c.w1 >= 0.0 && c.w2 >= 0.0 && c.w3 >= 0.0 && c.w1 + c.w2 + c.w3 == 1.0
    ensures SumGen(c, rows, q) >= 0.0
    ensures 0.0 <= RawPressure(c, rows, credits[0], credits[|rows|], q) <= 1.0
    ensures Pressure(c, rows, credits[0], credits[|rows|], q) == RawPressure(c, rows, credits[0], credits[|rows|], q)
  {
    LossInUnit(c, rows, credits, q);
    var start, end := credits[0], credits[|rows|];
    assert 0 <= start[q] <= c.depth && 0 <= end[q] <= c.depth;
    SharesInUnit(c, start, end, q);
    PortionWithin(c.w1, Level(c, end, q));
    PortionWithin(c.w2, Growth(c, start, end, q));
    PortionWithin(c.w3, LossRatio(c, rows, q));
    hide Portion, Level, Growth, LossRatio, SumGen, EpochOk;
  }

  // ---------- The report ----------

  /** An epoch that can be closed: its rows and both snapshots have the right sizes. */
  ghost predicate Closing(c: Config, rows: seq<Row>, start: seq<int>, end: seq<int>) {
    && AllSized(c, rows) && |start| == |end| == c.queues && c.eps > 0.0 && c.depth > 0
    && forall q: nat :: q < c.queues ==> SumGen(c, rows, q) >= 0.0
  }

  function ReportOf(c: Config, rows: seq<Row>, start: seq<int>, end: seq<int>): (r: Report)
    requires Closing(c, rows, start, end)
    ensures |r.pressure| == |r.queueBytes| == c.queues && |r.bucketBytes| == c.buckets
  {
    Report(seq(c.queues, q requires 0 <= q < c.queues && Closing(c, rows, start, end) =>
             Pressure(c, rows, start, end, q)),
           seq(c.queues, q requires 0 <= q < c.queues && AllSized(c, rows) => SumGen(c, rows, q)),
           BucketTotals(c, rows),
           seq(c.queues, q requires 0 <= q < c.queues && AllSized(c, rows) => SumAdmitted(c, rows, q)),
           seq(c.queues, q requires 0 <= q < c.queues && AllSized(c, rows) => SumDrop(c, rows, q)),
           seq(c.queues, q requires 0 <= q < c.queues && AllSized(c, rows) => SumReturned(c, rows, q)))
  }

  lemma EpochCloses(c: Config, rows: seq<Row>, credits: seq<seq<int>>)
    requires EpochOk(c, rows, credits) && c.eps > 0.0 && c.depth > 0
    ensures Closing(c, rows, credits[0], credits[|rows|])
  {
    forall q: nat | q < c.queues ensures SumGen(c, rows, q) >= 0.0 {
      DropsWithinGenerated(c, rows, credits, q);
    }
  }

  /** The numbers of a report fit together: pressure needs no clip, a queue's bytes are those of its buckets,
      what it dropped was generated for it, and its occupancy grew by its admissions minus its returns. */
  lemma ReportFitsTogether(c: Config, rows: seq<Row>, credits: seq<seq<int>>, table: seq<nat>, q: nat)
    requires EpochOk(c, rows, credits) && FoldedWith(c, rows, table) && q < c.queues && c.eps > 0.0 && c.depth > 0
    requires c.w1 >= 0.0 && c.w2 >= 0.0 && c.w3 >= 0.0 && c.w1 + c.w2 + c.w3 == 1.0
    ensures Closing(c, rows, credits[0], credits[|rows|])
    ensures var r := ReportOf(c, rows, credits[0], credits[|rows|]);
      && 0.0 <= r.pressure[q] == RawPressure(c, rows, credits[0], credits[|rows|], q) <= 1.0
      && r.queueBytes[q] == TableLoad(table, r.bucketBytes, q)
      && 0.0 <= r.dropBytes[q] <= r.queueBytes[q]
      && Occupancy(c, credits[|rows|], q) - Occupancy(c, credits[0], q) == r.admPkts[q] - r.returned[q]
  {
    EpochCloses(c, rows, credits);
    ClipIsRedundant(c, rows, credits, q);
    QueueLoadsAreFolds(c, rows, table, q);
    DropsWithinGenerated(c, rows, credits, q);
    GrowthIsAdmittedMinusReturned(c, rows, credits, q);
    hide RawPressure, Pressure, EpochOk, FoldedWith, TableLoad, SumGen, SumDrop, SumAdmitted, SumReturned;
  }

  // ---------- What the pressure measures ----------

  /** An epoch with non-negative weights that sum to 1, and its report. */
  ghost predicate Weighted(c: Config, rows: seq<Row>, credits: seq<seq<int>>, q: nat, r: Report) {
    && EpochOk(c, rows, credits) && q < c.queues && c.eps > 0.0 && c.depth > 0
    && c.w1 >= 0.0 && c.w2 >= 0.0 && c.w3 >= 0.0 && c.w1 + c.w2 + c.w3 == 1.0
    && Closing(c, rows, credits[0], credits[|rows|]) && r == ReportOf(c, rows, credits[0], credits[|rows|])
  }

  lemma WeightedParts(c: Config, rows: seq<Row>, credits: seq<seq<int>>, q: nat, r: Report)
    requires Weighted(c, rows, credits, q, r)
    ensures |r.pressure| == |r.queueBytes| == |r.dropBytes| == c.queues && c.eps > 0.0 && c.depth > 0
    ensures |credits| == |rows| + 1 && q < |credits[0]| == |credits[|rows|]| == c.queues
    ensures r.queueBytes[q] + c.eps > 0.0
    ensures r.pressure[q]
         == Portion(c.w1, Ratio((c.depth - credits[|rows|][q]) as real, c.depth as real))
             + Portion(c.w2, Ratio(Max(0.0, (credits[0][q] - credits[|rows|][q]) as real), c.depth as real))
             + Portion(c.w3, Ratio(r.dropBytes[q], r.queueBytes[q] + c.eps))
  {
    ClipIsRedundant(c, rows, credits, q);
    hide Portion, Ratio, EpochOk, Pressure, SumGen, SumDrop, SumAdmitted, SumReturned;
  }

  lemma ShareDiffers(w: real, a: real, b: real, all: real)
    requires all > 0.0
    ensures Portion(w, Ratio(b, all)) - Portion(w, Ratio(a, all)) == Portion(w, Ratio(b - a, all))
  {
    assert (b - a) / all == b / all - a / all;
  }

  /** Which observation moves the pressure by how much. Of two epochs with the same bytes generated for a queue,
      the difference in occupancy at the end counts w1 for a whole ring, the difference in growth w2 for a whole
      ring, and the difference in dropped bytes w3 for all bytes generated. */
  lemma PressureByDifference(c: Config, rows: seq<Row>, credits: seq<seq<int>>, r: Report, rows': seq<Row>,
        credits': seq<seq<int>>, r': Report, q: nat)
    requires Weighted(c, rows, credits, q, r) && Weighted(c, rows', credits', q, r')
    requires r'.queueBytes[q] == r.queueBytes[q]
    ensures |credits| == |rows| + 1 && |credits'| == |rows'| + 1 && c.depth > 0 && r.queueBytes[q] + c.eps > 0.0
    ensures q < |credits[0]| == |credits[|rows|]| && q < |credits'[0]| == |credits'[|rows'|]| && q < |r.dropBytes|
        == |r'.dropBytes|
    ensures var start, end, start', end' := credits[0][q], credits[|rows|][q], credits'[0][q], credits'[|rows'|][q];
      var ring := c.depth as real;
      r'.pressure[q] - r.pressure[q]
      == Portion(c.w1, Ratio((end - end') as real, ring))
          + Portion(c.w2, Ratio(Max(0.0, (start' - end') as real) - Max(0.0, (start - end) as real), ring))
          + Portion(c.w3, Ratio(r'.dropBytes[q] - r.dropBytes[q], r.queueBytes[q] + c.eps))
  {
    WeightedParts(c, rows, credits, q, r);
    WeightedParts(c, rows', credits', q, r');
    hide Weighted, Portion, Ratio, Max;
    var start, end, start', end' := credits[0][q], credits[|rows|][q], credits'[0][q], credits'[|rows'|][q];
    var ring := c.depth as real;
    ShareDiffers(c.w1, (c.depth - end) as real, (c.depth - end') as real, ring);
    ShareDiffers(c.w2, Max(0.0, (start - end) as real), Max(0.0, (start' - end') as real), ring);
    ShareDiffers(c.w3, r.dropBytes[q], r'.dropBytes[q], r.queueBytes[q] + c.eps);
    assert (c.depth - end') as real - (c.depth - end) as real == (end - end') as real;
  }

  /** The two ends of the scale: without drops, an empty ring at the end of the epoch means no pressure, and a ring
      full all along the weight of the occupancy. */
  lemma PressureOfRing(c: Config, rows: seq<Row>, credits: seq<seq<int>>, r: Report, q: nat)
    requires Weighted(c, rows, credits, q, r) && r.dropBytes[q] == 0.0
    ensures |credits| == |rows| + 1 && q < |credits[0]| == |credits[|rows|]|
    ensures credits[|rows|][q] == c.depth && credits[0][q] <= c.depth ==> r.pressure[q] == 0.0
    ensures credits[0][q] == credits[|rows|][q] == 0 ==> r.pressure[q] == c.w1
  {
    WeightedParts(c, rows, credits, q, r);
    hide Weighted, Portion, Ratio;
    RatioEnds(c.w1, c.depth as real);
    RatioEnds(c.w2, c.depth as real);
    RatioEnds(c.w3, r.queueBytes[q] + c.eps);
  }

  lemma RatioEnds(w: real, x: real)
    requires x > 0.0
    ensures Portion(w, Ratio(0.0, x)) == 0.0 && Portion(w, Ratio(x, x)) == w
  {
  }

  // ---------- The recorder ----------

  class DomainTelemetry {
    const cfg: Config
    var rows: array<Row>
    var credits: array<seq<int>>
    var latencies: seq<real>

    ghost predicate Valid()
      reads this
    {
      rows.Length == cfg.bins && credits.Length == cfg.bins + 1
    }

    constructor (cfg: Config)
      ensures Valid() && this.cfg == cfg && fresh(rows) && fresh(credits)
      ensures forall k :: 0 <= k < cfg.bins ==> rows[k] == ZeroRow(cfg)
      ensures forall k :: 0 <= k <= cfg.bins ==> credits[k] == Fill(cfg.queues, 0)
      ensures latencies == []
    {
      this.cfg := cfg;
      rows := new Row[cfg.bins](_ => ZeroRow(cfg));
      credits := new seq<int>[cfg.bins + 1](_ => Fill(cfg.queues, 0));
      latencies := [];
    }

    method ResetEpoch()
      modifies this
      ensures Valid() && fresh(rows) && fresh(credits)
      ensures forall k :: 0 <= k < cfg.bins ==> rows[k] == ZeroRow(cfg)
      ensures forall k :: 0 <= k <= cfg.bins ==> credits[k] == Fill(cfg.queues, 0)
      ensures latencies == []
    {
      rows := new Row[cfg.bins](_ => ZeroRow(cfg));
      credits := new seq<int>[cfg.bins + 1](_ => Fill(cfg.queues, 0));
      latencies := [];
    }

    method SetCreditsAtStart(v: seq<int>)
      requires Valid()
      modifies credits
      ensures credits[..] == old(credits[..])[0 := v]
    {
      credits[0] := v;
    }

    /** A new epoch with the given credits at its start. */
    method StartEpoch(v: seq<int>)
      modifies this
      ensures Valid() && fresh(rows) && fresh(credits) && credits[0] == v && latencies == []
    {
      ResetEpoch();
      SetCreditsAtStart(v);
    }

    method RecordBin(k: nat, table: seq<nat>, bucketBytes: seq<real>, bucketPkts: seq<int>,
                     admPkts: seq<int>, admBytes: seq<real>, dropPkts: seq<int>, dropBytes: seq<real>,
                     returned: seq<int>, creditsAtEnd: seq<int>, samples: seq<real>)
      requires Valid() && k < cfg.bins && |table| == |bucketBytes|
      modifies rows, credits, `latencies
      ensures Valid()
      ensures rows[..] == old(rows[..])[k := Row(bucketBytes, bucketPkts, FoldToQueues(table, bucketBytes, cfg.queues),
                                                 admPkts, admBytes, dropPkts, dropBytes, returned)]
      ensures credits[..] == old(credits[..])[k + 1 := creditsAtEnd]
      ensures latencies == old(latencies) + samples
    {
      rows[k] := Row(bucketBytes, bucketPkts, FoldToQueues(table, bucketBytes, cfg.queues),
                     admPkts, admBytes, dropPkts, dropBytes, returned);
      credits[k + 1] := creditsAtEnd;
      latencies := latencies + samples;
    }

    /** Close the epoch: pressure, generated, admitted, dropped and returned of every queue, and the bytes
        generated per bucket. */
    method FinalizeEpoch() returns (report: Report)
      requires Valid() && Closing(cfg, rows[..], credits[0], credits[cfg.bins])
      ensures report == ReportOf(cfg, rows[..], credits[0], credits[cfg.bins])
    {
      var all, start, end := rows[..], credits[0], credits[cfg.bins];
      var pressure, queueBytes, admPkts, dropBytes, returned := [], [], [], [], [];
      var q := 0;
      while q < cfg.queues
        invariant q <= cfg.queues && |pressure| == |queueBytes| == |admPkts| == |dropBytes| == |returned| == q
        invariant forall i: nat :: i < q ==> pressure[i] == Pressure(cfg, all, start, end, i)
        invariant forall i: nat :: i < q ==>
            queueBytes[i] == SumGen(cfg, all, i) && dropBytes[i] == SumDrop(cfg, all, i)
        invariant forall i: nat :: i < q ==>
            admPkts[i] == SumAdmitted(cfg, all, i) && returned[i] == SumReturned(cfg, all, i)
      {
        hide RawPressure;
        pressure := pressure + [Max(0.0, Min(1.0, RawPressure(cfg, all, start, end, q)))];
        queueBytes, dropBytes := queueBytes + [SumGen(cfg, all, q)], dropBytes + [SumDrop(cfg, all, q)];
        admPkts, returned := admPkts + [SumAdmitted(cfg, all, q)], returned + [SumReturned(cfg, all, q)];
        q := q + 1;
      }
      report := Report(pressure, queueBytes, BucketTotals(cfg, all), admPkts, dropBytes, returned);
      ghost var r := ReportOf(cfg, all, start, end);
      assert pressure == r.pressure && queueBytes == r.queueBytes && dropBytes == r.dropBytes;
      assert admPkts == r.admPkts && returned == r.returned;
    }
  }
}

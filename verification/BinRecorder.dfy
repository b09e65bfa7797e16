/** Recording a bin: the counters of a domain's queues become one row of its telemetry.

    The row is the one that module TelemetryTheorems reasons about, and the credits recorded with it are
    those the queues hold at the end of the bin. Bytes and packets per bucket were counted before the
    arbiter and the redirection, so a row can show more generated than its queues ever saw. The latency
    samples of the queues are appended to those of the epoch. */
module BinRecorders {
  import opened Common
  import CQ = CreditQueue
  import T = Telemetry
  import TT = TelemetryTheorems
  import BC = BinConservation
  import R = Redirection
  import opened Simulators
  import opened QueuePipelines

  /** The columns a bin records, for the first k queues. */
  ghost predicate Columns(qs: seq<CQ.Queue>, k: nat, admPkts: seq<int>, admBytes: seq<real>,
                          dropPkts: seq<int>, dropBytes: seq<real>, returned: seq<int>, credits: seq<int>)
  {
    && k <= |qs| && |admPkts| == |admBytes| == |dropPkts| == |dropBytes| == |returned| == |credits| == k
    && forall i :: 0 <= i < k ==>
         && admPkts[i] == qs[i].stats.admPkts && admBytes[i] == qs[i].stats.admBytes as real
         && dropPkts[i] == qs[i].stats.dropPkts && dropBytes[i] == qs[i].stats.dropBytes as real
         && returned[i] == qs[i].stats.returned && credits[i] == qs[i].credits
  }

  lemma ColumnsNext(qs: seq<CQ.Queue>, k: nat, admPkts: seq<int>, admBytes: seq<real>,
                    dropPkts: seq<int>, dropBytes: seq<real>, returned: seq<int>, credits: seq<int>)
    requires Columns(qs, k, admPkts, admBytes, dropPkts, dropBytes, returned, credits) && k < |qs|
    ensures var s := qs[k].stats;
      Columns(qs, k + 1, admPkts + [s.admPkts], admBytes + [s.admBytes as real], dropPkts + [s.dropPkts],
              dropBytes + [s.dropBytes as real], returned + [s.returned], credits + [qs[k].credits])
  {
  }

  lemma NothingGathered(qs: seq<CQ.Queue>)
    ensures TT.Gathered(qs[..0]) == []
  {
  }

  lemma GatheredNext(qs: seq<CQ.Queue>, k: nat)
    requires k < |qs|
    ensures TT.Gathered(qs[..k + 1]) == TT.Gathered(qs[..k]) + qs[k].stats.latencies
  {
    assert qs[..k + 1][..k] == qs[..k];
  }

  lemma ColumnsMakeRow(qs: seq<CQ.Queue>, gen: seq<Packet>, table: seq<nat>, admPkts: seq<int>, admBytes: seq<real>,
                       dropPkts: seq<int>, dropBytes: seq<real>, returned: seq<int>, credits: seq<int>)
    requires Columns(qs, |qs|, admPkts, admBytes, dropPkts, dropBytes, returned, credits)
    ensures var bytes := BC.BucketBytes(gen, |table|);
      TT.RowOf(qs, gen, table) == T.Row(bytes, TT.BucketPkts(gen, |table|), T.FoldToQueues(table, bytes, |qs|),
                                        admPkts, admBytes, dropPkts, dropBytes, returned)
    ensures credits == TT.Credits(qs)
  {
    hide T.FoldToQueues, BC.BucketBytes, R.CountOf;
  }

  /** The counters of all queues, column by column, and their latency samples. */
  method CollectCounters(p: HostDomainPipeline)
    returns (admPkts: seq<int>, admBytes: seq<real>, dropPkts: seq<int>, dropBytes: seq<real>, returned: seq<int>,
             credits: seq<int>, samples: seq<real>)
    requires p.Valid()
    ensures Columns(p.Model(), |p.queues|, admPkts, admBytes, dropPkts, dropBytes, returned, credits)
    ensures samples == TT.Gathered(p.Model())
  {
    admPkts, admBytes, dropPkts, dropBytes, returned, credits, samples := [], [], [], [], [], [], [];
    ghost var qs := p.Model();
    NothingGathered(qs);
    var q := 0;
    while q < |p.queues|
      invariant q <= |p.queues|
      invariant Columns(qs, q, admPkts, admBytes, dropPkts, dropBytes, returned, credits)
      invariant samples == TT.Gathered(qs[..q])
    {
      var qp := p.queues[q];
      assert qs[q] == qp.Model();
      hide Columns, TT.Gathered;
      ColumnsNext(qs, q, admPkts, admBytes, dropPkts, dropBytes, returned, credits);
      GatheredNext(qs, q);
      admPkts := admPkts + [qp.stats.admPkts];
      admBytes := admBytes + [qp.stats.admBytes as real];
      dropPkts := dropPkts + [qp.stats.dropPkts];
      dropBytes := dropBytes + [qp.stats.dropBytes as real];
      returned := returned + [qp.stats.returned];
      credits := credits + [qp.creditsAtFpga];
      samples := samples + qp.stats.latencies;
      q := q + 1;
    }
    assert qs[..q] == qs;
  }

  /** Write the counters of a domain's queues as the row of bin k. */
  method RecordDomainBin(p: HostDomainPipeline, telem: T.DomainTelemetry, k: nat, table: seq<nat>,
                         bucketBytes: seq<real>, bucketPkts: seq<int>, ghost gen: seq<Packet>)
    requires p.Valid() && telem.Valid() && k < telem.cfg.bins && telem.cfg.queues == |p.queues|
    requires bucketBytes == BC.BucketBytes(gen, |table|) && bucketPkts == TT.BucketPkts(gen, |table|)
    modifies telem.rows, telem.credits, telem`latencies
    ensures telem.Valid()
    ensures telem.rows[..] == old(telem.rows[..])[k := TT.RowOf(old(p.Model()), gen, table)]
    ensures telem.credits[..] == old(telem.credits[..])[k + 1 := TT.Credits(old(p.Model()))]
    ensures telem.latencies == old(telem.latencies) + TT.Gathered(old(p.Model()))
  {
    var admPkts, admBytes, dropPkts, dropBytes, returned, credits, samples := CollectCounters(p);
    ColumnsMakeRow(p.Model(), gen, table, admPkts, admBytes, dropPkts, dropBytes, returned, credits);
    telem.RecordBin(k, table, bucketBytes, bucketPkts, admPkts, admBytes, dropPkts, dropBytes, returned, credits,
        samples);
  }
}

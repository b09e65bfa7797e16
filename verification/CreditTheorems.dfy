/** Credit conservation in every run of the emulator.

    No event creates or loses a descriptor credit of any queue: bins and replays take and return them, epoch
    boundaries leave the credits of the other domain alone. */
module CreditTheorems {
  import opened Common
  import CQ = CreditQueue
  import PL = PcieLink
  import PP = PacketPath
  import L = Latency
  import H = Handoffs
  import opened Emulator

  ghost predicate QueuesOk(c: CQ.Config, qs: seq<CQ.Queue>) {
    forall i :: 0 <= i < |qs| ==> CQ.Inv(c, qs[i])
  }

  ghost predicate CreditsOk(c: PP.Config, p: PP.Path) {
    QueuesOk(c.sl.queue, p.sl) && QueuesOk(c.sf.queue, p.sf)
  }

  lemma OfferKeepsCredits(c: PP.Config, q: CQ.Queue, l: PL.Link, a: PP.Arrival)
    requires c.Valid() && CQ.Inv(c.Of(a.d).queue, q)
    ensures CQ.Inv(c.Of(a.d).queue, PP.Offer(c, q, l, a).0)
  {
    var qc, t := c.Of(a.d).queue, a.pkt.t as real;
    CQ.AdvanceKeepsInv(qc, q, t);
    var q1 := CQ.Advance(q, t);
    var arrive := PP.OfferCases(c, q, l, a);
    var app := CQ.ServiceTime(qc, a.noise);
    hide PP.Offer, CQ.Advance, CQ.ServiceTime;
    if q1.credits > 0 {
      CQ.TakeKeepsInv(qc, q1, t, a.pkt.size, arrive, app);
    }
  }

  lemma StepKeepsCredits(c: PP.Config, tab: PP.Tables, s: PP.Path, a: PP.Arrival)
    requires c.Valid() && PP.Routable(tab, s, a) && CreditsOk(c, s)
    ensures CreditsOk(c, PP.Step(c, tab, s, a))
  {
    OfferKeepsCredits(c, s.Of(a.d)[PP.Route(tab, a)], s.link, a);
    hide PP.Offer, CQ.Inv;
  }

  lemma {:induction false} ProcessKeepsCredits(c: PP.Config, tab: PP.Tables, s: PP.Path, arrivals: seq<PP.Arrival>)
    requires c.Valid() && PP.AllRoutable(tab, s, arrivals) && CreditsOk(c, s)
    ensures CreditsOk(c, PP.Process(c, tab, s, arrivals))
  {
    if arrivals != [] {
      PP.ProcessLast(c, tab, s, arrivals);
      var n := |arrivals| - 1;
      hide *;
      ProcessKeepsCredits(c, tab, s, arrivals[..n]);
      StepKeepsCredits(c, tab, PP.Process(c, tab, s, arrivals[..n]), arrivals[n]);
    }
  }

  lemma QueuesReset(c: CQ.Config, qs: seq<CQ.Queue>)
    requires QueuesOk(c, qs)
    ensures QueuesOk(c, PP.ResetQueues(qs))
  {
    var r := PP.ResetQueues(qs);
    forall i | 0 <= i < |r| ensures CQ.Inv(c, r[i]) {
      assert CQ.Inv(c, qs[i]);
    }
  }

  lemma QueuesAdvance(c: CQ.Config, qs: seq<CQ.Queue>, t: real)
    requires QueuesOk(c, qs)
    ensures QueuesOk(c, PP.AdvanceQueues(qs, t))
  {
    var r := PP.AdvanceQueues(qs, t);
    forall i | 0 <= i < |r| ensures CQ.Inv(c, r[i]) {
      CQ.AdvanceKeepsInv(c, qs[i], t);
    }
  }

  lemma BinKeepsCredits(c: PP.Config, tab: PP.Tables, s: PP.Path, arrivals: seq<PP.Arrival>, tEnd: int)
    requires c.Valid() && PP.AllRoutable(tab, s, arrivals) && CreditsOk(c, s)
    ensures CreditsOk(c, PP.Bin(c, tab, s, arrivals, tEnd))
  {
    QueuesReset(c.sl.queue, s.sl);
    QueuesReset(c.sf.queue, s.sf);
    ProcessKeepsCredits(c, tab, PP.ResetStats(s), arrivals);
    var s1 := PP.Process(c, tab, PP.ResetStats(s), arrivals);
    QueuesAdvance(c.sl.queue, s1.sl, tEnd as real);
    QueuesAdvance(c.sf.queue, s1.sf, tEnd as real);
    hide PP.Process, PP.AdvanceQueues, QueuesOk;
  }

  lemma {:induction false} ReplayKeepsCredits(dc: PP.DomainConfig, q: CQ.Queue, t: real, size: nat, n: nat,
        noise: nat -> real)
    requires dc.queue.Valid() && CQ.Inv(dc.queue, q)
    ensures CQ.Inv(dc.queue, L.Replay(dc, q, t, size, n, noise).0)
  {
    if n > 0 {
      ReplayKeepsCredits(dc, q, t, size, n - 1, noise);
      CQ.TryAdmitKeepsInv(dc.queue, L.Replay(dc, q, t, size, n - 1, noise).0, t, size, t + dc.Dma(size),
                          CQ.ServiceTime(dc.queue, noise(n - 1)));
      hide CQ.TryAdmit, CQ.Inv;
    }
  }

  lemma {:induction false} ReplaysKeepCredits(c: Config, qs: seq<CQ.Queue>, finished: seq<H.Handoff>, t: real,
        noise: (nat, nat) -> real, k: nat)
    requires c.Valid() && k <= |finished| && QueuesOk(c.path.sf.queue, qs)
    ensures QueuesOk(c.path.sf.queue, ReplayTo(c, qs, finished, t, noise, k))
  {
    if k > 0 {
      hide CQ.Inv, L.Replay;
      ReplaysKeepCredits(c, qs, finished, t, noise, k - 1);
      var before, h := ReplayTo(c, qs, finished, t, noise, k - 1), finished[k - 1];
      if h.dst < |before| {
        ReplayKeepsCredits(c.path.sf, before[h.dst], t, AverageSize(h), h.bufferedPkts, Row(noise, k - 1));
      }
    }
  }

  lemma NextKeepsCredits(c: Config, s: Sys, e: Event)
    requires Enabled(c, s, e) && CreditsOk(c.path, s.path)
    ensures CreditsOk(c.path, Next(c, s, e).path)
  {
    match e
    case Bin(sl, sf, noise, tEnd) =>
      NextOfBin(c, s, sl, sf, noise, tEnd);
      BinKeepsCredits(c.path, s.Tables(), s.path, Stream(s, sl, sf, noise), tEnd);
      hide Next, PP.Bin, QueuesOk;
    case StatelessEpoch(_) =>
    case StatefulEpoch(telem, order, draw, noise) =>
      NextOfEpoch(c, s, telem, order, draw, noise);
      var finished := H.Tick(c.handoff, s.m, c.sched.epochNs).1;
      ReplaysKeepCredits(c, s.path.sf, finished, ReplayTime(c.sched.epochNs, s.epoch), noise, |finished|);
      hide Next, ReplayTo, H.Tick, QueuesOk;
  }

  /** In every run from an initial state, every queue of both domains holds its D_q credits: those at
      the FPGA plus those in flight. */
  lemma {:induction false} RunKeepsCredits(c: Config, s: Sys, events: seq<Event>)
    requires IsRun(c, s, events) && CreditsOk(c.path, s.path)
    ensures CreditsOk(c.path, After(c, s, events).path)
    decreases |events|
  {
    if events != [] {
      hide Next, Enabled, CreditsOk;
      NextKeepsCredits(c, s, events[0]);
      RunKeepsCredits(c, Next(c, s, events[0]), events[1..]);
    }
  }

  lemma InitialCredits(c: Config, s: Sys)
    requires IsInitial(c, s)
    ensures CreditsOk(c.path, s.path)
  {
  }
}

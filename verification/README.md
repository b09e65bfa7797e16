# SmartNIC emulator: a verified model

A Dafny model of the packet path and the control loops of the SmartNIC emulator under `src/`: descriptor
credits, the shared PCIe link, per-bin processing, the two schedulers, the handoff protocol with its
buffers and replays, telemetry, the egress arbiter, trace slicing and the fair-share workload generator.
`dafny verify dfyconfig.toml` checks the whole project.

## How the model is built

Each imperative part of the program appears twice. A file with values and functions says what one
operation means and proves its laws; a file with a class does the operation in place, with the fields and
loops of the program, and its `ensures` equate the new state with the function of the old one.

| values and laws | objects and loops | program |
|---|---|---|
| CreditQueue | QueuePipeline | `src/host_pipeline.py` |
| PcieLink | PcieLink (class PCIeLink) | `src/pcie.py` |
| PacketPath, Latency, Accounting, StreamMerge, Redirection | Simulator, Emulation, RunLoop | `src/sim.py` |
| Handoff, HandoffTime | HandoffManager | `src/handoff.py` |
| StatefulScheduler | ReactiveScheduler | `src/schedulers/stateful_proposed.py` |
| GreedyRebalancer, OneshotScheduler | GreedyScheduler, OneshotScheduler | `src/schedulers/stateless_proposed.py` |
| Telemetry, BinConservation | Telemetry (class DomainTelemetry), BinRecorder | `src/telemetry.py`, `src/sim.py` |
| Arbiter | Arbiter (class Arbiter), Throttle | `src/arbiter.py`, `src/sim.py` |
| Traces, TraceDriven | TraceSet | `src/traces.py`, `src/sim.py` |
| FairShare, FlowPackets | FlowPool, FlowPackets | `src/hal_workload.py` |

`Emulator` puts the values together into one state machine. Its events are a bin, a stateless epoch
boundary and a stateful epoch boundary. A run is any sequence of enabled events, so the results over runs
cover every interleaving of the two domains' epochs. `ControlTheorems`, `EstimateTheorems`,
`ScheduleTheorems`, `PathTheorems`, `ReplayTheorems`, `CreditTheorems`, `OccupancyTheorems`, `ServiceTheorems`,
`TelemetryTheorems`, `ReportTheorems`, `RecordingTheorems` and `LatencyTheorems` hold the results over runs. The
class `Simulator` performs the bin and the stateful boundary in place and is proved to take the machine's steps.
The locals `sf_epoch` and `t` of the program's `run` are the fields `sfEpoch` and `now` there.

`TraceDriven` shows that bins fed from the traces through the arbiter, and boundaries fed from the recorded
telemetry, always meet the conditions of the machine's events. The class `Emulation` puts the objects together,
traces, arbiter, simulator and recorder, and runs the program's top-level loop over them; its run is proved to
be a run of the machine on the loop's own schedule (`RunLoop`), so all results over runs hold of it.

Packets, credits, buckets and byte counts of packets are integers. Times, pressures, rates and the byte
shares of the arbiter and of the workload generator are reals, so rounding of floating-point numbers is
idealised. Every random draw (service noise, handoff latencies, thinning, flow attributes) is an input,
bounded only as the program bounds it: a service time is at least the lookup time, a latency at least
1 ns, a flow rate positive. A bin length may be any number of nanoseconds that is not negative. The service
time has no upper bound in the program; the latency results take a bound on the draws as a parameter. The
round-trip table behind the one-way time is a parameter too, under the program's floor of 100 ns.

## Where the program does less than it seems

* `PCIeLink`: with a setup time per packet, pending bytes can exceed the FIFO size. `PendingCapIff` says
  exactly when, and `PendingCapped` and `LeakyBucket` give the bounds that do hold; the latency bound
  carries the setup time as well.
* Greedy step: with `tau_cold` above `tau_hot` one queue can be both hot and cold and move a bucket onto
  itself; its incremental load is then wrong. `MoveKeepsLoadsIff` and `TraceKeepsLoads` state when loads
  and table agree.
* One-shot step: a move can go to a queue hotter than its source; `UphillIff` says when, and
  `MoveGoesBackUphill` gives a pass that hands a bucket on and then straight back, uphill.
* `run` truncates the bin length to whole nanoseconds, the replay stamps do not. With a fractional bin
  length replays are soon stamped after the clock. `ReplayLateness` says by how much, `ReplayOnTimeIff` when
  they are not. The latency bound counts the lateness in its delay.
* A replay stamped after the clock collects credits that are not due yet, so the ring then takes more than D_q
  packets and the documented invariant (`src/host_pipeline.py:25`) fails; `StampAheadOverfillsRing` is a case.
  `OccupancyIsInFlight` says exactly when the occupancy counts the packets in flight, `RefusedIffRingFull` what
  a refusal means otherwise, and `RunOccupancy` and `RunRefusal` that both hold in every run for stateless
  queues always and for stateful ones from the lateness of the replays on. No other result about runs asks for
  replays on time.
* Packet sizes of the workload: when the rounded bytes of an emission fall on or below what all packets
  but the last carry, the last packet is sent full and the timeline carries almost one MTU too much.
  `PacketsCarryBytes` says when the sizes add up.
* Deficit round robin never resets the savings of an idle domain; what it saves is bounded only by its
  quanta, which is what `DrrLedger` states.
* The repository's own picture of the path (`README.md:60-69`) consumes a credit before the link; the
  code consumes none when the link drops the packet. The model follows the code.
* Statistics of replayed packets are cleared by the next bin before any telemetry reads them, so a log
  alone does not balance. `ReplayFate` and `BinConserves` account for the packets themselves.

## Model

| member | source | states |
|---|---|---|
| `CreditQueue.CreditsConserved` | src/host_pipeline.py:159-205 | After any sequence of clock advances and admission attempts the credits at the FPGA plus those in flight are exactly D_q, and the credit returns stand in non-decreasing order |
| `CreditQueue.OccupancyIsInFlight` | src/host_pipeline.py:159-205 | After any run and at any time of reading, the occupancy D_q - V_q is the number of packets ever admitted whose credit return still lies ahead, an independent count over the whole history, if and only if no credit was collected whose return lies ahead; this holds at every time not before the stamps the queue has seen |
| `CreditQueue.RefusedIffRingFull` | src/host_pipeline.py:180-188 | After any run and at any time, a packet is refused for lack of a credit if and only if as many packets are in flight as D_q plus the credits collected early; so a refusal always means a full ring, and with no credit collected early a full ring always means a refusal |
| `CreditQueue.StampAheadOverfillsRing` | src/host_pipeline.py:159-205 | Two packets, the second stamped ahead, after which a third is admitted although D_q are in flight |
| `OccupancyTheorems.RunOccupancyIff` | src/host_pipeline.py:25 | In every run, however late its replays, and at any time: the occupancy of each queue counts the packets in flight if and only if none of their credits was collected early |
| `OccupancyTheorems.RunOccupancy` | src/host_pipeline.py:25 | In every run the occupancy counts the packets in flight: for stateless queues at every time from the clock on, for stateful ones from the clock plus the lateness of the replays on |
| `OccupancyTheorems.RunRefusal` | src/sim.py:319-330 | In every run a packet of a bin is dropped for lack of a credit if and only if D_q packets are in flight at its queue: every stateless packet, and every stateful one no sooner than the lateness of the replays after the start of the bin |
| `OccupancyTheorems.BinLeavesNothingDue` | src/sim.py:341-343 | A bin ends with every credit of every queue of both domains collected that is due by its end: what is still in flight comes back later |
| `OccupancyTheorems.RecordedOccupancy` | src/sim.py:341-372 | In every run, at the end of every bin, D_q less the credits that the recorder reads is the number of packets ever admitted whose credit return lies after the bin, if and only if none was collected early: always for stateless queues, and for stateful ones where replays are on time |
| `CreditQueue.AdvanceCompose` | src/host_pipeline.py:159-167 | Advancing to t1 and then to a later t2 is the same as advancing to t2 at once |
| `CreditQueue.AdvanceEffect` | src/host_pipeline.py:159-167 | An advance collects a prefix of the scheduled returns, all due, leaves none that is due, and counts each collected one once |
| `CreditQueue.DrainRestoresAllCredits` | src/host_pipeline.py:159-167 | All D_q credits are back if and only if the advance reaches the return of the last served packet |
| `CreditQueue.ServiceIsFifo` | src/host_pipeline.py:195-204 | Of two packets a run admits, the later one ends its service later by at least its own service time, and no sooner than its own ring arrival allows |
| `ServiceTheorems.SampleOfAttempt` | src/host_pipeline.py:180-214 | An admitted packet leaves one latency sample, counted from its generation and not from its ring arrival to the end of its service; a refused packet and an advance leave none |
| `ServiceTheorems.SamplesAreSojourns` | src/host_pipeline.py:180-214 | Over any run the latency samples are, in order, the end of service less the time of generation of the admitted packets |
| `ServiceTheorems.ServiceEndsWithBusyPeriod` | src/host_pipeline.py:200-204 | A packet ends its service at the latest, over all packets admitted up to it, of a packet's ring arrival plus all service times from it on, or at the sum of all service times: the core never idles with a packet in its ring |
| `ServiceTheorems.PeakOccupancy` | src/host_pipeline.py:190-193 | Over any run the recorded highest occupancy is the greatest that an admission left |
| `ServiceTheorems.ServiceFollowsDraw` | src/host_pipeline.py:146-151 | Without jitter or with a zero draw the service takes share * mean plus the lookup; a tenth of that share is its floor; above the floor it follows the draw, weighed by the share |
| `ServiceTheorems.IdleRoundTripIsMeasured` | src/host_pipeline.py:51-68 | Without the link, a packet that meets an idle core and takes the calibrated service time has its credit back after exactly the measured round trip, or after 100 ns plus service and write-back where that is more |
| `ServiceTheorems.BinSamples` | src/sim.py:311-345 | The samples a bin records in a queue are those of the packets it admits, in order: end of service less generation, where service starts at the later of the ring arrival, no earlier than an idle link or the one-way time allows, and the end of the packet before |
| `ServiceTheorems.ReportedLatencyAtLeast` | src/sim.py:366-384 | No sample the recorder gathers over any stretch of a run is less than the link's setup time, or 100 ns without the link, plus the lookup time |
| `QueuePipelines.PopHead` | src/host_pipeline.py:161-162 | Popping the least element of the heap of returns yields the head of the FIFO of returns and leaves the heap of its tail, whatever equal times it holds |
| `QueuePipelines.QueuePipeline.AdvanceTo` | src/host_pipeline.py:159-167 | The heap loop with the min(D_q, ...) clamp does what a plain FIFO without a clamp does: the clamp never bites |
| `QueuePipelines.QueuePipeline.TryAdmit` | src/host_pipeline.py:180-214 | The in-place admission refines the value-level one: fields, counters, latency sample and result, of which `ServiceTheorems` says what they are |
| `QueuePipelines.QueuePipeline.RecordPcieDrop` | src/host_pipeline.py:216-224 | A link drop moves the drop counters only and consumes no credit |
| `PcieLink.RatesAreBandwidth` | src/pcie.py:76-91 | Serialization time and the rate of pending bytes are those of the configured bandwidth: eight bits a byte, 1e9 ns a second |
| `PcieLink.CompletionBounds` | src/pcie.py:102-127 | An accepted packet arrives after everything accepted before it, no sooner than its own serialization and no later than one full FIFO plus the setup time from now |
| `PcieLink.FitsInTime` | src/pcie.py:102-103 | The link accepts a packet if and only if the work ahead of it and its own serialization fit into the time the link needs to drain a full FIFO |
| `PcieLink.PendingCapIff` | src/pcie.py:115-125 | Right after an accepted packet the pending bytes respect the FIFO size if and only if the setup time counted in bytes plus the packet fits into the FIFO; without setup time always |
| `PcieLink.PendingCapFailsWithSetup` | src/pcie.py:67-125 | A concrete link with setup time on which an accepted packet leaves more than the FIFO size pending |
| `PcieLink.PendingCapped` | src/pcie.py:82-136 | After any run, at any time not before the ready times seen, pending bytes and the recorded peak are at most fifo + setup * rate, hence at most fifo when setup is 0 |
| `PcieLink.PeakIsHighest` | src/pcie.py:123-125 | Over any run the recorded FIFO peak is the most that was pending right after an accepted packet |
| `PcieLink.LeakyBucket` | src/pcie.py:94-127 | Over any run from any link state, with ready times in any order, the bytes accepted with ready times in [t1, t2] are at most fifo + rate * (t2 - t1 + setup), whatever is accepted outside the window |
| `PcieLink.CompletionsAreFifo` | src/pcie.py:115-118 | Of two packets accepted in a run, the one offered later completes later by at least its own serialization time: the link sends one packet at a time, in order |
| `PcieLink.PCIeLink.TryTransmit` | src/pcie.py:94-127 | The in-place attempt refines the value-level one: link state, counters per domain, peak and arrival time |
| `PacketPath.LinkAcceptIsAdmission` | src/sim.py:319-339 | A packet the link accepts is never refused by the second credit check: the outcome is admission exactly when credit and link both allow it |
| `Latency.EndBound` | src/host_pipeline.py:200-205 | The i-th packet in flight ends within i + 1 service times of the latest ring arrival possible by now |
| `Latency.AdvanceKeepsChain` | src/host_pipeline.py:159-167 | Credit pops keep the chain behind that bound, also when they are made with a stamp up to one delay after the clock |
| `Latency.BinLatency` | src/sim.py:290-345 | From any settled path, every end-to-end sample a bin records in a queue of depth D is at most delay + D * service, and the path is settled again at the end of the bin |
| `Latency.ReplayKeepsSettled` | src/sim.py:469-476 | Releasing buffered packets around the link keeps a queue settled, whether they are stamped before the clock or after it, as long as the delay covers their ring arrival counted from the clock |
| `PathTheorems.WorstCaseLatency` | src/sim.py:248-345 | In every run from an initial state, whatever epochs, handoffs and replays came before and however late replays were stamped, every latency sample of a bin is at most delay + D_q * Tmax, where delay covers the FIFO drain time plus setup and, counted from the clock, the ring arrival of every released packet |
| `PathTheorems.EveryRunHasADelay` | src/sim.py:467-476 | Every run has a delay from which on it covers all its releases, so the latency bound leaves out no run |
| `PathTheorems.LatencyWithLateness` | src/sim.py:467-476 | In a run whose replays are stamped at most some lateness after the clock (0 for replays on time), the delay has to cover the one-way time plus that lateness |
| `PathTheorems.ReplayedLatency` | src/sim.py:469-476 | In every run the latency samples of released packets, which count from the replays' stamp, are at most delay + D_q * Tmax plus the time by which the stamp lies before the clock |
| `Accounting.BinAccount` | src/sim.py:289-345 | Over a bin each queue's routed packets and bytes are admitted, credit-dropped or link-dropped, each admitted one leaves one latency sample, and credits change by returns minus admissions |
| `Accounting.BinTotals` | src/sim.py:289-345 | Over a bin offered = admitted + credit-dropped + link-dropped for each domain, and the link's accepts are the admissions of both domains together |
| `StreamMerge.MergeIsSorted` | src/sim.py:297-310 | The merged stream is in time order, stateless packets first among simultaneous ones |
| `StreamMerge.MergeInterleaves` | src/sim.py:297-310 | Each domain's share of the merged stream is exactly its own stream, in its own order |
| `BinConservation.BinConserves` | src/sim.py:276-345 | Per bin and domain, in packets and in bytes: generated = thinned by the arbiter + newly buffered or overflowed + admitted + credit-dropped + link-dropped; link accepts = admissions of both domains |
| `BinConservation.FoldIsRouting` | src/telemetry.py:75-76 | Counting generated bytes per bucket and folding by the table equals routing the packets one by one |
| `BinConservation.DropsWithinGenerated` | src/sim.py:265-345 | In a bin a queue never drops more bytes than were generated for it before thinning and redirection |
| `CreditTheorems.RunKeepsCredits` | src/sim.py:519-576 | Credit conservation of every queue of both domains in every run, across bins, epochs and replays |
| `Handoffs.IssueKeepsInv` | src/handoff.py:105-116 | Issuing, which checks none of what it needs, keeps the handoff invariant and cannot hit its error branch when the bucket's queue has its flag down and the destination is free |
| `Handoffs.LatencyOfPhases` | src/handoff.py:82-93 | Each phase lasts as drawn, or no time for a negative draw; the latency is that of the phases together, or 1 ns where they last less; a single-phase latency is all drain |
| `Handoffs.EstimateStartsAtMean` | src/handoff.py:72-78 | A queue's first estimate is the latency of a handoff whose draws are the configured means |
| `Handoffs.IssueDrawsPhases` | src/handoff.py:105-113 | The record of an issue keeps the three phases as drawn, each in its place, with its bucket, endpoints and epoch |
| `Handoffs.SweepClosedForm` | src/handoff.py:144-159 | The pass over the pending records splits them by whether they finish, keeps their order, and lowers exactly the flags of the finished ones' endpoints |
| `Handoffs.TickKeepsInv` | src/handoff.py:144-159 | Advancing time keeps the invariant: clearing the flags of a finished handoff never clears the flag of another one |
| `Handoffs.CommitKeepsInv` | src/schedulers/stateful_proposed.py:28-35 | Committing what a tick finished keeps the invariant over the new table |
| `Handoffs.BufferClosedForm` | src/handoff.py:119-138 | After any sequence of absorbs the buffer holds min(capacity, bytes offered), the rest has overflowed, and buffered plus overflowed packets are the packets offered |
| `Handoffs.BufferedShareIsFloor` | src/handoff.py:129-138 | When an absorb overflows, the packets buffered are the share of the packets that the buffered bytes are of the bytes, rounded down |
| `HandoffTime.TickAges` | src/handoff.py:144-159 | A tick completes exactly the records whose age reaches ceil(latency / epoch_ns) and keeps all others |
| `HandoffTime.SweepKeepsEstimates` | src/handoff.py:152-155 | For a weight in [0, 1] a pass keeps every estimate between any bounds that enclose the old estimates and the latencies it realises |
| `HandoffTime.ChainExtends` | src/schedulers/stateful_proposed.py:34-35 | Appending a committed batch of distinct buckets, each still mapped to its source, keeps the table history a chain |
| `HandoffTime.ConsecutiveHandoffsChain` | src/handoff.py:156-158 | In a history that accounts for the table, the destination of one completed handoff of a bucket is the source of the next |
| `HandoffManagers.HandoffManager.Issue` | src/handoff.py:105-116 | The in-place issue refines the value-level one, including the error result |
| `HandoffManagers.HandoffManager.AbsorbBucketTraffic` | src/handoff.py:119-138 | The in-place absorb updates exactly the record of the bucket and returns what overflowed now |
| `HandoffManagers.HandoffManager.AdvanceTime` | src/handoff.py:144-159 | The in-place loop with deletions, flag clearing and moving averages refines the value-level tick and returns the finished records in order |
| `ControlTheorems.EveryRun` | src/sim.py:441-504 | After any run: pending handoffs have disjoint endpoints and buckets, a flag is up exactly at the endpoints, each pending bucket is still mapped to its source, the cap holds, and the stateful table is the initial one with the completed handoffs applied in order, each from where its bucket was |
| `ControlTheorems.IssueNeverRaises` | src/handoff.py:107-108 | At no reachable epoch boundary does the scheduler drive issue into its RuntimeError |
| `ControlTheorems.EveryRunChains` | src/handoff.py:156-158 | In every run consecutive completed handoffs of one bucket chain |
| `EstimateTheorems.EstimatesAreAverages` | src/handoff.py:152-155 | In every run each T_hand estimate lies between any bounds that enclose its initial value and the latencies of the handoffs completed so far |
| `EstimateTheorems.EstimatesInClosedForm` | src/handoff.py:152-155 | In every run the estimate of a queue after k handoffs completed to it is (1 - alpha)^k times the initial estimate plus each of their latencies with weight alpha (1 - alpha)^(number of later ones); handoffs from it or to other queues do not count |
| `EstimateTheorems.NoBoundaryRaisesPeak` | src/schedulers/stateful_proposed.py:55-87 | No stateful boundary of any run raises the maximum score over the queues, for an averaging weight in [0, 1] and non-negative initial estimate, threshold and penalty weight; every step conserves the total load |
| `PathTheorems.ExclusiveUntilCommit` | src/sim.py:232-246 | From issue until the epoch its latency prescribes a handoff stays pending, and no bin offers a packet of its bucket to any queue |
| `PathTheorems.CommitsOnTime` | src/handoff.py:144-159 | At exactly the ceil(latency / epoch_ns)-th boundary after its issue the handoff completes, the table maps its bucket to the destination, and the record is in the history |
| `Redirection.PassingExcludes` | src/sim.py:238-246 | A packet passes the redirection if and only if its bucket is not in handoff |
| `Redirection.RedirectionAccount` | src/sim.py:232-246 | Generated packets and bytes = passing + newly buffered + newly overflowed, over all records together |
| `ReplayTheorems.ReplayFate` | src/sim.py:469-476 | Of n packets released at one moment exactly min(n, credits then available) are admitted at the destination and all others are counted dropped there; none is lost |
| `ReplayTheorems.ReleaseCarriesBuffer` | src/sim.py:473 | The packets released for a handoff carry its buffered bytes but for less than one byte for each packet, and one byte each if there are more packets than bytes |
| `ReplayTheorems.BoundaryDelivers` | src/sim.py:469-476 | At every stateful boundary each queue is offered, in packets and in bytes, exactly what the finished handoffs with this destination release, and no other queue any of it |
| `ReplayTheorems.MigrationKeepsOrder` | src/sim.py:469-476 | A replayed packet finishes service at the destination no later than any packet that a later bin admits to that queue, over any further run |
| `StatefulScheduler.BestIsGreatest` | src/schedulers/stateful_proposed.py:62-79 | The destination kept by the inner loop has the greatest gain among all admissible ones |
| `StatefulScheduler.BestIsFirst` | src/schedulers/stateful_proposed.py:77-79 | Among destinations of equal gain the first one is kept |
| `StatefulScheduler.ChoicePays` | src/schedulers/stateful_proposed.py:72-80 | A handoff is issued only where eta2 times the bucket's share of the total load exceeds epsilon_t + lambda_t * T_hand / epoch_ns |
| `StatefulScheduler.ChoiceGainsMuch` | src/schedulers/stateful_proposed.py:70-80 | A handoff is issued only to another, cold and free queue, where moving the bytes lowers the larger of the two scores, written out, by more than the threshold plus the weighed handoff time |
| `StatefulScheduler.IssueLowersPeak` | src/schedulers/stateful_proposed.py:80-86 | An issue lowers the larger of the two scores it touches by more than epsilon_t + lambda_t * T_hand / epoch_ns, touches no other score, and keeps the total load |
| `StatefulScheduler.StepNeverRaisesPeak` | src/schedulers/stateful_proposed.py:55-87 | With non-negative epsilon_t, lambda_t and T_hand the maximum score over all queues never rises during a step, and the total load is conserved |
| `StatefulScheduler.StepIsExhaustive` | src/schedulers/stateful_proposed.py:55-87 | When a step ends, the per-epoch cap is reached or no candidate has an admissible destination left whose gain exceeds epsilon_t |
| `StatefulScheduler.StepLeavesNothingToGain` | src/schedulers/stateful_proposed.py:55-87 | The same in numbers: for each candidate left, its queue is in a handoff, or the manager is full, or moving its bytes to any other cold and free queue lowers the larger of eta1 * P + eta2 * load / total over both queues by no more than the threshold plus the weighed handoff time |
| `StatefulScheduler.ScoresAddUp` | src/schedulers/stateful_proposed.py:43-86 | At every point of a step the scores of all queues add up to eta1 * Sum(P) + eta2 * Sum(load) / (B_sigma + eps): a handoff only moves score about |
| `StatefulScheduler.StepRecords` | src/schedulers/stateful_proposed.py:55-87 | What a step issues is one record for each candidate at which it issued, in their order, each from the bucket's queue to another, cold one, with its whole latency to go, an empty buffer, and worth its handoff |
| `ScheduleTheorems.BoundaryIssues` | src/schedulers/stateful_proposed.py:45-87 | At every stateful boundary the new records come after the kept ones, within the per-epoch cap, heaviest bucket first, each from a hot queue to a cold one by the report, for a bucket whose share of the reported bytes is worth the handoff |
| `ScheduleTheorems.BoundaryIsExhaustive` | src/schedulers/stateful_proposed.py:37-87 | At every stateful boundary of every run the cap is reached or no bucket of a hot queue has anything left to gain, and the scores add up to the weighed pressures and the weighed share of the reported loads |
| `StatefulScheduler.StepIssuesWithinCap` | src/schedulers/stateful_proposed.py:55-57 | A step appends one pending record for each issue, leaves the old ones in place, and issues at most the per-epoch cap |
| `StatefulScheduler.StepKeepsInv` | src/schedulers/stateful_proposed.py:55-88 | A whole step keeps the handoff invariant and never raises |
| `ReactiveScheduler.ReactiveStatefulScheduler.BestDestination` | src/schedulers/stateful_proposed.py:62-79 | The loop over the shrinking cold list finds the best destination among all admissible queues |
| `ReactiveScheduler.ReactiveStatefulScheduler.Step` | src/schedulers/stateful_proposed.py:32-88 | The in-place step with incremental loads and scores and its two early exits equals the fold of the value-level step over the candidate order, which holds exactly the buckets of hot queues, heaviest first |
| `Simulators.Simulator.OfferPacket` | src/sim.py:318-339 | Inline credit check, link attempt and admission of one packet refine the value-level offer on queue and link |
| `Simulators.Simulator.ApplyHandoffRedirection` | src/sim.py:232-246 | The redirection loops, over the packets and over the records in handoff, refine the value-level one: what is absorbed into which record and which packets go on |
| `Simulators.Simulator.ProcessBinMerged` | src/sim.py:284-345 | The in-place bin is the bin event of the emulator's state machine, to which the run theorems apply |
| `Simulators.Simulator.OnStatefulEpochBoundary` | src/sim.py:452-476 | The in-place core of the stateful boundary is the stateful epoch event of the state machine, wherever the clock stands: tick, step, commit, release; under the handoff invariant it does not raise, and it reports as dropped at the destination exactly what the queues of the domain dropped |
| `Emulations.Emulation.ProcessBin` | src/sim.py:248-356 | The whole bin in place, from the traces through the redirection, queues and link to the recorded row, is the driver's bin step with exactly the masks of the arbiter's scales for what both domains ask for |
| `Emulations.Emulation.OnStatefulEpochBoundary` | src/sim.py:441-502 | The whole stateful boundary in place: close the telemetry, shift the pattern, tick, schedule, commit, release, and restart the recorder with the credits held after the releases; it is the driver's shift to exactly the given buckets and closing step on exactly the recorded telemetry, and it reports what the queues dropped |
| `Emulations.Emulation.Run` | src/sim.py:519-581 | The top-level loop over the objects gives every enabled domain exactly its number of epochs, each closing at the end of its last bin, and all it does is a run of the state machine on exactly that schedule |
| `Emulations.RunResults` | src/sim.py:519-581 | After the run of a fresh object the handoff invariant holds, the stateful table is the initial one with the completed handoffs applied in order, and every queue holds its D_q credits |
| `LatencyTheorems.ReplayLateness` | src/sim.py:467-468 | At the k-th boundary the replay stamp exceeds the clock by exactly (k + 1) * bins * (delta - floor(delta)) - 1 ns |
| `LatencyTheorems.ReplayOnTimeIff` | src/sim.py:467-468 | Replays of the k-th boundary are stamped no later than the clock if and only if the fractions of a nanosecond the loop truncates from its bins add up to at most one |
| `LatencyTheorems.WholeBinsAreOnTime` | src/sim.py:521 | Bins of a whole number of nanoseconds keep every replay on time |
| `LatencyTheorems.FractionalBinsAreLate` | src/sim.py:521 | With 100 bins of 10000.5 ns in an epoch the first replays are stamped 49 ns after the clock |
| `RunLoop.EnoughBins` | src/sim.py:544-549 | The loop runs long enough for every enabled domain and ends with the last epoch of one of them |
| `LatencyTheorems.LoopLatency` | src/sim.py:467-576 | In every run on the loop's schedule, for any bin length, the latency bound holds with a delay that covers the one-way time plus the lateness of all the run's epochs |
| `LatencyTheorems.ReportedLatency` | src/sim.py:366-384 | Every latency sample the recorder gathers over any stretch of any run, hence the maximum an epoch reports, obeys the worst-case bound |
| `GreedyRebalancer.SignalInUnitRange` | src/schedulers/stateless_proposed.py:66-79 | The hotness signal lies in [0, 1] whenever its inputs do; the predicted one always |
| `GreedyRebalancer.SignalFollowsInputs` | src/schedulers/stateless_proposed.py:66-79 | The signal is the pressure, or the risk drawn into [0, 1], or lies alpha of the way from the risk to the pressure; without a prediction it is the pressure |
| `GreedyRebalancer.TurnDecreases` | src/schedulers/stateless_proposed.py:112-140 | Every turn lowers (max_moves - moves, |cold|, |hot|) lexicographically although the hot set is recomputed and the cold set reset |
| `GreedyRebalancer.TurnResetsSets` | src/schedulers/stateless_proposed.py:117-140 | After a move both sets hold every queue beyond its threshold again, after a cold queue is dropped the hot set does, and a turn that drops a hot queue drops that one alone |
| `GreedyRebalancer.MoveKeepsLoadsIff` | src/schedulers/stateless_proposed.py:124-129 | A move keeps the incremental loads equal to the fold over the new table if and only if it goes to another queue or the bucket carries no bytes |
| `GreedyRebalancer.CrossedThresholdsBreakLoads` | src/schedulers/stateless_proposed.py:108-129 | With the cold threshold above the hot one a step can move a bucket onto its own queue, after which loads and table disagree |
| `GreedyRebalancer.TraceKeepsLoads` | src/schedulers/stateless_proposed.py:112-140 | With tau_cold <= tau_hot the incremental loads equal the fold over the table after every turn, and the total is conserved |
| `GreedyRebalancer.TraceKeepsLimit` | src/schedulers/stateless_proposed.py:126-129 | No queue ever exceeds the larger of its initial load and the fit limit avg_B + fit_slack |
| `GreedyRebalancer.TableWithinLimit` | src/schedulers/stateless_proposed.py:95-141 | With tau_cold <= tau_hot and bytes that are not negative, no queue ends above the larger of its load by the old table and the fit limit, measured by the new table itself |
| `GreedyRebalancer.MovesAreSteepest` | src/schedulers/stateless_proposed.py:112-140 | Every move of a run takes the heaviest bucket that fits from the hottest queue that owns one, above tau_hot, to the coldest queue below tau_cold that has room for any bucket of it, although hot and cold sets are pruned and reset on the way |
| `GreedyRebalancer.MoveShiftsHeat` | src/schedulers/stateless_proposed.py:131-133 | A move to another queue cools its source and heats its destination by half the bucket's share of the mean load, stopping at 0 and 1, and leaves all other heats alone |
| `GreedyRebalancer.HeatsFollowLoads` | src/schedulers/stateless_proposed.py:126-133 | Over a run in which no heat reaches 0 or 1, each queue's heat has changed by the change of its load over twice the mean load |
| `GreedyRebalancer.ExitIsOptimal` | src/schedulers/stateless_proposed.py:112-141 | At exit the move cap is reached, or every queue above the hot threshold owns no bucket, or no bucket of the hottest one that owns any fits into any queue below the cold threshold |
| `GreedyScheduler.GreedyStatelessScheduler.Step` | src/schedulers/stateless_proposed.py:95-141 | The loop terminates, its result is the end of a complete run of the transition system that starts from the telemetry's loads and the signal's heats, it is a table for the same buckets and queues; the moves reach max_moves or no bucket of the hottest queue above tau_hot fits into a queue below tau_cold; and by the table no queue exceeds the larger of its reported load and avg_B + tolerance * (avg_B + 1) when the report is consistent and tau_cold <= tau_hot |
| `GreedyScheduler.GreedyStatelessScheduler.FirstFit` | src/schedulers/stateless_proposed.py:120-135 | The first fitting bucket in the order is the heaviest one of the queue that fits |
| `OneshotScheduler.RunKeepsLog` | src/schedulers/stateless_proposed.py:165-188 | Over a pass every queue gives away at most one bucket and receives at most one, the moves stay within the cap, and loads by table change by exactly what the moves carried |
| `OneshotScheduler.LoadsMoveByOneBucket` | src/schedulers/stateless_proposed.py:165-188 | With bucket bytes in [0, w] the load of no queue changes by more than w |
| `OneshotScheduler.TurnTakesMean` | src/schedulers/stateless_proposed.py:172-187 | A hot queue gives away at least the mean of what its buckets carry |
| `OneshotScheduler.UphillIff` | src/schedulers/stateless_proposed.py:177-184 | A move goes to a queue hotter than its source if and only if every other queue that is not hotter has already received a bucket |
| `OneshotScheduler.MoveGoesBackUphill` | src/schedulers/stateless_proposed.py:165-188 | A concrete pass of two moves in which the second hands the same bucket back to the hotter queue that has just given it away |
| `OneshotScheduler.OneshotStatelessScheduler.Step` | src/schedulers/stateless_proposed.py:160-188 | The pass takes the hot queues hottest first and ends with the last one or at the first that breaks the loop; each turn moves the heaviest bucket to a coolest free queue |
| `Telemetry.QueueLoadsAreFolds` | src/telemetry.py:73-94 | Over an epoch the reported bytes per queue are the fold of the reported bytes per bucket over the table |
| `Telemetry.GrowthIsAdmittedMinusReturned` | src/telemetry.py:104-109 | U_end - U_start = admitted - credits returned for each queue over an epoch |
| `Telemetry.ClipIsRedundant` | src/telemetry.py:109-114 | For non-negative weights with sum 1 the weighted pressure already lies in [0, 1], so the clip changes nothing |
| `Telemetry.PressureByDifference` | src/telemetry.py:104-114 | Of two epochs with the same bytes generated for a queue, the reported pressures differ by w1 times the difference in occupancy at the end over D, plus w2 times the difference in positive growth over D, plus w3 times the difference in dropped bytes over generated + eps |
| `Telemetry.PressureOfRing` | src/telemetry.py:104-114 | Without drops an empty ring at the end reports pressure 0 and a ring full at start and end reports exactly w1 |
| `Telemetry.ReportFitsTogether` | src/telemetry.py:88-124 | In the report of an epoch the pressure lies in [0, 1] before the clip, a queue's bytes are the fold of its buckets' bytes, its drops are part of them, and its occupancy grew by its admissions minus its returns |
| `Telemetry.DomainTelemetry.FinalizeEpoch` | src/telemetry.py:88-124 | The loop over the queues returns that report for the recorded rows: pressure, generated, admitted, dropped and returned per queue, and bytes per bucket |
| `TelemetryTheorems.RecordedEpochIsOk` | src/sim.py:355-385 | Every epoch recorded in a run meets the conditions of the pressure results, including after replays, because the credits are snapshotted anew |
| `TelemetryTheorems.PressureInEveryRun` | src/sim.py:441-502 | In every run, in the report of every epoch of either domain, the raw pressure lies in [0, 1], growth is admissions minus returns, queue loads are the fold of bucket bytes over the table, and drops are part of them |
| `ReportTheorems.ReportedBytes` | src/sim.py:355-385 | In every run, in the report of every epoch of either domain, a bucket's bytes are those generated for it in the epoch's bins, and the bytes a queue dropped are those routed to it less those it admitted |
| `ReportTheorems.RowAccounts` | src/sim.py:355-385 | In the row of a bin the packets per bucket are those generated for it, and what a queue admitted and dropped makes up what was routed to it, in packets and in bytes |
| `ReportTheorems.OneSampleEach` | src/sim.py:366-384 | Over any stretch of any run the recorder gathers exactly one latency sample for each packet admitted in a bin |
| `RecordingTheorems.ClosedIsReported` | src/sim.py:441-456 | At any moment of an epoch of a trace-driven run, the report that would close it is that of the rows and credits recorded since the last boundary, with the packets the traces emitted |
| `RecordingTheorems.SchedulerReadsTheEpoch` | src/sim.py:441-456 | What the scheduler reads at a boundary of a trace-driven run: a bucket's bytes are those the traces emitted for it since the last boundary, and what a queue dropped is what came to it in these bins and was not admitted |
| `BinRecorders.RecordDomainBin` | src/sim.py:355-385 | Collecting the queues' counters writes exactly the row, the credit snapshot and the latency samples the run theorems speak about |
| `Arbiters.WrrIsWorkConserving` | src/arbiter.py:36-46 | An overloaded bin under WRR uses exactly the cap and gives each domain at least the smaller of its demand and its weighted share |
| `Arbiters.WrrHonoursWeights` | src/arbiter.py:36-46 | Under WRR a domain that does not get all it asks for gets at least cap * weight / total weight |
| `Arbiters.ProportionalKeepsRatio` | src/arbiter.py:67-70 | Proportional sharing grants in the ratio of the demands |
| `Arbiters.DrrGrantsClaims` | src/arbiter.py:53-66 | Under DRR the quanta share the cap by the weights, each domain claims its demand or all its savings and quantum hold, and the grants are the claims, cut by one factor to the cap where they exceed it together |
| `Arbiters.GrantWithinCap` | src/arbiter.py:36-70 | Every policy grants at most the cap and no domain more than its demand, all but DRR grant exactly the cap, and deficits stay non-negative |
| `Arbiters.StrictIsolates` | src/arbiter.py:28-72 | Under strict priority the bytes of the favoured domain that pass do not depend on the other one's demand, and as long as any of them is held back nothing of the other one passes |
| `Arbiters.ScalesMeetCap` | src/arbiter.py:28-72 | Both scales lie in [0, 1]; what they let through is the demand when it fits, and otherwise at most the cap, exactly the cap but for DRR |
| `Arbiters.DrrLedger` | src/arbiter.py:53-66 | Over any sequence of calls DRR deficits stay non-negative, and grants plus savings of each domain never exceed one quantum for each overloaded call |
| `Arbiters.Arbiter.ScaleFactors` | src/arbiter.py:28-72 | The step-by-step computation with the deficit fields equals the value-level call for every policy |
| `Throttle.ThinsOnlyOverload` | src/sim.py:225-230 | A bin whose demand fits the cap loses no packet to the arbiter, and a domain granted nothing loses all of its packets |
| `Throttle.MaskKeepsShare` | src/sim.py:225-230 | Of n packets whose draws are spread evenly over the unit interval the mask keeps scale * n, rounded up: the arbiter's scale is the share that passes |
| `Throttle.ApplyArbiter` | src/sim.py:225-230 | The mask with its early exit keeps exactly the packets whose draw is below the scale |
| `Traces.SortIsStable` | src/traces.py:175-176 | The sort of a bin's packets is in time order, a permutation, and keeps the order of simultaneous packets |
| `Traces.NextBinIsItsWindow` | src/traces.py:150-176 | After any run of bins and rebuckets the next bin emits, in time order, exactly the packets whose time lies between the end of the last bin and its own end |
| `Traces.EachPacketOnce` | src/traces.py:150-176 | Contiguous bins, whatever flows are moved to other buckets between them, together emit every packet before the last end exactly once, by time and size, and no other packet |
| `Traces.EachPacketOnceInItsBucket` | src/traces.py:150-176 | While no flow is moved the same holds of the packets with their buckets |
| `Traces.EmittedInOrder` | src/traces.py:150-176 | Over all bins of a run packets come out in time order, each before its bin's end |
| `Traces.RunCarriesTimelines` | src/traces.py:150-176 | Over any run of bins and rebuckets the bytes emitted are exactly those of the timelines that the cursors have passed |
| `Traces.AggregateIsFold` | src/traces.py:132-148 | From the same cursors the aggregate form of a bin is the per-bucket fold of its packets, in bytes and in packets |
| `TraceSets.TraceSet.GenerateBin` | src/traces.py:132-148 | The loop over flow objects advances every cursor and returns the per-bucket totals |
| `TraceSets.TraceSet.GenerateBinPackets` | src/traces.py:150-176 | The loop over flow objects advances every cursor as the aggregate form does and returns the sorted packets of the bin |
| `TraceDriven.BinIsEnabled` | src/sim.py:257-287 | With the handoff invariant and flows in step with the clock, what the flows emit in the next bin, thinned by any masks, is a bin the state machine can take; afterwards flows and clock are in step again |
| `TraceDriven.RecordedIsReady` | src/sim.py:441-456 | Closing a recorded epoch, at any time, gives a report from which the scheduler's step can start: right sizes, a total that is not negative, a committed table into the queues |
| `TraceDriven.InitialIsSound` | src/sim.py:519-553 | A fresh machine with fresh flows and an empty recorder meets the conditions from which trace-driven runs start |
| `TraceDriven.DrivenIsRun` | src/sim.py:519-576 | Every run made of trace-fed bins, stateless boundaries with any table, stateful boundaries on the recorded telemetry, and rebuckets is a run of the state machine, so all results over runs hold of it |
| `FairShare.WindowSendsTarget` | src/hal_workload.py:583-634 | A window sends min(target, total nominal) bytes; it falls short of the target only when the spawn cap or the alive cap stopped the loop |
| `FairShare.WindowKeepsOk` | src/hal_workload.py:564-634 | A window keeps every flow within its size, its windows successive, and the remembered remainders exact |
| `FairShare.NominalIsRate` | src/hal_workload.py:570-576 | On its own a flow sends all it has left, or its rate for the time from the window's start to the earlier of its own end and the window's |
| `FairShare.SpawnEnds` | src/hal_workload.py:368-385 | A new flow lives no longer than drawn and no longer than its bytes last at its rate, and one of the two in full |
| `FairShare.WindowIsFair` | src/hal_workload.py:603-634 | In a window every flow sends the same part of its nominal bytes, the part of the total that the target allows |
| `FairShare.WindowKeepsUnfinished` | src/hal_workload.py:612-634 | After a window a flow is still alive if and only if it has bytes left and does not end with the window |
| `FairShare.SpawnsAreNeeded` | src/hal_workload.py:585-601 | No flow is spawned without need: without the last one the nominal bytes fell short of the target and neither cap was reached |
| `FairShare.RunNeverOvershoots` | src/hal_workload.py:554-634 | Over any horizon a class never sends more than the sum of its window targets |
| `FairShare.FlowsStayWithinSize` | src/hal_workload.py:554-634 | Over any horizon no flow sends more than its size, nor twice in a window, and its windows lie in the horizon one after the other |
| `FairShare.FlowsKeepTheirRate` | src/hal_workload.py:554-634 | Over any horizon no flow sends more in a window than its rate allows for the window's length |
| `FlowPools.FlowPool.RunWindow` | src/hal_workload.py:562-634 | The loops of a window (prune, spawn, share out, keep alive) compute the value-level window |
| `FlowPools.FlowPool.Generate` | src/hal_workload.py:554-634 | The loop over the windows of a horizon, skipping those without length, computes the value-level run |
| `FlowPackets.SortIsRedundant` | src/hal_workload.py:403-433 | Emissions in successive windows of the horizon, as every flow of every run has them, give a timeline already in time order within the horizon: the clamp removes nothing and the closing argsort is the identity |
| `FlowPackets.StampIsMiddle` | src/hal_workload.py:409-413 | The i-th of n packets is sent in the middle of the i-th of n equal parts of its window, rounded down to the nanosecond |
| `FlowPackets.RoundIsNearest` | src/hal_workload.py:421 | Bytes are rounded to a nearest integer, half-way to the even one |
| `FlowPackets.SizesAreFull` | src/hal_workload.py:418-423 | Every packet of an emission but the last is full, and the last carries between one byte and one MTU |
| `FlowPackets.ClampKeepsBelow` | src/hal_workload.py:414-415 | The clamp keeps exactly the times before the horizon |
| `FlowPackets.PacketsCarryBytes` | src/hal_workload.py:411-427 | The packets of an emission carry its rounded bytes if and only if these exceed what all packets but the last can carry; otherwise the last packet is sent full |
| `FlowPackets.FullPacketTooMany` | src/hal_workload.py:411-427 | 3000.4 bytes at an MTU of 1500 become 4500 bytes of packets |
| `FlowPackets.BuildPackets` | src/hal_workload.py:388-433 | The loop over emissions with its three skips builds the value-level timeline |

## Left out

- QueuePipelines.QueuePipeline: the binary heap is a multiset with extraction of a least element; the array layout of `heapq` is not modelled, and `_last_advance_ns` and `u_sum`, which nothing reads, are dropped.
- Handoffs.Manager: the dictionary of pending handoffs is a sequence in insertion order with distinct buckets, and its records are values that the manager replaces; aliasing of a record between the dictionary and the lists of finished ones is not captured.
- FlowPools.FlowPool: a class's flow records are values in one list, and alive entries refer to them by index; the lists of kept and of new flows are walked as one list.
- FairShare.WindowSendsTarget: the draws of a window are a list of at least as many as the spawn cap, in place of the batched attribute pool; Layer-1 rate timelines are inputs with non-negative targets.
- Telemetry.DomainTelemetry.FinalizeEpoch: leaves out the packet counts per bucket and queue, admitted bytes, dropped packets, peak rates, the highest occupancy and the latency quantiles of the returned dictionary; they are further sums, maxima and quantiles of the same rows that no scheduler of the model reads.
- Emulations.Emulation.Run: the stateless scheduler and its recorder are not among the objects; the table of each stateless boundary is supplied from outside, as are the random draws and the new buckets of a shift. Both modelled stateless schedulers are proved to return a table of the kind it takes.
- TraceDriven.DrivenIsRun: does not model the gate that stops pulling packets for a disabled domain or one past its horizon; the first is a domain without flows, and timelines end before the horizon.
- PathTheorems.WorstCaseLatency: speaks of the samples a bin records; samples of replayed packets are appended to the same list after a bin and cleared before the next one, and `PathTheorems.ReplayedLatency` bounds them.
- Emulator: a stateless epoch boundary installs any table of the right size into the queues; that the stateless schedulers return such a table, and which one, is proved about them separately.
- Traces.Below: the library's binary search is the left insertion point it returns on a sorted timeline.
- Selection.ArgsortDescending: promises an ordered permutation; the order of ties under the library's default sort is not modelled, and results hold for any.
- Arbiters.Config: the cap is non-negative, as the configured link rate makes it; weights are non-negative with a positive sum where a policy divides by it.
- Reading of configuration, logging, plotting, CSV and JSON output, per-epoch link accumulators.
- The other trace generators, flow-size distributions and the sampling of Layer-1 rates: numeric calibration.
- Toeplitz hashing and the initial tables; the model takes any table into the queues and any new buckets.
- Predictors and the trained models; the predicted risk is an input of the stateless schedulers.
- Rounding of floating-point numbers.

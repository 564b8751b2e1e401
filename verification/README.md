# eCapture event pipeline: a verified model

eCapture's probes run in the kernel and hand events to user space, where they are put back in
order, grouped by connection, and written out. This project models that pipeline in Dafny and
proves what each stage keeps over whole runs. All paths below are relative to the repository.

| file | what it models |
|---|---|
| PerfReorder.dfy | the lag-reorder buffer: an online, bounded-memory stable sort |
| PerfEventLoop.dfy | the ordered read loop of a perf map, which drives one reorder buffer |
| GoTlsSegments.dfy, GoTlsEndToEnd.dfy | the Go TLS kernel segmenter, and its composition with the reorder buffer and the read loop |
| ProbeClose.dfy | reader loops interleaved with the closing of a probe |
| Uuid.dfy | event UUIDs and the worker life cycle they select |
| EventWorker.dfy | one event worker: queue, payload, life cycle |
| ProcessorObject.dfy | the event processor's object: its worker map and the methods on it |
| EventProcessor.dfy, EventProcessorRuns.dfy, EventProcessorHistory.dfy, EventProcessorProgress.dfy | the processor and all its workers as interleaved atomic steps: invariant, laws of runs, what a run's steps amount to, progress |
| PcapWriter.dfy, PcapWriterRuns.dfy, PcapWriterWrites.dfy | the PCAPNG writer loop, the laws of its runs, and what it writes |
| TcCapture.dfy | flow-to-process attribution in the traffic-control classifier |
| OpenSslPairing.dfy | entry/return pairing of the OpenSSL probes |
| Hub.dfy | the broadcast hub and the ownership of client channels |

Code that works by changing fields is a class with those fields and the source's loops; each of
its methods is proved against a function or a stated property of the new state. Protocols
between goroutines are step relations, and their laws are about every finite run. Tickers,
arrival times and the choice a Go `select` makes among ready cases are nondeterministic; the
parser of a worker, user-memory reads and block writes that may fail are parameters.

Three properties one might expect are false of the code as modelled. Each has an input or a run
that shows it and an exact condition:

- The reorder buffer's output is not always the stable sort of its input
  (`LateEventBreaksOrder`, three events for every lag). It is exactly when no push is older than
  an event already emitted (`OutputIsStableSortIffOnTime`), and for inputs that never fill the
  buffer this is a condition on the input alone (`CalmOutputIsStableSortIff`).
- A retiring worker can return with one accepted event unread (`EventCanBeLost`, for every UUID
  and any two events on it). It does exactly when Serve delivers that event between the worker's
  last empty test and its load of `used` (`StoppedLosesAtMostOne`).
- With a block writer that may fail and then go on, a packet can precede all secrets before the
  grace deadline, because `firstDSBWritten` is set even when the secrets block could not be
  written (`FailedSecretsOpenTheGate`). `PacketsMisplacedIff` says exactly which steps cause it.
  With a writer whose failures last, as a buffered writer's do, it never happens
  (`StickyWriterKeepsOrder`); nothing in the repository shows a writer of the other kind.

The hub, taken alone, closes a channel twice or sends on a closed one exactly if it is given a
client whose channel it has already closed and then broadcasts or removes that client
(`PanicsIff`). The repository's only caller registers each client as it makes it
(pkg/ecaptureq/server.go:71-72), so this never happens there (`DeliveriesAreContiguous`).

The comment in `WritePacket` says that a packet is written directly when the channel is full
(internal/output/writers/pcap_writer.go:153); the code returns an error, and the model follows
the code.

## Model

Handlers of a single event (Get, Put, Write, OnPacket, ProbeEntry, OnRegister and the like) are
proved against the step functions the runs are made of, or against the new state outright; the
table lists the members that state laws.

| member | source | states |
|---|---|---|
| PerfReorder.StableSortCorrect | internal/probe/base/perf_reorder.go:41-41 | the sort used by every flush yields an ordered sequence in which each group of equally stamped events is the input's group, in the input's order |
| PerfReorder.StableSortUnique | internal/probe/base/perf_reorder.go:36-48 | order plus unchanged tie groups determine a sequence: there is only one stable sort, whatever the algorithm |
| PerfReorder.NewestIsMaximum | internal/probe/base/perf_reorder.go:76-85 | the newest stamp bounds every stamp of the buffer and is attained |
| PerfReorder.OldestIsMinimum | internal/probe/base/perf_reorder.go:76-85 | the oldest stamp is below every stamp of the buffer and is attained |
| PerfReorder.PerfLagReorder.FlushAllNow | internal/probe/base/perf_reorder.go:37-48 | the buffer is emptied and leaves as its stable sort |
| PerfReorder.PerfLagReorder.PushNow | internal/probe/base/perf_reorder.go:50-56 | what a push releases and retains, pressure path at 1024 events included |
| PerfReorder.PerfLagReorder.FlushPressureNow | internal/probe/base/perf_reorder.go:58-70 | the older half in stable order leaves (at least one event), the rest stays |
| PerfReorder.PerfLagReorder.FlushByLagNow | internal/probe/base/perf_reorder.go:72-108 | the scan for extremes and the partition loop release exactly the events at or before newest minus lag, in stable order, once the span reaches the lag |
| PerfReorder.PushSplits | internal/probe/base/perf_reorder.go:50-108 | no push loses, invents or reorders ties; the released batch is sorted and no later than anything retained |
| PerfReorder.PushReleases | internal/probe/base/perf_reorder.go:50-108 | how much a push releases: 512 events when it is the 1024th, otherwise exactly those at or before the newest stamp minus the lag, a lone event staying; with PushSplits this fixes the batch |
| PerfReorder.RunKeepsTies | internal/probe/base/perf_reorder.go:36-108 | conservation at every moment of every run: output and buffer together hold the pushed events, equal stamps in arrival order |
| PerfReorder.OutputKeepsTies | internal/probe/base/perf_reorder.go:36-108 | the complete output is a permutation of the input that keeps every tie in arrival order, for any input, lag and pressure |
| PerfReorder.OutputIsStableSortIffOnTime | internal/probe/base/perf_reorder.go:36-108 | the online sort equals the offline stable sort exactly when no pushed event is older than one already emitted |
| PerfReorder.LatePushShows | internal/probe/base/perf_reorder.go:50-108 | one late push leaves the complete output unsorted for good |
| PerfReorder.LateEventBreaksOrder | internal/probe/base/perf_reorder.go:72-108 | for every positive lag, an event that comes after a newer one has pushed a later event than itself out leaves the output unsorted: the online sort can fail |
| PerfReorder.InversionsAreLatePushes | internal/probe/base/perf_reorder.go:50-108 | with no assumption on the input, an event leaves after a later one only if it was pushed after that one had left |
| PerfReorder.BufferBounded | internal/probe/base/perf_reorder.go:50-108 | after every push the buffer holds between 1 and 1023 events, one of them with the newest stamp seen so far |
| PerfReorder.BufferSpan | internal/probe/base/perf_reorder.go:72-108 | after a push off the pressure path the retained events span less than the lag |
| PerfReorder.CalmBufferIsWindow | internal/probe/base/perf_reorder.go:72-108 | without pressure the buffer after any run is exactly the input's events newer than the newest stamp minus the lag |
| PerfReorder.CalmOutputIsStableSortIff | internal/probe/base/perf_reorder.go:36-108 | without pressure the output is the stable sort exactly when no event that has left the window is later than the next input |
| PerfReorder.BoundedLatenessSorts | internal/probe/base/perf_reorder.go:36-108 | the promise of the lag: lateness of at most the lag gives the stable sort |
| PerfEventLoop.PerfEventLoopOrdered | internal/probe/base/base_probe.go:393-457 | the loop dispatches timed events as the reorder buffer's complete output on them (a permutation) and untimed ones in arrival order; before each turn the calls made are exactly those the readings so far call for, which fixes how the two kinds interleave |
| GoTlsSegments.GoTlsEvent.EmitSeg | kern/gotls_kern.c:253-269 | a segment outputs one record whose first `data_len` bytes are its slice of the buffer, despite stale bytes in the reused struct, or nothing if out of range or unreadable |
| GoTlsSegments.GoTlsEvent.EmitPayload | kern/gotls_kern.c:271-306 | the sixteen segments output the readable slices of the capped buffer in order, all with the hook's one timestamp; nothing for a null base or a length that is not positive |
| GoTlsSegments.ChunksReassemble | kern/gotls_kern.c:280-305 | if reads succeed the slices concatenate to the first min(len, 256 KiB) bytes |
| GoTlsSegments.EachReadableSegment | kern/gotls_kern.c:253-269 | a failed read loses its own segment and no other: every readable one is there, in its place, and nothing else is |
| GoTlsSegments.SegmentsKeepOrder | internal/probe/base/perf_reorder.go:36-108 | a hook's segments leave the reorder loop in emission order, whatever is interleaved and however it is flushed |
| GoTlsSegments.CapturedBufferSurvives | kern/gotls_kern.c:85-108 | records with the segmenter's payloads and one stamp, interleaved with any other events, leave the reorder buffer as the captured buffer's first min(len, 256 KiB) bytes |
| GoTlsEndToEnd.CaptureAndDispatch | kern/gotls_kern.c:271-306 | end to end through the modelled segmenter and read loop: what is dispatched for a hook is exactly the first min(len, 256 KiB) bytes of its buffer, whatever else is on the ring and under any lag |
| Basics.MaskKeeps | kern/gotls_kern.c:258-259 | masking with the ones below a power of two, bit by bit, keeps every smaller number; both length expressions rest on it |
| ProbeClose.StepKeepsInv | internal/probe/base/base_probe.go:393-457 | every step of readers and Close keeps: each reader's dispatched and pending events are its reorder buffer's output, and handlers close only after all loops have finished |
| ProbeClose.RunKeepsInv | internal/probe/base/base_probe.go:173-215 | the same at every moment of every interleaving, for any number of readers |
| ProbeClose.PushedIsRead | internal/probe/base/base_probe.go:424-448 | over any run everything read with a timestamp is pushed into the reader's buffer, in order, and nothing else |
| ProbeClose.DispatchedAreCalls | internal/probe/base/base_probe.go:448-455 | over any run what counts as dispatched is what the dispatch steps passed on, in order |
| ProbeClose.EveryInputCanBeRead | internal/probe/base/base_probe.go:405-455 | every finite sequence of events is what some run reads and dispatches from, so the laws of runs speak of every input |
| ProbeClose.ClosedAfterEverything | internal/probe/base/base_probe.go:173-215 | by the time a handler or the dispatcher is closed the calls the run's steps made for each reader are exactly the reorder buffer's output on what its steps read: every event read once, ties in arrival order |
| ProbeClose.NothingAfterShut | internal/probe/base/base_probe.go:192-207 | no step that reads, dispatches or flushes comes after the closing of handlers has begun, in any run |
| ProbeClose.DispatchedIsPrefix | internal/probe/base/base_probe.go:448-455 | at any moment the calls made for a reader are a prefix of the complete output on what it has read |
| ProbeClose.CloseCanFinish | internal/probe/base/base_probe.go:173-215 | no deadlock: once Close is called some schedule of the readers lets it return |
| ProbeClose.CloseIsBounded | internal/probe/base/base_probe.go:173-215 | termination: in every run the steps other than reading number at most the work there was plus one per event read, so when reading ends every schedule brings Close to its end |
| Uuid.LastPart | pkg/event_processor/iworker.go:112-113 | the last part of a split is what follows the last separator, or the whole string |
| Uuid.CoreHasSeparator | pkg/event_processor/iworker.go:112-119 | when the last part parses as a uint64 the slice at the last separator of the core never gets -1 |
| Uuid.SocketUuidRoundTrip | pkg/event_processor/iworker.go:101-124 | for every core string and every sock in 1..2^64-1, printing and parsing gives both back with the socket life cycle |
| Uuid.SocketLifecycleIff | pkg/event_processor/iworker.go:101-124 | the socket life cycle is chosen exactly for prefix, core, separator and positive uint64; every other string keeps itself as output with the default life cycle |
| EventWorker.WriteEventTruncates | pkg/event_processor/iworker.go:231-246 | dropping late events keeps the payload equal to the batch cut at the limit, and the status guard never rejects one |
| EventWorker.DisplayKeeps | pkg/event_processor/iworker.go:176-187 | a display moves the current batch to the displayed ones without changing the event sequence |
| EventWorker.EventWorker.WriteEventNow | pkg/event_processor/iworker.go:231-246 | the event joins the current batch and is never rejected; the payload stays the batch cut at the limit |
| EventWorker.EventWorker.DisplayNow | pkg/event_processor/iworker.go:176-261 | the parser gets the whole truncated batch, and the worker is ready for the next |
| EventWorker.EventWorker.DrainAndClose | pkg/event_processor/iworker.go:309-345 | the worker hands on its whole queue in order; unheld it displays it and is done, held it goes to sleep and will start over |
| EventWorker.EventWorker.OnTick | pkg/event_processor/iworker.go:278-292 | no event is lost or reordered by a tick; after more than ten idle ticks the queue is drained, shown unless Serve holds the worker, and a default worker is to return |
| ProcessorObject.EventProcessor.Dispatch | pkg/event_processor/processor.go:152-171 | the event reaches the queue of its UUID's worker only, a worker is started exactly if none exists, and an error is returned exactly if that queue was full |
| ProcessorObject.EventProcessor.DrainIncoming | pkg/event_processor/processor.go:99-116 | the drain gives every worker exactly the queued events of its UUID, in order, up to its capacity, and replaces no worker |
| ProcessorObject.FilledStep | pkg/event_processor/processor.go:99-116 | offering events one by one to a bounded queue equals cutting the whole sequence once |
| ProcessorObject.EventProcessor.DestroyWorkers | pkg/event_processor/processor.go:176-189 | one worker bound to the socket is told to close if there is one, and no other |
| ProcessorObject.EventProcessor.SignalWorkers | pkg/event_processor/processor.go:118-124 | exactly the socket workers of the map are told to close, in any traversal order |
| EventProcessor.StepKeepsInv | pkg/event_processor/processor.go:70-265 | every atomic step keeps: `used` exactly while held, the map is the live workers, input and output conserved in order, worker life cycles, shutdown modes |
| EventProcessorRuns.RunKeepsInv | pkg/event_processor/processor.go:70-265 | the same in every state of every run |
| EventProcessorRuns.SwapsNeverFail | pkg/event_processor/iworker.go:347-361 | in every interleaving `used` is true exactly while Serve is between Get and Put on that worker, so neither swap ever panics |
| EventProcessorRuns.SealedIsFrozen | pkg/event_processor/iworker.go:326-338 | once a worker out of the map has read `used` as false, no later step changes its queue |
| EventProcessorRuns.WorkerLifeConserved | pkg/event_processor/iworker.go:231-307 | at every moment of every worker's life in every run: accepted events are those of the displayed batches, the current batch and the queue in order; a displayed batch shows exactly its first `truncateSize` bytes if some event found the limit reached, and all its bytes otherwise; with truncation off no byte is lost or reordered |
| EventProcessorRuns.RacedIffStrands | pkg/event_processor/iworker.go:326-334 | an event is left behind exactly when a delivery fell between the last empty test and the load of `used` |
| EventProcessorRuns.StoppedLosesAtMostOne | pkg/event_processor/iworker.go:301-338 | a returned worker has handed on all accepted events in order but at most the last, and that one is missing exactly in the race |
| EventProcessorRuns.OneStepTestsLoseNothing | pkg/event_processor/iworker.go:326-334 | with both tests as one step the exception disappears |
| EventProcessorRuns.EventCanBeLost | pkg/event_processor/iworker.go:278-338 | for every UUID, of either life cycle, and any two events on it there is a run that accepts both and hands on only the first |
| EventProcessorHistory.HistoryIsSteps | pkg/event_processor/processor.go:70-265 | over any run, from its steps: accepted events, dispatched events, records put on the output channel (exactly those shown with a non-empty payload and record while fewer than 1024 waited), records logged, and whether Close was called |
| EventProcessorHistory.WorkerHistoryIsSteps | pkg/event_processor/iworker.go:155-246 | over any run, from its steps: a worker accepted what was delivered to it while fewer than 1024 events waited, handed on what it received, and showed the payload it had at each closing |
| EventProcessorHistory.StoppedShowsAll | pkg/event_processor/iworker.go:340-345 | a worker that has returned has nothing left to show, and with truncation off the bytes it showed are those of the events it received, in order |
| EventProcessorHistory.ShutdownIsComplete | pkg/event_processor/processor.go:99-150 | when Serve returns: the events delivered are exactly those accepted, in order; no worker runs; map and channels are empty; each worker received what it took but for at most a stranded last event; the logger got exactly the records that found room, in order |
| EventProcessorHistory.DeliveredByUuid | pkg/event_processor/processor.go:152-171 | every event is delivered to a worker of its own UUID |
| EventProcessorHistory.QueuesAreBounded | pkg/event_processor/processor.go:59-67 | over any run no channel of the processor or of a worker holds more than 1024 |
| EventProcessorHistory.RoomFor1024 | pkg/event_processor/processor.go:226-236 | an open processor accepts any 1024 events before Serve takes one |
| EventProcessorHistory.IdleWorkerLeaves | pkg/event_processor/iworker.go:278-300 | a tick makes a worker drain exactly when eleven ticks have passed since its last event or closing; a default worker then leaves the map, a socket worker does not |
| EventProcessorHistory.ClosingIsSignalled | pkg/event_processor/processor.go:118-124 | a worker has been told to close exactly if its socket was destroyed or the shutdown found it live with the socket life cycle |
| EventProcessorProgress.ServeLetsGo | pkg/event_processor/processor.go:152-171 | in every run after a worker has left the map: it stays out, Serve takes exactly the steps on it that it still owed, two at most, and its queue grows by no more than the delivery already in hand |
| EventProcessorProgress.RetiredDrainIsBounded | pkg/event_processor/iworker.go:309-338 | once Serve has let go, in every run the worker's own steps and what remains of its way are together at most what remained |
| EventProcessorProgress.RetiredWorkerReturns | pkg/event_processor/iworker.go:309-338 | termination of the drain: from any point at which Serve has let go, the worker returns within four more own steps than its queue held when it left the map, and it can always take one until then |
| EventProcessorProgress.CanAlwaysReturn | pkg/event_processor/processor.go:99-150 | no deadlock: from every state that satisfies the invariant with Close called, some schedule brings Serve to its return |
| EventProcessorProgress.ShutdownIsBounded | pkg/event_processor/processor.go:99-150 | termination of the shutdown: every run after Close has at most as many steps as there was work, and seventeen more for each retry of `IfUsed`, idle drain of a socket worker and close signal in it |
| EventProcessorProgress.WaitingExtras | pkg/event_processor/processor.go:126-149 | while Serve waits for the workers nothing retries; the only step not paid for is an idle drain of a socket worker that can already see its close signal |
| PcapWriter.PcapWriter.WriteBatch | internal/output/writers/pcap_writer.go:300-314 | exactly the packets before the first failing write reach the file, and the returned count includes the failing one |
| PcapWriter.PcapWriter.SavePcapng | internal/output/writers/pcap_writer.go:185-194 | the batch is settled and reset; only an error-free save is counted |
| PcapWriter.PcapWriter.DrainKeylogs | internal/output/writers/pcap_writer.go:265-279 | every queued line is attempted in order |
| PcapWriter.PcapWriter.DrainOnShutdown | internal/output/writers/pcap_writer.go:250-297 | the whole shutdown: packets gathered, secrets written first, then one save |
| PcapWriterRuns.StepKeepsInv | internal/output/writers/pcap_writer.go:161-314 | every step of producers, Serve and Close keeps conservation, the order of secrets and packets, and the life cycle |
| PcapWriterRuns.PacketsConserved | internal/output/writers/pcap_writer.go:161-314 | in every reachable state settled packets, batch and channel are the accepted packets in order, the file holds the written ones in order, and Serve's counter is the batch's length |
| PcapWriterWrites.SaveWrites | internal/output/writers/pcap_writer.go:299-314 | a save appends exactly the packets before its first failing write, drops the rest, and counts them only if nothing failed |
| PcapWriterWrites.GateIsSteps | internal/output/writers/pcap_writer.go:210-226 | the gate is open exactly from the first line received on, written or not |
| PcapWriterWrites.TickWrites | internal/output/writers/pcap_writer.go:176-194 | over any run a tick at or past 3 s, or after a first line, puts the whole batch into the file; any other tick does nothing |
| PcapWriterWrites.KeylogWrites | internal/output/writers/pcap_writer.go:210-238 | a received line goes to the file before the whole batch |
| PcapWriterWrites.DrainWrites | internal/output/writers/pcap_writer.go:250-297 | the shutdown puts every queued line that does not fail, then the batch and everything queued, into the file |
| PcapWriterWrites.HistoryIsSteps | internal/output/writers/pcap_writer.go:138-157 | the accepted packets and lines are those offered while fewer than 1024, or 256, were waiting |
| PcapWriterWrites.FlagsAreFailures | internal/output/writers/pcap_writer.go:299-314 | a save or a secrets block counts as failed exactly if a write of the run's steps fails in it |
| PcapWriterWrites.CloseWritesEverything | internal/output/writers/pcap_writer.go:354-372 | after Serve has returned the file holds each accepted packet exactly once in order, and `packetCount` is their number, unless a save of the run met a failing write; likewise the lines, unless a secrets block failed |
| PcapWriterWrites.NothingLost | internal/output/writers/pcap_writer.go:161-372 | with a writer that never fails, at every moment file, batch and channel together are the accepted packets, and file and channel the accepted lines, in order |
| PcapWriterWrites.CloseReturns | internal/output/writers/pcap_writer.go:354-372 | from every reachable state Close can be called, and Serve drains and returns |
| PcapWriterRuns.PacketsMisplacedIff | internal/output/writers/pcap_writer.go:171-297 | the ordering rule exactly: some packet has no secrets before it and no excuse (tick past the 3 s deadline, shutdown with no line queued) if and only if some step, with no secrets in the file, saves packets at an early tick with the gate open, or right after the secrets due before them failed |
| PcapWriterRuns.StickyWriterKeepsOrder | internal/output/writers/pcap_writer.go:171-297 | with a block writer whose failures last, every packet with no secrets before it was written at a tick past the deadline or at a shutdown with no line queued |
| PcapWriterRuns.FailedSecretsOpenTheGate | internal/output/writers/pcap_writer.go:217-226 | with a writer that fails one secrets block and then goes on, a run lets packets out before the deadline |
| PcapWriterRuns.ClosedChannelBranchUnreachable | internal/output/writers/pcap_writer.go:195-207 | Serve never receives from a closed packet channel |
| TcCapture.TcProbe.TraceSendmsg | kern/tc.h:296-344 | the sender is recorded under the socket's tuple; other families go to the all-zero key; no socket, no record |
| TcCapture.TcProbe.CapturePackets | kern/tc.h:136-279 | key building, both look-ups with the in-place exchange, every early return and every filter give the specified verdict and event |
| TcCapture.RecordedIsLatest | kern/tc.h:296-344 | over any run of sends and evictions a recorded owner is the latest sender on that tuple |
| TcCapture.AttributionIsLatestSender | kern/tc.h:136-279 | a nonzero pid on a packet event is that of the latest sender on its tuple, or on the reverse if the tuple itself is not recorded, and that process passes the filters |
| TcCapture.SocketOwnsItsPackets | kern/tc.h:136-344 | from socket to packet, TCP and UDP over IPv4 and IPv6, over any run: a packet with the socket's addresses and ports is emitted under the flow's latest sender if the pid, uid and cgroup filters want it and dropped otherwise; in the other direction likewise, if nothing sent from the other end is on record |
| TcCapture.VerdictFollowsSender | kern/tc.h:136-279 | over any run: the latest sender on a packet's tuple, if its record stands, decides alone whether the packet is emitted and under whose name; else the one on the reverse tuple; so a filtered-out process stays silent in both directions |
| TcCapture.UnrecordedIsEmitted | kern/tc.h:136-279 | over any run a packet with no standing record in either orientation is emitted without an owner |
| TcCapture.OtherFramesAreEmitted | kern/tc.h:199-279 | frames of other protocols are emitted without an owner |
| TcCapture.LookedUpIff | kern/tc.h:103-236 | a packet is looked up exactly if it is TCP, UDP or ICMP over IP, the packet filter takes it and its headers up to the ports are linear at first or after the pulls; the key is its own tuple |
| TcCapture.OwnerIgnoresDirectionIff | kern/tc.h:188-198 | a flow and its reverse have the same owner exactly unless both orientations are recorded with different processes |
| TcCapture.BothDirectionsAgree | kern/tc.h:136-279 | packets of one flow in opposite directions that reach the look-up get the same verdict and process, whatever filter and pulls did to each, unless the orientations are recorded with different processes |
| TcCapture.OtherFamiliesAreInvisible | kern/tc.h:305-342 | what is stored under the all-zero key never changes the verdict on any packet |
| OpenSslPairing.MaskedLenIsMin | kern/openssl.h:182-184 | the masked length expression is min(len, 16384), the bound of section 6.2.1 of RFC 5246 |
| OpenSslPairing.OpenSslProbe.ProcessSslData | kern/openssl.h:163-190 | one event with the entry's arguments and min(rc, 16384) bytes, none for a negative return |
| OpenSslPairing.StoredIsLatest | kern/openssl.h:267-302 | what the map holds for a thread is its latest entry in that direction, not yet returned from |
| OpenSslPairing.EventsArePaired | kern/openssl.h:267-321 | over any run each event pairs a return with the thread's latest entry and carries that entry's buffer, fd, version and bio type |
| OpenSslPairing.EntryYieldsOneEvent | kern/openssl.h:304-321 | no entry yields two events |
| OpenSslPairing.InMapIff | kern/openssl.h:267-321 | a thread is in the map exactly while its latest effective probe is an entry that was stored |
| OpenSslPairing.ReturnEmitsIff | kern/openssl.h:304-321 | a return emits exactly when it passes the filter, its value is not negative, and such an entry is there |
| Hub.Hub.OnBroadcast | pkg/ecaptureq/hub.go:52-61 | every traversal order of the map, with eviction during it, gives the same result: all clients with room get the message, the full ones are closed and removed |
| Hub.StepKeepsInv | pkg/ecaptureq/hub.go:42-63 | every step keeps: a channel is closed exactly when its client is out, and has received the broadcasts since its registration |
| Hub.RegisteredClientGetsAll | pkg/ecaptureq/hub.go:45-61 | over any run a client registered once and not taken out since (removed, or met by a broadcast with its 256 slots taken) is in the set and has received every broadcast since, in order |
| Hub.RemovedClientGetsNoMore | pkg/ecaptureq/hub.go:47-61 | from the step that takes it out its channel is closed and holds exactly the broadcasts in between |
| Hub.SlotsAreCounted | pkg/ecaptureq/hub.go:54-59 | the slots taken are the hub's messages and those of others, less what was consumed |
| Hub.DeliveriesAreContiguous | pkg/ecaptureq/hub.go:42-63 | over every run with one registration per client the hub never closes a channel twice or sends on a closed one, and a client's deliveries are a gap-free, duplicate-free stretch of the broadcasts |
| Hub.PanicsIff | pkg/ecaptureq/hub.go:42-63 | over every run a channel is closed twice or sent on when closed exactly if a client was registered with an already closed channel and then met by a broadcast or its removal |

## Left out

- Timestamps and lags of 2^63 and above: `int64(x.mono)` would wrap; stamps are nanoseconds since boot. The window lemmas take a positive lag.
- `sort.SliceStable` is modelled as an insertion sort; `StableSortUnique` shows that any stable sort gives the same result.
- Lost perf samples and failed decodes carry no event in PerfEventLoop; failed user-memory reads in the segmenter skip a segment, and the reassembly theorem assumes there are none.
- The sixteen unrolled segments are a loop.
- Readers started after the closing of a probe has begun, ring-buffer readers, and errors returned by readers and handlers when they are closed.
- The concurrent parts (processor with workers, reader loops with Close, hub clients) are step relations on values; the classes describe each method as it runs alone, so aliasing of a worker between goroutines is captured by worker numbers, not by references.
- Starting a worker and registering it is one step: an idle worker cannot time out for about twelve ticks of 100 ms. A tick may also come while the worker's ticker is stopped, which only adds runs.
- `Write` calls that overlap `Close` of the processor, and producers that overlap `Close` of the PCAPNG writer.
- EventProcessorProgress.CanAlwaysReturn: fairness of Go's scheduler and `select` is not modelled; ShutdownIsBounded says what a fair schedule must not repeat for ever.
- ProbeClose.CloseCanFinish: fairness is not modelled; CloseIsBounded says that only further reading can delay the end.
- EventWorker.EventWorker.DrainAndClose: ends at the sleep of a held worker; the retries are in the step relation.
- ProcessorObject.EventProcessor.Close: stops at the wait for Serve; the wait is in the step relation.
- The contents of the worker's parser, hex dumps and protobuf encoding: a display's record is arbitrary. The queue of sockets to destroy, the error channel and the wait group's counter.
- Destroying a socket closes only the first matching worker, so nothing is claimed for the others.
- The closed-keylog-channel branch of the PCAPNG loop (unreachable for the same reason as the packet one), the real file format, interface headers, flushes that write nothing of their own, and the error Close returns when there were no packets.
- tc: the LRU bound of the map is modelled as arbitrary eviction; packets with no recorded owner are emitted unfiltered, as in the code; socket reads succeed; for ICMP the "ports" are the first four bytes, as in the code; the packet bytes appended by the kernel.
- OpenSSL: the payload bytes, resolution of the fd and bio type, connection events, and the reuse of the shared event buffer.
- Hub: sends on a client's channel made outside the hub, and the safety of such sends; they only use up capacity here. Broadcasts dropped because the hub is busy are not processed broadcasts.
- HTTP/1, HTTP/2, HPACK and gzip parsing, master-key probes, offset tables, command line and HTTP configuration, other writers, encoders and upgrade checks: not part of this model.

/**
  The event processor (pkg/event_processor/processor.go) and its workers as interleaved
  atomic steps: one Serve goroutine, one goroutine per worker, producers that call Write and
  one caller of Close.

  Starting a worker and registering it (processor.go:158-159) is one step: a worker with no
  events cannot time out for about twelve ticks of 100 ms.  Ticks, the arrival of events and
  the choices of Go's select are nondeterministic.
 */
module EventProcessor {
  import opened Basics
  import opened Uuid
  import opened EventWorker

  const MAX_INCOMING_CHAN_LEN: nat := 1024

  /** Where Serve is inside `dispatch`. */
  datatype Hold =
    | Idle
    | Holding(w: nat, e: Event)  // after Get, before Write
    | Written(w: nat)            // after Write, before Put

  datatype Mode = Serving | DrainingIn | Waiting | Flushing | Returned

  /** One dispatch: the event, its worker, and whether the worker's queue had room. */
  datatype Dispatch = Dispatch(e: Event, w: nat, taken: bool)

  datatype State = State(
    truncate: int,
    isClosed: bool,
    incoming: seq<Event>,
    outgoing: seq<seq<byte>>,
    workerQueue: map<string, nat>,
    workers: seq<Worker>,
    hold: Hold,
    mode: Mode,
    logged: seq<seq<byte>>,       // records written to the logger
    acceptedIn: seq<Event>,       // history: events Write accepted
    acceptedOut: seq<seq<byte>>,  // history: records the output channel accepted
    dispatches: seq<Dispatch>)    // history

  datatype Step =
    | Accept(e: Event)                    // Write, when open and with room
    | CloseCall                           // Close sets isClosed and closes closeChan
    | Take                                // Serve receives; lookup+Get, or start+register+Get
    | Deliver                             // eWorker.Write
    | Release                             // eWorker.Put
    | Destroy(w: nat)                     // destroyWorkers closes the first match
    | LogOut                              // Serve writes one record to the logger
    | BeginDrain | SignalAll | WaitDone | FinishServe
    | Tick(w: nat) | Receive(w: nat) | SeeClose(w: nat)
    | DrainOne(w: nat) | EmptyTest(w: nat) | LoadUsed(w: nat)
    | Show(w: nat, record: seq<byte>)     // Close: Display; `record` is the parser's output

  function Initial(truncate: int): State {
    State(truncate, false, [], [], map[], [], Idle, Serving, [], [], [], [])
  }

  predicate At(s: State, w: nat, p: Phase) { w < |s.workers| && s.workers[w].phase == p }

  predicate Enabled(s: State, step: Step) {
    match step
    case Accept(e) => !s.isClosed && |s.incoming| < MAX_INCOMING_CHAN_LEN
    case CloseCall => !s.isClosed
    case Take => s.hold.Idle? && (s.mode.Serving? || s.mode.DrainingIn?) && s.incoming != []
    case Deliver => s.hold.Holding? && s.hold.w < |s.workers|
    case Release => s.hold.Written? && s.hold.w < |s.workers|
    case Destroy(w) => s.hold.Idle? && s.mode.Serving? && w < |s.workers| && w in s.workerQueue.Values && IsSock(s.workers[w])
    case LogOut => s.hold.Idle? && (s.mode.Serving? || s.mode.Waiting? || s.mode.Flushing?) && s.outgoing != []
    case BeginDrain => s.hold.Idle? && s.mode.Serving? && s.isClosed
    case SignalAll => s.hold.Idle? && s.mode.DrainingIn? && s.incoming == []
    case WaitDone => s.mode.Waiting? && forall i | 0 <= i < |s.workers| :: s.workers[i].phase.Stopped?
    case FinishServe => s.mode.Flushing? && s.outgoing == []
    case Tick(w) => At(s, w, Loop)
    case Receive(w) => At(s, w, Loop) && s.workers[w].queue != []
    case SeeClose(w) => At(s, w, Loop) && s.workers[w].closing
    case DrainOne(w) => w < |s.workers| && s.workers[w].phase.Draining? && s.workers[w].queue != []
    case EmptyTest(w) => w < |s.workers| && s.workers[w].phase.Draining? && s.workers[w].queue == []
    case LoadUsed(w) => w < |s.workers| && s.workers[w].phase.Emptied?
    case Show(w, _) => w < |s.workers| && s.workers[w].phase.Closing?
  }

  function SetWorker(s: State, i: nat, w: Worker): State
    requires i < |s.workers|
  {
    s.(workers := s.workers[i := w])
  }

  /** `delWorkerByUUID`. */
  function Unregister(s: State, i: nat): State
    requires i < |s.workers|
  {
    s.(workerQueue := s.workerQueue - {s.workers[i].uuid})
  }

  /** A worker leaves the map and starts its last drain. */
  function Retire(s: State, i: nat): State
    requires i < |s.workers|
  {
    SetWorker(Unregister(s, i), i, s.workers[i].(phase := Draining(true)))
  }

  /** `dispatch` finds the worker and takes hold of it under the lock. */
  function TakeKnown(s: State, i: nat): State
    requires s.incoming != [] && i < |s.workers|
  {
    SetWorker(s, i, s.workers[i].(used := true)).(
      incoming := s.incoming[1..],
      hold := Holding(i, s.incoming[0]))
  }

  /** `dispatch` starts, registers and takes hold of a new worker. */
  function TakeNew(s: State): State
    requires s.incoming != []
  {
    var e := s.incoming[0];
    s.(incoming := s.incoming[1..],
       workers := s.workers + [NewWorker(e.uuid).(used := true)],
       workerQueue := s.workerQueue[e.uuid := |s.workers|],
       hold := Holding(|s.workers|, e))
  }

  function TakeStep(s: State): State
    requires s.incoming != []
  {
    var u := s.incoming[0].uuid;
    if u in s.workerQueue && s.workerQueue[u] < |s.workers| then TakeKnown(s, s.workerQueue[u]) else TakeNew(s)
  }

  function DeliverStep(s: State): State
    requires s.hold.Holding? && s.hold.w < |s.workers|
  {
    var i, w := s.hold.w, s.workers[s.hold.w];
    SetWorker(s, i, Offer(w, s.hold.e)).(
      hold := Written(i),
      dispatches := s.dispatches + [Dispatch(s.hold.e, i, |w.queue| < MAX_CHAN_LEN)])
  }

  function ReleaseStep(s: State): State
    requires s.hold.Written? && s.hold.w < |s.workers|
  {
    var i, w := s.hold.w, s.workers[s.hold.w];
    SetWorker(s, i, w.(used := false)).(hold := Idle)
  }

  /** The worker's own steps in Run and drainAndClose. */
  function WorkerStep(s: State, step: Step, i: nat): State
    requires i < |s.workers| && Enabled(s, step)
  {
    var w := s.workers[i];
    match step
    case Tick(_) =>
      if w.ticks > MAX_TICKER_COUNT && !IsSock(w) then Retire(s, i)
      else SetWorker(s, i, TickStep(w))
    case Receive(j) => if w.queue != [] then SetWorker(s, i, Hand(s.truncate, w).(ticks := 0)) else s
    case SeeClose(_) => Retire(s, i)
    case DrainOne(_) => if w.queue != [] then SetWorker(s, i, Hand(s.truncate, w)) else s
    case EmptyTest(_) => if w.phase.Draining? then SetWorker(s, i, w.(phase := Emptied(w.phase.last), raced := false)) else s
    case LoadUsed(_) =>
      if w.phase.Emptied? then SetWorker(s, i, w.(phase := if w.used then Draining(w.phase.last) else Closing(w.phase.last))) else s
    case Show(_, record) =>
      if !w.phase.Closing? then s else
        var s1 := SetWorker(s, i, CloseStep(w));
        if w.body.payload != [] && record != [] && |s.outgoing| < MAX_INCOMING_CHAN_LEN
        then s1.(outgoing := s.outgoing + [record], acceptedOut := s.acceptedOut + [record])
        else s1
    case _ => s
  }

  function SignalStep(s: State): State {
    s.(mode := Waiting,
       workers := seq(|s.workers|, i requires 0 <= i < |s.workers| =>
         var w := s.workers[i];
         if w.uuid in s.workerQueue && s.workerQueue[w.uuid] == i && IsSock(w) then w.(closing := true) else w))
  }

  function Apply(s: State, step: Step): State
    requires Enabled(s, step)
  {
    match step
    case Accept(e) => s.(incoming := s.incoming + [e], acceptedIn := s.acceptedIn + [e])
    case CloseCall => s.(isClosed := true)
    case Take => TakeStep(s)
    case Deliver => DeliverStep(s)
    case Release => ReleaseStep(s)
    case Destroy(w) => SetWorker(s, w, s.workers[w].(closing := true))
    case LogOut => s.(outgoing := s.outgoing[1..], logged := s.logged + [s.outgoing[0]])
    case BeginDrain => s.(mode := DrainingIn)
    case SignalAll => SignalStep(s)
    case WaitDone => s.(mode := Flushing)
    case FinishServe => s.(mode := Returned)
    case Tick(w) => WorkerStep(s, step, w)
    case Receive(w) => WorkerStep(s, step, w)
    case SeeClose(w) => WorkerStep(s, step, w)
    case DrainOne(w) => WorkerStep(s, step, w)
    case EmptyTest(w) => WorkerStep(s, step, w)
    case LoadUsed(w) => WorkerStep(s, step, w)
    case Show(w, _) => WorkerStep(s, step, w)
  }

  // ---------------------------------------------------------------- the invariant

  predicate Holds(h: Hold, i: nat) { !h.Idle? && h.w == i }

  /** `used` is true exactly while Serve is between Get and Put on that worker. */
  ghost predicate UsedIffHeld(s: State) {
    && (!s.hold.Idle? ==> s.hold.w < |s.workers|)
    && forall i | 0 <= i < |s.workers| :: s.workers[i].used <==> Holds(s.hold, i)
  }

  /** The map holds exactly the workers that have not retired. */
  ghost predicate MapIsLive(s: State) {
    && (forall u | u in s.workerQueue ::
          && s.workerQueue[u] < |s.workers|
          && s.workers[s.workerQueue[u]].uuid == u
          && !Retired(s.workers[s.workerQueue[u]]))
    && (forall i | 0 <= i < |s.workers| && !Retired(s.workers[i]) ::
          s.workers[i].uuid in s.workerQueue && s.workerQueue[s.workers[i].uuid] == i)
  }

  ghost predicate WorkersOk(s: State) {
    && (forall i | 0 <= i < |s.workers| :: WorkerOk(s.truncate, s.workers[i]))
    && (s.hold.Holding? && s.hold.w < |s.workers| && s.workers[s.hold.w].phase == Emptied(true) ==>
          s.workers[s.hold.w].queue == [])
  }

  /** The events of the log, in dispatch order. */
  function Dispatched(log: seq<Dispatch>): seq<Event> {
    if log == [] then [] else Dispatched(log[..|log| - 1]) + [log[|log| - 1].e]
  }

  /** The events of the log that worker `i` took, in dispatch order. */
  function TakenBy(log: seq<Dispatch>, i: nat): seq<Event> {
    if log == [] then [] else
      var d := log[|log| - 1];
      TakenBy(log[..|log| - 1], i) + (if d.w == i && d.taken then [d.e] else [])
  }

  function InHand(h: Hold): seq<Event> { if h.Holding? then [h.e] else [] }

  /** Every accepted event is dispatched, in hand or queued, in order. */
  ghost predicate NothingLost(s: State) {
    s.acceptedIn == Dispatched(s.dispatches) + InHand(s.hold) + s.incoming
  }

  /** Every worker has accepted what was dispatched to it and taken, in order. */
  ghost predicate TakenInOrder(s: State) {
    forall i | 0 <= i < |s.workers| :: s.workers[i].accepted == TakenBy(s.dispatches, i)
  }

  /** Every event goes to a worker of its own UUID. */
  ghost predicate RoutedByUuid(s: State) {
    && (forall d | d in s.dispatches :: d.w < |s.workers| && s.workers[d.w].uuid == d.e.uuid)
    && (s.hold.Holding? ==> s.hold.w < |s.workers| && s.workers[s.hold.w].uuid == s.hold.e.uuid)
  }

  /** Nothing is lost or reordered on the way in. */
  ghost predicate InputConserved(s: State) { NothingLost(s) && TakenInOrder(s) && RoutedByUuid(s) }

  ghost predicate OutputConserved(s: State) {
    s.acceptedOut == s.logged + s.outgoing
  }

  ghost predicate ModesOk(s: State) {
    && (!s.mode.Serving? ==> s.isClosed)
    && (s.mode.Waiting? || s.mode.Flushing? || s.mode.Returned? ==> s.incoming == [] && s.hold.Idle?)
    && (s.mode.Waiting? ==> forall i | 0 <= i < |s.workers| ::
          !Retired(s.workers[i]) && IsSock(s.workers[i]) ==> s.workers[i].closing)
    && (s.mode.Flushing? || s.mode.Returned? ==>
          forall i | 0 <= i < |s.workers| :: s.workers[i].phase.Stopped?)
    && (s.mode.Returned? ==> s.outgoing == [])
  }

  ghost predicate Inv(s: State) {
    UsedIffHeld(s) && MapIsLive(s) && WorkersOk(s) && InputConserved(s) && OutputConserved(s) && ModesOk(s)
  }

  // ---------------------------------------------------------------- every step keeps it

  lemma HandOk(t: int, w: Worker)
    requires WorkerOk(t, w) && w.queue != []
    ensures Hand(t, w).accepted == Hand(t, w).handed + Hand(t, w).queue
    ensures Hand(t, w).handed == Flat(Hand(t, w).body.batches) + Hand(t, w).body.current
    ensures BodyOk(t, Hand(t, w).body)
  {
    hide Joined, Truncated, Flat, ParseUuid;
    WriteEventTruncates(t, !IsSock(w), w.body, w.queue[0]);
    assert w.queue == [w.queue[0]] + w.queue[1..];
  }

  /** What the map and the input laws see of a worker has not changed. */
  ghost predicate SameShape(s: State, s': State) {
    && |s'.workers| == |s.workers|
    && s'.workerQueue == s.workerQueue
    && s'.dispatches == s.dispatches
    && s'.acceptedIn == s.acceptedIn
    && forall j | 0 <= j < |s.workers| ::
      && s'.workers[j].uuid == s.workers[j].uuid
      && s'.workers[j].accepted == s.workers[j].accepted
      && (Retired(s'.workers[j]) <==> Retired(s.workers[j]))
  }

  lemma MapFrame(s: State, s': State)
    requires MapIsLive(s) && SameShape(s, s')
    ensures MapIsLive(s')
  {
    hide Retired;
  }

  lemma InputFrame(s: State, s': State)
    requires InputConserved(s) && SameShape(s, s')
    requires InHand(s'.hold) + s'.incoming == InHand(s.hold) + s.incoming
    requires s'.hold.Holding? ==> s'.hold.w < |s'.workers| && s'.workers[s'.hold.w].uuid == s'.hold.e.uuid
    ensures InputConserved(s')
  {
    hide Retired, TakenBy, Dispatched, InHand;
    var d := Dispatched(s.dispatches);
    assert d + InHand(s'.hold) + s'.incoming == d + (InHand(s'.hold) + s'.incoming);
    assert d + InHand(s.hold) + s.incoming == d + (InHand(s.hold) + s.incoming);
  }

  lemma UsedFlagOk(t: int, w: Worker, used: bool)
    requires WorkerOk(t, w) && (used ==> !Retired(w))
    ensures WorkerOk(t, w.(used := used))
  {
    hide BodyOk, Flat, ParseUuid;
  }

  /** A worker may change to `w` without touching any other part of the state. */
  ghost predicate LocalChange(s: State, i: nat, w: Worker)
    requires i < |s.workers|
  {
    && w.uuid == s.workers[i].uuid
    && w.used == s.workers[i].used
    && w.accepted == s.workers[i].accepted
    && (s.workers[i].closing ==> w.closing)
    && (Retired(s.workers[i]) ==> Retired(w))
    && (s.workers[i].phase.Stopped? ==> w.phase.Stopped?)
    && WorkerOk(s.truncate, w)
    && (Holds(s.hold, i) && s.hold.Holding? && w.phase == Emptied(true) ==> w.queue == [])
  }

  /** A local change keeps everything that does not speak of the map. */
  lemma LocalChangeRest(s: State, i: nat, w: Worker, q: map<string, nat>)
    requires Inv(s) && i < |s.workers| && LocalChange(s, i, w)
    ensures var s' := SetWorker(s, i, w).(workerQueue := q);
            UsedIffHeld(s') && WorkersOk(s') && InputConserved(s') && OutputConserved(s') && ModesOk(s')
  {
    hide WorkerOk, ParseUuid, TakenBy, Dispatched;
    var s' := SetWorker(s, i, w).(workerQueue := q);
    assert forall j | 0 <= j < |s'.workers| :: s'.workers[j] == if j == i then w else s.workers[j];
  }

  lemma LocalChangeMap(s: State, i: nat, w: Worker)
    requires MapIsLive(s) && i < |s.workers| && w.uuid == s.workers[i].uuid
    requires w.accepted == s.workers[i].accepted && (Retired(w) <==> Retired(s.workers[i]))
    ensures MapIsLive(SetWorker(s, i, w))
  {
    hide Retired, MapIsLive;
    MapFrame(s, SetWorker(s, i, w));
  }

  lemma LocalChangeOk(s: State, i: nat, w: Worker)
    requires Inv(s) && i < |s.workers| && LocalChange(s, i, w)
    requires Retired(w) ==> Retired(s.workers[i])
    ensures Inv(SetWorker(s, i, w))
  {
    LocalChangeRest(s, i, w, s.workerQueue);
    LocalChangeMap(s, i, w);
    hide WorkerOk, Retired, UsedIffHeld, MapIsLive, WorkersOk, InputConserved, OutputConserved, ModesOk;
    assert SetWorker(s, i, w).(workerQueue := s.workerQueue) == SetWorker(s, i, w);
  }

  lemma HandLocal(s: State, i: nat)
    requires Inv(s) && i < |s.workers| && s.workers[i].queue != []
    requires s.workers[i].phase.Loop? || s.workers[i].phase.Draining?
    ensures var w := Hand(s.truncate, s.workers[i]); LocalChange(s, i, w) && LocalChange(s, i, w.(ticks := 0))
  {
    hide Joined, Truncated, Flat, ParseUuid, BodyOk, WriteEvent, UsedIffHeld, MapIsLive, InputConserved, OutputConserved, ModesOk;
    HandOk(s.truncate, s.workers[i]);
  }

  lemma ReceiveOk(s: State, i: nat)
    requires Inv(s) && (Enabled(s, Receive(i)) || Enabled(s, DrainOne(i)))
    ensures Inv(SetWorker(s, i, Hand(s.truncate, s.workers[i])))
    ensures Inv(SetWorker(s, i, Hand(s.truncate, s.workers[i]).(ticks := 0)))
  {
    hide Inv, LocalChange, WriteEvent, ParseUuid;
    HandLocal(s, i);
    LocalChangeOk(s, i, Hand(s.truncate, s.workers[i]));
    LocalChangeOk(s, i, Hand(s.truncate, s.workers[i]).(ticks := 0));
  }

  lemma EmptyTestOk(s: State, i: nat)
    requires Inv(s) && Enabled(s, EmptyTest(i))
    ensures Inv(Apply(s, EmptyTest(i)))
  {
    hide BodyOk, Flat, ParseUuid, TakenBy, Dispatched;
    var w := s.workers[i];
    LocalChangeOk(s, i, w.(phase := Emptied(w.phase.last), raced := false));
  }

  lemma LoadUsedOk(s: State, i: nat)
    requires Inv(s) && Enabled(s, LoadUsed(i))
    ensures Inv(Apply(s, LoadUsed(i)))
  {
    hide BodyOk, Flat, ParseUuid, TakenBy, Dispatched;
    var w := s.workers[i];
    LocalChangeOk(s, i, w.(phase := if w.used then Draining(w.phase.last) else Closing(w.phase.last)));
  }

  lemma CloseStepOk(t: int, w: Worker)
    requires WorkerOk(t, w) && w.phase.Closing?
    ensures WorkerOk(t, CloseStep(w))
  {
    hide BodyOk, Display, Flat, ParseUuid;
    DisplayKeeps(t, w.body);
  }

  lemma OutputOk(s: State, record: seq<byte>)
    requires Inv(s) && !s.mode.Returned?
    ensures Inv(s.(outgoing := s.outgoing + [record], acceptedOut := s.acceptedOut + [record]))
  {
    hide WorkerOk, IsSock, TakenBy, Dispatched;
    assert s.acceptedOut + [record] == s.logged + (s.outgoing + [record]);
  }

  lemma ShowOk(s: State, i: nat, record: seq<byte>)
    requires Inv(s) && Enabled(s, Show(i, record))
    ensures Inv(Apply(s, Show(i, record)))
  {
    hide BodyOk, Flat, Display, ParseUuid, TakenBy, Dispatched;
    CloseStepOk(s.truncate, s.workers[i]);
    LocalChangeOk(s, i, CloseStep(s.workers[i]));
    OutputOk(SetWorker(s, i, CloseStep(s.workers[i])), record);
  }

  lemma RetireMap(s: State, i: nat)
    requires MapIsLive(s) && At(s, i, Loop)
    ensures MapIsLive(Retire(s, i))
  {
    var w, s' := s.workers[i].(phase := Draining(true)), Retire(s, i);
    assert !Retired(s.workers[i]) && Retired(w);
    assert forall j | 0 <= j < |s'.workers| :: s'.workers[j] == if j == i then w else s.workers[j];
  }

  lemma RetireOk(s: State, i: nat)
    requires Inv(s) && At(s, i, Loop)
    ensures Inv(Retire(s, i))
  {
    hide BodyOk, Flat, ParseUuid, TakenBy, Dispatched;
    RetireMap(s, i);
    LocalChangeRest(s, i, s.workers[i].(phase := Draining(true)), Unregister(s, i).workerQueue);
    assert Retire(s, i) == SetWorker(s, i, s.workers[i].(phase := Draining(true))).(workerQueue := Unregister(s, i).workerQueue);
  }

  lemma TickOk(s: State, i: nat)
    requires Inv(s) && Enabled(s, Tick(i))
    ensures Inv(Apply(s, Tick(i)))
  {
    hide BodyOk, Flat, ParseUuid, TakenBy, Dispatched;
    var w := s.workers[i];
    if w.ticks > MAX_TICKER_COUNT && !IsSock(w) {
      RetireOk(s, i);
    } else {
      LocalChangeOk(s, i, TickStep(w));
    }
  }

  lemma KnownWorker(s: State, i: nat)
    requires MapIsLive(s) && s.incoming != []
    requires s.incoming[0].uuid in s.workerQueue && s.workerQueue[s.incoming[0].uuid] == i
    ensures i < |s.workers| && s.workers[i].uuid == s.incoming[0].uuid && !Retired(s.workers[i])
  {
  }

  lemma TakeKnownShape(s: State, i: nat)
    requires s.incoming != [] && i < |s.workers|
    ensures SameShape(s, TakeKnown(s, i))
  {
  }

  lemma TakeKnownInput(s: State, i: nat)
    requires InputConserved(s) && s.hold.Idle? && s.incoming != []
    requires i < |s.workers| && s.workers[i].uuid == s.incoming[0].uuid
    ensures InputConserved(TakeKnown(s, i))
  {
    TakeKnownShape(s, i);
    hide InputConserved, SameShape;
    assert s.incoming == [s.incoming[0]] + s.incoming[1..];
    assert [] + s.incoming == s.incoming;
    InputFrame(s, TakeKnown(s, i));
  }

  lemma TakeKnownWorkers(s: State, i: nat)
    requires WorkersOk(s) && s.incoming != [] && i < |s.workers| && !Retired(s.workers[i])
    ensures WorkersOk(TakeKnown(s, i))
  {
    UsedFlagOk(s.truncate, s.workers[i], true);
    hide WorkerOk;
  }

  lemma TakeKnownUsed(s: State, i: nat)
    requires UsedIffHeld(s) && s.hold.Idle? && s.incoming != [] && i < |s.workers|
    ensures UsedIffHeld(TakeKnown(s, i))
  {
  }

  lemma TakeKnownModes(s: State, i: nat)
    requires ModesOk(s) && s.incoming != [] && i < |s.workers| && (s.mode.Serving? || s.mode.DrainingIn?)
    ensures ModesOk(TakeKnown(s, i))
  {
  }

  lemma TakeKnownOk(s: State, i: nat)
    requires Inv(s) && s.hold.Idle? && (s.mode.Serving? || s.mode.DrainingIn?)
    requires s.incoming != [] && s.incoming[0].uuid in s.workerQueue && s.workerQueue[s.incoming[0].uuid] == i
    ensures Inv(TakeKnown(s, i))
  {
    hide UsedIffHeld, MapIsLive, WorkersOk, InputConserved, ModesOk, Retired, SameShape;
    KnownWorker(s, i);
    TakeKnownUsed(s, i);
    TakeKnownShape(s, i);
    MapFrame(s, TakeKnown(s, i));
    TakeKnownWorkers(s, i);
    TakeKnownInput(s, i);
    TakeKnownModes(s, i);
  }

  lemma TakeNewMap(s: State)
    requires MapIsLive(s) && UsedIffHeld(s) && s.hold.Idle?
    requires s.incoming != [] && s.incoming[0].uuid !in s.workerQueue
    ensures MapIsLive(TakeNew(s)) && UsedIffHeld(TakeNew(s))
  {
    var s', n := TakeNew(s), |s.workers|;
    assert forall j | 0 <= j < n :: s'.workers[j] == s.workers[j];
  }

  lemma TakeNewInput(s: State)
    requires InputConserved(s) && s.hold.Idle? && s.incoming != []
    ensures InputConserved(TakeNew(s))
  {
    hide NothingLost, TakenInOrder, RoutedByUuid;
    TakeNewLog(s);
    TakeNewTaken(s);
    TakeNewRoute(s);
  }

  lemma TakeNewLog(s: State)
    requires NothingLost(s) && s.hold.Idle? && s.incoming != []
    ensures NothingLost(TakeNew(s))
  {
    hide Dispatched, NewWorker;
    var d := Dispatched(s.dispatches);
    assert s.incoming == [s.incoming[0]] + s.incoming[1..];
    assert d + [] + s.incoming == d + [s.incoming[0]] + s.incoming[1..];
  }

  lemma TakeNewRoute(s: State)
    requires RoutedByUuid(s) && s.incoming != []
    ensures RoutedByUuid(TakeNew(s))
  {
  }

  lemma TakeNewTaken(s: State)
    requires TakenInOrder(s) && RoutedByUuid(s) && s.incoming != []
    ensures TakenInOrder(TakeNew(s))
  {
    NoneTaken(s.dispatches, |s.workers|);
    hide Dispatched, TakenBy;
  }

  lemma TakeNewOk(s: State)
    requires Inv(s) && s.hold.Idle? && !s.mode.Waiting? && !s.mode.Flushing? && !s.mode.Returned?
    requires s.incoming != [] && s.incoming[0].uuid !in s.workerQueue
    ensures Inv(TakeNew(s))
  {
    TakeNewMap(s);
    TakeNewInput(s);
    NewWorkerOk(s.truncate, s.incoming[0].uuid);
    hide WorkerOk, IsSock, InputConserved, MapIsLive, UsedIffHeld;
    var s', n := TakeNew(s), |s.workers|;
    assert forall j | 0 <= j < n :: s'.workers[j] == s.workers[j];
  }

  lemma NewWorkerOk(t: int, uuid: string)
    ensures WorkerOk(t, NewWorker(uuid)) && WorkerOk(t, NewWorker(uuid).(used := true))
  {
  }

  lemma {:induction false} NoneTaken(log: seq<Dispatch>, n: nat)
    requires forall d | d in log :: d.w < n
    ensures TakenBy(log, n) == []
  {
    if log != [] {
      assert log[|log| - 1] in log;
      NoneTaken(log[..|log| - 1], n);
    }
  }

  lemma OfferOk(t: int, w: Worker, e: Event)
    requires WorkerOk(t, w) && !Sealed(w) && (w.phase == Emptied(true) ==> w.queue == [])
    ensures WorkerOk(t, Offer(w, e))
  {
    hide BodyOk, Flat, ParseUuid;
    assert w.handed + (w.queue + [e]) == (w.handed + w.queue) + [e];
  }

  lemma LogSnoc(log: seq<Dispatch>, d: Dispatch, j: nat)
    ensures Dispatched(log + [d]) == Dispatched(log) + [d.e]
    ensures TakenBy(log + [d], j) == if d.w == j && d.taken then TakenBy(log, j) + [d.e] else TakenBy(log, j)
  {
    assert (log + [d])[..|log|] == log;
    assert TakenBy(log, j) + [] == TakenBy(log, j);
  }

  lemma DeliverInput(s: State)
    requires InputConserved(s) && s.hold.Holding? && s.hold.w < |s.workers|
    ensures InputConserved(DeliverStep(s))
  {
    hide NothingLost, TakenInOrder, RoutedByUuid;
    DeliverLog(s);
    DeliverTaken(s);
    DeliverRoute(s);
  }

  lemma DeliverLog(s: State)
    requires NothingLost(s) && s.hold.Holding? && s.hold.w < |s.workers|
    ensures NothingLost(DeliverStep(s))
  {
    hide Dispatched, TakenBy;
    LogSnoc(s.dispatches, DeliverStep(s).dispatches[|s.dispatches|], 0);
  }

  lemma DeliverRoute(s: State)
    requires RoutedByUuid(s) && s.hold.Holding? && s.hold.w < |s.workers|
    ensures RoutedByUuid(DeliverStep(s))
  {
  }

  lemma DeliverTaken(s: State)
    requires TakenInOrder(s) && s.hold.Holding? && s.hold.w < |s.workers|
    ensures TakenInOrder(DeliverStep(s))
  {
    var i, e, s' := s.hold.w, s.hold.e, DeliverStep(s);
    var d := Dispatch(e, i, |s.workers[i].queue| < MAX_CHAN_LEN);
    hide Dispatched, TakenBy;
    forall j | 0 <= j < |s'.workers| ensures s'.workers[j].accepted == TakenBy(s'.dispatches, j) {
      LogSnoc(s.dispatches, d, j);
    }
  }

  lemma DeliverRest(s: State)
    requires MapIsLive(s) && UsedIffHeld(s) && OutputConserved(s) && ModesOk(s) && Enabled(s, Deliver)
    ensures var s' := DeliverStep(s); MapIsLive(s') && UsedIffHeld(s') && OutputConserved(s') && ModesOk(s')
  {
    hide ParseUuid;
    var i, s' := s.hold.w, DeliverStep(s);
    var w := Offer(s.workers[i], s.hold.e);
    assert forall j | 0 <= j < |s'.workers| :: s'.workers[j] == if j == i then w else s.workers[j];
  }

  lemma DeliverOk(s: State)
    requires Inv(s) && Enabled(s, Deliver)
    ensures Inv(DeliverStep(s))
  {
    hide WorkerOk, InputConserved, MapIsLive, UsedIffHeld, OutputConserved, ModesOk;
    var i, e, s' := s.hold.w, s.hold.e, DeliverStep(s);
    DeliverInput(s);
    DeliverRest(s);
    HeldNotSealed(s, i);
    OfferOk(s.truncate, s.workers[i], e);
    assert forall j | 0 <= j < |s'.workers| :: s'.workers[j] == if j == i then Offer(s.workers[i], e) else s.workers[j];
  }

  lemma HeldNotSealed(s: State, i: nat)
    requires UsedIffHeld(s) && WorkersOk(s) && Holds(s.hold, i) && i < |s.workers|
    ensures !Sealed(s.workers[i])
  {
    assert WorkerOk(s.truncate, s.workers[i]);
  }

  lemma ReleaseShape(s: State)
    requires s.hold.Written? && s.hold.w < |s.workers|
    ensures SameShape(s, ReleaseStep(s))
  {
  }

  lemma ReleaseWorkers(s: State)
    requires WorkersOk(s) && s.hold.Written? && s.hold.w < |s.workers|
    ensures WorkersOk(ReleaseStep(s))
  {
    UsedFlagOk(s.truncate, s.workers[s.hold.w], false);
    hide WorkerOk;
  }

  lemma ReleaseRest(s: State)
    requires UsedIffHeld(s) && ModesOk(s) && s.hold.Written? && s.hold.w < |s.workers|
    ensures UsedIffHeld(ReleaseStep(s)) && ModesOk(ReleaseStep(s))
  {
  }

  lemma ReleaseOk(s: State)
    requires Inv(s) && s.hold.Written? && s.hold.w < |s.workers|
    ensures Inv(ReleaseStep(s))
  {
    hide UsedIffHeld, MapIsLive, WorkersOk, InputConserved, ModesOk, SameShape;
    ReleaseShape(s);
    MapFrame(s, ReleaseStep(s));
    InputFrame(s, ReleaseStep(s));
    ReleaseWorkers(s);
    ReleaseRest(s);
  }

  lemma SignalWorkerOk(t: int, w: Worker)
    requires WorkerOk(t, w) && IsSock(w)
    ensures WorkerOk(t, w.(closing := true))
  {
    hide BodyOk, Flat, ParseUuid;
  }

  lemma SignalOk(s: State)
    requires Inv(s) && Enabled(s, SignalAll)
    ensures Inv(SignalStep(s))
  {
    SignalReachesLive(s);
    SignalShape(s);
    SignalWorkers(s);
    hide MapIsLive, WorkersOk, InputConserved, SameShape, IsSock, Retired;
    MapFrame(s, SignalStep(s));
    InputFrame(s, SignalStep(s));
  }

  lemma SignalShape(s: State)
    ensures SameShape(s, SignalStep(s))
  {
    hide IsSock;
  }

  lemma SignalWorkers(s: State)
    requires WorkersOk(s) && s.hold.Idle?
    ensures WorkersOk(SignalStep(s))
  {
    hide WorkerOk, IsSock;
    forall j | 0 <= j < |s.workers| ensures WorkerOk(s.truncate, SignalStep(s).workers[j]) {
      if SignalStep(s).workers[j] != s.workers[j] { SignalWorkerOk(s.truncate, s.workers[j]); }
    }
  }

  lemma SignalReachesLive(s: State)
    requires MapIsLive(s) && Enabled(s, SignalAll)
    ensures forall i | 0 <= i < |s.workers| ::
      !Retired(SignalStep(s).workers[i]) && IsSock(SignalStep(s).workers[i]) ==> SignalStep(s).workers[i].closing
  {
    hide ParseUuid;
  }

  /** The steps that touch queues and modes only. */
  lemma QueueStepOk(s: State, step: Step)
    requires Inv(s) && Enabled(s, step)
    requires step.Accept? || step.CloseCall? || step.LogOut? || step.BeginDrain? || step.WaitDone? || step.FinishServe?
    ensures Inv(Apply(s, step))
  {
    hide WorkerOk, IsSock, TakenBy, Dispatched, TakeStep, DeliverStep, ReleaseStep, SignalStep, WorkerStep;
  }

  lemma StepKeepsInv(s: State, step: Step)
    requires Inv(s) && Enabled(s, step)
    ensures Inv(Apply(s, step))
  {
    hide Inv, IsSock, TakeKnown, TakeNew, DeliverStep, ReleaseStep, SignalStep;
    match step
    case Take => TakeOk(s);
    case Deliver => DeliverOk(s);
    case Release => ReleaseOk(s);
    case Destroy(w) => DestroyOk(s, w);
    case SignalAll => SignalOk(s);
    case Tick(w) => TickOk(s, w);
    case Receive(w) => ReceiveOk(s, w);
    case SeeClose(w) => RetireOk(s, w);
    case DrainOne(w) => ReceiveOk(s, w);
    case EmptyTest(w) => EmptyTestOk(s, w);
    case LoadUsed(w) => LoadUsedOk(s, w);
    case Show(w, record) => ShowOk(s, w, record);
    case _ => QueueStepOk(s, step);
  }

  lemma TakeOk(s: State)
    requires Inv(s) && Enabled(s, Take)
    ensures Inv(TakeStep(s))
  {
    hide UsedIffHeld, WorkersOk, InputConserved, OutputConserved, ModesOk, Retired;
    if s.incoming[0].uuid in s.workerQueue { TakeKnownOk(s, s.workerQueue[s.incoming[0].uuid]); } else { TakeNewOk(s); }
  }

  lemma DestroyOk(s: State, i: nat)
    requires Inv(s) && Enabled(s, Destroy(i))
    ensures Inv(Apply(s, Destroy(i)))
  {
    hide BodyOk, Flat, ParseUuid, TakenBy, Dispatched;
    LocalChangeOk(s, i, s.workers[i].(closing := true));
  }
}

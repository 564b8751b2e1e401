/**
  What happens in a run of the event processor, told from its steps alone: which events were
  accepted, delivered and handed on, which payloads and records were shown and logged, when an
  idle worker leaves and when a close signal reaches one.  The histories in the state are shown
  to be these, and the laws of shutdown are stated on them.
 */
module EventProcessorHistory {
  import opened Basics
  import opened Uuid
  import opened EventWorker
  import opened EventProcessor
  import opened EventProcessorRuns

  // ---------------------------------------------------------------- reading a run

  /** The events that Write accepted. */
  function Accepts(steps: seq<Step>): seq<Event> {
    if steps == [] then [] else
      var last := steps[|steps| - 1];
      Accepts(steps[..|steps| - 1]) + (if last.Accept? then [last.e] else [])
  }

  function OnDeliver(s: State, step: Step): seq<Event> {
    if step.Deliver? && s.hold.Holding? then [s.hold.e] else []
  }

  /** The worker takes a delivered event if fewer than 1024 are waiting. */
  function OnDeliverTo(s: State, step: Step, i: nat): seq<Event> {
    if step.Deliver? && s.hold.Holding? && s.hold.w == i && i < |s.workers| && |s.workers[i].queue| < 1024
    then [s.hold.e] else []
  }

  function OnHand(s: State, step: Step, i: nat): seq<Event> {
    if (step == Receive(i) || step == DrainOne(i)) && i < |s.workers| && s.workers[i].queue != []
    then [s.workers[i].queue[0]] else []
  }

  /** Closing a worker shows its payload if there is one. */
  function OnShow(s: State, step: Step, i: nat): seq<seq<byte>> {
    if step.Show? && step.w == i && i < |s.workers| && s.workers[i].body.payload != []
    then [s.workers[i].body.payload] else []
  }

  /** What the parser makes of it goes out if it is not empty and fewer than 1024 are waiting. */
  function OnRecord(s: State, step: Step): seq<seq<byte>> {
    if step.Show? && step.w < |s.workers| && s.workers[step.w].body.payload != [] && step.record != [] && |s.outgoing| < 1024
    then [step.record] else []
  }

  function OnLog(s: State, step: Step): seq<seq<byte>> {
    if step.LogOut? && s.outgoing != [] then [s.outgoing[0]] else []
  }

  /** What the steps contribute one after the other. */
  ghost function Collect<T>(run: seq<State>, steps: seq<Step>, f: (State, Step) -> seq<T>): seq<T>
    requires |run| == |steps| + 1
  {
    if steps == [] then [] else
      Collect(run[..|steps|], steps[..|steps| - 1], f) + f(run[|steps| - 1], steps[|steps| - 1])
  }

  ghost function Delivered(run: seq<State>, steps: seq<Step>): seq<Event>
    requires |run| == |steps| + 1
  {
    Collect(run, steps, OnDeliver)
  }

  ghost function DeliveredTo(run: seq<State>, steps: seq<Step>, i: nat): seq<Event>
    requires |run| == |steps| + 1
  {
    Collect(run, steps, (s, step) => OnDeliverTo(s, step, i))
  }

  ghost function HandedBy(run: seq<State>, steps: seq<Step>, i: nat): seq<Event>
    requires |run| == |steps| + 1
  {
    Collect(run, steps, (s, step) => OnHand(s, step, i))
  }

  ghost function ShownBy(run: seq<State>, steps: seq<Step>, i: nat): seq<seq<byte>>
    requires |run| == |steps| + 1
  {
    Collect(run, steps, (s, step) => OnShow(s, step, i))
  }

  ghost function Records(run: seq<State>, steps: seq<Step>): seq<seq<byte>>
    requires |run| == |steps| + 1
  {
    Collect(run, steps, OnRecord)
  }

  ghost function Logged(run: seq<State>, steps: seq<Step>): seq<seq<byte>>
    requires |run| == |steps| + 1
  {
    Collect(run, steps, OnLog)
  }

  // ---------------------------------------------------------------- one step

  lemma QueueHistory(s: State, step: Step)
    requires Enabled(s, step)
    ensures var s' := Apply(s, step);
      && s'.acceptedIn == s.acceptedIn + (if step.Accept? then [step.e] else [])
      && s'.logged == s.logged + OnLog(s, step)
      && (s'.isClosed <==> s.isClosed || step.CloseCall?)
  {
    hide IsSock, Offer, Hand, TickStep, CloseStep;
    assert s.acceptedIn + [] == s.acceptedIn && s.logged + [] == s.logged;
  }

  lemma RecordHistory(s: State, step: Step)
    requires Enabled(s, step)
    ensures Apply(s, step).acceptedOut == s.acceptedOut + OnRecord(s, step)
  {
    hide IsSock, Offer, Hand, TickStep, CloseStep;
    assert s.acceptedOut + [] == s.acceptedOut;
  }

  lemma DispatchHistory(s: State, step: Step)
    requires Enabled(s, step)
    ensures Dispatched(Apply(s, step).dispatches) == Dispatched(s.dispatches) + OnDeliver(s, step)
  {
    hide IsSock, Offer, Hand, TickStep, CloseStep, Dispatched, TakenBy;
    assert Dispatched(s.dispatches) + [] == Dispatched(s.dispatches);
    if step.Deliver? {
      LogSnoc(s.dispatches, Dispatch(s.hold.e, s.hold.w, |s.workers[s.hold.w].queue| < MAX_CHAN_LEN), 0);
    }
  }

  /** What a step does to a worker's histories. */
  lemma WorkerHistory(s: State, step: Step, i: nat, w': Worker)
    requires i < |s.workers| && Enabled(s, step) && Moves(s, step, i, s.workers[i], w')
    ensures var w := s.workers[i];
      && w'.accepted == w.accepted + OnDeliverTo(s, step, i)
      && w'.handed == w.handed + OnHand(s, step, i)
      && w'.body.shown == w.body.shown + OnShow(s, step, i)
  {
    hide InMap, MovesItself, Offer, WriteEvent, Display, Hand;
    var w := s.workers[i];
    assert w.accepted + [] == w.accepted && w.handed + [] == w.handed && w.body.shown + [] == w.body.shown;
    if OwnStep(step, i) {
      OwnHistory(s.truncate, step, w, w');
    } else if step.Deliver? && s.hold.Holding? && s.hold.w == i {
      OfferHistory(w, s.hold.e);
    }
  }

  lemma OfferHistory(w: Worker, e: Event)
    ensures Offer(w, e).accepted == w.accepted + (if |w.queue| < 1024 then [e] else [])
    ensures Offer(w, e).handed == w.handed && Offer(w, e).body == w.body
  {
    assert w.accepted + [] == w.accepted;
  }

  lemma OwnHistory(t: int, step: Step, w: Worker, w': Worker)
    requires MovesItself(t, step, w, w')
    ensures w'.accepted == w.accepted
    ensures w'.handed == w.handed + (if step.Receive? || step.DrainOne? then [w.queue[0]] else [])
    ensures step.Receive? || step.DrainOne? ==> w.queue != []
    ensures w'.body.shown == w.body.shown + (if step.Show? && w.body.payload != [] then [w.body.payload] else [])
    ensures step.Show? ==> w'.body.payload == []
  {
    hide IsSock;
    assert w.handed + [] == w.handed && w.body.shown + [] == w.body.shown;
  }

  /** A worker that has just been started has no history. */
  lemma FreshHistory(s: State, step: Step, i: nat, s': State)
    requires Enabled(s, step) && s' == Apply(s, step) && |s.workers| <= i < |s'.workers|
    ensures step.Take? && s'.workers[i] == NewWorker(s.incoming[0].uuid).(used := true)
  {
    hide IsSock, Offer, WorkerStep, MovesItself;
    match step
    case Tick(j) => OwnMoves(s, step, j, j);
    case Receive(j) => OwnMoves(s, step, j, j);
    case SeeClose(j) => OwnMoves(s, step, j, j);
    case DrainOne(j) => OwnMoves(s, step, j, j);
    case EmptyTest(j) => OwnMoves(s, step, j, j);
    case LoadUsed(j) => OwnMoves(s, step, j, j);
    case Show(j, _) => OwnMoves(s, step, j, j);
    case _ =>
  }

  // ---------------------------------------------------------------- the histories are the steps

  lemma CollectLast<T>(run: seq<State>, steps: seq<Step>, f: (State, Step) -> seq<T>)
    requires |run| == |steps| + 1 && steps != []
    ensures Collect(run, steps, f) ==
      Collect(run[..|run| - 1], steps[..|steps| - 1], f) + f(run[|run| - 2], steps[|steps| - 1])
  {
  }

  /** Accepted, dispatched, shown and logged are what the steps of the run say. */
  lemma {:induction false} HistoryIsSteps(t: int, run: seq<State>, steps: seq<Step>)
    requires IsRun(t, run, steps)
    ensures |run| == |steps| + 1
    ensures var z := run[|run| - 1];
      && z.acceptedIn == Accepts(steps)
      && Dispatched(z.dispatches) == Delivered(run, steps)
      && z.acceptedOut == Records(run, steps)
      && z.logged == Logged(run, steps)
      && (z.isClosed <==> CloseCall in steps)
  {
    hide Apply, Enabled, Dispatched, OnDeliver, OnRecord, OnLog;
    if steps != [] {
      var n := |steps| - 1;
      RacedPrefix(t, run, steps, 0);
      assert run[..|run| - 1][|run| - 2] == run[|run| - 2];
      HistoryIsSteps(t, run[..|run| - 1], steps[..n]);
      QueueHistory(run[|run| - 2], steps[n]);
      RecordHistory(run[|run| - 2], steps[n]);
      DispatchHistory(run[|run| - 2], steps[n]);
      assert steps == steps[..n] + [steps[n]];
    } else {
      NothingDispatched();
    }
  }

  lemma NothingDispatched()
    ensures Dispatched([]) == []
  {
  }

  lemma {:induction false} NoHistoryYet(t: int, run: seq<State>, steps: seq<Step>, i: nat)
    requires IsRun(t, run, steps) && |run| == |steps| + 1 && i >= |run[|run| - 1].workers|
    ensures DeliveredTo(run, steps, i) == [] && HandedBy(run, steps, i) == [] && ShownBy(run, steps, i) == []
  {
    hide Apply, Enabled;
    if steps != [] {
      RacedPrefix(t, run, steps, i);
      assert run[..|run| - 1][|run| - 2] == run[|run| - 2];
      WorkersStay(run[|run| - 2], steps[|steps| - 1]);
      NoHistoryYet(t, run[..|run| - 1], steps[..|steps| - 1], i);
    }
  }

  lemma WorkersStay(s: State, step: Step)
    requires Enabled(s, step)
    ensures |s.workers| <= |Apply(s, step).workers|
  {
    if s.workers != [] { StepMoves(s, step, 0, Apply(s, step)); }
  }

  /** A worker has accepted what was delivered to it while there was room, handed on what it
      received, and shown the payload it had at each closing, in order. */
  lemma {:induction false} WorkerHistoryIsSteps(t: int, run: seq<State>, steps: seq<Step>, i: nat)
    requires IsRun(t, run, steps)
    ensures |run| == |steps| + 1
    ensures i < |run[|run| - 1].workers| ==>
      var w := run[|run| - 1].workers[i];
      && w.accepted == DeliveredTo(run, steps, i)
      && w.handed == HandedBy(run, steps, i)
      && w.body.shown == ShownBy(run, steps, i)
      && (w.phase.Stopped? ==> w.body.payload == [])
  {
    hide Apply, Enabled, OnDeliverTo, OnHand, OnShow;
    if steps != [] && i < |run[|run| - 1].workers| {
      var n := |steps| - 1;
      RacedPrefix(t, run, steps, i);
      var s, s' := run[|run| - 2], run[|run| - 1];
      assert run[..|run| - 1][|run| - 2] == s;
      if i < |s.workers| {
        WorkerHistoryIsSteps(t, run[..|run| - 1], steps[..n], i);
        StepMoves(s, steps[n], i, s');
        WorkerHistory(s, steps[n], i, s'.workers[i]);
        if s'.workers[i].phase.Stopped? { StoppedMove(s, steps[n], i, s'.workers[i]); }
      } else {
        NoHistoryYet(t, run[..|run| - 1], steps[..n], i);
        FreshHistory(s, steps[n], i, s');
        FreshContributes(s, steps[n], i);
      }
    }
  }

  lemma FreshContributes(s: State, step: Step, i: nat)
    requires i >= |s.workers|
    ensures OnDeliverTo(s, step, i) == [] && OnHand(s, step, i) == [] && OnShow(s, step, i) == []
  {
  }

  lemma StoppedMove(s: State, step: Step, i: nat, w': Worker)
    requires i < |s.workers| && Moves(s, step, i, s.workers[i], w') && w'.phase.Stopped?
    requires s.workers[i].phase.Stopped? ==> s.workers[i].body.payload == []
    ensures w'.body.payload == []
  {
    hide InMap, IsSock, WriteEvent;
  }

  /** A worker that has returned has shown everything it was handed: nothing is left in its
      payload, and with truncation off the bytes shown are those of the events handed on. */
  lemma StoppedShowsAll(t: int, run: seq<State>, steps: seq<Step>, i: nat)
    requires IsRun(t, run, steps) && |run| == |steps| + 1
    requires i < |run[|run| - 1].workers| && run[|run| - 1].workers[i].phase.Stopped?
    ensures Joined(run[|run| - 1].workers[i].body.current) == []
    ensures t <= 0 ==> JoinedAll(ShownBy(run, steps, i)) == Joined(HandedBy(run, steps, i))
  {
    hide Joined, JoinedAll, Flat, ParseUuid, IsRun, ShownBy, HandedBy, MapIsLive, UsedIffHeld,
         InputConserved, OutputConserved, ModesOk;
    WorkerHistoryIsSteps(t, run, steps, i);
    RunKeepsInv(t, run, steps, |run| - 1);
    TruncateIsFixed(t, run, steps, |run| - 1);
    var w := run[|run| - 1].workers[i];
    assert WorkerOk(t, w);
    EmptyPayload(t, w.body);
    if t <= 0 {
      ShownIsJoined(w.body.batches, w.body.shown);
      JoinedConcat(Flat(w.body.batches), w.body.current);
    }
  }

  // ---------------------------------------------------------------- shutdown

  /** When Serve returns: the events delivered to workers are exactly the accepted ones, in
      order, each to a worker of its own UUID; no worker runs; the map and the channels are
      empty; every worker has handed on what it took, but for a stranded last event; and the
      logger has received exactly the records that found room, in order. */
  lemma ShutdownIsComplete(t: int, run: seq<State>, steps: seq<Step>)
    requires IsRun(t, run, steps) && |run| == |steps| + 1 && run[|run| - 1].mode.Returned?
    ensures CloseCall in steps
    ensures Delivered(run, steps) == Accepts(steps)
    ensures Logged(run, steps) == Records(run, steps)
    ensures var z := run[|run| - 1];
      && z.incoming == [] && z.outgoing == [] && z.workerQueue == map[] && z.hold.Idle?
      && (forall i | 0 <= i < |z.workers| ::
            && z.workers[i].phase.Stopped?
            && |z.workers[i].queue| <= 1
            && DeliveredTo(run, steps, i) == HandedBy(run, steps, i) + z.workers[i].queue)
  {
    hide Apply, Enabled, IsRun, Dispatched, TakenBy, Collect, Delivered, DeliveredTo, HandedBy, Records, Logged;
    ReturnedRun(t, run, steps);
    HistoryIsSteps(t, run, steps);
    var z := run[|run| - 1];
    LogLengths(z.dispatches);
    assert Dispatched(z.dispatches) == z.acceptedIn;
    forall i | 0 <= i < |z.workers| ensures DeliveredTo(run, steps, i) == HandedBy(run, steps, i) + z.workers[i].queue {
      WorkerHistoryIsSteps(t, run, steps, i);
    }
  }

  /** Every event is delivered to a worker of its own UUID. */
  lemma DeliveredByUuid(t: int, run: seq<State>, steps: seq<Step>, k: nat)
    requires IsRun(t, run, steps) && k < |steps| && steps[k].Deliver?
    ensures |run| == |steps| + 1
    ensures var s := run[k]; s.hold.Holding? && s.hold.w < |s.workers| && s.workers[s.hold.w].uuid == s.hold.e.uuid
  {
    hide WorkerOk, MapIsLive, UsedIffHeld, OutputConserved, ModesOk, Apply;
    RunKeepsInv(t, run, steps, k);
    assert Enabled(run[k], steps[k]) && run[k + 1] == Apply(run[k], steps[k]);
  }

  // ---------------------------------------------------------------- the bounds of the queues

  predicate WithinBounds(s: State) {
    && |s.incoming| <= 1024 && |s.outgoing| <= 1024
    && forall i | 0 <= i < |s.workers| :: |s.workers[i].queue| <= 1024
  }

  lemma BoundsStep(s: State, step: Step)
    requires Enabled(s, step) && WithinBounds(s)
    ensures WithinBounds(Apply(s, step))
  {
    var s' := Apply(s, step);
    ChannelBounds(s, step);
    forall i | 0 <= i < |s'.workers| ensures |s'.workers[i].queue| <= 1024 {
      hide Apply, Enabled, Moves;
      if i < |s.workers| {
        StepMoves(s, step, i, s');
        QueueBound(s, step, i, s'.workers[i]);
      } else {
        FreshHistory(s, step, i, s');
      }
    }
  }

  lemma ChannelBounds(s: State, step: Step)
    requires Enabled(s, step) && |s.incoming| <= 1024 && |s.outgoing| <= 1024
    ensures |Apply(s, step).incoming| <= 1024 && |Apply(s, step).outgoing| <= 1024
  {
    hide IsSock, Offer, Hand, TickStep, CloseStep;
  }

  lemma QueueBound(s: State, step: Step, i: nat, w': Worker)
    requires i < |s.workers| && Moves(s, step, i, s.workers[i], w') && |s.workers[i].queue| <= 1024
    ensures |w'.queue| <= 1024
  {
    hide InMap, IsSock, WriteEvent, Display;
  }

  /** No channel ever holds more than its 1024. */
  lemma {:induction false} QueuesAreBounded(t: int, run: seq<State>, steps: seq<Step>, k: nat)
    requires IsRun(t, run, steps) && k < |run|
    ensures WithinBounds(run[k])
  {
    hide Apply, Enabled, WithinBounds;
    if k == 0 {
      StartBounds(t);
    } else {
      QueuesAreBounded(t, run, steps, k - 1);
      assert Enabled(run[k - 1], steps[k - 1]) && run[k - 1 + 1] == Apply(run[k - 1], steps[k - 1]);
      BoundsStep(run[k - 1], steps[k - 1]);
    }
  }

  lemma StartBounds(t: int)
    ensures WithinBounds(Initial(t))
  {
  }

  lemma AcceptWaits(s: State, e: Event)
    requires !s.isClosed && |s.incoming| < 1024
    ensures Enabled(s, Accept(e)) && Apply(s, Accept(e)).incoming == s.incoming + [e] && !Apply(s, Accept(e)).isClosed
  {
  }

  /** The bound is reached: an open processor takes 1024 events before Serve takes one. */
  lemma {:induction false} RoomFor1024(t: int, es: seq<Event>) returns (run: seq<State>, steps: seq<Step>)
    requires |es| <= 1024
    ensures IsRun(t, run, steps) && |run| > 0 && Accepts(steps) == es
    ensures run[|run| - 1].incoming == es && !run[|run| - 1].isClosed
  {
    hide Apply, Enabled;
    if es == [] {
      run, steps := [Initial(t)], [];
    } else {
      var n := |es| - 1;
      run, steps := RoomFor1024(t, es[..n]);
      AcceptWaits(run[|run| - 1], es[n]);
      ghost var before := steps;
      run, steps := Extend(t, run, steps, Accept(es[n]));
      assert steps[..|before|] == before;
      assert es == es[..n] + [es[n]];
    }
  }

  // ---------------------------------------------------------------- idle workers

  /** The ticks of worker `i` since it last received an event or was closed. */
  function TicksSince(steps: seq<Step>, i: nat): nat {
    if steps == [] then 0 else
      var last := steps[|steps| - 1];
      if last == Receive(i) || (last.Show? && last.w == i) then 0
      else TicksSince(steps[..|steps| - 1], i) + (if last == Tick(i) then 1 else 0)
  }

  lemma TicksMove(s: State, step: Step, i: nat, w': Worker)
    requires i < |s.workers| && Moves(s, step, i, s.workers[i], w') && w'.phase.Loop?
    ensures step == Receive(i) || (step.Show? && step.w == i) ==> w'.ticks == 0
    ensures step == Tick(i) ==> s.workers[i].phase.Loop? && w'.ticks == s.workers[i].ticks + 1
    ensures !OwnStep(step, i) ==> s.workers[i].phase.Loop? && w'.ticks == s.workers[i].ticks
    ensures OwnStep(step, i) ==> step == Receive(i) || (step.Show? && step.w == i) || step == Tick(i)
  {
    hide InMap, IsSock, WriteEvent, Display;
  }

  lemma {:induction false} TicksAreSteps(t: int, run: seq<State>, steps: seq<Step>, i: nat)
    requires IsRun(t, run, steps)
    ensures |run| == |steps| + 1
    ensures i >= |run[|run| - 1].workers| ==> TicksSince(steps, i) == 0
    ensures i < |run[|run| - 1].workers| && run[|run| - 1].workers[i].phase.Loop? ==>
      run[|run| - 1].workers[i].ticks == TicksSince(steps, i)
  {
    hide Apply, Enabled;
    if steps != [] {
      var n := |steps| - 1;
      RacedPrefix(t, run, steps, i);
      var s, s', last := run[|run| - 2], run[|run| - 1], steps[n];
      assert run[..|run| - 1][|run| - 2] == s;
      TicksAreSteps(t, run[..|run| - 1], steps[..n], i);
      WorkersStay(s, last);
      if i < |s.workers| {
        StepMoves(s, last, i, s');
        if s'.workers[i].phase.Loop? { TicksMove(s, last, i, s'.workers[i]); }
      } else {
        OwnStepNeedsWorker(s, last, i);
        if i < |s'.workers| { FreshHistory(s, last, i, s'); }
      }
    }
  }

  lemma OwnStepNeedsWorker(s: State, step: Step, i: nat)
    requires Enabled(s, step) && i >= |s.workers|
    ensures !OwnStep(step, i)
  {
  }

  /** A worker is idle for eleven ticks before it drains: a default worker then leaves the map,
      a socket worker does not; and no earlier tick has any such effect. */
  lemma IdleWorkerLeaves(t: int, run: seq<State>, steps: seq<Step>, k: nat, i: nat)
    requires IsRun(t, run, steps) && k < |steps| && steps[k] == Tick(i)
    ensures |run| == |steps| + 1 && i < |run[k].workers| && i < |run[k + 1].workers|
    ensures run[k + 1].workers[i].phase.Loop? <==> TicksSince(steps[..k], i) < 11
    ensures Retired(run[k + 1].workers[i]) <==>
      TicksSince(steps[..k], i) >= 11 && ParseUuid(run[k].workers[i].uuid).life == Default
  {
    hide Apply, ParseUuid, Inv;
    RunCut(t, run, steps, k);
    TicksAreSteps(t, run[..k + 1], steps[..k], i);
    assert Enabled(run[k], steps[k]) && run[k + 1] == Apply(run[k], steps[k]);
    hide Enabled;
    assert run[..k + 1][k] == run[k];
    TickEnabled(run[k], i);
    StepMoves(run[k], steps[k], i, run[k + 1]);
  }

  lemma TickEnabled(s: State, i: nat)
    requires Enabled(s, Tick(i))
    ensures i < |s.workers| && s.workers[i].phase.Loop?
  {
  }

  lemma RunCut(t: int, run: seq<State>, steps: seq<Step>, k: nat)
    requires IsRun(t, run, steps) && k <= |steps|
    ensures |run| == |steps| + 1 && IsRun(t, run[..k + 1], steps[..k])
  {
    hide Apply, Enabled, Initial;
    forall j | 0 <= j < k ensures Enabled(run[..k + 1][j], steps[..k][j]) && run[..k + 1][j + 1] == Apply(run[..k + 1][j], steps[..k][j]) {
      assert Enabled(run[j], steps[j]) && run[j + 1] == Apply(run[j], steps[j]);
    }
  }

  // ---------------------------------------------------------------- close signals

  /** The step tells worker `i` to close. */
  predicate Signals(s: State, step: Step, i: nat) {
    || step == Destroy(i)
    || (step.SignalAll? && i < |s.workers| && !Retired(s.workers[i]) && ParseUuid(s.workers[i].uuid).life == Sock)
  }

  lemma ClosingMove(s: State, step: Step, i: nat)
    requires Inv(s) && Enabled(s, step) && i < |s.workers|
    ensures i < |Apply(s, step).workers|
    ensures Apply(s, step).workers[i].closing <==> s.workers[i].closing || Signals(s, step, i)
  {
    hide WorkerOk, UsedIffHeld, InputConserved, OutputConserved, ModesOk, ParseUuid, WriteEvent, Display, Moves, MovesItself;
    StepMoves(s, step, i, Apply(s, step));
    if OwnStep(step, i) {
      ClosingOwnMove(s, step, i, Apply(s, step).workers[i]);
    } else {
      match step
      case Tick(j) => OthersStay(s, step, j, i);
      case Receive(j) => OthersStay(s, step, j, i);
      case SeeClose(j) => OthersStay(s, step, j, i);
      case DrainOne(j) => OthersStay(s, step, j, i);
      case EmptyTest(j) => OthersStay(s, step, j, i);
      case LoadUsed(j) => OthersStay(s, step, j, i);
      case Show(j, _) => OthersStay(s, step, j, i);
      case _ => ClosingServeMove(s, step, i);
    }
  }

  lemma ClosingOwnMove(s: State, step: Step, i: nat, w': Worker)
    requires i < |s.workers| && OwnStep(step, i) && Moves(s, step, i, s.workers[i], w')
    ensures w'.closing == s.workers[i].closing && !Signals(s, step, i)
  {
    hide InMap, IsSock, WriteEvent, Display;
  }

  lemma ClosingServeMove(s: State, step: Step, i: nat)
    requires MapIsLive(s) && Enabled(s, step) && i < |s.workers| && i < |Apply(s, step).workers|
    requires !step.Tick? && !step.Receive? && !step.SeeClose? && !step.DrainOne? && !step.EmptyTest? && !step.LoadUsed? && !step.Show?
    ensures Apply(s, step).workers[i].closing <==> s.workers[i].closing || Signals(s, step, i)
  {
    hide ParseUuid, WorkerStep, TakeStep, SignalStep, MapIsLive;
    if step.SignalAll? {
      SignalCloses(s, i);
    } else if step.Take? {
      TakeCloses(s, i);
    }
  }

  lemma SignalCloses(s: State, i: nat)
    requires MapIsLive(s) && i < |s.workers|
    ensures |SignalStep(s).workers| == |s.workers|
    ensures SignalStep(s).workers[i].closing <==> s.workers[i].closing || Signals(s, SignalAll, i)
  {
    hide ParseUuid;
  }

  lemma TakeCloses(s: State, i: nat)
    requires s.incoming != [] && i < |s.workers|
    ensures i < |TakeStep(s).workers| && TakeStep(s).workers[i].closing == s.workers[i].closing
  {
    hide ParseUuid;
  }

  /** A worker has been told to close exactly if some step told it. */
  lemma {:induction false} ClosingIsSignalled(t: int, run: seq<State>, steps: seq<Step>, i: nat)
    requires IsRun(t, run, steps)
    ensures |run| == |steps| + 1
    ensures i < |run[|run| - 1].workers| ==>
      (run[|run| - 1].workers[i].closing <==> exists k :: 0 <= k < |steps| && i < |run[k].workers| && Signals(run[k], steps[k], i))
  {
    hide Apply, Enabled, Inv, Signals;
    if steps != [] && i < |run[|run| - 1].workers| {
      var n := |steps| - 1;
      RacedPrefix(t, run, steps, i);
      var s, s', pre := run[n], run[n + 1], run[..|run| - 1];
      assert forall k | 0 <= k <= n :: pre[k] == run[k];
      assert forall k | 0 <= k < n :: steps[..n][k] == steps[k];
      RunKeepsInv(t, run, steps, n);
      ClosingIsSignalled(t, pre, steps[..n], i);
      if i < |s.workers| {
        ClosingMove(s, steps[n], i);
      } else {
        FreshHistory(s, steps[n], i, s');
        WorkersGrow(t, run, steps, n, i);
      }
    }
  }

  lemma {:induction false} WorkersGrow(t: int, run: seq<State>, steps: seq<Step>, n: nat, i: nat)
    requires IsRun(t, run, steps) && |run| == |steps| + 1 && n < |run| && i >= |run[n].workers|
    ensures forall k | 0 <= k <= n :: i >= |run[k].workers|
  {
    hide Apply, Enabled;
    if n > 0 {
      assert Enabled(run[n - 1], steps[n - 1]) && run[n - 1 + 1] == Apply(run[n - 1], steps[n - 1]);
      WorkersStay(run[n - 1], steps[n - 1]);
      WorkersGrow(t, run, steps, n - 1, i);
    }
  }
}

/**
  Laws of whole runs of the event processor: exclusive hold, nothing written behind a sealed
  worker, the one event a retiring worker can strand and exactly when, what a worker's life
  conserves, and an ordered and complete shutdown.
 */
module EventProcessorRuns {
  import opened Uuid
  import opened EventWorker
  import opened EventProcessor

  /** `run` lists the states, `steps` the steps between them. */
  ghost predicate IsRunFrom(s: State, run: seq<State>, steps: seq<Step>) {
    && |run| == |steps| + 1
    && run[0] == s
    && forall k | 0 <= k < |steps| :: Enabled(run[k], steps[k]) && run[k + 1] == Apply(run[k], steps[k])
  }

  ghost predicate IsRun(t: int, run: seq<State>, steps: seq<Step>) {
    IsRunFrom(Initial(t), run, steps)
  }

  /** Every state of every run satisfies the invariant. */
  lemma {:induction false} RunKeepsInv(t: int, run: seq<State>, steps: seq<Step>, k: nat)
    requires IsRun(t, run, steps) && k < |run|
    ensures Inv(run[k])
  {
    hide Inv, Apply, Enabled;
    if k == 0 {
      InitialOk(t);
    } else {
      RunKeepsInv(t, run, steps, k - 1);
      assert Enabled(run[k - 1], steps[k - 1]) && run[k - 1 + 1] == Apply(run[k - 1], steps[k - 1]);
      StepKeepsInv(run[k - 1], steps[k - 1]);
    }
  }

  lemma InitialOk(t: int)
    ensures Inv(Initial(t))
  {
  }

  // ---------------------------------------------------------------- holding a worker

  /** In every interleaving `used` is true exactly while Serve is between Get and Put on that
      worker; so Get, which needs it false, and Put, which needs it true, never panic. */
  lemma SwapsNeverFail(t: int, run: seq<State>, steps: seq<Step>, k: nat)
    requires IsRun(t, run, steps) && k < |run|
    ensures forall i | 0 <= i < |run[k].workers| :: run[k].workers[i].used <==> Holds(run[k].hold, i)
    ensures k < |steps| && steps[k].Take? ==> forall i | 0 <= i < |run[k].workers| :: !run[k].workers[i].used
    ensures k < |steps| && steps[k].Release? ==>
      run[k].hold.Written? && run[k].hold.w < |run[k].workers| && run[k].workers[run[k].hold.w].used
  {
    hide Apply, MapIsLive, WorkersOk, InputConserved, OutputConserved, ModesOk;
    RunKeepsInv(t, run, steps, k);
    if k < |steps| { assert Enabled(run[k], steps[k]) && run[k + 1] == Apply(run[k], steps[k]); }
  }

  /** The steps that worker `i` takes itself. */
  predicate OwnStep(step: Step, i: nat) {
    match step
    case Tick(w) => w == i
    case Receive(w) => w == i
    case SeeClose(w) => w == i
    case DrainOne(w) => w == i
    case EmptyTest(w) => w == i
    case LoadUsed(w) => w == i
    case Show(w, _) => w == i
    case _ => false
  }

  ghost predicate InMap(s: State, i: nat) { exists u :: u in s.workerQueue && s.workerQueue[u] == i }

  lemma TakeEffect(s: State, i: nat)
    requires Enabled(s, Take) && i < |s.workers|
    ensures |s.workers| <= |TakeStep(s).workers|
    ensures var w, w' := s.workers[i], TakeStep(s).workers[i]; w' == w || (w' == w.(used := true) && InMap(s, i))
  {
  }

  lemma SignalEffect(s: State, i: nat)
    requires i < |s.workers|
    ensures |s.workers| == |SignalStep(s).workers|
    ensures var w, w' := s.workers[i], SignalStep(s).workers[i]; w' == w || (w' == w.(closing := true) && InMap(s, i))
  {
  }

  /** What a step of the worker itself makes of it. */
  ghost predicate MovesItself(t: int, step: Step, w: Worker, w': Worker) {
    match step
    case Tick(_) => w.phase.Loop? &&
      w' == if w.ticks > MAX_TICKER_COUNT && !IsSock(w) then w.(phase := Draining(true)) else TickStep(w)
    case Receive(_) => w.phase.Loop? && w.queue != [] && w' == Hand(t, w).(ticks := 0)
    case SeeClose(_) => w.phase.Loop? && w' == w.(phase := Draining(true))
    case DrainOne(_) => w.phase.Draining? && w.queue != [] && w' == Hand(t, w)
    case EmptyTest(_) => w.phase.Draining? && w.queue == [] && w' == w.(phase := Emptied(w.phase.last), raced := false)
    case LoadUsed(_) => w.phase.Emptied? && w' == w.(phase := if w.used then Draining(w.phase.last) else Closing(w.phase.last))
    case Show(_, _) => w.phase.Closing? && w' == CloseStep(w)
    case _ => false
  }

  /** What any step can do to worker `i`: its own step, one of Serve's three steps on it, a
      close signal, or nothing. */
  ghost predicate Moves(s: State, step: Step, i: nat, w: Worker, w': Worker) {
    if OwnStep(step, i) then MovesItself(s.truncate, step, w, w')
    else if step.Deliver? && s.hold.Holding? && s.hold.w == i then w' == Offer(w, s.hold.e)
    else if step.Release? && s.hold.Written? && s.hold.w == i then w' == w.(used := false)
    else w' == w || (InMap(s, i) && ((step.Take? && w' == w.(used := true)) || w' == w.(closing := true)))
  }

  lemma OthersStay(s: State, step: Step, j: nat, i: nat)
    requires j < |s.workers| && i < |s.workers| && i != j && Enabled(s, step) && OwnStep(step, j)
    ensures |WorkerStep(s, step, j).workers| == |s.workers|
    ensures WorkerStep(s, step, j).workers[i] == s.workers[i]
  {
    hide IsSock, Offer, Hand, TickStep, CloseStep;
  }

  lemma SelfMoves(s: State, step: Step, i: nat)
    requires i < |s.workers| && Enabled(s, step) && OwnStep(step, i)
    ensures |WorkerStep(s, step, i).workers| == |s.workers|
    ensures MovesItself(s.truncate, step, s.workers[i], WorkerStep(s, step, i).workers[i])
  {
    hide MovesItself, WorkerStep, Enabled;
    if step.EmptyTest? || step.LoadUsed? || step.Show? { SelfMovesDrained(s, step, i); } else { SelfMovesLoop(s, step, i); }
  }

  lemma SelfMovesDrained(s: State, step: Step, i: nat)
    requires i < |s.workers| && Enabled(s, step) && OwnStep(step, i) && (step.EmptyTest? || step.LoadUsed? || step.Show?)
    ensures |WorkerStep(s, step, i).workers| == |s.workers|
    ensures MovesItself(s.truncate, step, s.workers[i], WorkerStep(s, step, i).workers[i])
  {
    hide IsSock, CloseStep;
  }

  lemma SelfMovesLoop(s: State, step: Step, i: nat)
    requires i < |s.workers| && Enabled(s, step) && OwnStep(step, i) && !step.EmptyTest? && !step.LoadUsed? && !step.Show?
    ensures |WorkerStep(s, step, i).workers| == |s.workers|
    ensures MovesItself(s.truncate, step, s.workers[i], WorkerStep(s, step, i).workers[i])
  {
    hide IsSock, Hand, TickStep;
  }

  lemma OwnMoves(s: State, step: Step, j: nat, i: nat)
    requires j < |s.workers| && i < |s.workers| && Enabled(s, step) && OwnStep(step, j)
    ensures |WorkerStep(s, step, j).workers| == |s.workers|
    ensures var w, w' := s.workers[i], WorkerStep(s, step, j).workers[i];
      if i == j then MovesItself(s.truncate, step, w, w') else w' == w
  {
    hide MovesItself, WorkerStep, Enabled;
    if i == j { SelfMoves(s, step, i); } else { OthersStay(s, step, j, i); }
  }

  lemma StepMoves(s: State, step: Step, i: nat, s': State)
    requires Enabled(s, step) && i < |s.workers| && s' == Apply(s, step)
    ensures |s.workers| <= |s'.workers|
    ensures Moves(s, step, i, s.workers[i], s'.workers[i])
  {
    hide IsSock, Offer, TakeStep, SignalStep, WorkerStep, MovesItself;
    match step
    case Take => TakeEffect(s, i);
    case SignalAll => SignalEffect(s, i);
    case Tick(j) => OwnMoves(s, step, j, i);
    case Receive(j) => OwnMoves(s, step, j, i);
    case SeeClose(j) => OwnMoves(s, step, j, i);
    case DrainOne(j) => OwnMoves(s, step, j, i);
    case EmptyTest(j) => OwnMoves(s, step, j, i);
    case LoadUsed(j) => OwnMoves(s, step, j, i);
    case Show(j, _) => OwnMoves(s, step, j, i);
    case _ =>
  }

  lemma SealedMove(s: State, step: Step, i: nat, w': Worker)
    requires Inv(s) && i < |s.workers| && Sealed(s.workers[i])
    requires Moves(s, step, i, s.workers[i], w')
    ensures var w := s.workers[i];
      Sealed(w') && w'.queue == w.queue && w'.accepted == w.accepted && w'.handed == w.handed
  {
    SealedNotHeld(s, i);
    hide Inv, IsSock, Hand, TickStep, Display;
  }

  lemma SealedNotHeld(s: State, i: nat)
    requires Inv(s) && i < |s.workers| && Sealed(s.workers[i])
    ensures !Holds(s.hold, i) && Retired(s.workers[i])
    ensures !InMap(s, i)
  {
    hide BodyOk, Flat, ParseUuid, InputConserved, OutputConserved, ModesOk;
    assert WorkerOk(s.truncate, s.workers[i]);
  }

  /** Once a worker out of the map has read `used` as false, no later step touches its queue. */
  lemma {:induction false} SealedIsFrozen(t: int, run: seq<State>, steps: seq<Step>, i: nat, j: nat, k: nat)
    requires IsRun(t, run, steps) && j <= k < |run|
    requires i < |run[j].workers| && Sealed(run[j].workers[i])
    ensures i < |run[k].workers| && Sealed(run[k].workers[i])
    ensures run[k].workers[i].queue == run[j].workers[i].queue
    ensures run[k].workers[i].accepted == run[j].workers[i].accepted
    ensures run[k].workers[i].handed == run[j].workers[i].handed
  {
    hide Inv, Apply, Enabled;
    if j < k {
      SealedIsFrozen(t, run, steps, i, j, k - 1);
      RunKeepsInv(t, run, steps, k - 1);
      assert Enabled(run[k - 1], steps[k - 1]) && run[k - 1 + 1] == Apply(run[k - 1], steps[k - 1]);
      StepMoves(run[k - 1], steps[k - 1], i, run[k]);
      SealedMove(run[k - 1], steps[k - 1], i, run[k].workers[i]);
    }
  }

  // ---------------------------------------------------------------- the stranded event

  /** Step `k` writes to retired worker `i` between an empty test and the load of `used`, and
      no empty test of that worker follows. */
  ghost predicate Strands(run: seq<State>, steps: seq<Step>, i: nat, k: nat)
    requires |run| == |steps| + 1
  {
    && k < |steps|
    && DeliversInGap(run[k], steps[k], i)
    && forall j | k < j < |steps| :: steps[j] != EmptyTest(i)
  }

  ghost predicate PastEmptyTest(w: Worker) { w.phase == Emptied(true) || Sealed(w) }

  ghost predicate DeliversInGap(s: State, step: Step, i: nat) {
    step.Deliver? && s.hold.Holding? && s.hold.w == i && At(s, i, Emptied(true))
  }

  lemma RacedMove(s: State, step: Step, i: nat, w': Worker)
    requires i < |s.workers| && Moves(s, step, i, s.workers[i], w') && PastEmptyTest(w')
    requires Sealed(s.workers[i]) ==> !Holds(s.hold, i)
    requires s.hold.Holding? && s.hold.w == i && At(s, i, Emptied(true)) ==> s.workers[i].queue == []
    ensures step == EmptyTest(i) ==> !w'.raced
    ensures step != EmptyTest(i) ==>
      PastEmptyTest(s.workers[i]) && (w'.raced <==> s.workers[i].raced || DeliversInGap(s, step, i))
  {
    hide InMap, MovesItself, Offer;
    if OwnStep(step, i) {
      RacedOwnMove(s.truncate, step, i, s.workers[i], w');
    } else if step.Deliver? && s.hold.Holding? && s.hold.w == i {
      RacedOffer(s.workers[i], s.hold.e);
    }
  }

  lemma RacedOwnMove(t: int, step: Step, i: nat, w: Worker, w': Worker)
    requires OwnStep(step, i) && MovesItself(t, step, w, w') && PastEmptyTest(w')
    ensures step == EmptyTest(i) ==> !w'.raced
    ensures step != EmptyTest(i) ==> PastEmptyTest(w) && w'.raced == w.raced
  {
    hide IsSock, WriteEvent, Display;
  }

  lemma RacedOffer(w: Worker, e: Event)
    requires w.phase == Emptied(true) ==> w.queue == []
    ensures PastEmptyTest(Offer(w, e)) == PastEmptyTest(w)
    ensures w.phase == Emptied(true) ==> Offer(w, e).raced
    ensures !w.phase.Emptied? ==> Offer(w, e).raced == w.raced
  {
  }

  lemma EmptyAtGap(s: State, i: nat)
    requires Inv(s) && i < |s.workers|
    ensures s.hold.Holding? && s.hold.w == i && At(s, i, Emptied(true)) ==> s.workers[i].queue == []
  {
    hide WorkerOk, MapIsLive, UsedIffHeld, InputConserved, OutputConserved, ModesOk;
  }

  lemma RacedPrefix(t: int, run: seq<State>, steps: seq<Step>, i: nat)
    requires IsRun(t, run, steps) && steps != []
    ensures IsRun(t, run[..|run| - 1], steps[..|steps| - 1])
    ensures Enabled(run[|run| - 2], steps[|steps| - 1]) && run[|run| - 1] == Apply(run[|run| - 2], steps[|steps| - 1])
  {
    hide Inv, Apply, Enabled, Initial;
    var n := |steps| - 1;
    var run', steps' := run[..n + 1], steps[..n];
    forall k | 0 <= k < |steps'| ensures Enabled(run'[k], steps'[k]) && run'[k + 1] == Apply(run'[k], steps'[k]) {
      assert Enabled(run[k], steps[k]) && run[k + 1] == Apply(run[k], steps[k]);
    }
    assert run[n + 1] == Apply(run[n], steps[n]);
  }

  /** The race flag means what it says: it is set exactly when some delivery fell into the gap. */
  lemma {:induction false} RacedIffStrands(t: int, run: seq<State>, steps: seq<Step>, i: nat)
    requires IsRun(t, run, steps)
    requires i < |run[|run| - 1].workers| && PastEmptyTest(run[|run| - 1].workers[i])
    ensures run[|run| - 1].workers[i].raced <==> exists k :: Strands(run, steps, i, k)
  {
    hide Inv, Apply, Enabled;
    var n := |steps| - 1;
    NoWorkersAtStart(t, run, steps);
    RacedPrefix(t, run, steps, i);
    var run', steps', last := run[..n + 1], steps[..n], steps[n];
    assert run'[|run'| - 1] == run[n];
    RunKeepsInv(t, run, steps, n);
    if i < |run[n].workers| {
      StepMoves(run[n], last, i, run[n + 1]);
      if Sealed(run[n].workers[i]) { SealedNotHeld(run[n], i); }
      EmptyAtGap(run[n], i);
      RacedMove(run[n], last, i, run[n + 1].workers[i]);
      if last != EmptyTest(i) {
        RacedIffStrands(t, run', steps', i);
        StrandsGrows(run, steps, run', steps', i);
      } else {
        assert forall k :: !Strands(run, steps, i, k);
      }
    } else {
      FreshInLoop(run[n], last, i, run[n + 1]);
      assert false;
    }
  }

  lemma StrandsGrows(run: seq<State>, steps: seq<Step>, run': seq<State>, steps': seq<Step>, i: nat)
    requires |run| == |steps| + 1 && steps != [] && steps[|steps| - 1] != EmptyTest(i)
    requires run' == run[..|steps|] && steps' == steps[..|steps| - 1]
    ensures (exists k :: Strands(run, steps, i, k)) <==>
      (exists k :: Strands(run', steps', i, k)) || DeliversInGap(run[|steps| - 1], steps[|steps| - 1], i)
  {
    hide DeliversInGap;
    var n := |steps| - 1;
    if k: nat :| Strands(run', steps', i, k) {
      assert Strands(run, steps, i, k);
    }
    if DeliversInGap(run[n], steps[n], i) {
      assert Strands(run, steps, i, n);
    }
    if k: nat :| Strands(run, steps, i, k) {
      if k < n { assert Strands(run', steps', i, k); }
    }
  }

  lemma NoWorkersAtStart(t: int, run: seq<State>, steps: seq<Step>)
    requires IsRun(t, run, steps) && run[|run| - 1].workers != []
    ensures steps != []
  {
  }

  /** A worker that has just been started is in its loop. */
  lemma FreshInLoop(s: State, step: Step, i: nat, s': State)
    requires Enabled(s, step) && s' == Apply(s, step) && |s.workers| <= i < |s'.workers|
    ensures s'.workers[i].phase.Loop?
  {
    hide IsSock, Offer, WorkerStep, MovesItself;
    match step
    case Tick(j) => OwnMoves(s, step, j, j);
    case Receive(j) => OwnMoves(s, step, j, j);
    case SeeClose(j) => OwnMoves(s, step, j, j);
    case DrainOne(j) => OwnMoves(s, step, j, j);
    case EmptyTest(j) => OwnMoves(s, step, j, j);
    case LoadUsed(j) => OwnMoves(s, step, j, j);
    case Show(j, _) => OwnMoves(s, step, j, j);
    case _ =>
  }

  /** When a retired worker returns, every accepted event has been handed to writeEvent in
      acceptance order, except at most the last one, and that one is missing exactly when it
      was delivered in the gap between the last empty test and the load of `used`. */
  lemma StoppedLosesAtMostOne(t: int, run: seq<State>, steps: seq<Step>, i: nat)
    requires IsRun(t, run, steps)
    requires i < |run[|run| - 1].workers| && run[|run| - 1].workers[i].phase.Stopped?
    ensures var w := run[|run| - 1].workers[i];
      && |w.handed| <= |w.accepted| <= |w.handed| + 1
      && w.accepted[..|w.handed|] == w.handed
      && (w.handed == w.accepted <==> !exists k :: Strands(run, steps, i, k))
  {
    RunKeepsInv(t, run, steps, |run| - 1);
    RacedIffStrands(t, run, steps, i);
    hide BodyOk, Flat, ParseUuid, Strands, MapIsLive, UsedIffHeld, InputConserved, OutputConserved, ModesOk;
    assert WorkerOk(run[|run| - 1].truncate, run[|run| - 1].workers[i]);
  }

  /** Every empty test of worker `i` is followed at once by its load of `used`. */
  ghost predicate TestsAreOneStep(steps: seq<Step>, i: nat) {
    forall k | 0 <= k < |steps| && steps[k] == EmptyTest(i) :: k + 1 < |steps| && steps[k + 1] == LoadUsed(i)
  }

  lemma {:induction false} EmptiedIsBrief(t: int, run: seq<State>, steps: seq<Step>, i: nat, k: nat)
    requires IsRun(t, run, steps) && TestsAreOneStep(steps, i)
    requires k < |steps| && At(run[k], i, Emptied(true))
    ensures steps[k] == LoadUsed(i)
  {
    hide Inv, Apply, Enabled;
    assert k > 0 by { assert run[0] == Initial(t); }
    var s, step := run[k - 1], steps[k - 1];
    assert Enabled(s, step) && run[k - 1 + 1] == Apply(s, step);
    if i < |s.workers| {
      StepMoves(s, step, i, run[k]);
      EmptiedComesFrom(s, step, i, run[k].workers[i]);
      if step != EmptyTest(i) { EmptiedIsBrief(t, run, steps, i, k - 1); }
    } else {
      FreshInLoop(s, step, i, run[k]);
      assert false;
    }
  }

  lemma EmptiedComesFrom(s: State, step: Step, i: nat, w': Worker)
    requires i < |s.workers| && Moves(s, step, i, s.workers[i], w') && w'.phase == Emptied(true)
    ensures step == EmptyTest(i) || (s.workers[i].phase == Emptied(true) && step != LoadUsed(i))
  {
    hide IsSock, WriteEvent, Display;
  }

  /** If the empty test and the load of `used` were one step, nothing would ever be lost. */
  lemma OneStepTestsLoseNothing(t: int, run: seq<State>, steps: seq<Step>, i: nat)
    requires IsRun(t, run, steps) && TestsAreOneStep(steps, i)
    requires i < |run[|run| - 1].workers| && run[|run| - 1].workers[i].phase.Stopped?
    ensures run[|run| - 1].workers[i].handed == run[|run| - 1].workers[i].accepted
  {
    hide Inv, Apply, Enabled;
    StoppedLosesAtMostOne(t, run, steps, i);
    if k :| Strands(run, steps, i, k) {
      EmptiedIsBrief(t, run, steps, i, k);
    }
  }

  // ---------------------------------------------------------------- a worker's life

  lemma {:induction false} TruncateIsFixed(t: int, run: seq<State>, steps: seq<Step>, k: nat)
    requires IsRun(t, run, steps) && k < |run|
    ensures run[k].truncate == t
  {
    hide Apply, Enabled;
    if k > 0 {
      TruncateIsFixed(t, run, steps, k - 1);
      assert Enabled(run[k - 1], steps[k - 1]) && run[k - 1 + 1] == Apply(run[k - 1], steps[k - 1]);
      StepKeepsTruncate(run[k - 1], steps[k - 1]);
    }
  }

  lemma StepKeepsTruncate(s: State, step: Step)
    requires Enabled(s, step)
    ensures Apply(s, step).truncate == s.truncate
  {
    hide IsSock, Offer, Hand, TickStep, CloseStep;
  }

  /** An event of the batch arrived when at least `t` bytes were there already. */
  predicate CutShort(t: int, batch: seq<Event>) {
    batch != [] && |Joined(batch[..|batch| - 1])| >= t
  }

  lemma TruncatedIs(t: int, batch: seq<Event>)
    ensures t > 0 && CutShort(t, batch) ==> |Joined(batch)| >= t && Truncated(t, batch) == Joined(batch)[..t]
    ensures !(t > 0 && CutShort(t, batch)) ==> Truncated(t, batch) == Joined(batch)
  {
    if batch != [] { JoinedSnoc(batch[..|batch| - 1], batch[|batch| - 1]); }
  }

  /** At every moment of every worker's life: the accepted events are those of the displayed
      batches, of the current batch and of the queue, in order; every displayed batch shows all
      its bytes, or exactly the first `t` if some event found the limit reached; and with truncation off the bytes
      displayed, in the payload and in the queue are the accepted bytes, in order. */
  lemma WorkerLifeConserved(t: int, run: seq<State>, steps: seq<Step>, k: nat, i: nat)
    requires IsRun(t, run, steps) && k < |run| && i < |run[k].workers|
    ensures var w := run[k].workers[i]; var b := w.body;
      && w.accepted == Flat(b.batches) + b.current + w.queue
      && |b.shown| == |b.batches|
      && (forall j | 0 <= j < |b.shown| ::
            if t > 0 && CutShort(t, b.batches[j])
            then |Joined(b.batches[j])| >= t && b.shown[j] == Joined(b.batches[j])[..t]
            else b.shown[j] == Joined(b.batches[j]))
      && (t <= 0 ==> JoinedAll(b.shown) + b.payload + Joined(w.queue) == Joined(w.accepted))
  {
    hide Flat, Joined, JoinedAll, Truncated, ParseUuid, IsRun, MapIsLive, UsedIffHeld, InputConserved, OutputConserved, ModesOk;
    RunKeepsInv(t, run, steps, k);
    TruncateIsFixed(t, run, steps, k);
    var w := run[k].workers[i];
    assert WorkerOk(t, w);
    forall j | 0 <= j < |w.body.shown|
      ensures if t > 0 && CutShort(t, w.body.batches[j])
              then |Joined(w.body.batches[j])| >= t && w.body.shown[j] == Joined(w.body.batches[j])[..t]
              else w.body.shown[j] == Joined(w.body.batches[j])
    {
      TruncatedIs(t, w.body.batches[j]);
    }
    if t <= 0 { BytesConserved(t, w); }
  }

  // ---------------------------------------------------------------- shutdown

  lemma {:induction false} LogLengths(log: seq<Dispatch>)
    ensures |Dispatched(log)| == |log|
    ensures forall k | 0 <= k < |log| :: Dispatched(log)[k] == log[k].e
  {
    if log != [] { LogLengths(log[..|log| - 1]); }
  }

  /** The state in which Serve has returned, in terms of its histories. */
  lemma ReturnedRun(t: int, run: seq<State>, steps: seq<Step>)
    requires IsRun(t, run, steps) && run[|run| - 1].mode.Returned?
    ensures var s := run[|run| - 1];
      && s.isClosed && s.incoming == [] && s.outgoing == [] && s.workerQueue == map[] && s.hold.Idle?
      && s.logged == s.acceptedOut
      && |s.dispatches| == |s.acceptedIn|
      && (forall k | 0 <= k < |s.dispatches| ::
            && s.dispatches[k].e == s.acceptedIn[k]
            && s.dispatches[k].w < |s.workers|
            && s.workers[s.dispatches[k].w].uuid == s.acceptedIn[k].uuid)
      && (forall i | 0 <= i < |s.workers| ::
            && s.workers[i].phase.Stopped?
            && s.workers[i].accepted == TakenBy(s.dispatches, i)
            && s.workers[i].accepted == s.workers[i].handed + s.workers[i].queue
            && |s.workers[i].queue| <= 1)
  {
    hide Apply, Enabled, BodyOk, Flat, ParseUuid;
    RunKeepsInv(t, run, steps, |run| - 1);
    ReturnedMeans(run[|run| - 1]);
  }

  lemma ReturnedMeans(s: State)
    requires Inv(s) && s.mode.Returned?
    ensures s.isClosed && s.incoming == [] && s.outgoing == [] && s.workerQueue == map[] && s.hold.Idle?
    ensures s.logged == s.acceptedOut && |s.dispatches| == |s.acceptedIn|
    ensures forall k | 0 <= k < |s.dispatches| ::
      && s.dispatches[k].e == s.acceptedIn[k]
      && s.dispatches[k].w < |s.workers|
      && s.workers[s.dispatches[k].w].uuid == s.acceptedIn[k].uuid
    ensures forall i | 0 <= i < |s.workers| ::
      && s.workers[i].phase.Stopped?
      && s.workers[i].accepted == TakenBy(s.dispatches, i)
      && s.workers[i].accepted == s.workers[i].handed + s.workers[i].queue
      && |s.workers[i].queue| <= 1
  {
    hide BodyOk, Flat, ParseUuid, Dispatched, TakenBy;
    LogLengths(s.dispatches);
    assert s.acceptedIn == Dispatched(s.dispatches);
    assert forall i | 0 <= i < |s.workers| :: Retired(s.workers[i]);
    assert s.workerQueue == map[];
    forall k | 0 <= k < |s.dispatches|
      ensures s.dispatches[k].w < |s.workers| && s.workers[s.dispatches[k].w].uuid == s.acceptedIn[k].uuid
    {
      assert s.dispatches[k] in s.dispatches;
    }
    forall i | 0 <= i < |s.workers| ensures s.workers[i].accepted == s.workers[i].handed + s.workers[i].queue && |s.workers[i].queue| <= 1 {
      assert WorkerOk(s.truncate, s.workers[i]);
    }
  }

  // ---------------------------------------------------------------- the loss is real

  lemma Extend(t: int, run: seq<State>, steps: seq<Step>, step: Step) returns (run': seq<State>, steps': seq<Step>)
    requires IsRun(t, run, steps) && |run| > 0 && Enabled(run[|run| - 1], step)
    ensures IsRun(t, run', steps') && |run'| > 0 && steps' == steps + [step]
    ensures run'[|run'| - 1] == Apply(run[|run| - 1], step)
  {
    hide Apply, Enabled;
    run', steps' := run + [Apply(run[|run| - 1], step)], steps + [step];
    forall k | 0 <= k < |steps'| ensures Enabled(run'[k], steps'[k]) && run'[k + 1] == Apply(run'[k], steps'[k]) {
      if k < |steps| { assert Enabled(run[k], steps[k]) && run[k + 1] == Apply(run[k], steps[k]); }
    }
  }

  /** An open processor with at most one worker, seen by its parts. */
  ghost predicate Sole(s: State, t: int, ws: seq<Worker>, h: Hold, queued: seq<Event>, q: map<string, nat>, acc: seq<Event>) {
    && s.truncate == t && s.workers == ws && s.hold == h && s.incoming == queued && s.workerQueue == q
    && s.acceptedIn == acc && s.mode.Serving? && !s.isClosed
  }

  lemma AcceptSole(s: State, t: int, ws: seq<Worker>, q: map<string, nat>, acc: seq<Event>, e: Event)
    requires Sole(s, t, ws, Idle, [], q, acc)
    ensures Enabled(s, Accept(e)) && Sole(Apply(s, Accept(e)), t, ws, Idle, [e], q, acc + [e])
  {
  }

  lemma TakeFreshSole(s: State, t: int, e: Event)
    requires Sole(s, t, [], Idle, [e], map[], [e])
    ensures Enabled(s, Take)
    ensures Sole(Apply(s, Take), t, [NewWorker(e.uuid).(used := true)], Holding(0, e), [], map[e.uuid := 0], [e])
  {
  }

  lemma TakeAgainSole(s: State, t: int, w: Worker, e: Event, acc: seq<Event>)
    requires Sole(s, t, [w], Idle, [e], map[e.uuid := 0], acc)
    ensures Enabled(s, Take)
    ensures Sole(Apply(s, Take), t, [w.(used := true)], Holding(0, e), [], map[e.uuid := 0], acc)
  {
    assert 0 == s.workerQueue[e.uuid];
  }

  lemma DeliverSole(s: State, t: int, w: Worker, e: Event, q: map<string, nat>, acc: seq<Event>)
    requires Sole(s, t, [w], Holding(0, e), [], q, acc)
    ensures Enabled(s, Deliver) && Sole(Apply(s, Deliver), t, [Offer(w, e)], Written(0), [], q, acc)
  {
    hide Offer;
  }

  lemma ReleaseSole(s: State, t: int, w: Worker, q: map<string, nat>, acc: seq<Event>)
    requires Sole(s, t, [w], Written(0), [], q, acc)
    ensures Enabled(s, Release) && Sole(Apply(s, Release), t, [w.(used := false)], Idle, [], q, acc)
  {
  }

  lemma DestroySole(s: State, t: int, w: Worker, q: map<string, nat>, acc: seq<Event>)
    requires Sole(s, t, [w], Idle, [], q, acc) && q == map[w.uuid := 0] && IsSock(w)
    ensures Enabled(s, Destroy(0)) && Sole(Apply(s, Destroy(0)), t, [w.(closing := true)], Idle, [], q, acc)
  {
    hide IsSock;
    assert q[w.uuid] == 0;
  }

  lemma OwnSole(s: State, step: Step, t: int, w: Worker, h: Hold, q: map<string, nat>, acc: seq<Event>) returns (w': Worker)
    requires Sole(s, t, [w], h, [], q, acc) && Enabled(s, step) && OwnStep(step, 0)
    ensures MovesItself(t, step, w, w')
    ensures Sole(Apply(s, step), t, [w'], h, [], (if w.phase.Loop? && Retired(w') then q - {w.uuid} else q), acc)
  {
    hide IsSock, Hand, TickStep, CloseStep, MovesItself;
    SelfMoves(s, step, 0);
    w' := WorkerStep(s, step, 0).workers[0];
    assert WorkerStep(s, step, 0).workers == [w'];
    OwnStepFrame(s, step, w');
  }

  lemma OwnStepFrame(s: State, step: Step, w': Worker)
    requires |s.workers| == 1 && Enabled(s, step) && OwnStep(step, 0) && w' == WorkerStep(s, step, 0).workers[0]
    ensures Apply(s, step) == WorkerStep(s, step, 0) && SameQueues(s, WorkerStep(s, step, 0))
    ensures var w := s.workers[0];
      WorkerStep(s, step, 0).workerQueue == if w.phase.Loop? && Retired(w') then s.workerQueue - {w.uuid} else s.workerQueue
  {
    hide Retired, IsSock, CloseStep, Hand, SameQueues;
    OwnStepQueues(s, step);
    OwnStepMap(s, step);
  }

  ghost predicate SameQueues(s: State, s': State) {
    && s'.truncate == s.truncate && s'.hold == s.hold && s'.incoming == s.incoming && s'.acceptedIn == s.acceptedIn
    && s'.mode == s.mode && s'.isClosed == s.isClosed
  }

  lemma OwnStepQueues(s: State, step: Step)
    requires |s.workers| == 1 && Enabled(s, step) && OwnStep(step, 0)
    ensures SameQueues(s, WorkerStep(s, step, 0))
  {
    hide IsSock, CloseStep, Hand;
  }

  lemma OwnStepMap(s: State, step: Step)
    requires |s.workers| == 1 && Enabled(s, step) && OwnStep(step, 0)
    ensures var w, s' := s.workers[0], WorkerStep(s, step, 0);
      s'.workerQueue == if w.phase.Loop? && Retired(s'.workers[0]) then s.workerQueue - {w.uuid} else s.workerQueue
  {
    hide IsSock, Hand, CloseStep, WorkerStep;
    if step.Tick? || step.SeeClose? { OwnStepLeaves(s, step); } else { OwnStepStays(s, step); }
  }

  lemma OwnStepLeaves(s: State, step: Step)
    requires |s.workers| == 1 && Enabled(s, step) && OwnStep(step, 0) && (step.Tick? || step.SeeClose?)
    ensures var w, s' := s.workers[0], WorkerStep(s, step, 0);
      s'.workerQueue == if Retired(s'.workers[0]) then s.workerQueue - {w.uuid} else s.workerQueue
  {
    hide IsSock;
  }

  lemma OwnStepStays(s: State, step: Step)
    requires |s.workers| == 1 && Enabled(s, step) && OwnStep(step, 0) && !step.Tick? && !step.SeeClose?
    ensures var w, s' := s.workers[0], WorkerStep(s, step, 0);
      s'.workerQueue == s.workerQueue && (w.phase.Loop? ==> s'.workers[0].phase.Loop?)
  {
    hide IsSock, WriteEvent, CloseStep;
  }

  /** The worker that has handed on `e1` and holds nothing. */
  function AfterFirst(t: int, e1: Event): Worker {
    var w := NewWorker(e1.uuid);
    w.(accepted := [e1], handed := [e1], body := WriteEvent(t, !IsSock(w), w.body, e1))
  }

  /** The first event arrives, is delivered and handed on. */
  lemma FirstEvent(t: int, e1: Event) returns (run: seq<State>, steps: seq<Step>)
    ensures IsRun(t, run, steps) && |run| > 0
    ensures Sole(run[|run| - 1], t, [AfterFirst(t, e1)], Idle, [], map[e1.uuid := 0], [e1])
  {
    hide Apply, Enabled, Sole, WriteEvent, ParseUuid;
    var u, q := e1.uuid, map[e1.uuid := 0];
    run, steps := [Initial(t)], [];
    InitialSole(t);
    AcceptSole(run[|run| - 1], t, [], map[], [], e1);
    run, steps := Extend(t, run, steps, Accept(e1));
    assert [] + [e1] == [e1];
    TakeFreshSole(run[|run| - 1], t, e1);
    run, steps := Extend(t, run, steps, Take);
    var w := NewWorker(u).(used := true);
    DeliverSole(run[|run| - 1], t, w, e1, q, [e1]);
    run, steps := Extend(t, run, steps, Deliver);
    w := Offer(w, e1);
    assert w == NewWorker(u).(used := true, queue := [e1], accepted := [e1]);
    ReleaseSole(run[|run| - 1], t, w, q, [e1]);
    run, steps := Extend(t, run, steps, Release);
    w := w.(used := false);
    CanReceive(run[|run| - 1], t, w, q, [e1]);
    var w' := OwnSole(run[|run| - 1], Receive(0), t, w, Idle, q, [e1]);
    run, steps := Extend(t, run, steps, Receive(0));
    assert w' == AfterFirst(t, e1);
  }

  lemma InitialSole(t: int)
    ensures Sole(Initial(t), t, [], Idle, [], map[], [])
  {
  }

  lemma CanReceive(s: State, t: int, w: Worker, q: map<string, nat>, acc: seq<Event>)
    requires Sole(s, t, [w], Idle, [], q, acc) && w.phase.Loop? && w.queue != []
    ensures Enabled(s, Receive(0))
  {
  }

  /** The worker is about to leave: a socket worker has been told to close, any other has been
      idle for as many ticks as it waits. */
  function AboutToLeave(w: Worker): Worker {
    if IsSock(w) then w.(closing := true) else w.(ticks := MAX_TICKER_COUNT + 1)
  }

  lemma Idles(t: int, e1: Event, run0: seq<State>, steps0: seq<Step>) returns (run: seq<State>, steps: seq<Step>)
    requires IsRun(t, run0, steps0) && |run0| > 0
    requires Sole(run0[|run0| - 1], t, [AfterFirst(t, e1)], Idle, [], map[e1.uuid := 0], [e1])
    ensures IsRun(t, run, steps) && |run| > 0
    ensures Sole(run[|run| - 1], t, [AboutToLeave(AfterFirst(t, e1))], Idle, [], map[e1.uuid := 0], [e1])
  {
    hide Apply, Enabled, Sole, WriteEvent, IsSock, IsRun;
    run, steps := run0, steps0;
    var w, q := AfterFirst(t, e1), map[e1.uuid := 0];
    if IsSock(w) {
      DestroySole(run[|run| - 1], t, w, q, [e1]);
      run, steps := Extend(t, run, steps, Destroy(0));
    } else {
      var k := 0;
      while k <= MAX_TICKER_COUNT
        invariant k <= MAX_TICKER_COUNT + 1 && IsRun(t, run, steps) && |run| > 0
        invariant Sole(run[|run| - 1], t, [w.(ticks := k)], Idle, [], q, [e1])
      {
        CanTick(run[|run| - 1], t, w.(ticks := k), Idle, q, [e1]);
        var w' := OwnSole(run[|run| - 1], Tick(0), t, w.(ticks := k), Idle, q, [e1]);
        run, steps := Extend(t, run, steps, Tick(0));
        k := k + 1;
      }
    }
  }

  lemma CanTick(s: State, t: int, w: Worker, h: Hold, q: map<string, nat>, acc: seq<Event>)
    requires Sole(s, t, [w], h, [], q, acc) && w.phase.Loop?
    ensures Enabled(s, Tick(0)) && (w.closing ==> Enabled(s, SeeClose(0)))
  {
  }

  lemma CanDrain(s: State, t: int, w: Worker, h: Hold, q: map<string, nat>, acc: seq<Event>)
    requires Sole(s, t, [w], h, [], q, acc)
    ensures w.phase.Draining? && w.queue == [] ==> Enabled(s, EmptyTest(0))
    ensures w.phase.Emptied? ==> Enabled(s, LoadUsed(0))
    ensures w.phase.Closing? ==> Enabled(s, Show(0, []))
  {
  }

  /** For every UUID and any two events on it the second can be lost: there is a run in which
      Write accepts both, both are queued, and the worker returns having seen only the first. */
  lemma EventCanBeLost(t: int, e1: Event, e2: Event) returns (run: seq<State>, steps: seq<Step>)
    requires e1.uuid == e2.uuid
    ensures IsRun(t, run, steps) && |run| > 0
    ensures var s := run[|run| - 1];
      && s.acceptedIn == [e1, e2] && |s.workers| == 1 && s.workers[0].phase.Stopped?
      && s.workers[0].accepted == [e1, e2] && s.workers[0].handed == [e1]
  {
    hide Apply, Enabled, Sole, WriteEvent, Display, ParseUuid, IsRun;
    run, steps := FirstEvent(t, e1);
    run, steps := Idles(t, e1, run, steps);
    var w, q, acc := AboutToLeave(AfterFirst(t, e1)), map[e1.uuid := 0], [e1, e2];
    AcceptSole(run[|run| - 1], t, [w], q, [e1], e2);
    run, steps := Extend(t, run, steps, Accept(e2));
    assert [e1] + [e2] == acc;
    TakeAgainSole(run[|run| - 1], t, w, e2, acc);
    run, steps := Extend(t, run, steps, Take);
    run, steps := Leaves(t, run, steps, w.(used := true), e2, q, acc);
    w := w.(used := true, phase := Emptied(true), raced := false);
    run, steps, w := WriteInGap(t, run, steps, w, e2, acc);
    SoleMeans(run[|run| - 1], t, [w], Idle, map[], acc);
  }

  /** A delivery in the gap: the worker returns with the event in its queue. */
  lemma WriteInGap(t: int, run0: seq<State>, steps0: seq<Step>, w0: Worker, e: Event, acc: seq<Event>)
      returns (run: seq<State>, steps: seq<Step>, w: Worker)
    requires IsRun(t, run0, steps0) && |run0| > 0 && Sole(run0[|run0| - 1], t, [w0], Holding(0, e), [], map[], acc)
    requires w0.phase == Emptied(true) && w0.queue == []
    ensures IsRun(t, run, steps) && |run| > 0
    ensures Sole(run[|run| - 1], t, [w], Idle, [], map[], acc)
    ensures w.phase.Stopped? && w.accepted == w0.accepted + [e] && w.handed == w0.handed
  {
    hide Apply, Enabled, Sole, WriteEvent, Display, ParseUuid, IsRun;
    run, steps := run0, steps0;
    DeliverSole(run[|run| - 1], t, w0, e, map[], acc);
    run, steps := Extend(t, run, steps, Deliver);
    w := Offer(w0, e);
    ReleaseSole(run[|run| - 1], t, w, map[], acc);
    run, steps := Extend(t, run, steps, Release);
    w := w.(used := false);
    CanDrain(run[|run| - 1], t, w, Idle, map[], acc);
    w := OwnSole(run[|run| - 1], LoadUsed(0), t, w, Idle, map[], acc);
    run, steps := Extend(t, run, steps, LoadUsed(0));
    CanDrain(run[|run| - 1], t, w, Idle, map[], acc);
    w := OwnSole(run[|run| - 1], Show(0, []), t, w, Idle, map[], acc);
    run, steps := Extend(t, run, steps, Show(0, []));
  }

  lemma SoleMeans(s: State, t: int, ws: seq<Worker>, h: Hold, q: map<string, nat>, acc: seq<Event>)
    requires Sole(s, t, ws, h, [], q, acc)
    ensures s.workers == ws && s.acceptedIn == acc
  {
  }

  /** The held worker leaves the map and finds its queue empty. */
  lemma Leaves(t: int, run0: seq<State>, steps0: seq<Step>, w: Worker, e: Event, q: map<string, nat>, acc: seq<Event>)
      returns (run: seq<State>, steps: seq<Step>)
    requires IsRun(t, run0, steps0) && |run0| > 0 && Sole(run0[|run0| - 1], t, [w], Holding(0, e), [], q, acc)
    requires q == map[w.uuid := 0] && w.phase.Loop? && w.queue == []
    requires if IsSock(w) then w.closing else w.ticks > MAX_TICKER_COUNT
    ensures IsRun(t, run, steps) && |run| > 0
    ensures Sole(run[|run| - 1], t, [w.(phase := Emptied(true), raced := false)], Holding(0, e), [], map[], acc)
  {
    hide Apply, Enabled, Sole, WriteEvent, IsSock, IsRun;
    run, steps := run0, steps0;
    var h := Holding(0, e);
    var leave := if IsSock(w) then SeeClose(0) else Tick(0);
    CanTick(run[|run| - 1], t, w, h, q, acc);
    var w1 := OwnSole(run[|run| - 1], leave, t, w, h, q, acc);
    assert w1 == w.(phase := Draining(true));
    assert q - {w.uuid} == map[];
    run, steps := Extend(t, run, steps, leave);
    CanDrain(run[|run| - 1], t, w1, h, map[], acc);
    var w2 := OwnSole(run[|run| - 1], EmptyTest(0), t, w1, h, map[], acc);
    run, steps := Extend(t, run, steps, EmptyTest(0));
  }
}

/**
  Progress of the event processor: a retired worker's drain is bounded, Serve never blocks
  while it holds a worker, and from every state after Close there is a way to the return of
  Serve, so the shutdown cannot deadlock.
 */
module EventProcessorProgress {
  import opened Uuid
  import opened EventWorker
  import opened EventProcessor
  import opened EventProcessorRuns

  // ---------------------------------------------------------------- the drain of a retired worker

  /** The steps Serve still has to take before it lets go of worker `i`. */
  function HoldSteps(h: Hold, i: nat): nat {
    match h
    case Idle => 0
    case Holding(w, _) => if w == i then 2 else 0
    case Written(w) => if w == i then 1 else 0
  }

  /** The worker's own steps to its return, if nobody holds it. */
  function Rank(w: Worker): nat {
    var loop := 5 + MAX_TICKER_COUNT + 1;
    var wait := if w.ticks <= MAX_TICKER_COUNT + 1 then MAX_TICKER_COUNT + 1 - w.ticks else 0;
    match w.phase
    case Stopped => 0
    case Closing(last) => if last then 1 else 1 + loop + |w.queue|
    case Emptied(last) => if last then 2 else 2 + loop + |w.queue|
    case Draining(last) => if last then 3 + |w.queue| else 3 + loop + |w.queue|
    case Loop => 5 + |w.queue| + wait
  }

  /** Once a worker has left the map, every step of any goroutine shrinks the pair (Serve's
      remaining hold, the worker's remaining steps) or leaves it alone; a step of the worker
      shrinks it, except the retry of `IfUsed`, which happens only while Serve still holds the
      worker and can step; and the queue grows only by the delivery Serve already holds. */
  lemma RetiredProgress(s: State, step: Step, i: nat)
    requires Inv(s) && Enabled(s, step) && i < |s.workers| && Retired(s.workers[i])
    ensures i < |Apply(s, step).workers|
    ensures var s' := Apply(s, step);
      var w, w', h, h' := s.workers[i], s'.workers[i], HoldSteps(s.hold, i), HoldSteps(s'.hold, i);
      && Retired(w')
      && h' <= h
      && (h' == h && !(step == LoadUsed(i) && w.used) ==> Rank(w') <= Rank(w))
      && (OwnStep(step, i) && !(step == LoadUsed(i) && w.used) ==> h' == h && Rank(w') < Rank(w))
      && (step == LoadUsed(i) && w.used ==> h > 0)
      && (h > 0 ==> Enabled(s, if s.hold.Holding? then Deliver else Release))
      && (step.Deliver? || step.Release? ==> h == 0 || h' < h)
      && |w'.accepted| <= |w.accepted| + (if h == 2 && h' == 1 then 1 else 0)
  {
    var s' := Apply(s, step);
    StepMoves(s, step, i, s');
    RetiredNotInMap(s, i);
    HoldMoves(s, step, i);
    RetiredMove(s, step, i, s'.workers[i]);
  }

  lemma RetiredNotInMap(s: State, i: nat)
    requires Inv(s) && i < |s.workers| && Retired(s.workers[i])
    ensures !InMap(s, i)
    ensures s.workers[i].used <==> HoldSteps(s.hold, i) > 0
    ensures Sealed(s.workers[i]) ==> !s.workers[i].used
    ensures !s.hold.Idle? ==> s.hold.w < |s.workers|
  {
    hide BodyOk, Flat, ParseUuid, InputConserved, OutputConserved, ModesOk;
    assert WorkerOk(s.truncate, s.workers[i]);
  }

  lemma HoldMoves(s: State, step: Step, i: nat)
    requires Inv(s) && Enabled(s, step) && i < |s.workers| && !InMap(s, i)
    ensures var h, h' := HoldSteps(s.hold, i), HoldSteps(Apply(s, step).hold, i);
      if (step.Deliver? || step.Release?) && h > 0 then h' == h - 1 else h' == h
  {
    hide Inv, IsSock, Offer, Hand, TickStep, CloseStep;
    assert step.Take? ==> s.hold.Idle?;
  }

  lemma RetiredMove(s: State, step: Step, i: nat, w': Worker)
    requires i < |s.workers| && Retired(s.workers[i]) && !InMap(s, i)
    requires Moves(s, step, i, s.workers[i], w')
    requires Sealed(s.workers[i]) ==> !s.workers[i].used
    requires s.workers[i].used <==> HoldSteps(s.hold, i) > 0
    ensures var w := s.workers[i];
      && Retired(w')
      && (OwnStep(step, i) && !(step == LoadUsed(i) && w.used) ==> Rank(w') < Rank(w))
      && (!OwnStep(step, i) && !step.Deliver? ==> Rank(w') == Rank(w))
      && (step.Deliver? && HoldSteps(s.hold, i) == 0 ==> Rank(w') == Rank(w))
      && |w'.accepted| <= |w.accepted| + (if step.Deliver? && HoldSteps(s.hold, i) == 2 then 1 else 0)
  {
    hide IsSock, WriteEvent, Display, InMap;
  }

  // ---------------------------------------------------------------- runs of a retired worker

  /** How many of the steps are the worker's own. */
  function OwnCount(steps: seq<Step>, i: nat): nat {
    if steps == [] then 0
    else OwnCount(steps[..|steps| - 1], i) + (if OwnStep(steps[|steps| - 1], i) then 1 else 0)
  }

  predicate ServesWorker(s: State, step: Step, i: nat) { (step.Deliver? || step.Release?) && HoldSteps(s.hold, i) > 0 }

  /** How many of the steps are Serve's on the worker it holds. */
  function ServeCount(run: seq<State>, steps: seq<Step>, i: nat): nat
    requires |run| == |steps| + 1
  {
    if steps == [] then 0
    else ServeCount(run[..|steps|], steps[..|steps| - 1], i) +
         (if ServesWorker(run[|steps| - 1], steps[|steps| - 1], i) then 1 else 0)
  }

  /** The queue, counting the delivery Serve already holds. */
  function Coming(s: State, i: nat): nat
    requires i < |s.workers|
  {
    |s.workers[i].queue| + (if HoldSteps(s.hold, i) == 2 then 1 else 0)
  }

  lemma RetiredQueue(s: State, step: Step, i: nat)
    requires Inv(s) && Enabled(s, step) && i < |s.workers| && Retired(s.workers[i])
    ensures i < |Apply(s, step).workers| && Coming(Apply(s, step), i) <= Coming(s, i)
  {
    var s' := Apply(s, step);
    StepMoves(s, step, i, s');
    RetiredNotInMap(s, i);
    HoldMoves(s, step, i);
    RetiredQueueMove(s, step, i, s'.workers[i]);
  }

  lemma RetiredQueueMove(s: State, step: Step, i: nat, w': Worker)
    requires i < |s.workers| && !InMap(s, i) && Moves(s, step, i, s.workers[i], w')
    ensures |w'.queue| <= |s.workers[i].queue| + (if step.Deliver? && HoldSteps(s.hold, i) == 2 then 1 else 0)
  {
    hide IsSock, WriteEvent, Display, InMap;
  }

  lemma RunPrefix(s: State, run: seq<State>, steps: seq<Step>)
    requires IsRunFrom(s, run, steps) && steps != []
    ensures IsRunFrom(s, run[..|steps|], steps[..|steps| - 1])
    ensures Enabled(run[|steps| - 1], steps[|steps| - 1])
    ensures run[|steps|] == Apply(run[|steps| - 1], steps[|steps| - 1])
  {
    hide Apply, Enabled;
    var n := |steps| - 1;
    forall k | 0 <= k < n ensures Enabled(run[..n + 1][k], steps[..n][k]) && run[..n + 1][k + 1] == Apply(run[..n + 1][k], steps[..n][k]) {
      assert Enabled(run[k], steps[k]) && run[k + 1] == Apply(run[k], steps[k]);
    }
    assert run[n + 1] == Apply(run[n], steps[n]);
  }

  lemma {:induction false} RunFromKeepsInv(s: State, run: seq<State>, steps: seq<Step>)
    requires Inv(s) && IsRunFrom(s, run, steps)
    ensures Inv(run[|steps|])
  {
    hide Inv, Apply, Enabled, IsRunFrom;
    RunStart(s, run, steps);
    if steps != [] {
      RunPrefix(s, run, steps);
      RunFromKeepsInv(s, run[..|steps|], steps[..|steps| - 1]);
      StepKeepsInv(run[|steps| - 1], steps[|steps| - 1]);
    }
  }

  lemma RunStart(s: State, run: seq<State>, steps: seq<Step>)
    requires IsRunFrom(s, run, steps)
    ensures |run| == |steps| + 1 && run[0] == s
  {
  }

  /** What holds along every run from a state in which the worker has left the map: it stays
      out; Serve takes exactly the steps on it that it still owed, two at most; and the queue
      grows by no more than the delivery Serve already held. */
  lemma {:induction false} ServeLetsGo(s: State, run: seq<State>, steps: seq<Step>, i: nat)
    requires Inv(s) && IsRunFrom(s, run, steps) && i < |s.workers| && Retired(s.workers[i])
    ensures var z := run[|steps|];
      && i < |z.workers| && Retired(z.workers[i])
      && ServeCount(run, steps, i) + HoldSteps(z.hold, i) == HoldSteps(s.hold, i) <= 2
      && Coming(z, i) <= Coming(s, i)
  {
    hide Inv, Apply, Enabled, Rank, Retired, IsRunFrom;
    RunStart(s, run, steps);
    if steps != [] {
      var n := |steps| - 1;
      RunPrefix(s, run, steps);
      ServeLetsGo(s, run[..n + 1], steps[..n], i);
      RunFromKeepsInv(s, run[..n + 1], steps[..n]);
      RetiredProgress(run[n], steps[n], i);
      RetiredQueue(run[n], steps[n], i);
      RetiredHold(run[n], steps[n], i);
    }
  }

  lemma RetiredHold(s: State, step: Step, i: nat)
    requires Inv(s) && Enabled(s, step) && i < |s.workers| && Retired(s.workers[i])
    ensures HoldSteps(Apply(s, step).hold, i) + (if ServesWorker(s, step, i) then 1 else 0) == HoldSteps(s.hold, i)
  {
    hide Apply, Enabled;
    RetiredNotInMap(s, i);
    HoldMoves(s, step, i);
  }

  /** Once Serve has let go, in every run the worker's own steps and what remains of its way
      are together at most what remained; so it takes no more than that many. */
  lemma {:induction false} RetiredDrainIsBounded(s: State, run: seq<State>, steps: seq<Step>, i: nat)
    requires Inv(s) && IsRunFrom(s, run, steps)
    requires i < |s.workers| && Retired(s.workers[i]) && HoldSteps(s.hold, i) == 0
    ensures var z := run[|steps|];
      && i < |z.workers| && Retired(z.workers[i]) && HoldSteps(z.hold, i) == 0
      && OwnCount(steps, i) + Rank(z.workers[i]) <= Rank(s.workers[i]) <= 3 + |s.workers[i].queue|
      && (OwnCount(steps, i) >= Rank(s.workers[i]) ==> z.workers[i].phase.Stopped?)
  {
    hide Inv, Apply, Enabled, IsRunFrom, Rank, Retired;
    RunStart(s, run, steps);
    RankMeaning(s.workers[i]);
    if steps != [] {
      var n := |steps| - 1;
      RunPrefix(s, run, steps);
      RetiredDrainIsBounded(s, run[..n + 1], steps[..n], i);
      RunFromKeepsInv(s, run[..n + 1], steps[..n]);
      RetiredProgress(run[n], steps[n], i);
      RankMeaning(run[n + 1].workers[i]);
    }
  }

  lemma RankMeaning(w: Worker)
    ensures Rank(w) == 0 <==> w.phase.Stopped?
    ensures Retired(w) ==> Rank(w) <= 3 + |w.queue|
  {
  }

  /** Termination of the drain, over any run from the moment the worker has left the map: from
      any point at which Serve has let go of it, its own steps number at most four more than
      its queue held at the start, and it can always take one until it has returned. */
  lemma RetiredWorkerReturns(s: State, run: seq<State>, steps: seq<Step>, run': seq<State>, steps': seq<Step>, i: nat)
    requires Inv(s) && IsRunFrom(s, run, steps) && IsRunFrom(run[|steps|], run', steps')
    requires i < |s.workers| && Retired(s.workers[i]) && HoldSteps(run[|steps|].hold, i) == 0
    ensures var z := run'[|steps'|];
      && i < |z.workers|
      && OwnCount(steps', i) <= 4 + |s.workers[i].queue|
      && (OwnCount(steps', i) >= 4 + |s.workers[i].queue| ==> z.workers[i].phase.Stopped?)
      && (!z.workers[i].phase.Stopped? ==> OwnStep(Nudge(z.workers[i], i), i) && Enabled(z, Nudge(z.workers[i], i)))
  {
    hide Inv, Apply, Enabled, IsRunFrom, Rank, Retired, Nudge;
    RunStart(s, run, steps);
    RunStart(run[|steps|], run', steps');
    ServeLetsGo(s, run, steps, i);
    RunFromKeepsInv(s, run, steps);
    RetiredDrainIsBounded(run[|steps|], run', steps', i);
    if !run'[|steps'|].workers[i].phase.Stopped? { NotStuck(run'[|steps'|], i); }
  }

  lemma NotStuck(s: State, i: nat)
    requires i < |s.workers| && Retired(s.workers[i]) && !s.workers[i].phase.Stopped?
    ensures OwnStep(Nudge(s.workers[i], i), i) && Enabled(s, Nudge(s.workers[i], i))
  {
  }

  // ---------------------------------------------------------------- a way to the end

  function Sum(f: Worker -> nat, ws: seq<Worker>): nat {
    if ws == [] then 0 else Sum(f, ws[..|ws| - 1]) + f(ws[|ws| - 1])
  }

  lemma {:induction false} SumOfChange(f: Worker -> nat, ws: seq<Worker>, i: nat, w: Worker)
    requires i < |ws|
    ensures Sum(f, ws[i := w]) + f(ws[i]) == Sum(f, ws) + f(w)
  {
    var n := |ws| - 1;
    if i == n {
      assert ws[i := w][..n] == ws[..n];
    } else {
      assert ws[i := w][..n] == ws[..n][i := w];
      SumOfChange(f, ws[..n], i, w);
    }
  }

  function Work(ws: seq<Worker>): nat { Sum(Rank, ws) }

  function ModeRank(m: Mode): nat {
    match m
    case Serving => 4
    case DrainingIn => 3
    case Waiting => 2
    case Flushing => 1
    case Returned => 0
  }

  function HoldRank(h: Hold): nat { if h.Holding? then 2 else if h.Written? then 1 else 0 }

  /** A step of worker `i` that brings it closer to its return once Serve is only waiting. */
  function Nudge(w: Worker, i: nat): Step {
    match w.phase
    case Loop => if w.closing then SeeClose(i) else Tick(i)
    case Draining(_) => if w.queue != [] then DrainOne(i) else EmptyTest(i)
    case Emptied(_) => LoadUsed(i)
    case Closing(_) => Show(i, [])
    case Stopped => FinishServe
  }

  lemma NudgeHelps(s: State, i: nat)
    requires Inv(s) && s.mode.Waiting? && i < |s.workers| && !s.workers[i].phase.Stopped?
    ensures var step := Nudge(s.workers[i], i);
      && Enabled(s, step)
      && Apply(s, step).mode == s.mode && Apply(s, step).hold == s.hold
      && Apply(s, step).incoming == s.incoming && Apply(s, step).isClosed == s.isClosed
      && Work(Apply(s, step).workers) < Work(s.workers)
  {
    hide WriteEvent, Display, Sum, ParseUuid, InputConserved, OutputConserved, MapIsLive, BodyOk, Flat;
    var step := Nudge(s.workers[i], i);
    assert WorkerOk(s.truncate, s.workers[i]);
    var s' := Apply(s, step);
    var w' := s'.workers[i];
    assert s'.workers == s.workers[i := w'];
    SumOfChange(Rank, s.workers, i, w');
    StepMoves(s, step, i, s');
    NudgeRank(s, i, w');
  }

  lemma NudgeRank(s: State, i: nat, w': Worker)
    requires i < |s.workers| && s.hold.Idle? && s.mode.Waiting?
    requires UsedIffHeld(s) && ModesOk(s) && WorkerOk(s.truncate, s.workers[i])
    requires !s.workers[i].phase.Stopped? && Moves(s, Nudge(s.workers[i], i), i, s.workers[i], w')
    ensures Rank(w') < Rank(s.workers[i])
  {
    hide WriteEvent, Display, ParseUuid, BodyOk, Flat;
  }

  /** The next step of one particular schedule to the end. */
  lemma NextStep(s: State) returns (step: Step)
    requires Inv(s) && s.isClosed && !s.mode.Returned?
    ensures Enabled(s, step) && Apply(s, step).isClosed
    ensures var s' := Apply(s, step);
      || ModeRank(s'.mode) < ModeRank(s.mode)
      || (s'.mode == s.mode && |s'.incoming| < |s.incoming|)
      || (s'.mode == s.mode && s'.incoming == s.incoming && HoldRank(s'.hold) < HoldRank(s.hold))
      || (s'.mode == s.mode && s'.incoming == s.incoming && s'.hold == s.hold && Work(s'.workers) < Work(s.workers))
      || (s'.mode == s.mode && s'.incoming == s.incoming && s'.hold == s.hold && s'.workers == s.workers &&
          |s'.outgoing| < |s.outgoing|)
  {
    hide WorkerOk, MapIsLive, InputConserved, OutputConserved, Work, IsSock, Offer;
    if s.hold.Holding? {
      step := Deliver;
    } else if s.hold.Written? {
      step := Release;
    } else if s.mode.Serving? {
      step := BeginDrain;
    } else if s.mode.DrainingIn? {
      step := if s.incoming != [] then Take else SignalAll;
    } else if s.mode.Waiting? {
      if i: nat :| i < |s.workers| && !s.workers[i].phase.Stopped? {
        step := Nudge(s.workers[i], i);
        NudgeHelps(s, i);
      } else {
        step := WaitDone;
      }
    } else {
      step := if s.outgoing != [] then LogOut else FinishServe;
    }
  }

  /** No deadlock: from every reachable state in which Close has been called, some schedule
      brings Serve to its return. */
  lemma {:induction false} CanAlwaysReturn(s: State) returns (run: seq<State>, steps: seq<Step>)
    requires Inv(s) && s.isClosed
    ensures IsRunFrom(s, run, steps) && run[|run| - 1].mode.Returned?
    decreases ModeRank(s.mode), |s.incoming|, HoldRank(s.hold), Work(s.workers), |s.outgoing|
  {
    hide Inv, Apply, Enabled, Work;
    if s.mode.Returned? {
      run, steps := [s], [];
    } else {
      var step := NextStep(s);
      StepKeepsInv(s, step);
      var run', steps' := CanAlwaysReturn(Apply(s, step));
      run, steps := [s] + run', [step] + steps';
      forall k | 0 <= k < |steps| ensures Enabled(run[k], steps[k]) && run[k + 1] == Apply(run[k], steps[k]) {
        if k > 0 {
          assert Enabled(run'[k - 1], steps'[k - 1]) && run'[k - 1 + 1] == Apply(run'[k - 1], steps'[k - 1]);
        }
      }
    }
  }

  // ---------------------------------------------------------------- every way is bounded

  /** What a worker can still cost, its retries and idle drains apart. */
  function Cost(w: Worker): nat {
    12 * |w.queue| +
    match w.phase
    case Stopped => 0
    case Closing(last) => if last then 2 else 18
    case Emptied(last) => if last then 3 else 19
    case Draining(last) => if last then 4 else 20
    case Loop => 5 + (if w.ticks <= MAX_TICKER_COUNT + 1 then MAX_TICKER_COUNT + 1 - w.ticks else 0)
  }

  function HoldCost(h: Hold): nat { if h.Holding? then 14 else if h.Written? then 1 else 0 }

  function Total(s: State): nat {
    ModeRank(s.mode) + 31 * |s.incoming| + HoldCost(s.hold) + Sum(Cost, s.workers) + |s.outgoing|
  }

  /** The steps that do not bring the end nearer: a retry of `IfUsed` while Serve holds the
      worker, the drain of an idle socket worker that goes on afterwards, and a close signal. */
  predicate Extra(s: State, step: Step) {
    match step
    case LoadUsed(i) => i < |s.workers| && s.workers[i].used
    case Tick(i) => i < |s.workers| && s.workers[i].ticks > MAX_TICKER_COUNT && IsSock(s.workers[i])
    case Destroy(_) => true
    case _ => false
  }

  function ExtraCount(run: seq<State>, steps: seq<Step>): nat
    requires |run| == |steps| + 1
  {
    if steps == [] then 0
    else ExtraCount(run[..|steps|], steps[..|steps| - 1]) + (if Extra(run[|steps| - 1], steps[|steps| - 1]) then 1 else 0)
  }

  function Slack(s: State, step: Step): nat { if Extra(s, step) then 17 else 0 }

  lemma CostOfOwnStep(t: int, step: Step, w: Worker, w': Worker)
    requires MovesItself(t, step, w, w')
    ensures Cost(w') + 1 + (if step.Show? then 1 else 0) <= Cost(w) +
      (if (step.LoadUsed? && w.used) || (step.Tick? && w.ticks > MAX_TICKER_COUNT && IsSock(w)) then 17 else 0)
  {
    hide IsSock, WriteEvent, Display;
  }

  /** A worker's own step reaches outside itself only through the map and the output channel. */
  lemma OwnStepOutside(s: State, step: Step, i: nat)
    requires i < |s.workers| && Enabled(s, step) && OwnStep(step, i)
    ensures var s' := WorkerStep(s, step, i);
      && s'.mode == s.mode && s'.incoming == s.incoming && s'.hold == s.hold && s'.isClosed == s.isClosed
      && |s'.outgoing| <= |s.outgoing| + (if step.Show? then 1 else 0)
  {
    hide IsSock, Hand, TickStep, CloseStep;
  }

  lemma OwnStepTotal(s: State, step: Step, i: nat)
    requires i < |s.workers| && Enabled(s, step) && OwnStep(step, i)
    ensures Total(WorkerStep(s, step, i)) + 1 <= Total(s) + Slack(s, step)
  {
    var s' := WorkerStep(s, step, i);
    hide Enabled, WorkerStep, MovesItself, Cost, Sum, IsSock;
    OwnStepWorkers(s, step, i);
    OwnStepOutside(s, step, i);
    SelfMoves(s, step, i);
    CostOfOwnStep(s.truncate, step, s.workers[i], s'.workers[i]);
    SumOfChange(Cost, s.workers, i, s'.workers[i]);
  }

  lemma OwnStepWorkers(s: State, step: Step, i: nat)
    requires i < |s.workers| && Enabled(s, step) && OwnStep(step, i)
    ensures |WorkerStep(s, step, i).workers| == |s.workers|
    ensures WorkerStep(s, step, i).workers == s.workers[i := WorkerStep(s, step, i).workers[i]]
  {
    hide Enabled, WorkerStep, MovesItself;
    SelfMoves(s, step, i);
    forall j | 0 <= j < |s.workers| && j != i ensures WorkerStep(s, step, i).workers[j] == s.workers[j] {
      OthersStay(s, step, i, j);
    }
  }

  lemma TakeTotal(s: State)
    requires Enabled(s, Take)
    ensures Total(TakeStep(s)) + 1 <= Total(s)
  {
    hide ParseUuid, Sum;
    var e := s.incoming[0];
    if e.uuid in s.workerQueue && s.workerQueue[e.uuid] < |s.workers| {
      var i := s.workerQueue[e.uuid];
      SumOfChange(Cost, s.workers, i, s.workers[i].(used := true));
    } else {
      SumOfOneMore(Cost, s.workers, NewWorker(e.uuid).(used := true));
    }
  }

  lemma SumOfOneMore(f: Worker -> nat, ws: seq<Worker>, w: Worker)
    ensures Sum(f, ws + [w]) == Sum(f, ws) + f(w)
  {
    assert (ws + [w])[..|ws|] == ws;
  }

  lemma {:induction false} SumOfSame(f: Worker -> nat, a: seq<Worker>, b: seq<Worker>)
    requires |a| == |b| && forall j | 0 <= j < |a| :: f(a[j]) == f(b[j])
    ensures Sum(f, a) == Sum(f, b)
  {
    if a != [] { SumOfSame(f, a[..|a| - 1], b[..|b| - 1]); }
  }

  lemma DeliverTotal(s: State)
    requires Enabled(s, Deliver)
    ensures Total(DeliverStep(s)) + 1 <= Total(s)
  {
    hide Sum;
    SumOfChange(Cost, s.workers, s.hold.w, Offer(s.workers[s.hold.w], s.hold.e));
  }

  lemma ReleaseTotal(s: State)
    requires Enabled(s, Release)
    ensures Total(ReleaseStep(s)) + 1 <= Total(s)
  {
    hide Sum;
    SumOfChange(Cost, s.workers, s.hold.w, s.workers[s.hold.w].(used := false));
  }

  lemma DestroyTotal(s: State, i: nat)
    requires Enabled(s, Destroy(i))
    ensures Total(SetWorker(s, i, s.workers[i].(closing := true))) == Total(s)
  {
    hide Sum, IsSock;
    SumOfChange(Cost, s.workers, i, s.workers[i].(closing := true));
  }

  lemma SignalTotal(s: State)
    requires Enabled(s, SignalAll)
    ensures Total(SignalStep(s)) + 1 <= Total(s)
  {
    hide Sum, IsSock;
    SumOfSame(Cost, s.workers, SignalStep(s).workers);
  }

  /** Once Close has been called, every step is paid for. */
  lemma StepTotal(s: State, step: Step)
    requires Enabled(s, step) && s.isClosed
    ensures Total(Apply(s, step)) + 1 <= Total(s) + Slack(s, step)
  {
    hide IsSock, TakeStep, DeliverStep, ReleaseStep, SignalStep, WorkerStep, Sum;
    match step
    case Take => TakeTotal(s);
    case Deliver => DeliverTotal(s);
    case Release => ReleaseTotal(s);
    case Destroy(i) => DestroyTotal(s, i);
    case SignalAll => SignalTotal(s);
    case Tick(i) => OwnStepTotal(s, step, i);
    case Receive(i) => OwnStepTotal(s, step, i);
    case SeeClose(i) => OwnStepTotal(s, step, i);
    case DrainOne(i) => OwnStepTotal(s, step, i);
    case EmptyTest(i) => OwnStepTotal(s, step, i);
    case LoadUsed(i) => OwnStepTotal(s, step, i);
    case Show(i, _) => OwnStepTotal(s, step, i);
    case _ =>
  }

  lemma StaysClosed(s: State, step: Step)
    requires Enabled(s, step) && s.isClosed
    ensures Apply(s, step).isClosed
  {
    hide IsSock, Offer, Hand, TickStep, CloseStep;
  }

  /** Termination of the shutdown: every run from a state in which Close has been called has at
      most as many steps as the state has work, and seventeen more for each retry, idle drain
      and close signal in it.  Together with CanAlwaysReturn, a schedule that does not let those
      recur for ever brings Serve to its return. */
  lemma {:induction false} ShutdownIsBounded(s: State, run: seq<State>, steps: seq<Step>)
    requires s.isClosed && IsRunFrom(s, run, steps)
    ensures run[|steps|].isClosed
    ensures |steps| + Total(run[|steps|]) <= Total(s) + 17 * ExtraCount(run, steps)
  {
    hide Apply, Enabled, IsRunFrom, Total, Extra;
    RunStart(s, run, steps);
    if steps != [] {
      var n := |steps| - 1;
      RunPrefix(s, run, steps);
      ShutdownIsBounded(s, run[..n + 1], steps[..n]);
      StepTotal(run[n], steps[n]);
      StaysClosed(run[n], steps[n]);
    }
  }

  /** Retries and close signals end with the drain of the input: while Serve waits for the
      workers, only an idle drain of a socket worker that has already been told to close is
      not paid for. */
  lemma WaitingExtras(s: State, step: Step)
    requires Inv(s) && s.mode.Waiting? && Enabled(s, step) && Extra(s, step)
    ensures step.Tick? && s.workers[step.w].closing && Enabled(s, SeeClose(step.w))
  {
    hide WorkerOk, ParseUuid, InputConserved, OutputConserved, MapIsLive;
  }
}

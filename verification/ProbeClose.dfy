/**
  Closing a probe (internal/probe/base/base_probe.go): ordered reader loops, each with its own
  reorder buffer, interleaved with Close, which closes the readers in reverse order, waits for
  the loops, and only then closes the handlers and the dispatcher.

  A reader may return buffered records until it notices that it has been closed; each dispatch
  is a step of its own.  Readers started after Close has begun are not modelled.
 */
module ProbeClose {
  import opened Basics
  import opened PerfReorder

  type Ev = Event<nat>

  datatype Phase = Reading | Flushing | Finished

  datatype Reader = Reader(
    phase: Phase,
    closed: bool,         // Close has been called on its perf reader
    buf: seq<Ev>,         // the reorder buffer
    pending: seq<Ev>,     // emitted, not yet passed to Dispatch
    pushed: seq<Ev>,      // history: events pushed into the buffer
    dispatched: seq<Ev>)  // history: reordered events passed to Dispatch

  /** Where Close is. */
  datatype Progress = NotCalled | ClosingReaders(left: nat) | Waiting | ClosingHandlers | Closed

  datatype Probe = Probe(
    lag: nat,
    cancelled: bool,      // the probe's context is done
    readers: seq<Reader>,
    progress: Progress)

  datatype Step =
    | Read(r: nat, e: Ev)       // a timestamped event is read, decoded and pushed
    | Plain(r: nat)             // an event without a timestamp is dispatched directly
    | Dispatch(r: nat)          // the next pending event
    | Exit(r: nat)              // the loop returns; the deferred flush empties the buffer
    | Finish(r: nat)            // the deferred flush is done; the wait group is released
    | CancelContext
    | CallClose | CloseReader | StopWaiting | CloseHandlers

  function Initial(lag: nat, n: nat): Probe {
    Probe(lag, false, seq(n, _ => Reader(Reading, false, [], [], [], [])), NotCalled)
  }

  predicate Idle(p: Probe, r: nat) {
    r < |p.readers| && p.readers[r].phase.Reading? && p.readers[r].pending == []
  }

  predicate Enabled(p: Probe, step: Step) {
    match step
    case Read(r, _) => Idle(p, r)
    case Plain(r) => Idle(p, r)
    case Dispatch(r) => r < |p.readers| && p.readers[r].pending != []
    case Exit(r) => Idle(p, r) && (p.cancelled || p.readers[r].closed)
    case Finish(r) => r < |p.readers| && p.readers[r].phase.Flushing? && p.readers[r].pending == []
    case CancelContext => true
    case CallClose => p.progress.NotCalled?
    case CloseReader => p.progress.ClosingReaders? && p.progress.left <= |p.readers|
    case StopWaiting => p.progress.Waiting? && forall i | 0 <= i < |p.readers| :: p.readers[i].phase.Finished?
    case CloseHandlers => p.progress.ClosingHandlers?
  }

  /** Handlers and dispatcher are (being) closed. */
  predicate Shut(p: Probe) { p.progress.ClosingHandlers? || p.progress.Closed? }

  function Set(p: Probe, r: nat, x: Reader): Probe
    requires r < |p.readers|
  {
    p.(readers := p.readers[r := x])
  }

  function Apply(p: Probe, step: Step): Probe
    requires Enabled(p, step)
  {
    match step
    case Read(r, e) =>
      var x := p.readers[r];
      var f := Push(p.lag, x.buf, e);
      Set(p, r, x.(buf := f.keep, pending := f.out, pushed := x.pushed + [e]))
    case Plain(r) => p
    case Dispatch(r) =>
      var x := p.readers[r];
      Set(p, r, x.(pending := x.pending[1..], dispatched := x.dispatched + [x.pending[0]]))
    case Exit(r) =>
      var x := p.readers[r];
      Set(p, r, x.(phase := Flushing, pending := StableSort(x.buf), buf := []))
    case Finish(r) => Set(p, r, p.readers[r].(phase := Finished))
    case CancelContext => p.(cancelled := true)
    case CallClose => p.(progress := ClosingReaders(|p.readers|))
    case CloseReader =>
      var left := p.progress.left;
      if left == 0 then p.(progress := Waiting)
      else Set(p, left - 1, p.readers[left - 1].(closed := true)).(progress := ClosingReaders(left - 1))
    case StopWaiting => p.(progress := ClosingHandlers)
    case CloseHandlers => p.(progress := Closed)
  }

  // ---------------------------------------------------------------- the invariant

  /** What a reader has dispatched, and is about to, is the output of the reorder buffer on
      what it has pushed. */
  ghost predicate ReaderOk(lag: nat, x: Reader) {
    && (x.phase.Reading? ==>
          x.buf == RunOf(lag, x.pushed).buf && x.dispatched + x.pending == RunOf(lag, x.pushed).out)
    && (!x.phase.Reading? ==> x.buf == [] && x.dispatched + x.pending == Output(lag, x.pushed))
    && (x.phase.Finished? ==> x.pending == [])
  }

  ghost predicate Inv(p: Probe) {
    && (forall i | 0 <= i < |p.readers| :: ReaderOk(p.lag, p.readers[i]))
    && (Shut(p) ==> forall i | 0 <= i < |p.readers| :: p.readers[i].phase.Finished?)
    && (p.progress.ClosingReaders? ==> p.progress.left <= |p.readers|)
    && (p.progress.ClosingReaders? ==> forall i | p.progress.left <= i < |p.readers| :: p.readers[i].closed)
    && (p.progress.Waiting? ==> forall i | 0 <= i < |p.readers| :: p.readers[i].closed)
  }

  lemma ReadOk(lag: nat, x: Reader, e: Ev)
    requires ReaderOk(lag, x) && x.phase.Reading? && x.pending == []
    ensures var f := Push(lag, x.buf, e);
      ReaderOk(lag, x.(buf := f.keep, pending := f.out, pushed := x.pushed + [e]))
  {
    hide Push, Output;
    assert (x.pushed + [e])[..|x.pushed|] == x.pushed;
    assert x.dispatched + [] == x.dispatched;
  }

  lemma DispatchOk(lag: nat, x: Reader)
    requires ReaderOk(lag, x) && x.pending != []
    ensures ReaderOk(lag, x.(pending := x.pending[1..], dispatched := x.dispatched + [x.pending[0]]))
  {
    hide RunOf, Output;
    assert x.dispatched + x.pending == (x.dispatched + [x.pending[0]]) + x.pending[1..];
  }

  lemma ExitOk(lag: nat, x: Reader)
    requires ReaderOk(lag, x) && x.phase.Reading? && x.pending == []
    ensures ReaderOk(lag, x.(phase := Flushing, pending := StableSort(x.buf), buf := []))
  {
    hide RunOf, StableSort;
    assert x.dispatched + [] == x.dispatched;
  }

  lemma SetOk(p: Probe, r: nat, x: Reader)
    requires Inv(p) && r < |p.readers| && ReaderOk(p.lag, x)
    requires (p.readers[r].closed ==> x.closed) && (p.readers[r].phase.Finished? ==> x.phase.Finished?)
    ensures Inv(Set(p, r, x))
  {
    hide ReaderOk;
    assert forall i | 0 <= i < |p.readers| :: Set(p, r, x).readers[i] == if i == r then x else p.readers[i];
  }

  lemma StepKeepsInv(p: Probe, step: Step)
    requires Inv(p) && Enabled(p, step)
    ensures Inv(Apply(p, step)) && Apply(p, step).lag == p.lag
  {
    hide Push, RunOf, Output, StableSort;
    match step
    case Read(r, e) =>
      ReadOk(p.lag, p.readers[r], e);
      SetOk(p, r, Apply(p, step).readers[r]);
    case Dispatch(r) =>
      DispatchOk(p.lag, p.readers[r]);
      SetOk(p, r, Apply(p, step).readers[r]);
    case Exit(r) =>
      ExitOk(p.lag, p.readers[r]);
      SetOk(p, r, Apply(p, step).readers[r]);
    case Finish(r) => SetOk(p, r, p.readers[r].(phase := Finished));
    case CloseReader =>
      if p.progress.left > 0 { SetOk(p, p.progress.left - 1, p.readers[p.progress.left - 1].(closed := true)); }
    case _ =>
  }

  // ---------------------------------------------------------------- whole runs

  /** The state after the steps from `n` readers, if each step was possible. */
  function Exec(lag: nat, n: nat, steps: seq<Step>): Option<Probe> {
    if steps == [] then Some(Initial(lag, n)) else
      var p := Exec(lag, n, steps[..|steps| - 1]);
      if p.Some? && Enabled(p.value, steps[|steps| - 1]) then Some(Apply(p.value, steps[|steps| - 1])) else None
  }

  lemma {:induction false} RunKeepsInv(lag: nat, n: nat, steps: seq<Step>)
    requires Exec(lag, n, steps).Some?
    ensures Inv(Exec(lag, n, steps).value) && Exec(lag, n, steps).value.lag == lag
  {
    hide Inv, Apply, Enabled;
    if steps == [] {
      InitialOk(lag, n);
    } else {
      RunKeepsInv(lag, n, steps[..|steps| - 1]);
      StepKeepsInv(Exec(lag, n, steps[..|steps| - 1]).value, steps[|steps| - 1]);
    }
  }

  lemma InitialOk(lag: nat, n: nat)
    ensures Inv(Initial(lag, n))
  {
  }

  /** What reader `r` has read, from the steps of the run. */
  function ReadsOf(steps: seq<Step>, r: nat): seq<Ev> {
    if steps == [] then [] else
      var last := steps[|steps| - 1];
      ReadsOf(steps[..|steps| - 1], r) + (if last.Read? && last.r == r then [last.e] else [])
  }

  lemma ExecLast(lag: nat, n: nat, steps: seq<Step>)
    requires steps != [] && Exec(lag, n, steps).Some?
    ensures var p := Exec(lag, n, steps[..|steps| - 1]);
      p.Some? && Enabled(p.value, steps[|steps| - 1]) &&
      Exec(lag, n, steps).value == Apply(p.value, steps[|steps| - 1])
  {
  }

  lemma StepPushes(p: Probe, step: Step, i: nat)
    requires Enabled(p, step) && i < |p.readers|
    ensures |Apply(p, step).readers| == |p.readers|
    ensures Apply(p, step).readers[i].pushed ==
      if step.Read? && step.r == i then p.readers[i].pushed + [step.e] else p.readers[i].pushed
  {
    hide Push, StableSort;
  }

  lemma StepKeepsCount(p: Probe, step: Step)
    requires Enabled(p, step)
    ensures |Apply(p, step).readers| == |p.readers|
  {
    hide Push, StableSort;
  }

  /** The history is that of the steps: everything read is pushed, in order, and nothing else. */
  lemma {:induction false} PushedIsRead(lag: nat, n: nat, steps: seq<Step>, i: nat)
    requires Exec(lag, n, steps).Some? && i < n
    ensures |Exec(lag, n, steps).value.readers| == n
    ensures Exec(lag, n, steps).value.readers[i].pushed == ReadsOf(steps, i)
  {
    hide Apply, Enabled;
    if steps != [] {
      ExecLast(lag, n, steps);
      PushedIsRead(lag, n, steps[..|steps| - 1], i);
      StepPushes(Exec(lag, n, steps[..|steps| - 1]).value, steps[|steps| - 1], i);
    }
  }

  /** What the steps of the run pass to the dispatcher for reader `r`. */
  function CallsOf(lag: nat, n: nat, steps: seq<Step>, r: nat): seq<Ev> {
    if steps == [] then [] else
      var last, p := steps[|steps| - 1], Exec(lag, n, steps[..|steps| - 1]);
      CallsOf(lag, n, steps[..|steps| - 1], r) +
      (if last == Dispatch(r) && p.Some? && Enabled(p.value, last) then [p.value.readers[r].pending[0]] else [])
  }

  lemma StepDispatches(p: Probe, step: Step, i: nat)
    requires Enabled(p, step) && i < |p.readers|
    ensures Apply(p, step).readers[i].dispatched ==
      p.readers[i].dispatched + (if step == Dispatch(i) then [p.readers[i].pending[0]] else [])
  {
    hide Push, StableSort;
    assert p.readers[i].dispatched + [] == p.readers[i].dispatched;
  }

  lemma {:induction false} DispatchedAreCalls(lag: nat, n: nat, steps: seq<Step>, i: nat)
    requires Exec(lag, n, steps).Some? && i < n
    ensures |Exec(lag, n, steps).value.readers| == n
    ensures Exec(lag, n, steps).value.readers[i].dispatched == CallsOf(lag, n, steps, i)
  {
    hide Apply, Enabled;
    ReadersCount(lag, n, steps);
    if steps != [] {
      ExecLast(lag, n, steps);
      DispatchedAreCalls(lag, n, steps[..|steps| - 1], i);
      StepDispatches(Exec(lag, n, steps[..|steps| - 1]).value, steps[|steps| - 1], i);
    }
  }

  /** In every interleaving, by the time a handler or the dispatcher is closed the calls made
      for each reader are exactly the reorder buffer's output on what it has read: every event
      read once, ties in arrival order. */
  lemma ClosedAfterEverything(lag: nat, n: nat, steps: seq<Step>, p: Probe)
    requires Exec(lag, n, steps) == Some(p)
    ensures |p.readers| == n
    ensures Shut(p) ==> forall i | 0 <= i < n ::
      && CallsOf(lag, n, steps, i) == Output(lag, ReadsOf(steps, i))
      && multiset(CallsOf(lag, n, steps, i)) == multiset(ReadsOf(steps, i))
      && SameTies(CallsOf(lag, n, steps, i), ReadsOf(steps, i))
  {
    hide RunOf, StableSort, Push, Output, Exec, SameTies, ReadsOf, CallsOf;
    RunKeepsInv(lag, n, steps);
    ReadersCount(lag, n, steps);
    if Shut(p) {
      forall i | 0 <= i < n
        ensures CallsOf(lag, n, steps, i) == Output(lag, ReadsOf(steps, i))
        ensures multiset(CallsOf(lag, n, steps, i)) == multiset(ReadsOf(steps, i))
        ensures SameTies(CallsOf(lag, n, steps, i), ReadsOf(steps, i))
      {
        PushedIsRead(lag, n, steps, i);
        DispatchedAreCalls(lag, n, steps, i);
        assert ReaderOk(p.lag, p.readers[i]);
        assert p.readers[i].dispatched + [] == p.readers[i].dispatched;
        OutputKeepsTies(lag, ReadsOf(steps, i));
      }
    }
  }

  lemma {:induction false} ReadersCount(lag: nat, n: nat, steps: seq<Step>)
    requires Exec(lag, n, steps).Some?
    ensures |Exec(lag, n, steps).value.readers| == n
  {
    hide Apply, Enabled;
    if steps != [] {
      ExecLast(lag, n, steps);
      ReadersCount(lag, n, steps[..|steps| - 1]);
      StepKeepsCount(Exec(lag, n, steps[..|steps| - 1]).value, steps[|steps| - 1]);
    }
  }

  /** No call of Dispatch, and no read or flush, comes after the closing of a handler or the
      dispatcher has begun. */
  lemma NothingAfterShut(lag: nat, n: nat, steps: seq<Step>, k: nat)
    requires Exec(lag, n, steps).Some? && k < |steps|
    requires steps[k].Dispatch? || steps[k].Plain? || steps[k].Read? || steps[k].Exit?
    ensures Exec(lag, n, steps[..k]).Some? && !Shut(Exec(lag, n, steps[..k]).value)
  {
    ExecPrefix(lag, n, steps, k + 1);
    ExecLast(lag, n, steps[..k + 1]);
    assert steps[..k + 1][..k] == steps[..k];
    RunKeepsInv(lag, n, steps[..k]);
    hide Exec, RunOf, Output;
    var p := Exec(lag, n, steps[..k]).value;
    assert forall i | 0 <= i < |p.readers| :: ReaderOk(p.lag, p.readers[i]);
  }

  lemma {:induction false} ExecPrefix(lag: nat, n: nat, steps: seq<Step>, k: nat)
    requires Exec(lag, n, steps).Some? && k <= |steps|
    ensures Exec(lag, n, steps[..k]).Some?
  {
    if k == |steps| {
      assert steps[..k] == steps;
    } else {
      ExecLast(lag, n, steps);
      ExecPrefix(lag, n, steps[..|steps| - 1], k);
      assert steps[..|steps| - 1][..k] == steps[..k];
    }
  }

  /** Before that, the calls made for a running reader are a prefix of the reorder buffer's
      output on what it has read. */
  lemma DispatchedIsPrefix(lag: nat, n: nat, steps: seq<Step>, i: nat)
    requires Exec(lag, n, steps).Some? && i < n
    ensures CallsOf(lag, n, steps, i) <= Output(lag, ReadsOf(steps, i))
  {
    hide StableSort, Push, Exec, RunOf, ReadsOf, CallsOf;
    var p := Exec(lag, n, steps).value;
    RunKeepsInv(lag, n, steps);
    PushedIsRead(lag, n, steps, i);
    DispatchedAreCalls(lag, n, steps, i);
    assert ReaderOk(p.lag, p.readers[i]);
  }

  /** The context is done, or Close called, exactly if some step did it. */
  lemma {:induction false} FlagsAreSteps(lag: nat, n: nat, steps: seq<Step>)
    requires Exec(lag, n, steps).Some?
    ensures Exec(lag, n, steps).value.cancelled <==> CancelContext in steps
    ensures Exec(lag, n, steps).value.progress.NotCalled? <==> CallClose !in steps
  {
    hide Push, StableSort;
    if steps != [] {
      ExecLast(lag, n, steps);
      FlagsAreSteps(lag, n, steps[..|steps| - 1]);
      assert steps == steps[..|steps| - 1] + [steps[|steps| - 1]];
    }
  }

  // ---------------------------------------------------------------- anything can be read

  lemma ExecSnoc(lag: nat, n: nat, steps: seq<Step>, step: Step)
    requires Exec(lag, n, steps).Some? && Enabled(Exec(lag, n, steps).value, step)
    ensures Exec(lag, n, steps + [step]) == Some(Apply(Exec(lag, n, steps).value, step))
    ensures ReadsOf(steps + [step], 0) == ReadsOf(steps, 0) + (if step.Read? && step.r == 0 then [step.e] else [])
  {
    assert (steps + [step])[..|steps|] == steps;
  }

  /** A reader that has emitted something can always pass it on. */
  lemma {:induction false} PassOn(lag: nat, steps: seq<Step>) returns (steps': seq<Step>)
    requires Exec(lag, 1, steps).Some? && |Exec(lag, 1, steps).value.readers| == 1
    requires Exec(lag, 1, steps).value.readers[0].phase.Reading?
    ensures Exec(lag, 1, steps').Some? && ReadsOf(steps', 0) == ReadsOf(steps, 0)
    ensures |Exec(lag, 1, steps').value.readers| == 1 && Idle(Exec(lag, 1, steps').value, 0)
    decreases |Exec(lag, 1, steps).value.readers[0].pending|
  {
    hide Exec, ReadsOf, Push, StableSort;
    var p := Exec(lag, 1, steps).value;
    if p.readers[0].pending == [] {
      steps' := steps;
    } else {
      ExecSnoc(lag, 1, steps, Dispatch(0));
      assert ReadsOf(steps, 0) + [] == ReadsOf(steps, 0);
      steps' := PassOn(lag, steps + [Dispatch(0)]);
    }
  }

  /** The laws above are about every input: each sequence of events is what some run reads. */
  lemma {:induction false} EveryInputCanBeRead(lag: nat, es: seq<Ev>) returns (steps: seq<Step>)
    ensures Exec(lag, 1, steps).Some? && ReadsOf(steps, 0) == es
    ensures |Exec(lag, 1, steps).value.readers| == 1 && Idle(Exec(lag, 1, steps).value, 0)
  {
    if es == [] {
      steps := [];
    } else {
      var n := |es| - 1;
      var before := EveryInputCanBeRead(lag, es[..n]);
      hide Exec, ReadsOf, Push, StableSort;
      ExecSnoc(lag, 1, before, Read(0, es[n]));
      assert es == es[..n] + [es[n]];
      steps := PassOn(lag, before + [Read(0, es[n])]);
    }
  }

  // ---------------------------------------------------------------- Close can always finish

  /** The steps a reader still needs once it stops reading. */
  function Cost(x: Reader): nat {
    |x.pending| + (match x.phase case Reading => 2 + |x.buf| case Flushing => 1 case Finished => 0)
  }

  function Left(xs: seq<Reader>): nat {
    if xs == [] then 0 else Left(xs[..|xs| - 1]) + Cost(xs[|xs| - 1])
  }

  lemma {:induction false} LeftOfChange(xs: seq<Reader>, i: nat, x: Reader)
    requires i < |xs|
    ensures Left(xs[i := x]) + Cost(xs[i]) == Left(xs) + Cost(x)
  {
    var n := |xs| - 1;
    if i == n {
      assert xs[i := x][..n] == xs[..n];
    } else {
      assert xs[i := x][..n] == xs[..n][i := x];
      LeftOfChange(xs[..n], i, x);
    }
  }

  function Stage(g: Progress): nat {
    match g
    case NotCalled => 5
    case ClosingReaders(_) => 4
    case Waiting => 3
    case ClosingHandlers => 2
    case Closed => 0
  }

  /** What Close and the readers still have to do if nothing more is read. */
  function Remaining(p: Probe): nat {
    Left(p.readers) +
    match p.progress
    case NotCalled => |p.readers| + 5
    case ClosingReaders(left) => left + 4
    case Waiting => 2
    case ClosingHandlers => 1
    case Closed => 0
  }

  /** The steps that do not bring the end of Close nearer. */
  predicate Extra(step: Step) { step.Read? || step.Plain? || step.CancelContext? }

  lemma ReaderCost(p: Probe, r: nat, x: Reader)
    requires r < |p.readers|
    ensures Left(Set(p, r, x).readers) + Cost(p.readers[r]) == Left(p.readers) + Cost(x)
  {
    LeftOfChange(p.readers, r, x);
  }

  lemma PushCounts(lag: nat, buf: seq<Ev>, e: Ev)
    ensures |Push(lag, buf, e).out| + |Push(lag, buf, e).keep| == |buf| + 1
  {
    PushSplits(lag, buf, e);
    hide Push;
    var f := Push(lag, buf, e);
    SameTiesMembers(f.out + f.keep, buf + [e]);
    assert |multiset(f.out + f.keep)| == |multiset(buf + [e])|;
  }

  /** One step of the accounts: reading one event adds one step, everything else but the
      harmless steps takes one off. */
  lemma StepCosts(p: Probe, step: Step)
    requires Enabled(p, step)
    ensures Remaining(Apply(p, step)) + (if Extra(step) then 0 else 1) <= Remaining(p) + (if step.Read? then 1 else 0)
  {
    hide Push, StableSort, Left;
    match step
    case Read(r, e) =>
      PushCounts(p.lag, p.readers[r].buf, e);
      ReaderCost(p, r, Apply(p, step).readers[r]);
    case Dispatch(r) => ReaderCost(p, r, Apply(p, step).readers[r]);
    case Exit(r) =>
      StableSortCorrect(p.readers[r].buf);
      ReaderCost(p, r, Apply(p, step).readers[r]);
    case Finish(r) => ReaderCost(p, r, Apply(p, step).readers[r]);
    case CloseReader =>
      if p.progress.left > 0 { ReaderCost(p, p.progress.left - 1, p.readers[p.progress.left - 1].(closed := true)); }
    case _ =>
  }

  function Count(steps: seq<Step>, which: Step -> bool): nat {
    if steps == [] then 0 else Count(steps[1..], which) + (if which(steps[0]) then 1 else 0)
  }

  /** Termination of Close: in every run at most as many steps besides reading are taken as
      there was work, plus one for each event read; so once the readers get no more events,
      every schedule brings Close to its end, and NextStep shows that none gets stuck. */
  lemma {:induction false} CloseIsBounded(p: Probe, steps: seq<Step>, q: Probe)
    requires Leads(p, steps, q)
    ensures Count(steps, (x: Step) => !Extra(x)) + Remaining(q) <= Remaining(p) + Count(steps, (x: Step) => x.Read?)
    decreases |steps|
  {
    hide Enabled, Apply, Remaining;
    if steps != [] {
      StepCosts(p, steps[0]);
      CloseIsBounded(Apply(p, steps[0]), steps[1..], q);
    }
  }

  lemma NextStep(p: Probe) returns (step: Step)
    requires Inv(p) && !p.progress.NotCalled? && !p.progress.Closed?
    ensures Enabled(p, step) && !Apply(p, step).progress.NotCalled?
    ensures var q := Apply(p, step);
      || Stage(q.progress) < Stage(p.progress)
      || (p.progress.ClosingReaders? && q.progress.ClosingReaders? && q.progress.left < p.progress.left)
      || (p.progress.Waiting? && q.progress.Waiting? && Left(q.readers) < Left(p.readers))
  {
    hide Push, RunOf, Output, StableSort, Left;
    if p.progress.ClosingReaders? {
      step := CloseReader;
    } else if p.progress.ClosingHandlers? {
      step := CloseHandlers;
    } else if i: nat :| i < |p.readers| && !p.readers[i].phase.Finished? {
      var x := p.readers[i];
      step := if x.pending != [] then Dispatch(i) else if x.phase.Reading? then Exit(i) else Finish(i);
      StableSortCorrect(x.buf);
      LeftOfChange(p.readers, i, Apply(p, step).readers[i]);
      assert Apply(p, step).readers == p.readers[i := Apply(p, step).readers[i]];
    } else {
      step := StopWaiting;
    }
  }

  /** No deadlock: once Close has been called, some schedule of the readers lets it finish. */
  lemma {:induction false} CloseCanFinish(p: Probe) returns (steps: seq<Step>, q: Probe)
    requires Inv(p) && !p.progress.NotCalled?
    ensures Leads(p, steps, q) && q.progress.Closed?
    decreases Stage(p.progress), (if p.progress.ClosingReaders? then p.progress.left else 0), Left(p.readers)
  {
    hide Inv, Apply, Enabled, Left;
    if p.progress.Closed? {
      steps, q := [], p;
    } else {
      var step := NextStep(p);
      StepKeepsInv(p, step);
      var rest;
      rest, q := CloseCanFinish(Apply(p, step));
      steps := [step] + rest;
      assert steps[1..] == rest;
    }
  }

  /** The steps, taken in turn from `p`, are all possible and end in `q`. */
  ghost predicate Leads(p: Probe, steps: seq<Step>, q: Probe)
    decreases |steps|
  {
    if steps == [] then p == q
    else Enabled(p, steps[0]) && Leads(Apply(p, steps[0]), steps[1..], q)
  }
}

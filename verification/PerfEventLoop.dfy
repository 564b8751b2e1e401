/**
  The ordered read loop of a perf map (internal/probe/base/base_probe.go,
  `perfEventLoopOrdered`): it drives one reorder buffer and flushes it when it returns.
 */
module PerfEventLoop {
  import opened PerfReorder

  /** What one turn of the loop reads: nothing usable (a read error, lost samples, an event not
      ready, a decoding error), an event without a timestamp, or one with. */
  datatype Reading<P> = Nothing | Plain(id: nat) | Timed(e: Event<P>)

  /** A call of the dispatcher. */
  datatype Call<P> = Direct(id: nat) | Ordered(e: Event<P>)

  function TimedOf<P>(rs: seq<Reading<P>>): seq<Event<P>> {
    if rs == [] then [] else
      TimedOf(rs[..|rs| - 1]) + (if rs[|rs| - 1].Timed? then [rs[|rs| - 1].e] else [])
  }

  function PlainOf<P>(rs: seq<Reading<P>>): seq<nat> {
    if rs == [] then [] else
      PlainOf(rs[..|rs| - 1]) + (if rs[|rs| - 1].Plain? then [rs[|rs| - 1].id] else [])
  }

  function OrderedOf<P>(cs: seq<Call<P>>): seq<Event<P>> {
    if cs == [] then [] else
      OrderedOf(cs[..|cs| - 1]) + (if cs[|cs| - 1].Ordered? then [cs[|cs| - 1].e] else [])
  }

  function DirectOf<P>(cs: seq<Call<P>>): seq<nat> {
    if cs == [] then [] else
      DirectOf(cs[..|cs| - 1]) + (if cs[|cs| - 1].Direct? then [cs[|cs| - 1].id] else [])
  }

  lemma CallSnoc<P>(cs: seq<Call<P>>, c: Call<P>)
    ensures OrderedOf(cs + [c]) == if c.Ordered? then OrderedOf(cs) + [c.e] else OrderedOf(cs)
    ensures DirectOf(cs + [c]) == if c.Direct? then DirectOf(cs) + [c.id] else DirectOf(cs)
  {
    assert (cs + [c])[..|cs|] == cs;
    assert OrderedOf(cs) + [] == OrderedOf(cs) && DirectOf(cs) + [] == DirectOf(cs);
  }

  lemma ReadingNext<P>(rs: seq<Reading<P>>, k: nat)
    requires k < |rs|
    ensures TimedOf(rs[..k + 1]) == if rs[k].Timed? then TimedOf(rs[..k]) + [rs[k].e] else TimedOf(rs[..k])
    ensures PlainOf(rs[..k + 1]) == if rs[k].Plain? then PlainOf(rs[..k]) + [rs[k].id] else PlainOf(rs[..k])
  {
    assert rs[..k + 1][..k] == rs[..k];
    assert TimedOf(rs[..k]) + [] == TimedOf(rs[..k]) && PlainOf(rs[..k]) + [] == PlainOf(rs[..k]);
  }

  lemma RunNext<P(!new)>(lag: nat, s: seq<Event<P>>, e: Event<P>)
    ensures var r, f := RunOf(lag, s), Push(lag, RunOf(lag, s).buf, e);
            RunOf(lag, s + [e]) == Run(r.out + f.out, f.keep)
  {
    assert (s + [e])[..|s|] == s;
  }

  method DispatchAll<P>(calls: seq<Call<P>>, batch: seq<Event<P>>) returns (r: seq<Call<P>>)
    ensures calls <= r
    ensures OrderedOf(r) == OrderedOf(calls) + batch
    ensures DirectOf(r) == DirectOf(calls)
  {
    r := calls;
    for i := 0 to |batch|
      invariant calls <= r && OrderedOf(r) == OrderedOf(calls) + batch[..i] && DirectOf(r) == DirectOf(calls)
    {
      CallSnoc(r, Ordered(batch[i]));
      r := r + [Ordered(batch[i])];
      assert batch[..i + 1] == batch[..i] + [batch[i]];
    }
    assert batch[..|batch|] == batch;
  }

  /** The calls made by the time turn `k` of the loop began, `m` in number, are those the first
      `k` readings call for: timed events as far as the reorder buffer has let them go, the
      others completely. */
  ghost predicate CaughtUp<P(!new)>(lag: nat, readings: seq<Reading<P>>, calls: seq<Call<P>>, k: nat, m: nat) {
    && k <= |readings| && m <= |calls|
    && OrderedOf(calls[..m]) == RunOf(lag, TimedOf(readings[..k])).out
    && DirectOf(calls[..m]) == PlainOf(readings[..k])
  }

  ghost predicate InStep<P(!new)>(lag: nat, readings: seq<Reading<P>>, calls: seq<Call<P>>, upto: seq<nat>) {
    forall k | 0 <= k < |upto| :: CaughtUp(lag, readings, calls, k, upto[k])
  }

  lemma InStepGrows<P(!new)>(lag: nat, readings: seq<Reading<P>>, calls: seq<Call<P>>, more: seq<Call<P>>, upto: seq<nat>)
    requires InStep(lag, readings, calls, upto) && calls <= more
    ensures InStep(lag, readings, more, upto)
  {
    hide OrderedOf, DirectOf, RunOf, TimedOf, PlainOf;
    forall k | 0 <= k < |upto| ensures CaughtUp(lag, readings, more, k, upto[k]) {
      assert CaughtUp(lag, readings, calls, k, upto[k]);
      assert more[..upto[k]] == calls[..upto[k]];
    }
  }

  /** `r` is what one more reading makes of `calls`, the buffer going from `buf` to `buf'`. */
  ghost predicate Turned<P(!new)>(lag: nat, x: Reading<P>, calls: seq<Call<P>>, buf: seq<Event<P>>,
                                  r: seq<Call<P>>, buf': seq<Event<P>>) {
    match x
    case Nothing => r == calls && buf' == buf
    case Plain(id) => r == calls + [Direct(id)] && buf' == buf
    case Timed(e) =>
      && OrderedOf(r) == OrderedOf(calls) + Push(lag, buf, e).out && buf' == Push(lag, buf, e).keep
      && DirectOf(r) == DirectOf(calls)
  }

  /** One turn of the loop. */
  method Turn<P(!new)>(reorder: PerfLagReorder<P>, x: Reading<P>, calls: seq<Call<P>>) returns (r: seq<Call<P>>)
    modifies reorder
    ensures calls <= r && Turned(reorder.lagNs, x, calls, old(reorder.buf), r, reorder.buf)
  {
    hide OrderedOf, DirectOf, Push;
    match x {
      case Nothing => r := calls;
      case Plain(id) => r := calls + [Direct(id)];
      case Timed(e) =>
        var out := reorder.PushNow(e);
        r := DispatchAll(calls, out);
    }
  }

  lemma TurnFollows<P(!new)>(lag: nat, readings: seq<Reading<P>>, k: nat, calls: seq<Call<P>>, buf: seq<Event<P>>,
                             r: seq<Call<P>>, buf': seq<Event<P>>)
    requires k < |readings| && Turned(lag, readings[k], calls, buf, r, buf')
    requires RunOf(lag, TimedOf(readings[..k])) == Run(OrderedOf(calls), buf)
    requires DirectOf(calls) == PlainOf(readings[..k])
    ensures RunOf(lag, TimedOf(readings[..k + 1])) == Run(OrderedOf(r), buf')
    ensures DirectOf(r) == PlainOf(readings[..k + 1])
  {
    hide OrderedOf, DirectOf, Push, RunOf, TimedOf, PlainOf;
    ReadingNext(readings, k);
    match readings[k]
    case Nothing =>
    case Plain(id) => CallSnoc(calls, Direct(id));
    case Timed(e) => RunNext(lag, TimedOf(readings[..k]), e);
  }

  /** `readings` is what is read until the context is done or the reader is closed.  The timed
      events are dispatched as the reorder buffer's output on them, the others as they come;
      `upto[k]` is the number of calls made before turn `k`. */
  method PerfEventLoopOrdered<P(!new)>(lagNs: nat, readings: seq<Reading<P>>)
      returns (calls: seq<Call<P>>, ghost upto: seq<nat>)
    ensures OrderedOf(calls) == Output(lagNs, TimedOf(readings))
    ensures multiset(OrderedOf(calls)) == multiset(TimedOf(readings))
    ensures DirectOf(calls) == PlainOf(readings)
    ensures |upto| == |readings| + 1 && InStep(lagNs, readings, calls, upto)
  {
    hide OrderedOf, DirectOf, Push, StableSort, At, Turned, InStep, RunOf, TimedOf, PlainOf;
    var reorder := new PerfLagReorder<P>(lagNs);
    calls, upto := [], [0];
    NothingRead(lagNs, readings);
    for k := 0 to |readings|
      invariant reorder.lagNs == lagNs
      invariant RunOf(lagNs, TimedOf(readings[..k])) == Run(OrderedOf(calls), reorder.buf)
      invariant DirectOf(calls) == PlainOf(readings[..k])
      invariant |upto| == k + 1 && InStep(lagNs, readings, calls, upto)
    {
      ghost var before, buf := calls, reorder.buf;
      calls := Turn(reorder, readings[k], calls);
      TurnFollows(lagNs, readings, k, before, buf, calls, reorder.buf);
      InStepGrows(lagNs, readings, before, calls, upto);
      InStepNext(lagNs, readings, calls, upto);
      upto := upto + [|calls|];
    }
    assert readings[..|readings|] == readings;
    ghost var before := calls;
    var rest := reorder.FlushAllNow();
    calls := DispatchAll(calls, rest);
    InStepGrows(lagNs, readings, before, calls, upto);
    OutputKeepsTies(lagNs, TimedOf(readings));
  }

  lemma InStepNext<P(!new)>(lag: nat, readings: seq<Reading<P>>, calls: seq<Call<P>>, upto: seq<nat>)
    requires InStep(lag, readings, calls, upto) && |upto| <= |readings|
    requires OrderedOf(calls) == RunOf(lag, TimedOf(readings[..|upto|])).out
    requires DirectOf(calls) == PlainOf(readings[..|upto|])
    ensures InStep(lag, readings, calls, upto + [|calls|])
  {
    hide OrderedOf, DirectOf, RunOf, TimedOf, PlainOf;
    assert calls[..|calls|] == calls;
    assert CaughtUp(lag, readings, calls, |upto|, |calls|);
    assert forall k | 0 <= k < |upto| :: CaughtUp(lag, readings, calls, k, upto[k]);
  }

  lemma NothingRead<P(!new)>(lag: nat, readings: seq<Reading<P>>)
    ensures RunOf(lag, TimedOf(readings[..0])) == Run(OrderedOf<P>([]), [])
    ensures DirectOf<P>([]) == PlainOf(readings[..0]) == []
    ensures InStep(lag, readings, [], [0])
  {
  }
}

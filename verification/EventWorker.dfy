/**
  One event worker (pkg/event_processor/iworker.go): a bounded queue, a payload buffer and a
  small life cycle.  The functions are the atomic steps of a worker as the processor protocol
  uses them; the class performs the same steps on fields, the way the source does.
 */
module EventWorker {
  import opened Basics
  import opened Uuid

  const MAX_CHAN_LEN: nat := 1024
  const MAX_TICKER_COUNT: nat := 10

  datatype Event = Event(uuid: string, bytes: seq<byte>)

  datatype Status = Init | Processing | Finished

  /** Where the worker goroutine is.  `last` is true once the worker has removed itself from
      the processor's map, that is, when it returns after this drain. */
  datatype Phase =
    | Loop                  // the select in Run
    | Draining(last: bool)  // top of the loop in drainAndClose
    | Emptied(last: bool)   // the queue was found empty, `used` not yet loaded
    | Closing(last: bool)   // `used` was read as false
    | Stopped               // Run has returned

  /** The payload under construction, with its history. */
  datatype Body = Body(
    payload: seq<byte>,
    status: Status,
    current: seq<Event>,       // events written since the last display
    batches: seq<seq<Event>>,  // the events of each displayed batch
    shown: seq<seq<byte>>)     // the payload of each displayed batch

  datatype Worker = Worker(
    uuid: string,
    phase: Phase,
    queue: seq<Event>,
    used: bool,
    closing: bool,          // closeChan has been closed
    ticks: nat,
    body: Body,
    accepted: seq<Event>,   // events the queue accepted, in order
    handed: seq<Event>,     // events received and passed to writeEvent, in order
    raced: bool)            // an event was accepted since the last empty test, before `used` was loaded

  // ---------------------------------------------------------------- payload and batches

  function Joined(es: seq<Event>): seq<byte> {
    if es == [] then [] else Joined(es[..|es| - 1]) + es[|es| - 1].bytes
  }

  /** The payload a batch must show: everything, or exactly the first `t` bytes once an event
      arrived at or beyond the limit. */
  function Truncated(t: int, es: seq<Event>): seq<byte> {
    if t > 0 && es != [] && |Joined(es[..|es| - 1])| >= t then Joined(es)[..Min(t, |Joined(es)|)]
    else Joined(es)
  }

  /** `writeEvent`; `plain` is the default life cycle. */
  function WriteEvent(t: int, plain: bool, b: Body, e: Event): Body {
    if b.status != Init && plain then b
    else if t > 0 && |b.payload| >= t then b.(payload := b.payload[..t], current := b.current + [e])
    else b.(payload := b.payload + e.bytes, current := b.current + [e])
  }

  /** `Display`. */
  function Display(b: Body): Body {
    if b.payload == [] then b
    else Body([], Init, [], b.batches + [b.current], b.shown + [b.payload])
  }

  const NewBody: Body := Body([], Init, [], [], [])

  ghost predicate BodyOk(t: int, b: Body) {
    && b.status == Init
    && b.payload == Truncated(t, b.current)
    && |b.shown| == |b.batches|
    && forall i | 0 <= i < |b.shown| :: b.shown[i] == Truncated(t, b.batches[i])
  }

  function Flat(bs: seq<seq<Event>>): seq<Event> {
    if bs == [] then [] else Flat(bs[..|bs| - 1]) + bs[|bs| - 1]
  }

  lemma JoinedSnoc(es: seq<Event>, e: Event)
    ensures Joined(es + [e]) == Joined(es) + e.bytes
  {
    assert (es + [e])[..|es|] == es;
  }

  /** Truncation by dropping late events equals cutting the whole batch. */
  lemma WriteEventTruncates(t: int, plain: bool, b: Body, e: Event)
    requires BodyOk(t, b)
    ensures BodyOk(t, WriteEvent(t, plain, b, e))
    ensures WriteEvent(t, plain, b, e).current == b.current + [e]
  {
    JoinedSnoc(b.current, e);
    assert (b.current + [e])[..|b.current|] == b.current;
    if b.current != [] {
      JoinedSnoc(b.current[..|b.current| - 1], b.current[|b.current| - 1]);
      assert b.current == b.current[..|b.current| - 1] + [b.current[|b.current| - 1]];
    }
  }

  lemma DisplayKeeps(t: int, b: Body)
    requires BodyOk(t, b)
    ensures BodyOk(t, Display(b))
    ensures Flat(Display(b).batches) + Display(b).current == Flat(b.batches) + b.current
  {
    if b.payload != [] {
      assert (b.batches + [b.current])[..|b.batches|] == b.batches;
    }
  }

  /** Nothing is left to show exactly when every event of the batch was empty. */
  lemma EmptyPayload(t: int, b: Body)
    requires BodyOk(t, b)
    ensures b.payload == [] <==> Joined(b.current) == []
  {
    if b.current != [] { JoinedSnoc(b.current[..|b.current| - 1], b.current[|b.current| - 1]); }
  }

  function JoinedAll(bs: seq<seq<byte>>): seq<byte> {
    if bs == [] then [] else JoinedAll(bs[..|bs| - 1]) + bs[|bs| - 1]
  }

  lemma {:induction false} JoinedConcat(a: seq<Event>, b: seq<Event>)
    ensures Joined(a + b) == Joined(a) + Joined(b)
  {
    if b == [] {
      assert a + b == a;
    } else {
      assert (a + b)[..|a + b| - 1] == a + b[..|b| - 1];
      JoinedConcat(a, b[..|b| - 1]);
    }
  }

  lemma {:induction false} ShownIsJoined(bs: seq<seq<Event>>, shown: seq<seq<byte>>)
    requires |bs| == |shown| && forall i | 0 <= i < |bs| :: shown[i] == Joined(bs[i])
    ensures JoinedAll(shown) == Joined(Flat(bs))
  {
    if bs != [] {
      ShownIsJoined(bs[..|bs| - 1], shown[..|shown| - 1]);
      JoinedConcat(Flat(bs[..|bs| - 1]), bs[|bs| - 1]);
    }
  }

  /** A batch shows all of its bytes, or, with a limit, exactly the first `t`. */
  lemma TruncatedShape(t: int, es: seq<Event>)
    ensures Truncated(t, es) == Joined(es) || (t > 0 && |Joined(es)| >= t && Truncated(t, es) == Joined(es)[..t])
  {
    if es != [] { JoinedSnoc(es[..|es| - 1], es[|es| - 1]); }
  }

  // ---------------------------------------------------------------- atomic steps

  function NewWorker(uuid: string): Worker {
    Worker(uuid, Loop, [], false, false, 0, NewBody, [], [], false)
  }

  predicate IsSock(w: Worker) { ParseUuid(w.uuid).life == Sock }

  /** The worker is out of the processor's map. */
  predicate Retired(w: Worker) {
    w.phase == Stopped || (!w.phase.Loop? && !w.phase.Stopped? && w.phase.last)
  }

  /** The worker is out of the map and has read `used` as false. */
  predicate Sealed(w: Worker) { w.phase == Closing(true) || w.phase == Stopped }

  /** `Write`: a non-blocking send; a full queue refuses the event. */
  function Offer(w: Worker, e: Event): Worker {
    if |w.queue| < MAX_CHAN_LEN
    then w.(queue := w.queue + [e], accepted := w.accepted + [e], raced := w.raced || w.phase.Emptied?)
    else w
  }

  /** Receive one event and write it. */
  function Hand(t: int, w: Worker): Worker
    requires w.queue != []
  {
    w.(queue := w.queue[1..], handed := w.handed + [w.queue[0]],
       body := WriteEvent(t, !IsSock(w), w.body, w.queue[0]))
  }

  /** A tick in Run of a worker that stays in the map: count, or drain once and go on. */
  function TickStep(w: Worker): Worker {
    if w.ticks > MAX_TICKER_COUNT then w.(phase := Draining(false)) else w.(ticks := w.ticks + 1)
  }

  /** `Close` and what follows it in Run. */
  function CloseStep(w: Worker): Worker
    requires w.phase.Closing?
  {
    w.(body := Display(w.body), ticks := 0, phase := if w.phase.last then Stopped else Loop)
  }

  /** What every worker satisfies at every moment. */
  ghost predicate WorkerOk(t: int, w: Worker) {
    && w.accepted == w.handed + w.queue
    && w.handed == Flat(w.body.batches) + w.body.current
    && BodyOk(t, w.body)
    && w.ticks <= MAX_TICKER_COUNT + 1
    && (w.closing ==> IsSock(w))
    && (w.phase.Emptied? || Sealed(w) ==> (w.raced <==> w.queue != []))
    && (w.phase == Emptied(true) || Sealed(w) ==> |w.queue| <= 1)
    && (Sealed(w) ==> !w.used)
  }

  /** Over the whole life of a worker, with truncation off: what was displayed, the payload
      and the queue are together the accepted bytes, in order. */
  lemma BytesConserved(t: int, w: Worker)
    requires WorkerOk(t, w) && t <= 0
    ensures JoinedAll(w.body.shown) + w.body.payload + Joined(w.queue) == Joined(w.accepted)
  {
    hide Joined, JoinedAll, Flat;
    ShownIsJoined(w.body.batches, w.body.shown);
    JoinedConcat(Flat(w.body.batches), w.body.current);
    JoinedConcat(w.handed, w.queue);
  }

  /** The worker's fields and methods. */
  class EventWorker {
    const uuid: string
    const uuidOutput: string
    const destroyUuid: nat
    const lifeCycle: Life
    const truncateSize: int
    var incoming: seq<Event>
    var closing: bool             // closeChan has been closed
    var used: bool
    var tickerCount: nat
    var payload: seq<byte>
    var status: Status
    ghost var current: seq<Event>
    ghost var batches: seq<seq<Event>>
    ghost var shown: seq<seq<byte>>

    ghost function View(): Body reads this { Body(payload, status, current, batches, shown) }

    ghost predicate Valid() reads this {
      && BodyOk(truncateSize, View()) && |incoming| <= MAX_CHAN_LEN
      && destroyUuid == ParseUuid(uuid).destroyId && lifeCycle == ParseUuid(uuid).life
      && (closing ==> lifeCycle == Sock)
    }

    constructor (uuid: string, truncateSize: int)
      ensures Valid() && View() == NewBody && incoming == [] && !used && !closing && tickerCount == 0
      ensures this.uuid == uuid && this.truncateSize == truncateSize
      ensures uuidOutput == ParseUuid(uuid).output
    {
      this.uuid, this.truncateSize := uuid, truncateSize;
      var p := ParseUuid(uuid);
      uuidOutput, destroyUuid, lifeCycle := p.output, p.destroyId, p.life;
      incoming, used, closing, tickerCount := [], false, false, 0;
      payload, status := [], Init;
      current, batches, shown := [], [], [];
    }

    method Get() returns (ok: bool)
      requires Valid()
      modifies this`used
      ensures Valid() && used && ok == !old(used)
    {
      ok := !used;
      used := true;
    }

    method Put() returns (ok: bool)
      requires Valid()
      modifies this`used
      ensures Valid() && !used && ok == old(used)
    {
      ok := used;
      used := false;
    }

    /** `CloseEventWorker`: only a socket worker has a close channel. */
    method CloseEventWorker()
      requires Valid()
      modifies this`closing
      ensures Valid() && closing == (old(closing) || lifeCycle == Sock)
    {
      if lifeCycle == Sock { closing := true; }
    }

    method Write(e: Event) returns (ok: bool)
      requires Valid()
      modifies this`incoming
      ensures Valid() && ok == (|old(incoming)| < 1024)
      ensures incoming == if ok then old(incoming) + [e] else old(incoming)
    {
      ok := |incoming| < MAX_CHAN_LEN;
      if ok { incoming := incoming + [e]; }
    }

    /** The status guard never rejects: at every call the status is Init. */
    method WriteEventNow(e: Event) returns (rejected: bool)
      requires Valid()
      modifies this`payload, this`current
      ensures Valid() && !rejected
      ensures View() == WriteEvent(truncateSize, lifeCycle == Default, old(View()), e)
      ensures current == old(current) + [e]
    {
      WriteEventTruncates(truncateSize, lifeCycle == Default, View(), e);
      rejected := false;
      if status != Init && lifeCycle == Default { return true; }
      current := current + [e];
      if truncateSize > 0 && |payload| >= truncateSize {
        payload := payload[..truncateSize];
        return;
      }
      payload := payload + e.bytes;
    }

    /** `Display` with the parser as a parameter; `out` is what goes to the output channel,
        empty when nothing does. */
    method DisplayNow(parse: seq<byte> -> seq<byte>) returns (out: seq<byte>)
      requires Valid()
      modifies this`payload, this`status, this`current, this`batches, this`shown
      ensures Valid() && View() == Display(old(View()))
      ensures out == if old(payload) == [] then [] else parse(Truncated(truncateSize, old(current)))
    {
      hide Joined, Truncated, Flat, ParseUuid;
      DisplayKeeps(truncateSize, View());
      if |payload| <= 0 { return []; }
      status := Processing;
      out := parse(payload);
      status := Finished;
      batches, shown, current := batches + [current], shown + [payload], [];
      payload, status := [], Init;
    }

    /** `drainAndClose`, up to its sleep: the whole queue is written, in order; then the payload
        is displayed unless Serve holds the worker, in which case the source sleeps and starts
        over (`closed` is false). */
    method DrainAndClose(parse: seq<byte> -> seq<byte>) returns (out: seq<byte>, closed: bool)
      requires Valid()
      modifies this
      ensures Valid() && incoming == [] && used == old(used) && closing == old(closing) && closed == !used
      ensures Flat(batches) + current == Flat(old(batches)) + old(current) + old(incoming)
      ensures closed ==> Joined(current) == [] && payload == [] && tickerCount == 0
      ensures !closed ==> out == [] && batches == old(batches) && tickerCount == old(tickerCount)
    {
      hide Joined, Truncated, Flat, ParseUuid;
      while incoming != []
        invariant Valid() && used == old(used) && closing == old(closing)
        invariant batches == old(batches) && tickerCount == old(tickerCount)
        invariant current + incoming == old(current) + old(incoming)
        decreases |incoming|
      {
        var e := incoming[0];
        incoming := incoming[1..];
        var rejected := WriteEventNow(e);
      }
      assert current == current + incoming;
      assert Flat(batches) + current == Flat(old(batches)) + old(current) + old(incoming);
      if used { return [], false; }
      DisplayKeeps(truncateSize, View());
      out := DisplayNow(parse);
      EmptyPayload(truncateSize, View());
      tickerCount := 0;
      closed := true;
    }

    /** The ticker branch of `Run`, up to the sleep of its drain; `gone` says that the worker
        leaves the map and returns once the drain is closed. */
    method OnTick(parse: seq<byte> -> seq<byte>) returns (out: seq<byte>, gone: bool, closed: bool)
      requires Valid()
      modifies this
      ensures Valid() && gone == (old(tickerCount) > 10 && lifeCycle == Default)
      ensures closed == (old(tickerCount) > 10 && !used)
      ensures Flat(batches) + current + incoming == Flat(old(batches)) + old(current) + old(incoming)
      ensures old(tickerCount) <= 10 ==>
        View() == old(View()) && incoming == old(incoming) && tickerCount == old(tickerCount) + 1 && out == []
      ensures old(tickerCount) > 10 ==> incoming == []
      ensures closed ==> payload == [] && tickerCount == 0
    {
      hide Joined, Truncated, Flat, ParseUuid;
      if tickerCount > MAX_TICKER_COUNT {
        gone := lifeCycle == Default;
        out, closed := DrainAndClose(parse);
        assert Flat(batches) + current + incoming == Flat(batches) + current;
        return;
      }
      tickerCount := tickerCount + 1;
      return [], false, false;
    }

    /** The event branch of `Run`. */
    method OnEvent()
      requires Valid() && incoming != []
      modifies this
      ensures Valid() && tickerCount == 0 && incoming == old(incoming)[1..]
      ensures View() == WriteEvent(truncateSize, lifeCycle == Default, old(View()), old(incoming)[0])
      ensures current == old(current) + [old(incoming)[0]]
    {
      hide Joined, Truncated, Flat, ParseUuid;
      var e := incoming[0];
      incoming := incoming[1..];
      tickerCount := 0;
      var rejected := WriteEventNow(e);
    }
  }
}

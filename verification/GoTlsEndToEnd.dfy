/**
  From a Go TLS hook to the dispatcher: the segmenter of kern/gotls_kern.c and the ordered read
  loop of internal/probe/base/base_probe.go, one after the other, on one captured buffer.
 */
module GoTlsEndToEnd {
  import opened Basics
  import opened PerfReorder
  import opened GoTlsSegments
  import opened PerfEventLoop

  function AsReading(r: Record, hook: nat): Reading<Content> { Timed(Event(Segment(hook, Payload(r)), r.tsNs)) }

  /** What the loop reads: the hook's records in the order of the perf ring, with `others(k)`
      before record `k`, and `others(|out|)` after the last. */
  function Woven(out: seq<Record>, hook: nat, others: nat -> seq<Reading<Content>>): seq<Reading<Content>> {
    if out == [] then others(0)
    else Woven(out[..|out| - 1], hook, others) + [AsReading(out[|out| - 1], hook)] + others(|out|)
  }

  /** Nothing else on the ring claims to be a segment of this hook. */
  ghost predicate Foreign(rs: seq<Reading<Content>>, hook: nat) {
    forall k | 0 <= k < |rs| && rs[k].Timed? :: !IsOf(rs[k].e, hook)
  }

  lemma {:induction false} TimedConcat<P>(a: seq<Reading<P>>, b: seq<Reading<P>>)
    ensures TimedOf(a + b) == TimedOf(a) + TimedOf(b)
  {
    if b == [] {
      assert a + b == a;
    } else {
      assert (a + b)[..|a + b| - 1] == a + b[..|b| - 1];
      TimedConcat(a, b[..|b| - 1]);
    }
  }

  lemma {:induction false} HookConcat(a: seq<Event<Content>>, b: seq<Event<Content>>, hook: nat)
    ensures HookEvents(a + b, hook) == HookEvents(a, hook) + HookEvents(b, hook)
  {
    if b == [] {
      assert a + b == a;
    } else {
      assert (a + b)[..|a + b| - 1] == a + b[..|b| - 1];
      HookConcat(a, b[..|b| - 1], hook);
    }
  }

  lemma {:induction false} ForeignHasNone(rs: seq<Reading<Content>>, hook: nat)
    requires Foreign(rs, hook)
    ensures HookEvents(TimedOf(rs), hook) == []
  {
    if rs != [] {
      var n := |rs| - 1;
      ForeignHasNone(rs[..n], hook);
      HookConcat(TimedOf(rs[..n]), if rs[n].Timed? then [rs[n].e] else [], hook);
    }
  }

  lemma OneTimed<P>(x: Reading<P>)
    requires x.Timed?
    ensures TimedOf([x]) == [x.e]
  {
    assert [x][..0] == [];
  }

  lemma OneHookEvent(e: Event<Content>, hook: nat)
    requires IsOf(e, hook)
    ensures HookEvents([e], hook) == [e]
  {
    assert [e][..0] == [];
  }

  lemma OneReading(r: Record, hook: nat)
    ensures HookEvents(TimedOf([AsReading(r, hook)]), hook) == [AsReading(r, hook).e]
  {
    hide TimedOf, HookEvents;
    var x := AsReading(r, hook);
    OneTimed(x);
    OneHookEvent(x.e, hook);
  }

  lemma {:induction false} WovenHookEvents(out: seq<Record>, hook: nat, others: nat -> seq<Reading<Content>>)
    requires forall k: nat :: Foreign(others(k), hook)
    ensures HookEvents(TimedOf(Woven(out, hook, others)), hook) == Decoded(out, hook)
  {
    hide HookEvents, TimedOf, Foreign;
    if out == [] {
      ForeignHasNone(others(0), hook);
    } else {
      var n := |out| - 1;
      var before, x, after := Woven(out[..n], hook, others), AsReading(out[n], hook), others(n + 1);
      WovenHookEvents(out[..n], hook, others);
      ForeignHasNone(after, hook);
      OneReading(out[n], hook);
      TimedConcat(before + [x], after);
      TimedConcat(before, [x]);
      HookConcat(TimedOf(before) + TimedOf([x]), TimedOf(after), hook);
      HookConcat(TimedOf(before), TimedOf([x]), hook);
      assert Decoded(out, hook) == Decoded(out[..n], hook) + [x.e] + [];
    }
  }

  /** A hook emits a buffer whose reads succeed, and the read loop takes the records off the
      ring among anything else.  What it dispatches for the hook is, in order, exactly the first
      min(len, 256 KiB) bytes; nothing for a null pointer or a length that is not positive. */
  method CaptureAndDispatch(event: GoTlsEvent, base: Option<seq<byte>>, totalLen: int, kind: nat, readOk: nat -> bool,
                            hook: nat, others: nat -> seq<Reading<Content>>, lagNs: nat)
      returns (calls: seq<Call<Content>>)
    requires event.Valid() && (base.Some? ==> totalLen <= |base.value|)
    requires forall k: nat :: readOk(k)
    requires forall k: nat :: Foreign(others(k), hook)
    modifies event, event.data
    ensures Concat(SegmentsOf(OrderedOf(calls), hook)) ==
            if base.None? || totalLen <= 0 then [] else base.value[..Min(totalLen, 262144)]
  {
    hide Concat, SegmentsOf, OrderedOf, Output, Chunks, Payloads, HookEvents, TimedOf, Woven, Foreign;
    var out := event.EmitPayload(base, totalLen, kind, readOk);
    var readings := Woven(out, hook, others);
    ghost var upto;
    calls, upto := PerfEventLoopOrdered(lagNs, readings);
    WovenHookEvents(out, hook, others);
    if base.None? || totalLen <= 0 {
      NothingEmitted(readOk);
      CapturedBufferSurvives(lagNs, TimedOf(readings), hook, 0, out, [], 0, readOk);
    } else {
      CapturedBufferSurvives(lagNs, TimedOf(readings), hook, event.tsNs, out, base.value, totalLen, readOk);
    }
  }

  lemma NothingEmitted(readOk: nat -> bool)
    ensures Payloads([]) == Chunks([], Min(0, 262144), readOk, MAX_SEGMENTS)
  {
    NoChunks(readOk, MAX_SEGMENTS);
  }

  lemma {:induction false} NoChunks(readOk: nat -> bool, n: nat)
    ensures Chunks([], 0, readOk, n) == []
  {
    if n > 0 { NoChunks(readOk, n - 1); }
  }
}

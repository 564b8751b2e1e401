/**
  The Go TLS kernel segmenter (kern/gotls_kern.c) and its composition with the reorder buffer.

  One hook reads a plaintext buffer in up to sixteen pieces through a single per-CPU event
  struct.  Every piece carries the hook's one timestamp, so only the stability of the reorder
  buffer keeps the pieces in order on their way to user space.
 */
module GoTlsSegments {
  import opened Basics
  import opened PerfReorder

  const MAX_CHUNK: nat := 16384      // MAX_DATA_SIZE_OPENSSL
  const MAX_SEGMENTS: nat := 16      // GOTLS_MAX_SEGMENTS

  /** The wire record: the struct as it stood when it was output, stale tail bytes included. */
  datatype Record = Record(tsNs: Nanos, eventType: nat, dataLen: nat, data: seq<byte>)

  /** What the decoder takes from a record: the first `DataLen` bytes. */
  function Payload(r: Record): seq<byte> {
    if r.dataLen <= |r.data| then r.data[..r.dataLen] else r.data
  }

  /** Bytes `[MAX_CHUNK * k, MAX_CHUNK * (k + 1))` of a buffer cut at `total`. */
  function Chunk(user: seq<byte>, total: nat, k: nat): seq<byte>
    requires total <= |user| && k * MAX_CHUNK < total
  {
    user[k * MAX_CHUNK..Min((k + 1) * MAX_CHUNK, total)]
  }

  /** The chunks of the first `n` segments whose user-memory read succeeded. */
  function Chunks(user: seq<byte>, total: nat, readOk: nat -> bool, n: nat): seq<seq<byte>>
    requires total <= |user|
  {
    if n == 0 then []
    else if (n - 1) * MAX_CHUNK < total && readOk(n - 1)
    then Chunks(user, total, readOk, n - 1) + [Chunk(user, total, n - 1)]
    else Chunks(user, total, readOk, n - 1)
  }

  function Concat(parts: seq<seq<byte>>): seq<byte> {
    if parts == [] then [] else Concat(parts[..|parts| - 1]) + parts[|parts| - 1]
  }

  function Payloads(out: seq<Record>): seq<seq<byte>> {
    if out == [] then [] else Payloads(out[..|out| - 1]) + [Payload(out[|out| - 1])]
  }

  /** The per-CPU `struct go_tls_event`, overwritten by every segment. */
  class GoTlsEvent {
    var tsNs: Nanos
    var eventType: nat
    var dataLen: nat
    const data: array<byte>

    ghost predicate Valid() reads this {
      data.Length == MAX_CHUNK
    }

    constructor ()
      ensures Valid() && fresh(data)
    {
      tsNs, eventType, dataLen := 0, 0, 0;
      data := new byte[MAX_CHUNK];
    }

    method Snapshot() returns (r: Record)
      ensures r == Record(tsNs, eventType, dataLen, data[..])
    {
      r := Record(tsNs, eventType, dataLen, data[..]);
    }

    /** `bpf_probe_read_user` into `event->data`. */
    method ReadUser(src: seq<byte>)
      requires Valid() && |src| <= MAX_CHUNK
      modifies data
      ensures data[..|src|] == src
      ensures data[|src|..] == old(data[|src|..])
    {
      for i := 0 to |src|
        invariant data[..i] == src[..i]
        invariant data[|src|..] == old(data[|src|..])
      {
        data[i] := src[i];
      }
    }

    /** `GOTLS_EMIT_SEG`; `user` is the memory at `base`. */
    method EmitSeg(user: seq<byte>, total: nat, segIdx: nat, readOk: nat -> bool) returns (out: seq<Record>)
      requires Valid() && total <= |user|
      modifies this`dataLen, data
      ensures Valid()
      ensures Payloads(out) == if segIdx * MAX_CHUNK < total && readOk(segIdx)
                               then [Chunk(user, total, segIdx)] else []
      ensures forall r :: r in out ==> r.tsNs == tsNs && r.eventType == eventType
    {
      out := [];
      var off := segIdx * MAX_CHUNK;
      if off < total {
        var remain := total - off;
        hide BitAnd;
        if remain < MAX_CHUNK { MaskKeeps14Bits(remain); }
        var chunk := if remain < MAX_CHUNK then BitAnd(remain, MAX_CHUNK - 1) else MAX_CHUNK;
        if chunk > 0 {
          dataLen := chunk;
          if readOk(segIdx) {
            ReadUser(user[off..off + chunk]);
            var r := Snapshot();
            out := [r];
            assert Payload(r) == Chunk(user, total, segIdx);
          }
        }
      }
    }

    /** `gotls_emit_payload`: the sixteen unrolled segments as a loop.  `base` is absent for a
        null pointer; `readOk(k)` says whether the k-th user-memory read succeeds. */
    method EmitPayload(base: Option<seq<byte>>, totalLen: int, kind: nat, readOk: nat -> bool)
        returns (out: seq<Record>)
      requires Valid() && (base.Some? ==> totalLen <= |base.value|)
      modifies this, data
      ensures Valid() && tsNs == old(tsNs)
      ensures base.None? || totalLen <= 0 ==> out == []
      ensures base.Some? && totalLen > 0 ==>
        && Payloads(out) == Chunks(base.value, Min(totalLen, MAX_CHUNK * MAX_SEGMENTS), readOk, MAX_SEGMENTS)
        && forall r :: r in out ==> r.tsNs == tsNs && r.eventType == kind
    {
      hide Payload, Chunk, Chunks, Payloads;
      out := [];
      if base.None? || totalLen <= 0 { return; }
      var total: nat := totalLen;
      if total > MAX_CHUNK * MAX_SEGMENTS { total := MAX_CHUNK * MAX_SEGMENTS; }
      eventType := kind;
      ChunksStart(base.value, total, readOk);
      for k := 0 to MAX_SEGMENTS
        invariant Valid() && tsNs == old(tsNs) && eventType == kind
        invariant Payloads(out) == Chunks(base.value, total, readOk, k)
        invariant forall r :: r in out ==> r.tsNs == tsNs && r.eventType == kind
      {
        ChunksStep(base.value, total, readOk, k);
        var seg := EmitSeg(base.value, total, k, readOk);
        PayloadsConcat(out, seg);
        out := out + seg;
      }
    }
  }

  lemma ChunksStart(user: seq<byte>, total: nat, readOk: nat -> bool)
    requires total <= |user|
    ensures Payloads([]) == Chunks(user, total, readOk, 0)
  {
  }

  lemma ChunksStep(user: seq<byte>, total: nat, readOk: nat -> bool, k: nat)
    requires total <= |user|
    ensures Chunks(user, total, readOk, k + 1) ==
      Chunks(user, total, readOk, k) + (if k * MAX_CHUNK < total && readOk(k) then [Chunk(user, total, k)] else [])
  {
    assert Chunks(user, total, readOk, k) + [] == Chunks(user, total, readOk, k);
  }

  lemma {:induction false} PayloadsConcat(a: seq<Record>, b: seq<Record>)
    ensures Payloads(a + b) == Payloads(a) + Payloads(b)
  {
    if b == [] {
      assert a + b == a;
    } else {
      assert (a + b)[..|a + b| - 1] == a + b[..|b| - 1];
      PayloadsConcat(a, b[..|b| - 1]);
    }
  }

  lemma {:induction false} ChunksCoverPrefix(user: seq<byte>, total: nat, readOk: nat -> bool, n: nat)
    requires total <= |user| && forall k: nat :: readOk(k)
    ensures Concat(Chunks(user, total, readOk, n)) == user[..Min(n * MAX_CHUNK, total)]
  {
    if n > 0 {
      ChunksCoverPrefix(user, total, readOk, n - 1);
      var before := Chunks(user, total, readOk, n - 1);
      if (n - 1) * MAX_CHUNK < total {
        var c := Chunk(user, total, n - 1);
        assert (before + [c])[..|before|] == before;
        assert user[..Min(n * MAX_CHUNK, total)] == user[..(n - 1) * MAX_CHUNK] + c;
      }
    }
  }

  /** When every read succeeds the chunks are a partition of the captured prefix: their
      concatenation is the buffer up to 256 KiB, nothing missing and nothing twice. */
  lemma ChunksReassemble(user: seq<byte>, totalLen: nat, readOk: nat -> bool)
    requires totalLen <= |user| && forall k: nat :: readOk(k)
    ensures var cut := Min(totalLen, 262144);
            Concat(Chunks(user, cut, readOk, MAX_SEGMENTS)) == user[..cut]
  {
    var cut := Min(totalLen, 262144);
    ChunksCoverPrefix(user, cut, readOk, MAX_SEGMENTS);
  }

  /** How many of the first `k` segments are within the buffer and readable. */
  function Readable(total: nat, readOk: nat -> bool, k: nat): nat {
    if k == 0 then 0
    else Readable(total, readOk, k - 1) + (if (k - 1) * 16384 < total && readOk(k - 1) then 1 else 0)
  }

  /** A failed read loses its own segment and no other: each readable one is there, in place. */
  lemma {:induction false} EachReadableSegment(user: seq<byte>, total: nat, readOk: nat -> bool, n: nat, k: nat)
    requires total <= |user| && k < n
    ensures |Chunks(user, total, readOk, n)| == Readable(total, readOk, n)
    ensures k * 16384 < total && readOk(k) ==>
      && Readable(total, readOk, k) < Readable(total, readOk, n)
      && Chunks(user, total, readOk, n)[Readable(total, readOk, k)] == user[k * 16384..Min((k + 1) * 16384, total)]
  {
    CountReadable(user, total, readOk, n - 1);
    if k < n - 1 { EachReadableSegment(user, total, readOk, n - 1, k); }
  }

  lemma {:induction false} CountReadable(user: seq<byte>, total: nat, readOk: nat -> bool, n: nat)
    requires total <= |user|
    ensures |Chunks(user, total, readOk, n)| == Readable(total, readOk, n)
  {
    if n > 0 { CountReadable(user, total, readOk, n - 1); }
  }

  // ---------------------------------------------------------------- through the reorder buffer

  /** What the reader pushes: a segment of some hook, or any other timestamped event. */
  datatype Content = Segment(hook: nat, bytes: seq<byte>) | Other(id: nat)

  /** The bytes of the hook's segments, in the order they appear. */
  function SegmentsOf(s: seq<Event<Content>>, hook: nat): seq<seq<byte>> {
    if s == [] then [] else
      var e := s[|s| - 1];
      SegmentsOf(s[..|s| - 1], hook) +
      (if e.payload.Segment? && e.payload.hook == hook then [e.payload.bytes] else [])
  }

  /** Every segment of the hook carries the hook's one timestamp. */
  ghost predicate OneStamp(s: seq<Event<Content>>, hook: nat, ts: Nanos) {
    forall e :: e in s && e.payload.Segment? && e.payload.hook == hook ==> e.mono == ts
  }

  lemma {:induction false} SegmentsWithinStamp(s: seq<Event<Content>>, hook: nat, ts: Nanos)
    requires OneStamp(s, hook, ts)
    ensures SegmentsOf(At(s, ts), hook) == SegmentsOf(s, hook)
  {
    if s != [] {
      var rest, e := s[..|s| - 1], s[|s| - 1];
      assert s == rest + [e] && e in s;
      SegmentsWithinStamp(rest, hook, ts);
      if e.mono == ts {
        assert (At(rest, ts) + [e])[..|At(rest, ts)|] == At(rest, ts);
      } else {
        assert At(rest, ts) + [] == At(rest, ts);
        assert SegmentsOf(rest, hook) + [] == SegmentsOf(rest, hook);
      }
    }
  }

  /** The reorder buffer hands on a hook's segments in emission order, whatever else is
      interleaved, however late it is, and whichever flushes happen. */
  lemma SegmentsKeepOrder(lag: nat, input: seq<Event<Content>>, hook: nat, ts: Nanos)
    requires OneStamp(input, hook, ts)
    ensures SegmentsOf(Output(lag, input), hook) == SegmentsOf(input, hook)
  {
    hide Output, At, SegmentsOf;
    OutputKeepsTies(lag, input);
    SameTiesMembers(Output(lag, input), input);
    SegmentsWithinStamp(input, hook, ts);
    SegmentsWithinStamp(Output(lag, input), hook, ts);
    assert At(Output(lag, input), ts) == At(input, ts);
  }

  predicate IsOf(e: Event<Content>, hook: nat) { e.payload.Segment? && e.payload.hook == hook }

  /** The events of one hook, in the order they appear. */
  function HookEvents(s: seq<Event<Content>>, hook: nat): seq<Event<Content>> {
    if s == [] then [] else
      HookEvents(s[..|s| - 1], hook) + (if IsOf(s[|s| - 1], hook) then [s[|s| - 1]] else [])
  }

  /** The records of a hook as the reader decodes them. */
  function Decoded(out: seq<Record>, hook: nat): seq<Event<Content>> {
    seq(|out|, i requires 0 <= i < |out| => Event(Segment(hook, Payload(out[i])), out[i].tsNs))
  }

  lemma {:induction false} HookEventsMeaning(s: seq<Event<Content>>, hook: nat)
    ensures forall e :: e in HookEvents(s, hook) <==> e in s && IsOf(e, hook)
    ensures SegmentsOf(HookEvents(s, hook), hook) == SegmentsOf(s, hook)
  {
    if s != [] {
      var rest, e := s[..|s| - 1], s[|s| - 1];
      var kept := HookEvents(rest, hook);
      HookEventsMeaning(rest, hook);
      assert s == rest + [e];
      assert (kept + [e])[..|kept|] == kept && kept + [] == kept;
      assert SegmentsOf(rest, hook) + [] == SegmentsOf(rest, hook);
    }
  }

  lemma {:induction false} DecodedSegments(out: seq<Record>, hook: nat)
    ensures SegmentsOf(Decoded(out, hook), hook) == Payloads(out)
  {
    if out != [] {
      var n := |out| - 1;
      DecodedSegments(out[..n], hook);
      assert Decoded(out, hook)[..n] == Decoded(out[..n], hook);
    }
  }

  /** End to end: `out` is what the hook emitted for a captured buffer whose reads succeed, and
      it reaches the reader in order among any other events.  Then it leaves the reorder loop
      as exactly the buffer's first min(len, 256 KiB) bytes, in order. */
  lemma CapturedBufferSurvives(lag: nat, input: seq<Event<Content>>, hook: nat, ts: Nanos, out: seq<Record>,
                               user: seq<byte>, totalLen: nat, readOk: nat -> bool)
    requires totalLen <= |user| && forall k: nat :: readOk(k)
    requires Payloads(out) == Chunks(user, Min(totalLen, 262144), readOk, MAX_SEGMENTS)
    requires forall r :: r in out ==> r.tsNs == ts
    requires HookEvents(input, hook) == Decoded(out, hook)
    ensures Concat(SegmentsOf(Output(lag, input), hook)) == user[..Min(totalLen, 262144)]
  {
    hide Output, Chunks, Payloads, SegmentsOf, HookEvents, Concat;
    HookEventsMeaning(input, hook);
    DecodedSegments(out, hook);
    forall e | e in input && IsOf(e, hook) ensures e.mono == ts {
      assert e in Decoded(out, hook);
    }
    SegmentsKeepOrder(lag, input, hook, ts);
    ChunksReassemble(user, totalLen, readOk);
  }
}

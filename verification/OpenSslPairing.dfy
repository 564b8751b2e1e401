/**
  Entry/return pairing of the OpenSSL probes (kern/openssl.h).  The entry probe of SSL_read or
  SSL_write stores the call's arguments in a bounded hash map under the thread id; the return
  probe takes them out again and emits one event.

  The two directions use two maps.  `passes` is the outcome of the process filter for the
  probe invocation; the arguments are what the entry probe resolved (buffer, fd, version, bio
  type).
 */
module OpenSslPairing {
  import opened Basics

  const MAX_ENTRIES: nat := 1024
  const MAX_DATA: nat := 16384  // 2^14, the fragment bound of section 6.2.1 of RFC 5246

  datatype Dir = Read | Write

  datatype Args = Args(buf: nat, fd: nat, version: int, bioType: nat)

  /** A map entry, with the number of the step that stored it. */
  datatype Active = Active(args: Args, at: nat)

  /** An emitted event, with the numbers of the entry and the return it came from. */
  datatype SslEvent = SslEvent(dir: Dir, tid: nat, args: Args, dataLen: nat, at: nat, ret: nat)

  datatype Step =
    | Entry(dir: Dir, tid: nat, passes: bool, args: Args)
    | Return(dir: Dir, tid: nat, passes: bool, rc: int)

  datatype State = State(readArgs: map<nat, Active>, writeArgs: map<nat, Active>, events: seq<SslEvent>)

  function MapOf(s: State, d: Dir): map<nat, Active> { if d.Read? then s.readArgs else s.writeArgs }

  function SetMap(s: State, d: Dir, m: map<nat, Active>): State {
    if d.Read? then s.(readArgs := m) else s.(writeArgs := m)
  }

  /** `bpf_map_update_elem(…, BPF_ANY)` on a hash map: a full map refuses new keys. */
  function Update(m: map<nat, Active>, k: nat, v: Active): map<nat, Active> {
    if k in m || |m| < MAX_ENTRIES then m[k := v] else m
  }

  /** The length expression of process_SSL_data, mask and all. */
  function MaskedLen(len: nat): nat {
    if len < MAX_DATA then BitAnd(len, MAX_DATA - 1) else MAX_DATA
  }

  lemma MaskedLenIsMin(len: nat)
    ensures MaskedLen(len) == Min(len, 16384)
  {
    hide BitAnd;
    if len < MAX_DATA { MaskKeeps14Bits(len); }
  }

  /** One probe invocation; `now` is its number. */
  function Apply(s: State, step: Step, now: nat): State {
    match step
    case Entry(d, tid, passes, args) =>
      if !passes then s else SetMap(s, d, Update(MapOf(s, d), tid, Active(args, now)))
    case Return(d, tid, passes, rc) =>
      if !passes then s else
        var m := MapOf(s, d);
        var s1 := SetMap(s, d, m - {tid});
        if tid in m && rc >= 0
        then s1.(events := s.events + [SslEvent(d, tid, m[tid].args, MaskedLen(rc), m[tid].at, now)])
        else s1
  }

  /** The probes over the two maps. */
  class OpenSslProbe {
    var readArgs: map<nat, Active>
    var writeArgs: map<nat, Active>
    var events: seq<SslEvent>

    ghost function View(): State reads this { State(readArgs, writeArgs, events) }

    constructor ()
      ensures View() == State(map[], map[], [])
    {
      readArgs, writeArgs, events := map[], map[], [];
    }

    /** `probe_entry_SSL`. */
    method ProbeEntry(d: Dir, tid: nat, passes: bool, args: Args, now: nat)
      modifies this
      ensures View() == Apply(old(View()), Entry(d, tid, passes, args), now)
    {
      if !passes { return; }
      if d.Read? {
        if tid in readArgs || |readArgs| < MAX_ENTRIES { readArgs := readArgs[tid := Active(args, now)]; }
      } else {
        if tid in writeArgs || |writeArgs| < MAX_ENTRIES { writeArgs := writeArgs[tid := Active(args, now)]; }
      }
    }

    /** `process_SSL_data`. */
    method ProcessSslData(d: Dir, tid: nat, rc: int, a: Active, now: nat)
      modifies this`events
      ensures events == if rc < 0 then old(events) else old(events) + [SslEvent(d, tid, a.args, Min(rc, MAX_DATA), a.at, now)]
    {
      if rc < 0 { return; }
      MaskedLenIsMin(rc);
      hide BitAnd;
      var dataLen := if rc < MAX_DATA then BitAnd(rc, MAX_DATA - 1) else MAX_DATA;
      events := events + [SslEvent(d, tid, a.args, dataLen, a.at, now)];
    }

    /** `probe_ret_SSL`. */
    method ProbeReturn(d: Dir, tid: nat, passes: bool, rc: int, now: nat)
      modifies this
      ensures View() == Apply(old(View()), Return(d, tid, passes, rc), now)
    {
      hide BitAnd;
      if rc >= 0 { MaskedLenIsMin(rc); }
      if !passes { return; }
      if d.Read? {
        if tid in readArgs { ProcessSslData(d, tid, rc, readArgs[tid], now); }
        readArgs := readArgs - {tid};
      } else {
        if tid in writeArgs { ProcessSslData(d, tid, rc, writeArgs[tid], now); }
        writeArgs := writeArgs - {tid};
      }
    }
  }

  // ---------------------------------------------------------------- runs

  function Exec(steps: seq<Step>): State {
    if steps == [] then State(map[], map[], [])
    else Apply(Exec(steps[..|steps| - 1]), steps[|steps| - 1], |steps| - 1)
  }

  /** Step `k` is a probe of this thread and direction that passed the filter. */
  predicate Mine(step: Step, d: Dir, tid: nat) {
    step.passes && step.dir == d && step.tid == tid
  }

  /** No probe of this thread and direction took effect strictly between `from` and `to`. */
  ghost predicate Quiet(steps: seq<Step>, d: Dir, tid: nat, from: nat, to: nat) {
    forall k | from < k < to && k < |steps| :: !Mine(steps[k], d, tid)
  }

  /** What is stored for a thread is its latest entry, not yet returned from. */
  lemma {:induction false} StoredIsLatest(steps: seq<Step>, d: Dir, tid: nat)
    requires tid in MapOf(Exec(steps), d)
    ensures var a := MapOf(Exec(steps), d)[tid];
      a.at < |steps| && steps[a.at] == Entry(d, tid, true, a.args) && Quiet(steps, d, tid, a.at, |steps|)
  {
    var n := |steps| - 1;
    var rest, last := steps[..n], steps[n];
    if !Mine(last, d, tid) {
      StoredIsLatest(rest, d, tid);
      var a := MapOf(Exec(rest), d)[tid];
      assert forall k | a.at < k < n :: rest[k] == steps[k];
    }
  }

  /** An event pairs a return with the latest entry of its thread and direction, and carries
      that entry's arguments and the clamped return value. */
  ghost predicate Paired(steps: seq<Step>, e: SslEvent) {
    && e.at < e.ret < |steps|
    && steps[e.at] == Entry(e.dir, e.tid, true, e.args)
    && Mine(steps[e.ret], e.dir, e.tid) && steps[e.ret].Return? && steps[e.ret].rc >= 0
    && e.dataLen == Min(steps[e.ret].rc, 16384)
    && Quiet(steps, e.dir, e.tid, e.at, e.ret)
  }

  lemma PairedGrows(steps: seq<Step>, n: nat, e: SslEvent)
    requires n <= |steps| && Paired(steps[..n], e)
    ensures Paired(steps, e)
  {
    assert forall k | e.at < k < e.ret :: steps[..n][k] == steps[k];
  }

  /** Over any run of entry and return probes, with bounded maps. */
  lemma {:induction false} EventsArePaired(steps: seq<Step>, i: nat)
    requires i < |Exec(steps).events|
    ensures Paired(steps, Exec(steps).events[i])
    ensures forall j | 0 <= j < i :: Exec(steps).events[j].ret < Exec(steps).events[i].ret
  {
    var n := |steps| - 1;
    var rest, last, s := steps[..n], steps[n], Exec(steps[..n]);
    assert Exec(steps) == Apply(s, last, n);
    if i < |s.events| {
      EventsArePaired(rest, i);
      PairedGrows(steps, n, s.events[i]);
      assert forall j | 0 <= j <= i :: Exec(steps).events[j] == s.events[j];
    } else {
      StoredIsLatest(rest, last.dir, last.tid);
      var a := MapOf(s, last.dir)[last.tid];
      assert Quiet(rest, last.dir, last.tid, a.at, n);
      assert forall k | a.at < k < n :: rest[k] == steps[k];
      MaskedLenIsMin(last.rc);
      forall j | 0 <= j < i ensures Exec(steps).events[j].ret < n {
        EventsArePaired(rest, j);
        assert Exec(steps).events[j] == s.events[j];
      }
    }
  }

  /** Each entry yields at most one event. */
  lemma EntryYieldsOneEvent(steps: seq<Step>, i: nat, j: nat)
    requires i < j < |Exec(steps).events|
    ensures Exec(steps).events[i].at != Exec(steps).events[j].at
  {
    EventsArePaired(steps, i);
    EventsArePaired(steps, j);
    var e, f := Exec(steps).events[i], Exec(steps).events[j];
    // with e.at == f.at, the return of `e` would lie between the entry and the return of `f`
    assert Mine(steps[e.ret], e.dir, e.tid);
  }

  /** The entry at step `k` was stored: the map had room or already held the thread. */
  predicate Stored(steps: seq<Step>, k: nat)
    requires k < |steps| && steps[k].Entry?
  {
    var m := MapOf(Exec(steps[..k]), steps[k].dir);
    steps[k].passes && (steps[k].tid in m || |m| < 1024)
  }

  /** A thread is in the map exactly while its latest effective probe is a stored entry. */
  lemma {:induction false} InMapIff(steps: seq<Step>, d: Dir, tid: nat)
    ensures tid in MapOf(Exec(steps), d) <==>
      exists k | 0 <= k < |steps| :: steps[k].Entry? && Mine(steps[k], d, tid) && Stored(steps, k) &&
                                     Quiet(steps, d, tid, k, |steps|)
  {
    if steps != [] {
      var n := |steps| - 1;
      var rest, last := steps[..n], steps[n];
      InMapIff(rest, d, tid);
      if Mine(last, d, tid) {
        if last.Entry? {
          assert Quiet(steps, d, tid, n, |steps|);
          NotQuietBefore(steps, d, tid);
          if !Stored(steps, n) { StoredMeaning(steps, n); }
        } else {
          NotQuietBefore(steps, d, tid);
        }
      } else {
        CarryOver(steps, d, tid);
      }
    }
  }

  lemma StoredMeaning(steps: seq<Step>, n: nat)
    requires n + 1 == |steps| && steps[n].Entry? && steps[n].passes && !Stored(steps, n)
    ensures steps[n].tid !in MapOf(Exec(steps), steps[n].dir)
  {
  }

  lemma NotQuietBefore(steps: seq<Step>, d: Dir, tid: nat)
    requires steps != [] && Mine(steps[|steps| - 1], d, tid)
    ensures forall k: nat | k < |steps| - 1 :: !Quiet(steps, d, tid, k, |steps|)
  {
    forall k: nat | k < |steps| - 1 ensures !Quiet(steps, d, tid, k, |steps|) {
      assert Mine(steps[|steps| - 1], d, tid);
    }
  }

  lemma CarryOver(steps: seq<Step>, d: Dir, tid: nat)
    requires steps != [] && !Mine(steps[|steps| - 1], d, tid)
    ensures forall k: nat | k < |steps| - 1 && steps[k].Entry? ::
      (Stored(steps, k) <==> Stored(steps[..|steps| - 1], k)) &&
      (Quiet(steps, d, tid, k, |steps|) <==> Quiet(steps[..|steps| - 1], d, tid, k, |steps| - 1))
  {
    var n := |steps| - 1;
    forall k: nat | k < n && steps[k].Entry?
      ensures Stored(steps, k) <==> Stored(steps[..n], k)
      ensures Quiet(steps, d, tid, k, |steps|) <==> Quiet(steps[..n], d, tid, k, n)
    {
      assert steps[..n][..k] == steps[..k];
      assert forall j | k < j < n :: steps[..n][j] == steps[j];
    }
  }

  /** A return emits exactly when it passes the filter, its value is not negative, and the
      thread's latest effective probe in that direction is a stored entry. */
  lemma ReturnEmitsIff(steps: seq<Step>, d: Dir, tid: nat, passes: bool, rc: int)
    ensures |Exec(steps + [Return(d, tid, passes, rc)]).events| == |Exec(steps).events| + 1 <==>
      passes && rc >= 0 &&
      exists k | 0 <= k < |steps| :: steps[k].Entry? && Mine(steps[k], d, tid) && Stored(steps, k) &&
                                     Quiet(steps, d, tid, k, |steps|)
  {
    InMapIff(steps, d, tid);
    assert (steps + [Return(d, tid, passes, rc)])[..|steps|] == steps;
  }
}

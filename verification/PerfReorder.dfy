/**
  The lag-reorder buffer between the perf ring and the event dispatcher
  (internal/probe/base/perf_reorder.go).

  The buffer is an online sort with bounded memory: each push may release a batch of old
  events, chosen by a lag window or, when the buffer is full, by a pressure valve.  This
  module holds the class with the source's loops, the functions that specify them, and the
  laws of whole runs: ties keep their order, inversions only come from late pushes, and the
  output is the stable sort of the input exactly when no push came late.
 */
module PerfReorder {

  const MAX_PENDING: nat := 1024
  const INT64_LIMIT: nat := 0x8000_0000_0000_0000

  /** Nanoseconds since boot; below 2^63, so that `int64(x.mono)` is the identity. */
  type Nanos = n: nat | n < INT64_LIMIT

  /** An event with its kernel timestamp.  The source caches `ev.PerfMonoNs()` beside `ev`;
      the pair is a function of the event, so the buffer holds the event itself. */
  datatype Event<P> = Event(payload: P, mono: Nanos)

  // ---------------------------------------------------------------- subsequences by time

  /** The events stamped exactly `t`, in order. */
  function At<P(!new)>(s: seq<Event<P>>, t: Nanos): seq<Event<P>> {
    if s == [] then [] else
      At(s[..|s| - 1], t) + (if s[|s| - 1].mono == t then [s[|s| - 1]] else [])
  }

  /** The events stamped no later than `c`, in order. */
  function Upto<P>(s: seq<Event<P>>, c: int): seq<Event<P>> {
    if s == [] then [] else
      Upto(s[..|s| - 1], c) + (if s[|s| - 1].mono <= c then [s[|s| - 1]] else [])
  }

  /** The events stamped later than `c`, in order. */
  function After<P>(s: seq<Event<P>>, c: int): seq<Event<P>> {
    if s == [] then [] else
      After(s[..|s| - 1], c) + (if s[|s| - 1].mono > c then [s[|s| - 1]] else [])
  }

  lemma {:induction false} AtConcat<P(!new)>(a: seq<Event<P>>, b: seq<Event<P>>, t: Nanos)
    ensures At(a + b, t) == At(a, t) + At(b, t)
  {
    if b == [] {
      assert a + b == a;
    } else {
      assert (a + b)[..|a + b| - 1] == a + b[..|b| - 1];
      AtConcat(a, b[..|b| - 1], t);
    }
  }

  lemma AtSnoc<P(!new)>(s: seq<Event<P>>, x: Event<P>, t: Nanos)
    ensures At(s + [x], t) == if x.mono == t then At(s, t) + [x] else At(s, t)
  {
    assert (s + [x])[..|s|] == s;
    assert At(s, t) + [] == At(s, t);
  }

  lemma {:induction false} AtMember<P(!new)>(s: seq<Event<P>>, t: Nanos)
    ensures forall e :: e in At(s, t) <==> e in s && e.mono == t
  {
    if s != [] {
      assert s == s[..|s| - 1] + [s[|s| - 1]];
      AtMember(s[..|s| - 1], t);
    }
  }

  lemma {:induction false} SplitMembers<P(!new)>(s: seq<Event<P>>, c: int)
    ensures forall e :: e in Upto(s, c) <==> e in s && e.mono <= c
    ensures forall e :: e in After(s, c) <==> e in s && e.mono > c
    ensures |Upto(s, c)| + |After(s, c)| == |s|
  {
    if s != [] {
      assert s == s[..|s| - 1] + [s[|s| - 1]];
      SplitMembers(s[..|s| - 1], c);
    }
  }

  lemma {:induction false} AtSplitByTime<P(!new)>(s: seq<Event<P>>, c: int, t: Nanos)
    ensures At(Upto(s, c), t) == if t <= c then At(s, t) else []
    ensures At(After(s, c), t) == if t <= c then [] else At(s, t)
  {
    if s != [] {
      var rest, last := s[..|s| - 1], s[|s| - 1];
      AtSplitByTime(rest, c, t);
      AtConcat(Upto(rest, c), if last.mono <= c then [last] else [], t);
      AtConcat(After(rest, c), if last.mono > c then [last] else [], t);
    }
  }

  lemma {:induction false} AtCounts<P(!new)>(s: seq<Event<P>>, e: Event<P>)
    ensures multiset(s)[e] == multiset(At(s, e.mono))[e]
  {
    if s != [] {
      assert s == s[..|s| - 1] + [s[|s| - 1]];
      AtCounts(s[..|s| - 1], e);
    }
  }

  // ---------------------------------------------------------------- stable sorting

  ghost predicate Sorted<P(!new)>(s: seq<Event<P>>) {
    forall i, j | 0 <= i < j < |s| :: s[i].mono <= s[j].mono
  }

  /** `a` and `b` agree on every group of equally stamped events, order included. */
  ghost predicate SameTies<P(!new)>(a: seq<Event<P>>, b: seq<Event<P>>) {
    forall t: Nanos :: At(a, t) == At(b, t)
  }

  /** What a stable sort by time is, independently of any algorithm. */
  ghost predicate IsStableSort<P(!new)>(r: seq<Event<P>>, s: seq<Event<P>>) {
    Sorted(r) && SameTies(r, s)
  }

  function Insert<P(!new)>(s: seq<Event<P>>, x: Event<P>): seq<Event<P>> {
    if s == [] then [x]
    else if s[|s| - 1].mono <= x.mono then s + [x]
    else Insert(s[..|s| - 1], x) + [s[|s| - 1]]
  }

  /** `sort.SliceStable` with the comparison `less`. */
  function StableSort<P(!new)>(s: seq<Event<P>>): seq<Event<P>> {
    if s == [] then [] else Insert(StableSort(s[..|s| - 1]), s[|s| - 1])
  }

  lemma {:induction false} InsertTies<P(!new)>(s: seq<Event<P>>, x: Event<P>, t: Nanos)
    ensures At(Insert(s, x), t) == At(s + [x], t)
  {
    hide At;
    if s == [] {
      assert s + [x] == [x];
    } else if s[|s| - 1].mono > x.mono {
      var rest, last := s[..|s| - 1], s[|s| - 1];
      InsertTies(rest, x, t);
      AtSnoc(rest, x, t);
      AtSnoc(rest, last, t);
      AtSnoc(s, x, t);
      AtSnoc(Insert(rest, x), last, t);
      assert s == rest + [last];
    }
  }

  lemma {:induction false} InsertSorted<P(!new)>(s: seq<Event<P>>, x: Event<P>)
    requires Sorted(s)
    ensures Sorted(Insert(s, x))
    ensures forall e :: e in Insert(s, x) <==> e in s || e == x
    ensures |Insert(s, x)| == |s| + 1
  {
    if s != [] && s[|s| - 1].mono > x.mono {
      var rest := s[..|s| - 1];
      assert s == rest + [s[|s| - 1]];
      InsertSorted(rest, x);
      forall i | 0 <= i < |s| ensures Insert(rest, x)[i].mono <= s[|s| - 1].mono {
        assert Insert(rest, x)[i] in Insert(rest, x);
      }
    }
  }

  /** The insertion sort is a stable sort. */
  lemma {:induction false} StableSortCorrect<P(!new)>(s: seq<Event<P>>)
    ensures IsStableSort(StableSort(s), s)
    ensures forall e :: e in StableSort(s) <==> e in s
    ensures |StableSort(s)| == |s|
  {
    if s != [] {
      var rest, x := s[..|s| - 1], s[|s| - 1];
      assert s == rest + [x];
      StableSortCorrect(rest);
      InsertSorted(StableSort(rest), x);
      forall t: Nanos ensures At(StableSort(s), t) == At(s, t) {
        InsertTies(StableSort(rest), x, t);
        AtConcat(StableSort(rest), [x], t);
        AtConcat(rest, [x], t);
      }
    }
  }

  lemma {:induction false} LastAgrees<P(!new)>(a: seq<Event<P>>, b: seq<Event<P>>)
    requires Sorted(a) && Sorted(b) && SameTies(a, b) && a != []
    ensures b != [] && a[|a| - 1].mono == b[|b| - 1].mono
  {
    var x := a[|a| - 1];
    AtMember(a, x.mono); AtMember(b, x.mono);
    assert x in a;
    assert x in At(b, x.mono);
    var y := b[|b| - 1];
    AtMember(a, y.mono); AtMember(b, y.mono);
    assert y in b;
    assert y in At(a, y.mono);
  }

  /** A stable sort is determined by its two defining properties. */
  lemma {:induction false} StableSortUnique<P(!new)>(a: seq<Event<P>>, b: seq<Event<P>>)
    requires Sorted(a) && Sorted(b) && SameTies(a, b)
    ensures a == b
  {
    if b != [] { LastAgrees(b, a); }
    if a != [] {
      LastAgrees(a, b);
      var x, y, a', b' := a[|a| - 1], b[|b| - 1], a[..|a| - 1], b[..|b| - 1];
      assert At(a, x.mono) == At(b, x.mono);
      assert At(a', x.mono) + [x] == At(b', x.mono) + [y];
      assert (At(a', x.mono) + [x])[|At(a', x.mono)|] == x == y;
      forall t: Nanos ensures At(a', t) == At(b', t) {
        assert At(a, t) == At(b, t);
        if t == x.mono {
          assert (At(a', t) + [x])[..|At(a', t)|] == (At(b', t) + [y])[..|At(b', t)|];
        } else {
          assert At(a', t) + [] == At(a', t) && At(b', t) + [] == At(b', t);
        }
      }
      StableSortUnique(a', b');
      assert a == a' + [x] && b == b' + [y];
    }
  }

  // ---------------------------------------------------------------- the three flushes

  /** What one call emits and what it leaves in the buffer. */
  datatype Flush<P> = Flush(out: seq<Event<P>>, keep: seq<Event<P>>)

  function Newest<P>(s: seq<Event<P>>): Nanos
    requires s != []
  {
    if |s| == 1 || Newest(s[..|s| - 1]) < s[|s| - 1].mono then s[|s| - 1].mono
    else Newest(s[..|s| - 1])
  }

  function Oldest<P>(s: seq<Event<P>>): Nanos
    requires s != []
  {
    if |s| == 1 || s[|s| - 1].mono < Oldest(s[..|s| - 1]) then s[|s| - 1].mono
    else Oldest(s[..|s| - 1])
  }

  lemma {:induction false} NewestIsMaximum<P(!new)>(s: seq<Event<P>>)
    requires s != []
    ensures forall i | 0 <= i < |s| :: s[i].mono <= Newest(s)
    ensures exists i | 0 <= i < |s| :: s[i].mono == Newest(s)
  {
    if |s| == 1 {
      assert s[0].mono == Newest(s);
    } else {
      var rest := s[..|s| - 1];
      NewestIsMaximum(rest);
      var i :| 0 <= i < |rest| && rest[i].mono == Newest(rest);
      assert s[i].mono == Newest(rest);
      assert Newest(s) == s[i].mono || Newest(s) == s[|s| - 1].mono;
      forall k | 0 <= k < |s| - 1 ensures s[k].mono <= Newest(rest) { assert s[k] == rest[k]; }
    }
  }

  lemma {:induction false} OldestIsMinimum<P(!new)>(s: seq<Event<P>>)
    requires s != []
    ensures forall i | 0 <= i < |s| :: s[i].mono >= Oldest(s)
    ensures exists i | 0 <= i < |s| :: s[i].mono == Oldest(s)
  {
    if |s| == 1 {
      assert s[0].mono == Oldest(s);
    } else {
      var rest := s[..|s| - 1];
      OldestIsMinimum(rest);
      var i :| 0 <= i < |rest| && rest[i].mono == Oldest(rest);
      assert s[i].mono == Oldest(rest);
      assert Oldest(s) == s[i].mono || Oldest(s) == s[|s| - 1].mono;
      forall k | 0 <= k < |s| - 1 ensures s[k].mono >= Oldest(rest) { assert s[k] == rest[k]; }
    }
  }

  function FlushByLag<P(!new)>(lag: nat, buf: seq<Event<P>>): Flush<P> {
    if |buf| <= 1 || Newest(buf) - Oldest(buf) < lag then Flush([], buf)
    else Flush(StableSort(Upto(buf, Newest(buf) - lag)), After(buf, Newest(buf) - lag))
  }

  function FlushPressure<P(!new)>(buf: seq<Event<P>>): Flush<P>
    requires buf != []
  {
    StableSortCorrect(buf);
    var n := if |buf| / 2 == 0 then 1 else |buf| / 2;
    Flush(StableSort(buf)[..n], StableSort(buf)[n..])
  }

  function Push<P(!new)>(lag: nat, buf: seq<Event<P>>, x: Event<P>): Flush<P> {
    if |buf| + 1 >= MAX_PENDING then FlushPressure(buf + [x]) else FlushByLag(lag, buf + [x])
  }

  /** `perfLagReorder`: the buffer and the source's own loops over it. */
  class PerfLagReorder<P(!new)> {
    const lagNs: nat
    var buf: seq<Event<P>>

    constructor (lagNs: nat)
      ensures this.lagNs == lagNs && buf == []
    {
      this.lagNs := lagNs;
      buf := [];
    }

    method FlushAllNow() returns (out: seq<Event<P>>)
      modifies this
      ensures out == StableSort(old(buf)) && buf == []
    {
      if |buf| == 0 { return []; }
      out := StableSort(buf);
      buf := [];
    }

    method PushNow(x: Event<P>) returns (out: seq<Event<P>>)
      modifies this
      ensures Flush(out, buf) == Push(lagNs, old(buf), x)
    {
      buf := buf + [x];
      if |buf| >= MAX_PENDING {
        out := FlushPressureNow();
      } else {
        out := FlushByLagNow();
      }
    }

    method FlushPressureNow() returns (out: seq<Event<P>>)
      requires buf != []
      modifies this
      ensures Flush(out, buf) == FlushPressure(old(buf))
    {
      StableSortCorrect(buf);
      buf := StableSort(buf);
      var n := |buf| / 2;
      if n == 0 { n := 1; }
      out := [];
      for i := 0 to n
        invariant out == buf[..i]
      {
        out := out + [buf[i]];
      }
      buf := buf[n..];
    }

    method FlushByLagNow() returns (out: seq<Event<P>>)
      modifies this
      ensures Flush(out, buf) == FlushByLag(lagNs, old(buf))
    {
      hide StableSort, At;
      if |buf| <= 1 { return []; }
      var b := buf;
      var maxNs, minNs := -1, -1;
      for i := 0 to |b|
        invariant i == 0 ==> maxNs == -1 && minNs == -1
        invariant i > 0 ==> maxNs == Newest(b[..i]) && minNs == Oldest(b[..i])
      {
        var v := b[i].mono;
        assert b[..i + 1][..i] == b[..i];
        if maxNs < v { maxNs := v; }
        if minNs < 0 || v < minNs { minNs := v; }
      }
      assert b[..|b|] == b;
      if maxNs - minNs < lagNs { return []; }
      var cutoff := maxNs - lagNs;
      var flush, keep := [], [];
      for i := 0 to |b|
        invariant flush == Upto(b[..i], cutoff) && keep == After(b[..i], cutoff)
      {
        assert b[..i + 1][..i] == b[..i];
        if b[i].mono <= cutoff { flush := flush + [b[i]]; } else { keep := keep + [b[i]]; }
      }
      buf := keep;
      out := StableSort(flush);
    }
  }

  // ---------------------------------------------------------------- one push

  /** Nothing in `a` is later than anything in `b`. */
  ghost predicate NoLater<P(!new)>(a: seq<Event<P>>, b: seq<Event<P>>) {
    forall x, y :: x in a && y in b ==> x.mono <= y.mono
  }

  /** A flush neither loses, invents nor reorders ties; what it emits is sorted and no later
      than what it keeps. */
  ghost predicate Splits<P(!new)>(f: Flush<P>, all: seq<Event<P>>) {
    SameTies(f.out + f.keep, all) && Sorted(f.out) && NoLater(f.out, f.keep)
  }

  lemma {:induction false} CutSplits<P(!new)>(buf: seq<Event<P>>, c: int)
    ensures Splits(Flush(StableSort(Upto(buf, c)), After(buf, c)), buf)
  {
    var out, keep := StableSort(Upto(buf, c)), After(buf, c);
    StableSortCorrect(Upto(buf, c));
    SplitMembers(buf, c);
    forall t: Nanos ensures At(out + keep, t) == At(buf, t) {
      AtConcat(out, keep, t);
      AtSplitByTime(buf, c, t);
    }
  }

  lemma {:induction false} IdleSplits<P(!new)>(buf: seq<Event<P>>)
    ensures Splits(Flush([], buf), buf)
  {
    assert [] + buf == buf;
  }

  lemma {:induction false} LagSplits<P(!new)>(lag: nat, buf: seq<Event<P>>)
    ensures Splits(FlushByLag(lag, buf), buf)
  {
    hide Newest, Oldest, Upto, After, StableSort, At;
    if |buf| <= 1 || Newest(buf) - Oldest(buf) < lag {
      IdleSplits(buf);
      assert FlushByLag(lag, buf) == Flush([], buf);
    } else {
      var c := Newest(buf) - lag;
      CutSplits(buf, c);
      assert FlushByLag(lag, buf) == Flush(StableSort(Upto(buf, c)), After(buf, c));
    }
  }

  lemma {:induction false} PressureSplits<P(!new)>(buf: seq<Event<P>>)
    requires buf != []
    ensures Splits(FlushPressure(buf), buf)
  {
    StableSortCorrect(buf);
    var f := FlushPressure(buf);
    assert f.out + f.keep == StableSort(buf);
  }

  lemma {:induction false} PushSplits<P(!new)>(lag: nat, buf: seq<Event<P>>, x: Event<P>)
    ensures Splits(Push(lag, buf, x), buf + [x])
  {
    if |buf| + 1 >= MAX_PENDING { PressureSplits(buf + [x]); } else { LagSplits(lag, buf + [x]); }
  }

  lemma {:induction false} SameTiesConcat<P(!new)>(a: seq<Event<P>>, b: seq<Event<P>>, c: seq<Event<P>>, d: seq<Event<P>>)
    requires SameTies(a, b) && SameTies(c, d)
    ensures SameTies(a + c, b + d)
  {
    forall t: Nanos ensures At(a + c, t) == At(b + d, t) {
      AtConcat(a, c, t); AtConcat(b, d, t);
    }
  }

  lemma {:induction false} SameTiesMembers<P(!new)>(a: seq<Event<P>>, b: seq<Event<P>>)
    requires SameTies(a, b)
    ensures forall e :: e in a <==> e in b
    ensures multiset(a) == multiset(b)
  {
    forall e: Event<P> ensures (e in a <==> e in b) && multiset(a)[e] == multiset(b)[e] {
      AtMember(a, e.mono); AtMember(b, e.mono);
      AtCounts(a, e); AtCounts(b, e);
    }
  }

  // ---------------------------------------------------------------- whole runs

  /** Everything emitted so far and the current buffer. */
  datatype Run<P> = Run(out: seq<Event<P>>, buf: seq<Event<P>>)

  /** The run that pushes `input` into an empty buffer. */
  function RunOf<P(!new)>(lag: nat, input: seq<Event<P>>): Run<P> {
    if input == [] then Run([], []) else
      var r := RunOf(lag, input[..|input| - 1]);
      var f := Push(lag, r.buf, input[|input| - 1]);
      Run(r.out + f.out, f.keep)
  }

  /** Everything emitted by the run once the reader stops and `flushAll` runs. */
  function Output<P(!new)>(lag: nat, input: seq<Event<P>>): seq<Event<P>> {
    RunOf(lag, input).out + StableSort(RunOf(lag, input).buf)
  }

  /** One more push, with the facts every run-level proof starts from. */
  lemma {:induction false} RunStep<P(!new)>(lag: nat, input: seq<Event<P>>) returns (r: Run<P>, x: Event<P>, f: Flush<P>)
    requires input != []
    ensures r == RunOf(lag, input[..|input| - 1]) && x == input[|input| - 1]
    ensures f == Push(lag, r.buf, x) && Splits(f, r.buf + [x])
    ensures RunOf(lag, input) == Run(r.out + f.out, f.keep)
    ensures input == input[..|input| - 1] + [x]
    ensures forall e :: e in f.out || e in f.keep <==> e in r.buf || e == x
  {
    hide At, StableSort, Push;
    r, x := RunOf(lag, input[..|input| - 1]), input[|input| - 1];
    f := Push(lag, r.buf, x);
    PushSplits(lag, r.buf, x);
    SameTiesMembers(f.out + f.keep, r.buf + [x]);
    forall e ensures e in f.out || e in f.keep <==> e in r.buf || e == x {
      assert e in f.out + f.keep <==> e in r.buf + [x];
    }
  }

  /** Conservation at every moment, for any input: equally stamped events are in the output
      or the buffer, each once, in arrival order. */
  lemma {:induction false} RunKeepsTies<P(!new)>(lag: nat, input: seq<Event<P>>)
    ensures SameTies(RunOf(lag, input).out + RunOf(lag, input).buf, input)
  {
    hide At, Push;
    if input != [] {
      var rest := input[..|input| - 1];
      var r, x, f := RunStep(lag, input);
      RunKeepsTies(lag, rest);
      SameTiesConcat(r.out, r.out, f.out + f.keep, r.buf + [x]);
      SameTiesConcat(r.out + r.buf, rest, [x], [x]);
      assert (r.out + f.out) + f.keep == r.out + (f.out + f.keep);
      assert r.out + (r.buf + [x]) == (r.out + r.buf) + [x];
    }
  }

  /** The whole output is a permutation of the input that keeps every tie in arrival order,
      whatever the order, the lag and the pressure flushes were. */
  lemma {:induction false} OutputKeepsTies<P(!new)>(lag: nat, input: seq<Event<P>>)
    ensures SameTies(Output(lag, input), input)
    ensures multiset(Output(lag, input)) == multiset(input)
  {
    var r := RunOf(lag, input);
    RunKeepsTies(lag, input);
    StableSortCorrect(r.buf);
    SameTiesConcat(r.out, r.out, StableSort(r.buf), r.buf);
    SameTiesMembers(Output(lag, input), input);
  }

  // ---------------------------------------------------------------- when is the output sorted?

  /** No push is older than an event emitted before it. */
  ghost predicate OnTime<P(!new)>(lag: nat, input: seq<Event<P>>) {
    forall k | 0 <= k < |input| :: NoLater(RunOf(lag, input[..k]).out, [input[k]])
  }

  lemma {:induction false} OnTimePrefix<P(!new)>(lag: nat, input: seq<Event<P>>, n: nat)
    requires n <= |input| && OnTime(lag, input)
    ensures OnTime(lag, input[..n])
  {
    forall k | 0 <= k < n ensures NoLater(RunOf(lag, input[..n][..k]).out, [input[..n][k]]) {
      assert input[..n][..k] == input[..k];
    }
  }

  lemma SortedConcat<P(!new)>(a: seq<Event<P>>, b: seq<Event<P>>)
    requires Sorted(a) && Sorted(b) && NoLater(a, b)
    ensures Sorted(a + b)
  {
    forall i, j | 0 <= i < j < |a + b| ensures (a + b)[i].mono <= (a + b)[j].mono {
      if i < |a| <= j {
        assert a[i] in a && b[j - |a|] in b;
      }
    }
  }

  lemma {:induction false} OnTimeSorts<P(!new)>(lag: nat, input: seq<Event<P>>)
    requires OnTime(lag, input)
    ensures Sorted(RunOf(lag, input).out)
    ensures NoLater(RunOf(lag, input).out, RunOf(lag, input).buf)
  {
    hide Push, StableSort, At;
    if input != [] {
      var n := |input| - 1;
      var r, x, f := RunStep(lag, input);
      OnTimePrefix(lag, input, n);
      OnTimeSorts(lag, input[..n]);
      assert NoLater(r.out, [x]);
      assert x in [x];
      SortedConcat(r.out, f.out);
    }
  }

  lemma {:induction false} OutPrefix<P(!new)>(lag: nat, input: seq<Event<P>>, k: nat)
    requires k <= |input|
    ensures RunOf(lag, input[..k]).out <= RunOf(lag, input).out
  {
    if k < |input| {
      OutPrefix(lag, input[..|input| - 1], k);
      assert input[..|input| - 1][..k] == input[..k];
    } else {
      assert input[..k] == input;
    }
  }

  lemma {:induction false} AtPrefixShorter<P(!new)>(s: seq<Event<P>>, n: nat, t: Nanos)
    requires n <= |s|
    ensures |At(s[..n], t)| <= |At(s, t)|
  {
    assert s == s[..n] + s[n..];
    AtConcat(s[..n], s[n..], t);
  }

  /** A late push is emitted after the later event it should have preceded. */
  lemma {:induction false} LatePushShows<P(!new)>(lag: nat, input: seq<Event<P>>, k: nat)
    requires k < |input|
    requires !NoLater(RunOf(lag, input[..k]).out, [input[k]])
    ensures !Sorted(Output(lag, input))
  {
    hide RunOf, StableSort, At;
    var done, all, t := RunOf(lag, input[..k]).out, Output(lag, input), input[k].mono;
    var i :| 0 <= i < |done| && done[i].mono > t;
    OutPrefix(lag, input, k);
    assert all == done + all[|done|..];
    // fewer events stamped `t` had been emitted than the output holds in the end
    RunKeepsTies(lag, input[..k]);
    OutputKeepsTies(lag, input);
    AtConcat(done, RunOf(lag, input[..k]).buf, t);
    assert At(done + RunOf(lag, input[..k]).buf, t) == At(input[..k], t);
    assert input[..k + 1] == input[..k] + [input[k]];
    AtSnoc(input[..k], input[k], t);
    AtPrefixShorter(input, k + 1, t);
    AtConcat(done, all[|done|..], t);
    AtMember(all[|done|..], t);
    var y := At(all[|done|..], t)[0];
    assert y in all[|done|..];
    var j :| 0 <= j < |all[|done|..]| && all[|done|..][j] == y;
    assert all[i] == done[i] && all[|done| + j] == y;
  }

  /** The online sort equals the offline one exactly when no push came late. */
  lemma {:induction false} OutputIsStableSortIffOnTime<P(!new)>(lag: nat, input: seq<Event<P>>)
    ensures Output(lag, input) == StableSort(input) <==> OnTime(lag, input)
  {
    var r := RunOf(lag, input);
    StableSortCorrect(input);
    StableSortCorrect(r.buf);
    OutputKeepsTies(lag, input);
    if OnTime(lag, input) {
      OnTimeSorts(lag, input);
      var out := Output(lag, input);
      SortedConcat(r.out, StableSort(r.buf));
      forall t: Nanos ensures At(out, t) == At(StableSort(input), t) {
        assert At(out, t) == At(input, t);
      }
      StableSortUnique(out, StableSort(input));
    } else {
      var k :| 0 <= k < |input| && !NoLater(RunOf(lag, input[..k]).out, [input[k]]);
      LatePushShows(lag, input, k);
    }
  }

  // ---------------------------------------------------------------- inversions, for any input

  /** Event `y` was pushed, as number `p`, when output position `i` had already been filled. */
  ghost predicate PushedAfter<P(!new)>(lag: nat, input: seq<Event<P>>, i: nat, y: Event<P>) {
    exists k, p :: 0 <= k <= p < |input| && i < |RunOf(lag, input[..k]).out| && input[p] == y
  }

  lemma {:induction false} PushedAfterGrows<P(!new)>(lag: nat, input: seq<Event<P>>, n: nat, i: nat, y: Event<P>)
    requires n <= |input| && PushedAfter(lag, input[..n], i, y)
    ensures PushedAfter(lag, input, i, y)
  {
    var k, p :| 0 <= k <= p < n && i < |RunOf(lag, input[..n][..k]).out| && input[..n][p] == y;
    assert input[..n][..k] == input[..k] && input[p] == y;
  }

  /** An emitted event is later than one still buffered only if the latter arrived after the
      emission. */
  lemma {:induction false} BufferedInversion<P(!new)>(lag: nat, input: seq<Event<P>>, i: nat, y: Event<P>)
    requires i < |RunOf(lag, input).out| && y in RunOf(lag, input).buf
    requires RunOf(lag, input).out[i].mono > y.mono
    ensures PushedAfter(lag, input, i, y)
  {
    var n := |input| - 1;
    var r, x, f := RunStep(lag, input);
    var o := RunOf(lag, input).out[i];
    assert i < |r.out| || o in f.out;
    if y == x {
      assert input[n] == y && i < |RunOf(lag, input[..n]).out|;
    } else {
      BufferedInversion(lag, input[..n], i, y);
      PushedAfterGrows(lag, input, n, i, y);
    }
  }

  lemma {:induction false} EmittedInversion<P(!new)>(lag: nat, input: seq<Event<P>>, i: nat, j: nat)
    requires i < j < |RunOf(lag, input).out|
    requires RunOf(lag, input).out[i].mono > RunOf(lag, input).out[j].mono
    ensures PushedAfter(lag, input, i, RunOf(lag, input).out[j])
  {
    var n := |input| - 1;
    var r, x, f := RunStep(lag, input);
    if j < |r.out| {
      EmittedInversion(lag, input[..n], i, j);
      PushedAfterGrows(lag, input, n, i, r.out[j]);
    } else {
      var y := f.out[j - |r.out|];
      assert y in f.out;
      if y == x {
        assert input[n] == y && i < |RunOf(lag, input[..n]).out|;
      } else {
        BufferedInversion(lag, input[..n], i, y);
        PushedAfterGrows(lag, input, n, i, y);
      }
    }
  }

  /** With no assumption on the input: two events leave in the wrong order only if the one
      that leaves second was pushed after the first had left. */
  lemma {:induction false} InversionsAreLatePushes<P(!new)>(lag: nat, input: seq<Event<P>>, i: nat, j: nat)
    requires i < j < |Output(lag, input)|
    requires Output(lag, input)[i].mono > Output(lag, input)[j].mono
    ensures PushedAfter(lag, input, i, Output(lag, input)[j])
  {
    hide RunOf, StableSort, At;
    var r := RunOf(lag, input);
    StableSortCorrect(r.buf);
    if j < |r.out| {
      EmittedInversion(lag, input, i, j);
    } else {
      var y := StableSort(r.buf)[j - |r.out|];
      assert y in StableSort(r.buf);
      BufferedInversion(lag, input, i, y);
    }
  }

  // ---------------------------------------------------------------- bounded memory and the window

  function Later(a: Nanos, b: Nanos): Nanos { if a < b then b else a }

  lemma NewestSnoc<P(!new)>(s: seq<Event<P>>, x: Event<P>)
    requires s != []
    ensures Newest(s + [x]) == Later(Newest(s), x.mono)
  {
    assert (s + [x])[..|s|] == s;
  }

  lemma {:induction false} NewestInsert<P(!new)>(s: seq<Event<P>>, x: Event<P>)
    requires s != []
    ensures Newest(Insert(s, x)) == Later(Newest(s), x.mono)
  {
    NewestSnoc(s, x);
    if s[|s| - 1].mono > x.mono {
      var rest, last := s[..|s| - 1], s[|s| - 1];
      NewestSnoc(Insert(rest, x), last);
      if rest != [] { NewestInsert(rest, x); }
    }
  }

  lemma {:induction false} NewestSort<P(!new)>(s: seq<Event<P>>)
    requires s != []
    ensures StableSort(s) != [] && Newest(StableSort(s)) == Newest(s)
  {
    if |s| > 1 {
      NewestSort(s[..|s| - 1]);
      NewestInsert(StableSort(s[..|s| - 1]), s[|s| - 1]);
    }
  }

  lemma {:induction false} NewestOfSorted<P(!new)>(s: seq<Event<P>>)
    requires s != [] && Sorted(s)
    ensures Newest(s) == s[|s| - 1].mono
  {
    if |s| > 1 { NewestOfSorted(s[..|s| - 1]); }
  }

  lemma {:induction false} NewestAfter<P(!new)>(s: seq<Event<P>>, c: int)
    requires s != [] && c < Newest(s)
    ensures After(s, c) != [] && Newest(After(s, c)) == Newest(s)
    ensures |After(s, c)| <= |s|
  {
    var rest, last := s[..|s| - 1], s[|s| - 1];
    if |s| > 1 && c < Newest(rest) {
      NewestAfter(rest, c);
      NewestSnoc(After(rest, c), last);
      assert After(rest, c) + [] == After(rest, c);
    } else {
      AfterNone(rest, c);
      assert After(s, c) == [last];
    }
  }

  lemma {:induction false} AfterNone<P(!new)>(s: seq<Event<P>>, c: int)
    requires s != [] ==> Newest(s) <= c
    ensures After(s, c) == []
  {
    if s != [] { AfterNone(s[..|s| - 1], c); }
  }

  lemma {:induction false} AfterAll<P(!new)>(s: seq<Event<P>>, c: int)
    requires s != [] ==> c < Oldest(s)
    ensures After(s, c) == s
  {
    if s != [] {
      AfterAll(s[..|s| - 1], c);
      assert s == s[..|s| - 1] + [s[|s| - 1]];
    }
  }

  lemma {:induction false} AfterAfter<P(!new)>(s: seq<Event<P>>, b: int, c: int)
    requires b <= c
    ensures After(After(s, b), c) == After(s, c)
  {
    if s != [] {
      AfterAfter(s[..|s| - 1], b, c);
      var kept, last := After(s[..|s| - 1], b), s[|s| - 1];
      assert last.mono > b ==> (kept + [last])[..|kept|] == kept;
      assert kept + [] == kept;
    }
  }

  lemma {:induction false} AfterSlides<P(!new)>(s: seq<Event<P>>, b: int, c: int, x: Event<P>)
    requires b <= c
    ensures After(After(s, b) + [x], c) == After(s + [x], c)
  {
    var w := After(s, b);
    assert (s + [x])[..|s|] == s && (w + [x])[..|w|] == w;
    AfterAfter(s, b, c);
  }

  /** Below the pressure threshold a push keeps exactly what is newer than the newest event
      minus the lag. */
  lemma {:induction false} LagKeepsWindow<P(!new)>(lag: nat, buf: seq<Event<P>>)
    requires lag > 0 && buf != []
    ensures FlushByLag(lag, buf).keep == After(buf, Newest(buf) - lag)
  {
    hide Upto, StableSort;
    var c := Newest(buf) - lag;
    if |buf| == 1 || Newest(buf) - Oldest(buf) < lag {
      AfterAll(buf, c);
      assert FlushByLag(lag, buf) == Flush([], buf);
    } else {
      assert FlushByLag(lag, buf) == Flush(StableSort(Upto(buf, c)), After(buf, c));
    }
  }

  lemma {:induction false} PressureKeepsNewest<P(!new)>(buf: seq<Event<P>>)
    requires |buf| == 1024
    ensures 0 < |FlushPressure(buf).keep| < 1024
    ensures Newest(FlushPressure(buf).keep) == Newest(buf)
  {
    StableSortCorrect(buf);
    var s := StableSort(buf);
    assert FlushPressure(buf) == Flush(s[..512], s[512..]);
    NewestSort(buf);
    NewestOfSorted(s);
    NewestOfSorted(s[512..]);
  }

  lemma {:induction false} PushKeepsNewest<P(!new)>(lag: nat, buf: seq<Event<P>>, x: Event<P>)
    requires lag > 0 && |buf| < 1024
    ensures 0 < |Push(lag, buf, x).keep| < 1024
    ensures Newest(Push(lag, buf, x).keep) == Newest(buf + [x])
  {
    hide Newest, After, StableSort;
    var all := buf + [x];
    if |all| >= MAX_PENDING {
      PressureKeepsNewest(all);
    } else {
      LagKeepsWindow(lag, all);
      NewestAfter(all, Newest(all) - lag);
    }
  }

  /** How much one push releases.  At the 1024th event the older half goes, 512 events; below
      that everything at or before the newest stamp minus the lag, a lone event staying. */
  lemma PushReleases<P(!new)>(lag: nat, buf: seq<Event<P>>, x: Event<P>)
    requires |buf| < 1024
    ensures |buf| + 1 == 1024 ==> |Push(lag, buf, x).out| == 512
    ensures |buf| + 1 < 1024 ==>
      Push(lag, buf, x).keep == if buf == [] then [x] else After(buf + [x], Newest(buf + [x]) - lag)
    ensures |Push(lag, buf, x).out| + |Push(lag, buf, x).keep| == |buf| + 1
  {
    hide Newest, Oldest, After, Upto, StableSort;
    var all := buf + [x];
    if |all| >= MAX_PENDING {
      StableSortCorrect(all);
    } else {
      var c := Newest(all) - lag;
      SplitMembers(all, c);
      StableSortCorrect(Upto(all, c));
      if |all| > 1 && Newest(all) - Oldest(all) < lag { AfterAll(all, c); }
    }
  }

  /** At every moment the buffer is below its cap and still holds a newest event. */
  lemma {:induction false} BufferBounded<P(!new)>(lag: nat, input: seq<Event<P>>)
    requires lag > 0 && input != []
    ensures 0 < |RunOf(lag, input).buf| < 1024
    ensures Newest(RunOf(lag, input).buf) == Newest(input)
  {
    hide Newest, Push;
    var rest, x := input[..|input| - 1], input[|input| - 1];
    var buf := RunOf(lag, rest).buf;
    assert input == rest + [x];
    PushKeepsNewest(lag, buf, x) by {
      if rest != [] { BufferBounded(lag, rest); }
    }
    if rest != [] {
      BufferBounded(lag, rest);
      NewestSnoc(buf, x);
      NewestSnoc(rest, x);
    } else {
      assert buf + [x] == input;
    }
  }

  /** Unless the last push took the pressure path, the buffered events span less than the lag. */
  lemma {:induction false} BufferSpan<P(!new)>(lag: nat, buf: seq<Event<P>>, x: Event<P>)
    requires lag > 0 && |buf| + 1 < 1024
    ensures var kept := Push(lag, buf, x).keep; kept != [] && Newest(kept) - Oldest(kept) < lag
  {
    hide Newest, Oldest, After, StableSort;
    var all := buf + [x];
    LagKeepsWindow(lag, all);
    NewestAfter(all, Newest(all) - lag);
    OldestAfter(all, Newest(all) - lag);
  }

  lemma {:induction false} OldestAfter<P(!new)>(s: seq<Event<P>>, c: int)
    requires After(s, c) != []
    ensures Oldest(After(s, c)) > c
  {
    var rest, last := s[..|s| - 1], s[|s| - 1];
    var kept := After(rest, c);
    if kept != [] { OldestAfter(rest, c); }
    assert last.mono > c ==> (kept + [last])[..|kept|] == kept;
    assert kept + [] == kept;
  }

  /** The events newer than the newest one minus the lag. */
  function Window<P>(lag: nat, s: seq<Event<P>>): seq<Event<P>> {
    if s == [] then [] else After(s, Newest(s) - lag)
  }

  /** The input never puts enough events into one lag window to trigger the pressure valve. */
  ghost predicate Calm<P(!new)>(lag: nat, input: seq<Event<P>>) {
    forall k | 0 <= k < |input| :: |Window(lag, input[..k])| + 1 < 1024
  }

  lemma {:induction false} CalmPrefix<P(!new)>(lag: nat, input: seq<Event<P>>, n: nat)
    requires n <= |input| && Calm(lag, input)
    ensures Calm(lag, input[..n])
  {
    forall k | 0 <= k < n ensures |Window(lag, input[..n][..k])| + 1 < 1024 {
      assert input[..n][..k] == input[..k];
    }
  }

  lemma {:induction false} CalmPush<P(!new)>(lag: nat, s: seq<Event<P>>, x: Event<P>)
    requires lag > 0 && |Window(lag, s)| + 1 < 1024
    ensures Push(lag, Window(lag, s), x).keep == Window(lag, s + [x])
  {
    hide Newest, After;
    var w := Window(lag, s);
    LagKeepsWindow(lag, w + [x]);
    if s == [] {
      assert w + [x] == s + [x];
    } else {
      NewestAfter(s, Newest(s) - lag);
      NewestSnoc(s, x);
      NewestSnoc(w, x);
      var b, c := Newest(s) - lag, Newest(s + [x]) - lag;
      AfterSlides(s, b, c, x);
    }
  }

  /** On a calm input the buffer has a closed form. */
  lemma {:induction false} CalmBufferIsWindow<P(!new)>(lag: nat, input: seq<Event<P>>)
    requires lag > 0 && Calm(lag, input)
    ensures RunOf(lag, input).buf == Window(lag, input)
  {
    hide Newest, After, Push;
    if input != [] {
      var n := |input| - 1;
      CalmPrefix(lag, input, n);
      CalmBufferIsWindow(lag, input[..n]);
      CalmPush(lag, input[..n], input[n]);
      assert input == input[..n] + [input[n]];
    }
  }

  lemma {:induction false} CalmEmitted<P(!new)>(lag: nat, input: seq<Event<P>>, e: Event<P>)
    requires lag > 0 && Calm(lag, input) && input != []
    ensures e in RunOf(lag, input).out <==> e in input && e.mono <= Newest(input) - lag
  {
    var r, c := RunOf(lag, input), Newest(input) - lag;
    CalmBufferIsWindow(lag, input);
    RunKeepsTies(lag, input);
    assert At(r.out + r.buf, e.mono) == At(input, e.mono);
    AtConcat(r.out, r.buf, e.mono);
    AtSplitByTime(input, c, e.mono);
    AtMember(r.out, e.mono); AtMember(input, e.mono);
    if e.mono > c { assert |At(r.out, e.mono)| == 0; }
  }

  /** The lateness test on the input alone: nothing that has already fallen out of the window
      is later than the next event. */
  ghost predicate WithinWindow<P(!new)>(lag: nat, input: seq<Event<P>>) {
    forall i, k | 0 <= i < k < |input| ::
      input[i].mono <= Newest(input[..k]) - lag ==> input[i].mono <= input[k].mono
  }

  /** For calm inputs the sorting law as a condition on the input alone. */
  lemma {:induction false} CalmOutputIsStableSortIff<P(!new)>(lag: nat, input: seq<Event<P>>)
    requires lag > 0 && Calm(lag, input)
    ensures Output(lag, input) == StableSort(input) <==> WithinWindow(lag, input)
  {
    OutputIsStableSortIffOnTime(lag, input);
    forall k | 0 < k < |input|
      ensures NoLater(RunOf(lag, input[..k]).out, [input[k]]) <==>
              forall i | 0 <= i < k :: input[i].mono <= Newest(input[..k]) - lag ==> input[i].mono <= input[k].mono
    {
      CalmAt(lag, input, k);
    }
  }

  lemma {:induction false} CalmAt<P(!new)>(lag: nat, input: seq<Event<P>>, k: nat)
    requires lag > 0 && Calm(lag, input) && 0 < k < |input|
    ensures NoLater(RunOf(lag, input[..k]).out, [input[k]]) <==>
            forall i | 0 <= i < k :: input[i].mono <= Newest(input[..k]) - lag ==> input[i].mono <= input[k].mono
  {
    var past, y := input[..k], input[k];
    CalmPrefix(lag, input, k);
    forall e ensures e in RunOf(lag, past).out <==> e in past && e.mono <= Newest(past) - lag {
      CalmEmitted(lag, past, e);
    }
    assert y in [y];
    if NoLater(RunOf(lag, past).out, [y]) {
      forall i | 0 <= i < k && input[i].mono <= Newest(past) - lag ensures input[i].mono <= y.mono {
        assert past[i] in past;
      }
    } else {
      var e :| e in RunOf(lag, past).out && e.mono > y.mono;
      var i :| 0 <= i < k && past[i] == e;
      assert input[i] == e;
    }
  }

  /** The promise of the lag: if no event is late by more than the lag, the output is the
      stable sort of the input. */
  lemma {:induction false} BoundedLatenessSorts<P(!new)>(lag: nat, input: seq<Event<P>>)
    requires lag > 0 && Calm(lag, input)
    requires forall i, k | 0 <= i < k < |input| :: input[i].mono - input[k].mono <= lag
    ensures Output(lag, input) == StableSort(input)
  {
    forall i, k | 0 <= i < k < |input| && input[i].mono <= Newest(input[..k]) - lag
      ensures input[i].mono <= input[k].mono
    {
      NewestIsMaximum(input[..k]);
      var m :| 0 <= m < k && input[..k][m].mono == Newest(input[..k]);
      assert input[m].mono - input[k].mono <= lag;
    }
    CalmOutputIsStableSortIff(lag, input);
  }

  /** The bound is needed: for every lag, an event that comes after a newer one has pushed a
      later event than itself out of the window leaves the output unsorted. */
  lemma LateEventBreaksOrder<P(!new)>(lag: nat, x: Event<P>, y: Event<P>, z: Event<P>)
    requires lag > 0 && z.mono < x.mono && x.mono + lag <= y.mono
    ensures Output(lag, [x, y, z]) != StableSort([x, y, z])
  {
    hide Output, StableSort;
    var input := [x, y, z];
    forall k | 0 <= k < |input| ensures |Window(lag, input[..k])| + 1 < 1024 {
      WindowIsShort(lag, input[..k]);
    }
    CalmOutputIsStableSortIff(lag, input);
    assert input[..2] == [x] + [y];
    NewestSnoc([x], y);
    assert input[0].mono <= Newest(input[..2]) - lag && input[0].mono > input[2].mono;
  }

  lemma WindowIsShort<P(!new)>(lag: nat, s: seq<Event<P>>)
    ensures |Window(lag, s)| <= |s|
  {
    hide Newest, After, Upto;
    if s != [] { SplitMembers(s, Newest(s) - lag); }
  }
}

/**
  Event UUIDs (pkg/event_processor/iworker.go, `uuidParse`).  A UUID of the form
  "sock:<core>_<sock>" ties a worker to a socket's lifetime; every other string gets the
  default lifecycle.
 */
module Uuid {
  import opened Basics

  const PREFIX: string := "sock:"
  const UINT64_LIMIT: nat := 0x1_0000_0000_0000_0000

  datatype Life = Default | Sock
  datatype Parsed = Parsed(output: string, destroyId: nat, life: Life)

  // ---------------------------------------------------------------- the library calls

  predicate IsDigit(c: char) { '0' <= c <= '9' }

  predicate AllDigits(s: string) { forall i | 0 <= i < |s| :: IsDigit(s[i]) }

  function DigitsValue(s: string): nat
    requires AllDigits(s)
  {
    if s == "" then 0 else 10 * DigitsValue(s[..|s| - 1]) + (s[|s| - 1] - '0') as nat
  }

  /** `strconv.ParseUint(s, 10, 64)`. */
  function ParseUint64(s: string): Option<nat> {
    if s == "" || !AllDigits(s) || DigitsValue(s) >= UINT64_LIMIT then None else Some(DigitsValue(s))
  }

  function Decimal(n: nat): string {
    var last := [('0' as int + n % 10) as char];
    if n < 10 then last else Decimal(n / 10) + last
  }

  /** `strings.Split(s, "_")`: the parts between separators, at least one. */
  function Split(s: string): (parts: seq<string>)
    ensures parts != []
  {
    if s == "" then [""] else
      var parts := Split(s[..|s| - 1]);
      if s[|s| - 1] == '_' then parts + [""]
      else parts[|parts| - 1 := parts[|parts| - 1] + [s[|s| - 1]]]
  }

  /** `strings.LastIndex(s, "_")`. */
  function LastIndex(s: string): int {
    if s == "" then -1 else if s[|s| - 1] == '_' then |s| - 1 else LastIndex(s[..|s| - 1])
  }

  // ---------------------------------------------------------------- what they mean

  lemma {:induction false} LastIndexMeaning(s: string)
    ensures -1 <= LastIndex(s) < |s|
    ensures LastIndex(s) >= 0 ==> s[LastIndex(s)] == '_'
    ensures forall i | LastIndex(s) < i < |s| :: s[i] != '_'
  {
    if s != "" && s[|s| - 1] != '_' { LastIndexMeaning(s[..|s| - 1]); }
  }

  lemma {:induction false} LastPart(s: string)
    ensures -1 <= LastIndex(s) < |s|
    ensures Split(s)[|Split(s)| - 1] == s[LastIndex(s) + 1..]
    ensures LastIndex(s) == -1 ==> Split(s)[|Split(s)| - 1] == s
  {
    if s != "" { LastPart(s[..|s| - 1]); }
  }

  lemma {:induction false} DecimalDigits(n: nat)
    ensures Decimal(n) != "" && AllDigits(Decimal(n)) && DigitsValue(Decimal(n)) == n
    ensures n < UINT64_LIMIT ==> ParseUint64(Decimal(n)) == Some(n)
  {
    if n >= 10 {
      DecimalDigits(n / 10);
      var last := [('0' as int + n % 10) as char];
      assert Decimal(n) == Decimal(n / 10) + last;
      assert Decimal(n)[..|Decimal(n)| - 1] == Decimal(n / 10);
    }
  }

  lemma SplitAt(c: string, d: string)
    requires forall i | 0 <= i < |d| :: d[i] != '_'
    ensures LastIndex(c + "_" + d) == |c|
    ensures Split(c + "_" + d)[|Split(c + "_" + d)| - 1] == d
  {
    var s := c + "_" + d;
    LastIndexMeaning(s);
    LastPart(s);
    assert s[|c|] == '_';
    forall i | |c| < i < |s| ensures s[i] != '_' { assert s[i] == d[i - |c| - 1]; }
    assert LastIndex(s) == |c|;
    assert s[|c| + 1..] == d;
  }

  // ---------------------------------------------------------------- uuidParse

  /** The slice `core[:LastIndex(core, "_")]` never gets -1: a last part made of digits only
      cannot reach back into the prefix. */
  lemma CoreHasSeparator(uuid: string)
    requires PREFIX <= uuid && ParseUint64(Split(uuid)[|Split(uuid)| - 1]).Some?
    ensures LastIndex(uuid[|PREFIX|..]) >= 0
    ensures LastIndex(uuid) == |PREFIX| + LastIndex(uuid[|PREFIX|..])
  {
    hide Split, DigitsValue, LastIndex;
    var core := uuid[|PREFIX|..];
    LastPart(uuid);
    LastIndexMeaning(uuid);
    LastIndexMeaning(core);
    var k := LastIndex(uuid);
    assert uuid[0] == 's' && uuid[1] == 'o' && uuid[2] == 'c' && uuid[3] == 'k' && uuid[4] == ':';
    assert k >= |PREFIX|;
    assert core[k - |PREFIX|] == '_';
    assert forall i | k - |PREFIX| < i < |core| :: core[i] == uuid[i + |PREFIX|];
  }

  function ParseUuid(uuid: string): Parsed {
    if !(PREFIX <= uuid) then Parsed(uuid, 0, Default) else
      var parts := Split(uuid);
      var sock := ParseUint64(parts[|parts| - 1]);
      if sock.None? || sock.value == 0 then Parsed(uuid, 0, Default) else
        var core := uuid[|PREFIX|..];
        CoreHasSeparator(uuid);
        LastIndexMeaning(core);
        Parsed(core[..LastIndex(core)], sock.value, Sock)
  }

  /** Printing and parsing a socket UUID gives the parts back, for every core string, even one
      with separators or the prefix in it. */
  lemma SocketUuidRoundTrip(core: string, sock: nat)
    requires 0 < sock < UINT64_LIMIT
    ensures ParseUuid(PREFIX + core + "_" + Decimal(sock)) == Parsed(core, sock, Sock)
  {
    hide Split, LastIndex, ParseUint64, Decimal;
    DecimalDigits(sock);
    var d := Decimal(sock);
    var uuid := PREFIX + core + "_" + d;
    SplitAt(PREFIX + core, d);
    SplitAt(core, d);
    assert uuid[|PREFIX|..] == core + "_" + d;
    assert (core + "_" + d)[..|core|] == core;
  }

  /** The UUIDs that get the socket lifecycle, exactly. */
  ghost predicate IsSocketUuid(uuid: string, core: string, digits: string) {
    uuid == PREFIX + core + "_" + digits && ParseUint64(digits).Some? && ParseUint64(digits).value > 0
  }

  lemma SocketLifecycleIff(uuid: string)
    ensures ParseUuid(uuid).life == Sock <==> exists core, digits :: IsSocketUuid(uuid, core, digits)
    ensures ParseUuid(uuid).life == Sock ==>
      exists digits :: IsSocketUuid(uuid, ParseUuid(uuid).output, digits) &&
                       ParseUint64(digits) == Some(ParseUuid(uuid).destroyId)
    ensures ParseUuid(uuid).life == Default ==> ParseUuid(uuid) == Parsed(uuid, 0, Default)
  {
    hide Split, LastIndex, DigitsValue;
    var p := ParseUuid(uuid);
    if p.life == Sock {
      CoreHasSeparator(uuid);
      LastPart(uuid);
      var core := uuid[|PREFIX|..];
      LastIndexMeaning(core);
      var digits := uuid[LastIndex(uuid) + 1..];
      assert uuid == PREFIX + core;
      assert core == p.output + "_" + digits;
      assert IsSocketUuid(uuid, p.output, digits);
    } else if core, digits :| IsSocketUuid(uuid, core, digits) {
      SplitAt(PREFIX + core, digits);
      assert false;
    }
  }
}

/**
  Laws of whole runs of the PCAPNG writer: nothing accepted is lost, duplicated or reordered,
  and exactly when a packet precedes all secrets.
 */
module PcapWriterRuns {
  import opened Basics
  import opened PcapWriter

  // ---------------------------------------------------------------- reading a file back

  function PacketsOf(file: seq<Block>): seq<Packet> {
    if file == [] then [] else
      PacketsOf(file[..|file| - 1]) + (if file[|file| - 1].PacketBlock? then [file[|file| - 1].p] else [])
  }

  function LinesOf(file: seq<Block>): seq<seq<byte>> {
    if file == [] then [] else
      LinesOf(file[..|file| - 1]) + (if file[|file| - 1].Secrets? then [file[|file| - 1].line] else [])
  }

  function Items<T>(s: seq<Settled<T>>): seq<T> {
    if s == [] then [] else Items(s[..|s| - 1]) + [s[|s| - 1].item]
  }

  function WrittenItems<T>(s: seq<Settled<T>>): seq<T> {
    if s == [] then [] else
      WrittenItems(s[..|s| - 1]) + (if s[|s| - 1].written then [s[|s| - 1].item] else [])
  }

  lemma AppendOne<T>(s: seq<Settled<T>>, x: T, written: bool)
    ensures Items(s + [Settled(x, written)]) == Items(s) + [x]
    ensures WrittenItems(s + [Settled(x, written)]) == if written then WrittenItems(s) + [x] else WrittenItems(s)
  {
    assert (s + [Settled(x, written)])[..|s|] == s;
    assert WrittenItems(s) + [] == WrittenItems(s);
  }

  lemma AppendLine(file: seq<Block>, line: seq<byte>)
    ensures PacketsOf(file + [Secrets(line)]) == PacketsOf(file)
    ensures LinesOf(file + [Secrets(line)]) == LinesOf(file) + [line]
  {
    assert (file + [Secrets(line)])[..|file|] == file;
    assert PacketsOf(file) + [] == PacketsOf(file);
  }

  lemma AppendPacket(file: seq<Block>, p: Packet)
    ensures PacketsOf(file + [PacketBlock(p)]) == PacketsOf(file) + [p]
    ensures LinesOf(file + [PacketBlock(p)]) == LinesOf(file)
  {
    assert (file + [PacketBlock(p)])[..|file|] == file;
    assert LinesOf(file) + [] == LinesOf(file);
  }

  lemma {:induction false} AppendPackets(file: seq<Block>, ps: seq<Packet>)
    ensures PacketsOf(file + PacketBlocks(ps)) == PacketsOf(file) + ps
    ensures LinesOf(file + PacketBlocks(ps)) == LinesOf(file)
  {
    hide PacketsOf, LinesOf;
    if ps == [] {
      assert file + PacketBlocks(ps) == file;
    } else {
      var n := |ps| - 1;
      AppendPackets(file, ps[..n]);
      AppendPacket(file + PacketBlocks(ps[..n]), ps[n]);
      assert file + PacketBlocks(ps) == (file + PacketBlocks(ps[..n])) + [PacketBlock(ps[n])];
      assert ps == ps[..n] + [ps[n]];
    }
  }

  lemma {:induction false} AppendSettled<T>(s: seq<Settled<T>>, items: seq<T>, n: nat)
    requires n <= |items|
    ensures Items(s + Settle(items, n)) == Items(s) + items
    ensures WrittenItems(s + Settle(items, n)) == WrittenItems(s) + items[..n]
    decreases |items|
  {
    hide Items, WrittenItems;
    if items == [] {
      assert s + Settle(items, n) == s;
    } else {
      var m := |items| - 1;
      var k := if n <= m then n else m;
      AppendSettled(s, items[..m], k);
      AppendOne(s + Settle(items[..m], k), items[m], m < n);
      assert s + Settle(items, n) == (s + Settle(items[..m], k)) + [Settled(items[m], m < n)];
      assert items == items[..m] + [items[m]];
      assert items[..m][..k] == items[..k];
    }
  }

  // ---------------------------------------------------------------- the invariant

  /** The reasons that excuse a packet with no secrets before it. */
  predicate Excused(c: Cause) {
    (c.AtTick? && c.now >= 3000) || c == AtShutdown(0)
  }

  ghost predicate PacketsKept(w: Writer) {
    && w.hist.accepted == Items(w.hist.settled) + w.tcPackets + w.packetChan
    && PacketsOf(w.file) == WrittenItems(w.hist.settled)
    && (!w.hist.saveFailed ==> WrittenItems(w.hist.settled) == Items(w.hist.settled) && w.packetCount == |Items(w.hist.settled)|)
  }

  ghost predicate LinesKept(w: Writer) {
    && w.hist.acceptedKeys == Items(w.hist.settledKeys) + w.keylogChan
    && LinesOf(w.file) == WrittenItems(w.hist.settledKeys)
    && (!w.hist.secretsFailed ==> WrittenItems(w.hist.settledKeys) == Items(w.hist.settledKeys))
  }

  ghost predicate Conserved(w: Writer) { PacketsKept(w) && LinesKept(w) }

  /** Every packet with no secrets block before it is excused. */
  ghost predicate SecretsFirst(w: Writer) {
    && |w.hist.causes| == |w.file|
    && (forall k | 0 <= k < |w.file| :: w.hist.causes[k] != OnClosedChannel)
    && (w.firstDSBWritten ==> w.hist.secretsFailed || LinesOf(w.file) != [])
    && (forall k | 0 <= k < |w.file| :: w.file[k].PacketBlock? && LinesOf(w.file[..k]) == [] ==>
          w.hist.secretsFailed || Excused(w.hist.causes[k]))
  }

  ghost predicate Lifecycle(w: Writer) {
    && (w.serving ==> w.counter == |w.tcPackets|)
    && (!w.serving ==> w.cancelled && w.tcPackets == [] && w.packetChan == [] && w.keylogChan == [])
    && (w.channelsClosed ==> !w.serving)
  }

  ghost predicate Inv(w: Writer) { Conserved(w) && SecretsFirst(w) && Lifecycle(w) }

  // ---------------------------------------------------------------- building blocks

  lemma SaveConserves(w: Writer, cause: Cause, io: Io)
    requires Conserved(w)
    ensures Conserved(Save(w, cause, io))
  {
    hide PacketsKept, LinesKept;
    SaveKeepsPackets(w, cause, io);
    SaveKeepsLines(w, cause, io);
  }

  lemma SaveKeepsPackets(w: Writer, cause: Cause, io: Io)
    requires PacketsKept(w)
    ensures PacketsKept(Save(w, cause, io))
  {
    hide PacketsOf, LinesOf, Items, WrittenItems, Written;
    var n, w' := Written(io, 0, |w.tcPackets|), Save(w, cause, io);
    AppendPackets(w.file, w.tcPackets[..n]);
    AppendSettled(w.hist.settled, w.tcPackets, n);
    assert Items(w'.hist.settled) + w'.tcPackets + w'.packetChan == Items(w.hist.settled) + w.tcPackets + w.packetChan;
    if SaveOk(io, |w.tcPackets|) { assert w.tcPackets[..n] == w.tcPackets; }
  }

  lemma SaveKeepsLines(w: Writer, cause: Cause, io: Io)
    requires LinesKept(w)
    ensures LinesKept(Save(w, cause, io))
  {
    hide PacketsOf, LinesOf, Items, WrittenItems, Written;
    AppendPackets(w.file, w.tcPackets[..Written(io, 0, |w.tcPackets|)]);
  }

  /** A save for this cause keeps the ordering rule. */
  ghost predicate GateOpen(w: Writer, cause: Cause) {
    w.hist.secretsFailed || LinesOf(w.file) != [] || Excused(cause)
  }

  lemma SaveOrders(w: Writer, cause: Cause, io: Io)
    requires SecretsFirst(w) && GateOpen(w, cause) && cause != OnClosedChannel
    ensures SecretsFirst(Save(w, cause, io))
  {
    var n := Written(io, 0, |w.tcPackets|);
    var w' := Save(w, cause, io);
    AppendPackets(w.file, w.tcPackets[..n]);
    hide LinesOf;
    forall k | 0 <= k < |w'.file| && w'.file[k].PacketBlock? && LinesOf(w'.file[..k]) == []
      ensures w'.hist.secretsFailed || Excused(w'.hist.causes[k])
    {
      if k < |w.file| {
        assert w'.file[..k] == w.file[..k];
      } else {
        assert w'.file[..k] == w.file + PacketBlocks(w.tcPackets[..k - |w.file|]);
        AppendPackets(w.file, w.tcPackets[..k - |w.file|]);
      }
    }
  }

  lemma SecretsConserve(w: Writer, line: seq<byte>, rest: seq<seq<byte>>, fails: bool, cause: Cause)
    requires Conserved(w) && w.keylogChan == [line] + rest
    ensures Conserved(WriteSecrets(w, line, fails, cause).(keylogChan := rest))
  {
    AppendOne(w.hist.settledKeys, line, !fails);
    if !fails { AppendLine(w.file, line); }
    hide PacketsOf, LinesOf, Items, WrittenItems;
    assert Items(w.hist.settledKeys) + ([line] + rest) == (Items(w.hist.settledKeys) + [line]) + rest;
  }

  lemma SecretsOrder(w: Writer, line: seq<byte>, fails: bool, cause: Cause)
    requires SecretsFirst(w) && cause != OnClosedChannel
    ensures SecretsFirst(WriteSecrets(w, line, fails, cause))
    ensures var w' := WriteSecrets(w, line, fails, cause); w'.hist.secretsFailed || LinesOf(w'.file) != []
  {
    AppendLine(w.file, line);
    hide LinesOf;
    var w' := WriteSecrets(w, line, fails, cause);
    forall k | 0 <= k < |w'.file| && w'.file[k].PacketBlock? && LinesOf(w'.file[..k]) == []
      ensures w'.hist.secretsFailed || Excused(w'.hist.causes[k])
    {
      assert w'.file[..k] == w.file[..k];
    }
  }

  lemma OneSecretKeeps(w: Writer, line: seq<byte>, rest: seq<seq<byte>>, fails: bool, cause: Cause)
    requires Conserved(w) && SecretsFirst(w) && cause != OnClosedChannel && w.keylogChan == [line] + rest
    ensures var w' := WriteSecrets(w, line, fails, cause).(keylogChan := rest);
      Conserved(w') && SecretsFirst(w') && (w'.hist.secretsFailed || LinesOf(w'.file) != [])
  {
    hide Conserved, SecretsFirst, LinesOf, WriteSecrets;
    SecretsConserve(w, line, rest, fails, cause);
    SecretsOrder(w, line, fails, cause);
    OrderIgnoresQueue(WriteSecrets(w, line, fails, cause), rest);
  }

  /** Writing secrets does not look at the queue they came from. */
  lemma SecretsIgnoreQueue(w: Writer, lines: seq<seq<byte>>, a: seq<seq<byte>>, b: seq<seq<byte>>, io: Io, cause: Cause)
    requires lines != []
    ensures var n := |lines| - 1;
      WriteSecrets(WriteAllSecrets(w, lines[..n], io, cause).(keylogChan := a), lines[n], io.secretsFail(n), cause).(keylogChan := b)
      == WriteAllSecrets(w, lines, io, cause).(keylogChan := b)
  {
  }

  lemma {:induction false} AllSecretsKeep(w: Writer, lines: seq<seq<byte>>, rest: seq<seq<byte>>, io: Io, cause: Cause)
    requires Conserved(w) && SecretsFirst(w) && cause != OnClosedChannel && w.keylogChan == lines + rest
    ensures var w' := WriteAllSecrets(w, lines, io, cause).(keylogChan := rest);
      && Conserved(w') && SecretsFirst(w')
      && (lines != [] ==> w'.hist.secretsFailed || LinesOf(w'.file) != [])
  {
    if lines == [] {
      hide Conserved, SecretsFirst, LinesOf;
      assert lines + rest == rest;
      assert w.(keylogChan := rest) == w;
    } else {
      hide Conserved, SecretsFirst, LinesOf, WriteAllSecrets, WriteSecrets;
      var n := |lines| - 1;
      assert lines + rest == lines[..n] + ([lines[n]] + rest);
      AllSecretsKeep(w, lines[..n], [lines[n]] + rest, io, cause);
      OneSecretKeeps(WriteAllSecrets(w, lines[..n], io, cause).(keylogChan := [lines[n]] + rest),
                     lines[n], rest, io.secretsFail(n), cause);
      SecretsIgnoreQueue(w, lines, [lines[n]] + rest, rest, io, cause);
    }
  }

  lemma OrderIgnoresQueue(w: Writer, rest: seq<seq<byte>>)
    requires SecretsFirst(w)
    ensures SecretsFirst(w.(keylogChan := rest))
  {
  }

  // ---------------------------------------------------------------- every step keeps it

  lemma TickKeeps(w: Writer, now: int, io: Io)
    requires Inv(w) && w.serving
    ensures Inv(TickStep(w, now, io))
  {
    hide PacketsOf, LinesOf, Items, WrittenItems;
    if w.counter != 0 && w.tcPackets != [] && (w.firstDSBWritten || now >= GRACE) {
      SaveConserves(w, AtTick(now), io);
      SaveOrders(w, AtTick(now), io);
      OrderOfSame(Save(w, AtTick(now), io), TickStep(w, now, io));
    }
  }

  /** Conservation and order speak of neither the counter nor the flags. */
  lemma OrderOfSame(w: Writer, w': Writer)
    requires Conserved(w) && SecretsFirst(w)
    requires w' == w.(counter := w'.counter, serving := w'.serving)
    ensures Conserved(w') && SecretsFirst(w')
  {
    hide PacketsOf, LinesOf, Items, WrittenItems;
  }

  lemma RecvKeylogKeeps(w: Writer, io: Io)
    requires Inv(w) && Enabled(w, RecvKeylog(io))
    ensures Inv(RecvKeylogStep(w, io))
  {
    hide PacketsOf, LinesOf, Items, WrittenItems, Save, WriteSecrets;
    var line, rest := w.keylogChan[0], w.keylogChan[1..];
    var w1 := WriteSecrets(w, line, io.secretsFail(0), AfterSecrets);
    SecretsConserve(w, line, rest, io.secretsFail(0), AfterSecrets);
    SecretsOrder(w, line, io.secretsFail(0), AfterSecrets);
    SecretsFrameOne(w, line, io.secretsFail(0), AfterSecrets);
    var w2 := w1.(keylogChan := rest, firstDSBWritten := true);
    assert Conserved(w1.(keylogChan := rest));
    assert Conserved(w2) && SecretsFirst(w2);
    if w.tcPackets != [] {
      SaveConserves(w2, AfterSecrets, io);
      SaveOrders(w2, AfterSecrets, io);
      SaveFrame(w2, AfterSecrets, io);
      OrderOfSame(Save(w2, AfterSecrets, io), RecvKeylogStep(w, io));
    }
  }

  lemma SecretsFrameOne(w: Writer, line: seq<byte>, fails: bool, cause: Cause)
    ensures var w' := WriteSecrets(w, line, fails, cause); w' == w.(file := w'.file, hist := w'.hist)
  {
  }

  lemma SaveFrame(w: Writer, cause: Cause, io: Io)
    ensures var w' := Save(w, cause, io);
      w' == w.(file := w'.file, tcPackets := [], packetCount := w'.packetCount, hist := w'.hist)
  {
  }

  lemma DrainKeeps(w: Writer, io: Io)
    requires Inv(w) && Enabled(w, Drain(io))
    ensures Inv(DrainStep(w, io))
  {
    hide PacketsOf, LinesOf, Items, WrittenItems, Save, WriteAllSecrets;
    var cause := AtShutdown(|w.keylogChan|);
    var w1 := w.(tcPackets := w.tcPackets + w.packetChan, packetChan := []);
    assert Conserved(w1) && SecretsFirst(w1);
    assert w1.keylogChan == w1.keylogChan + [];
    AllSecretsKeep(w1, w.keylogChan, [], io, cause);
    SecretsFrame(w1, w.keylogChan, io, cause);
    var w2 := WriteAllSecrets(w1, w.keylogChan, io, cause).(keylogChan := []);
    if w2.tcPackets != [] {
      SaveConserves(w2, cause, io);
      SaveOrders(w2, cause, io);
      SaveFrame(w2, cause, io);
      OrderOfSame(Save(w2, cause, io), DrainStep(w, io));
    } else {
      OrderOfSame(w2, DrainStep(w, io));
    }
  }

  lemma StepKeepsInv(w: Writer, step: Step)
    requires Inv(w) && Enabled(w, step)
    ensures Inv(Apply(w, step))
  {
    hide PacketsOf, LinesOf, Items, WrittenItems, Save, TickStep, RecvKeylogStep, DrainStep;
    match step
    case Tick(now, io) => TickKeeps(w, now, io);
    case RecvKeylog(io) => RecvKeylogKeeps(w, io);
    case Drain(io) => DrainKeeps(w, io);
    case AddPacket(p) => assert w.tcPackets + (w.packetChan + [p]) == (w.tcPackets + w.packetChan) + [p];
    case RecvPacket =>
      assert w.tcPackets + w.packetChan == (w.tcPackets + [w.packetChan[0]]) + w.packetChan[1..];
    case _ =>
  }

  // ---------------------------------------------------------------- whole runs

  /** The state after the steps, if each of them was possible. */
  function Exec(steps: seq<Step>): Option<Writer> {
    if steps == [] then Some(Start) else
      var w := Exec(steps[..|steps| - 1]);
      if w.Some? && Enabled(w.value, steps[|steps| - 1]) then Some(Apply(w.value, steps[|steps| - 1])) else None
  }

  lemma {:induction false} RunKeepsInv(steps: seq<Step>)
    requires Exec(steps).Some?
    ensures Inv(Exec(steps).value)
  {
    hide Apply, Enabled, Inv;
    if steps == [] {
      StartOk();
    } else {
      RunKeepsInv(steps[..|steps| - 1]);
      StepKeepsInv(Exec(steps[..|steps| - 1]).value, steps[|steps| - 1]);
    }
  }

  lemma StartOk()
    ensures Inv(Start)
  {
  }

  /** In every reachable state: settled packets, the batch and the channel are together the
      accepted packets in order; the file holds exactly the settled packets that were written,
      in order; and while Serve runs its counter is the size of the batch. */
  lemma PacketsConserved(steps: seq<Step>)
    requires Exec(steps).Some?
    ensures var w := Exec(steps).value;
      && Items(w.hist.settled) + w.tcPackets + w.packetChan == w.hist.accepted
      && PacketsOf(w.file) == WrittenItems(w.hist.settled)
      && (w.serving ==> w.counter == |w.tcPackets|)
      && (!w.hist.saveFailed ==> PacketsOf(w.file) + w.tcPackets + w.packetChan == w.hist.accepted)
  {
    RunKeepsInv(steps);
  }

  /** After Serve has returned, what was accepted and not written was in a save, or a secrets
      block, that failed. */
  lemma ClosedMeans(steps: seq<Step>)
    requires Exec(steps).Some? && !Exec(steps).value.serving
    ensures var w := Exec(steps).value;
      && (!w.hist.saveFailed ==> PacketsOf(w.file) == w.hist.accepted && w.packetCount == |w.hist.accepted|)
      && (!w.hist.secretsFailed ==> LinesOf(w.file) == w.hist.acceptedKeys)
  {
    hide PacketsOf, LinesOf, Items, WrittenItems, Exec;
    RunKeepsInv(steps);
    var w := Exec(steps).value;
    assert Items(w.hist.settled) + [] + [] == Items(w.hist.settled);
    assert Items(w.hist.settledKeys) + [] == Items(w.hist.settledKeys);
  }

  // ---------------------------------------------------------------- secrets before packets

  /** Packet block `k` has no secrets block before it and no excuse. */
  ghost predicate Misplaced(w: Writer, k: nat) {
    && k < |w.file| && k < |w.hist.causes|
    && w.file[k].PacketBlock? && LinesOf(w.file[..k]) == [] && !Excused(w.hist.causes[k])
  }

  ghost predicate SomeMisplaced(w: Writer) { exists k: nat :: Misplaced(w, k) }

  /** A save in this state puts at least one packet into the file. */
  predicate Saves(w: Writer, io: Io) { w.tcPackets != [] && !io.packetFails(0) }

  predicate AllSecretsFail(n: nat, io: Io) { forall j | 0 <= j < n :: io.secretsFail(j) }

  /** The step writes packets too early: the file has no secrets block yet, and a tick before
      the deadline finds the gate open, or the secrets that should precede the packets fail. */
  predicate WritesTooEarly(w: Writer, step: Step) {
    && LinesOf(w.file) == []
    && match step
       case Tick(now, io) => w.serving && w.counter != 0 && now < 3000 && w.firstDSBWritten && Saves(w, io)
       case RecvKeylog(io) => io.secretsFail(0) && Saves(w, io)
       case Drain(io) =>
         && w.keylogChan != [] && AllSecretsFail(|w.keylogChan|, io)
         && w.tcPackets + w.packetChan != [] && !io.packetFails(0)
       case _ => false
  }

  lemma WrittenSome(io: Io, total: nat)
    ensures Written(io, 0, total) > 0 <==> total > 0 && !io.packetFails(0)
  {
  }

  /** Appended blocks leave the earlier ones as they are. */
  lemma MisplacedFrame(w: Writer, w': Writer, k: nat)
    requires |w.hist.causes| == |w.file| && k < |w.file|
    requires w.file <= w'.file && w.hist.causes <= w'.hist.causes
    ensures Misplaced(w', k) <==> Misplaced(w, k)
  {
    assert w'.file[..k] == w.file[..k];
  }

  lemma SaveMisplaces(w: Writer, cause: Cause, io: Io)
    requires |w.hist.causes| == |w.file|
    ensures SomeMisplaced(Save(w, cause, io)) <==>
      SomeMisplaced(w) || (LinesOf(w.file) == [] && !Excused(cause) && Saves(w, io))
    ensures |Save(w, cause, io).hist.causes| == |Save(w, cause, io).file|
  {
    var n, w' := Written(io, 0, |w.tcPackets|), Save(w, cause, io);
    WrittenSome(io, |w.tcPackets|);
    hide LinesOf;
    forall k: nat | k < |w.file| ensures Misplaced(w', k) <==> Misplaced(w, k) { MisplacedFrame(w, w', k); }
    forall k: nat | |w.file| <= k < |w'.file|
      ensures Misplaced(w', k) <==> LinesOf(w.file) == [] && !Excused(cause)
    {
      assert w'.file[..k] == w.file + PacketBlocks(w.tcPackets[..k - |w.file|]);
      AppendPackets(w.file, w.tcPackets[..k - |w.file|]);
    }
    hide Misplaced;
    MisplacedInside(w);
    MisplacedInside(w');
    assert n > 0 ==> (Misplaced(w', |w.file|) <==> LinesOf(w.file) == [] && !Excused(cause));
    if k: nat :| Misplaced(w, k) { assert Misplaced(w', k); }
    if k: nat :| Misplaced(w', k) { assert k < |w.file| ==> Misplaced(w, k); }
  }

  lemma MisplacedInside(w: Writer)
    ensures forall k: nat :: Misplaced(w, k) ==> k < |w.file|
  {
  }

  lemma SecretsMisplace(w: Writer, line: seq<byte>, fails: bool, cause: Cause)
    requires |w.hist.causes| == |w.file|
    ensures var w' := WriteSecrets(w, line, fails, cause);
      && (SomeMisplaced(w') <==> SomeMisplaced(w))
      && (LinesOf(w'.file) == [] <==> LinesOf(w.file) == [] && fails)
      && |w'.hist.causes| == |w'.file|
  {
    var w' := WriteSecrets(w, line, fails, cause);
    AppendLine(w.file, line);
    hide LinesOf;
    forall k: nat | k < |w.file| ensures Misplaced(w', k) <==> Misplaced(w, k) { MisplacedFrame(w, w', k); }
    assert !Misplaced(w', |w.file|);
  }

  lemma {:induction false} AllSecretsMisplace(w: Writer, lines: seq<seq<byte>>, io: Io, cause: Cause)
    requires |w.hist.causes| == |w.file|
    ensures var w' := WriteAllSecrets(w, lines, io, cause);
      && (SomeMisplaced(w') <==> SomeMisplaced(w))
      && (LinesOf(w'.file) == [] <==> LinesOf(w.file) == [] && AllSecretsFail(|lines|, io))
      && |w'.hist.causes| == |w'.file|
  {
    hide LinesOf, SomeMisplaced;
    if lines != [] {
      var n := |lines| - 1;
      AllSecretsMisplace(w, lines[..n], io, cause);
      SecretsMisplace(WriteAllSecrets(w, lines[..n], io, cause), lines[n], io.secretsFail(n), cause);
    }
  }

  /** Misplacement speaks of the file and the causes only. */
  lemma MisplacedOfSame(w: Writer, w': Writer)
    requires w'.file == w.file && w'.hist.causes == w.hist.causes
    ensures SomeMisplaced(w') <==> SomeMisplaced(w)
  {
    assert forall k: nat :: Misplaced(w', k) <==> Misplaced(w, k);
  }

  lemma TickMisplaces(w: Writer, now: int, io: Io)
    requires Inv(w) && w.serving
    ensures SomeMisplaced(TickStep(w, now, io)) <==> SomeMisplaced(w) || WritesTooEarly(w, Tick(now, io))
  {
    hide Conserved, LinesOf, SomeMisplaced, Save;
    if w.counter != 0 && w.tcPackets != [] && (w.firstDSBWritten || now >= GRACE) {
      SaveMisplaces(w, AtTick(now), io);
      MisplacedOfSame(Save(w, AtTick(now), io), TickStep(w, now, io));
    }
  }

  lemma RecvKeylogMisplaces(w: Writer, io: Io)
    requires Inv(w) && Enabled(w, RecvKeylog(io))
    ensures SomeMisplaced(RecvKeylogStep(w, io)) <==> SomeMisplaced(w) || WritesTooEarly(w, RecvKeylog(io))
  {
    hide Conserved, LinesOf, SomeMisplaced, Save, WriteSecrets;
    var fails := io.secretsFail(0);
    var w1 := WriteSecrets(w, w.keylogChan[0], fails, AfterSecrets);
    var w2 := w1.(keylogChan := w.keylogChan[1..], firstDSBWritten := true);
    SecretsMisplace(w, w.keylogChan[0], fails, AfterSecrets);
    SecretsFrameOne(w, w.keylogChan[0], fails, AfterSecrets);
    MisplacedOfSame(w1, w2);
    if w.tcPackets != [] {
      SaveMisplaces(w2, AfterSecrets, io);
      MisplacedOfSame(Save(w2, AfterSecrets, io), RecvKeylogStep(w, io));
    }
  }

  lemma DrainMisplaces(w: Writer, io: Io)
    requires Inv(w) && Enabled(w, Drain(io))
    ensures SomeMisplaced(DrainStep(w, io)) <==> SomeMisplaced(w) || WritesTooEarly(w, Drain(io))
  {
    hide Conserved, LinesOf, SomeMisplaced, Save, WriteAllSecrets, AllSecretsFail;
    var cause := AtShutdown(|w.keylogChan|);
    var w1 := w.(tcPackets := w.tcPackets + w.packetChan, packetChan := []);
    var w2 := WriteAllSecrets(w1, w.keylogChan, io, cause);
    MisplacedOfSame(w, w1);
    AllSecretsMisplace(w1, w.keylogChan, io, cause);
    SecretsFrame(w1, w.keylogChan, io, cause);
    MisplacedOfSame(w2, w2.(keylogChan := []));
    if w1.tcPackets != [] {
      SaveMisplaces(w2.(keylogChan := []), cause, io);
      MisplacedOfSame(Save(w2.(keylogChan := []), cause, io), DrainStep(w, io));
    } else {
      MisplacedOfSame(w2, DrainStep(w, io));
    }
  }

  lemma StepMisplaces(w: Writer, step: Step)
    requires Inv(w) && Enabled(w, step)
    ensures SomeMisplaced(Apply(w, step)) <==> SomeMisplaced(w) || WritesTooEarly(w, step)
  {
    hide Conserved, SecretsFirst, LinesOf, SomeMisplaced, TickStep, RecvKeylogStep, DrainStep, Saves, AllSecretsFail;
    match step
    case Tick(now, io) => TickMisplaces(w, now, io);
    case RecvKeylog(io) => RecvKeylogMisplaces(w, io);
    case Drain(io) => DrainMisplaces(w, io);
    case RecvClosed(_) => // not enabled
    case _ => MisplacedOfSame(w, Apply(w, step));
  }

  /** Some step of the run writes packets too early. */
  ghost predicate SomeTooEarly(steps: seq<Step>) { exists i: nat :: TooEarlyAt(steps, i) }

  ghost predicate TooEarlyAt(steps: seq<Step>, i: nat) {
    i < |steps| && Exec(steps[..i]).Some? && WritesTooEarly(Exec(steps[..i]).value, steps[i])
  }

  lemma TooEarlySplit(steps: seq<Step>)
    requires steps != []
    ensures SomeTooEarly(steps) <==> SomeTooEarly(steps[..|steps| - 1]) || TooEarlyAt(steps, |steps| - 1)
  {
    hide Exec, WritesTooEarly;
    var n := |steps| - 1;
    forall i: nat | i < n ensures TooEarlyAt(steps, i) <==> TooEarlyAt(steps[..n], i) {
      assert steps[..n][..i] == steps[..i];
    }
  }

  lemma ExecLast(steps: seq<Step>)
    requires steps != [] && Exec(steps).Some?
    ensures var n := |steps| - 1;
      Exec(steps[..n]).Some? && Enabled(Exec(steps[..n]).value, steps[n]) &&
      Exec(steps).value == Apply(Exec(steps[..n]).value, steps[n])
  {
  }

  /** The ordering rule, exactly.  Over any run some packet block has no secrets block before
      it, although it was written neither at a tick past the deadline nor at a shutdown with no
      line queued, if and only if some step, with no secrets in the file yet, saves packets at a
      tick before the deadline with the gate open, or right after the secrets that should have
      preceded them failed. */
  lemma {:induction false} PacketsMisplacedIff(steps: seq<Step>)
    requires Exec(steps).Some?
    ensures SomeMisplaced(Exec(steps).value) <==> SomeTooEarly(steps)
  {
    hide Apply, Enabled, Inv, Exec, WritesTooEarly, SomeMisplaced, SomeTooEarly;
    if steps == [] {
      NoStepsNothingMisplaced();
    } else {
      var n := |steps| - 1;
      ExecLast(steps);
      PacketsMisplacedIff(steps[..n]);
      RunKeepsInv(steps[..n]);
      StepMisplaces(Exec(steps[..n]).value, steps[n]);
      TooEarlySplit(steps);
    }
  }

  lemma NoStepsNothingMisplaced()
    ensures Exec([]) == Some(Start) && !SomeMisplaced(Start) && !SomeTooEarly([])
  {
  }

  /** Once a secrets block has failed, no packet can be written either. */
  predicate StickyAt(w: Writer, step: Step) {
    match step
    case Tick(_, io) => w.hist.secretsFailed ==> io.packetFails(0)
    case RecvKeylog(io) => w.hist.secretsFailed || io.secretsFail(0) ==> io.packetFails(0)
    case Drain(io) =>
      w.hist.secretsFailed || (w.keylogChan != [] && AllSecretsFail(|w.keylogChan|, io)) ==> io.packetFails(0)
    case _ => true
  }

  /** A block writer whose failures last, as those of a buffered writer do. */
  ghost predicate StickyWriter(steps: seq<Step>) {
    forall i | 0 <= i < |steps| && Exec(steps[..i]).Some? :: StickyAt(Exec(steps[..i]).value, steps[i])
  }

  lemma StickyStep(w: Writer, step: Step)
    requires Inv(w) && Enabled(w, step) && StickyAt(w, step)
    ensures !WritesTooEarly(w, step)
  {
    hide Conserved, LinesOf, AllSecretsFail;
  }

  /** With such a writer the rule holds in every run: a packet with no secrets block before it
      was written at a tick at or after the deadline, or at a shutdown with no line queued. */
  lemma StickyWriterKeepsOrder(steps: seq<Step>, k: nat)
    requires Exec(steps).Some? && StickyWriter(steps)
    requires var w := Exec(steps).value;
      k < |w.file| && w.file[k].PacketBlock? && forall j | 0 <= j < k :: w.file[j].PacketBlock?
    ensures var w := Exec(steps).value; |w.hist.causes| == |w.file| && Excused(w.hist.causes[k])
  {
    RunKeepsInv(steps);
    NoLines(Exec(steps).value.file[..k]);
    PacketsMisplacedIff(steps);
    forall i: nat ensures !TooEarlyAt(steps, i) { NeverTooEarly(steps, i); }
    hide Exec, LinesOf, Conserved, TooEarlyAt, Excused;
    assert !SomeMisplaced(Exec(steps).value);
    assert !Misplaced(Exec(steps).value, k);
  }

  /** With any writer, if no secrets block has failed. */
  lemma SecretsPrecedePackets(steps: seq<Step>, k: nat)
    requires Exec(steps).Some?
    requires var w := Exec(steps).value;
      k < |w.file| && w.file[k].PacketBlock? && forall j | 0 <= j < k :: w.file[j].PacketBlock?
    ensures var w := Exec(steps).value;
      |w.hist.causes| == |w.file| && (w.hist.secretsFailed || Excused(w.hist.causes[k]))
  {
    RunKeepsInv(steps);
    NoLines(Exec(steps).value.file[..k]);
  }

  lemma NeverTooEarly(steps: seq<Step>, i: nat)
    requires Exec(steps).Some? && StickyWriter(steps)
    ensures !TooEarlyAt(steps, i)
  {
    if i < |steps| {
      ExecPrefix(steps, i + 1);
      ExecLast(steps[..i + 1]);
      assert steps[..i + 1][..i] == steps[..i];
      RunKeepsInv(steps[..i]);
      hide Inv, Exec, Apply, Enabled, WritesTooEarly, StickyAt;
      StickyStep(Exec(steps[..i]).value, steps[i]);
    }
  }

  lemma {:induction false} ExecPrefix(steps: seq<Step>, k: nat)
    requires Exec(steps).Some? && k <= |steps|
    ensures Exec(steps[..k]).Some?
  {
    if k == |steps| {
      assert steps[..k] == steps;
    } else {
      ExecLast(steps);
      ExecPrefix(steps[..|steps| - 1], k);
      assert steps[..|steps| - 1][..k] == steps[..k];
    }
  }

  lemma {:induction false} NoLines(file: seq<Block>)
    requires forall j | 0 <= j < |file| :: file[j].PacketBlock?
    ensures LinesOf(file) == []
  {
    if file != [] { NoLines(file[..|file| - 1]); }
  }

  /** Serve never sees a closed packet channel. */
  lemma ClosedChannelBranchUnreachable(steps: seq<Step>, io: Io)
    requires Exec(steps).Some?
    ensures !Enabled(Exec(steps).value, RecvClosed(io))
  {
    hide Conserved, SecretsFirst, Exec;
    RunKeepsInv(steps);
  }

  lemma ExecNone()
    ensures Exec([]) == Some(Start)
  {
  }

  lemma ExecSnoc(steps: seq<Step>, w: Writer, step: Step)
    requires Exec(steps) == Some(w) && Enabled(w, step)
    ensures Exec(steps + [step]) == Some(Apply(w, step))
  {
    assert (steps + [step])[..|steps|] == steps;
  }

  lemma SaveOne(w: Writer, p: Packet, now: int, io: Io)
    requires w.tcPackets == [p] && w.file == [] && w.hist.causes == [] && !w.hist.saveFailed
    requires !io.packetFails(0) && !io.flushFails
    ensures var w' := Save(w, AtTick(now), io);
      w'.file == [PacketBlock(p)] && w'.hist.causes == [AtTick(now)] && !w'.hist.saveFailed
  {
    assert Written(io, 1, 1) == 1 && Written(io, 0, 1) == 1;
  }

  /** The failure clause is needed: `firstDSBWritten` is set even when the block could not be
      written, and then a tick before the deadline writes packets with no secrets before them. */
  lemma FailedSecretsOpenTheGate(p: Packet, line: seq<byte>, now: int) returns (steps: seq<Step>)
    requires now < 3000
    ensures Exec(steps).Some?
    ensures var w := Exec(steps).value;
      w.file == [PacketBlock(p)] && w.hist.causes == [AtTick(now)] && !w.hist.saveFailed
  {
    hide Exec, Save;
    var bad := Io(_ => false, false, _ => true);
    var w1 := AddKeylogStep(Start, line);
    var w2 := RecvKeylogStep(w1, bad);
    var w3 := AddPacketStep(w2, p);
    var w4 := RecvPacketStep(w3);
    ExecNone();
    ExecSnoc([], Start, AddKeylog(line));
    ExecSnoc([] + [AddKeylog(line)], w1, RecvKeylog(bad));
    ExecSnoc([] + [AddKeylog(line)] + [RecvKeylog(bad)], w2, AddPacket(p));
    ExecSnoc([] + [AddKeylog(line)] + [RecvKeylog(bad)] + [AddPacket(p)], w3, RecvPacket);
    steps := [] + [AddKeylog(line)] + [RecvKeylog(bad)] + [AddPacket(p)] + [RecvPacket] + [Tick(now, bad)];
    SaveOne(w4, p, now, bad);
    ExecSnoc([] + [AddKeylog(line)] + [RecvKeylog(bad)] + [AddPacket(p)] + [RecvPacket], w4, Tick(now, bad));
  }
}

/**
  What the PCAPNG writer writes, told from the steps of a run alone: which packets and lines
  were accepted, which writes failed, what each save leaves in the file, and what the file
  holds after Close.
 */
module PcapWriterWrites {
  import opened Basics
  import opened PcapWriter
  import opened PcapWriterRuns

  // ---------------------------------------------------------------- one save

  /** `n` of `total` packets come before the first failing write. */
  ghost predicate FirstFailure(io: Io, total: nat, n: nat) {
    && n <= total
    && (forall j | 0 <= j < n :: !io.packetFails(j))
    && (n < total ==> io.packetFails(n))
  }

  lemma {:induction false} WrittenToFirstFailure(io: Io, i: nat, total: nat)
    requires i <= total && forall j | 0 <= j < i :: !io.packetFails(j)
    ensures FirstFailure(io, total, Written(io, i, total))
    decreases total - i
  {
    if i < total && !io.packetFails(i) { WrittenToFirstFailure(io, i + 1, total); }
  }

  /** A save appends exactly the packets before its first failing write, drops the rest, and
      counts them only if nothing failed. */
  lemma SaveWrites(w: Writer, cause: Cause, io: Io, n: nat)
    requires FirstFailure(io, |w.tcPackets|, n)
    ensures var w' := Save(w, cause, io);
      && w'.file == w.file + PacketBlocks(w.tcPackets[..n]) && w'.tcPackets == []
      && w'.packetChan == w.packetChan && w'.keylogChan == w.keylogChan
      && w'.packetCount == w.packetCount + (if n == |w.tcPackets| && (n == 0 || !io.flushFails) then n else 0)
  {
    WrittenToFirstFailure(io, 0, |w.tcPackets|);
    OneFirstFailure(io, |w.tcPackets|, n, Written(io, 0, |w.tcPackets|));
  }

  lemma OneFirstFailure(io: Io, total: nat, a: nat, b: nat)
    requires FirstFailure(io, total, a) && FirstFailure(io, total, b)
    ensures a == b
  {
  }

  /** The gate at a tick: with nothing batched, or before the deadline and before any secrets
      have been seen, nothing happens; otherwise the whole batch is saved. */
  lemma TickWrites(steps: seq<Step>, now: int, io: Io, n: nat)
    requires Exec(steps).Some? && Enabled(Exec(steps).value, Tick(now, io))
    requires FirstFailure(io, |Exec(steps).value.tcPackets|, n)
    ensures var w := Exec(steps).value; var w' := Apply(w, Tick(now, io));
      if now >= 3000 || exists i :: 0 <= i < |steps| && steps[i].RecvKeylog?
      then w'.file == w.file + PacketBlocks(w.tcPackets[..n]) && w'.tcPackets == []
      else w' == w
  {
    RunKeepsInv(steps);
    GateIsSteps(steps);
    hide Exec, Conserved, SecretsFirst, Save;
    var w := Exec(steps).value;
    SaveWrites(w, AtTick(now), io, n);
    assert w.file + PacketBlocks([]) == w.file;
  }

  /** The gate opens with the first line received, written or not. */
  lemma {:induction false} GateIsSteps(steps: seq<Step>)
    requires Exec(steps).Some?
    ensures Exec(steps).value.firstDSBWritten <==> exists i :: 0 <= i < |steps| && steps[i].RecvKeylog?
  {
    hide Apply, Enabled;
    if steps != [] {
      var n := |steps| - 1;
      ExecLast(steps);
      GateIsSteps(steps[..n]);
      GateStep(Exec(steps[..n]).value, steps[n]);
      if i :| 0 <= i < n && steps[..n][i].RecvKeylog? { assert steps[i].RecvKeylog?; }
      if i :| 0 <= i < |steps| && steps[i].RecvKeylog? { assert i < n ==> steps[..n][i].RecvKeylog?; }
    }
  }

  lemma GateStep(w: Writer, step: Step)
    requires Enabled(w, step)
    ensures Apply(w, step).firstDSBWritten <==> w.firstDSBWritten || step.RecvKeylog?
  {
    hide WriteAllSecrets;
    match step
    case Drain(io) =>
      SecretsFrame(w.(tcPackets := w.tcPackets + w.packetChan, packetChan := []), w.keylogChan, io, AtShutdown(|w.keylogChan|));
    case _ =>
  }

  /** A received line is attempted first, and then the whole batch is saved. */
  lemma KeylogWrites(w: Writer, io: Io, n: nat)
    requires Enabled(w, RecvKeylog(io)) && FirstFailure(io, |w.tcPackets|, n)
    ensures var w' := Apply(w, RecvKeylog(io));
      && w'.file == w.file + (if io.secretsFail(0) then [] else [Secrets(w.keylogChan[0])]) + PacketBlocks(w.tcPackets[..n])
      && w'.tcPackets == [] && w'.keylogChan == w.keylogChan[1..]
  {
    hide Save;
    var w1 := WriteSecrets(w, w.keylogChan[0], io.secretsFail(0), AfterSecrets);
    SaveWrites(w1.(keylogChan := w.keylogChan[1..], firstDSBWritten := true), AfterSecrets, io, n);
    assert w.file + [] == w.file;
    assert w1.file + PacketBlocks([]) == w1.file;
  }

  /** The shutdown attempts every queued line, and then saves the batch and everything queued. */
  lemma DrainWrites(w: Writer, io: Io, n: nat)
    requires Enabled(w, Drain(io)) && FirstFailure(io, |w.tcPackets + w.packetChan|, n)
    ensures var w' := Apply(w, Drain(io));
      && w'.file == w.file + SecretsBlocks(w.keylogChan, io) + PacketBlocks((w.tcPackets + w.packetChan)[..n])
      && w'.tcPackets == [] && w'.packetChan == [] && w'.keylogChan == []
  {
    hide Save, WriteAllSecrets, SecretsBlocks;
    var cause := AtShutdown(|w.keylogChan|);
    var w1 := w.(tcPackets := w.tcPackets + w.packetChan, packetChan := []);
    var w2 := WriteAllSecrets(w1, w.keylogChan, io, cause).(keylogChan := []);
    SecretsFrame(w1, w.keylogChan, io, cause);
    AllSecretsWrite(w1, w.keylogChan, io, cause);
    SaveWrites(w2, cause, io, n);
    assert w2.file + PacketBlocks([]) == w2.file;
  }

  /** The lines whose own block did not fail, in order. */
  function SecretsBlocks(lines: seq<seq<byte>>, io: Io): seq<Block> {
    if lines == [] then [] else
      SecretsBlocks(lines[..|lines| - 1], io) +
      (if io.secretsFail(|lines| - 1) then [] else [Secrets(lines[|lines| - 1])])
  }

  lemma {:induction false} AllSecretsWrite(w: Writer, lines: seq<seq<byte>>, io: Io, cause: Cause)
    ensures WriteAllSecrets(w, lines, io, cause).file == w.file + SecretsBlocks(lines, io)
  {
    if lines == [] {
      assert w.file + [] == w.file;
    } else {
      var n := |lines| - 1;
      AllSecretsWrite(w, lines[..n], io, cause);
      assert SecretsBlocks(lines[..n], io) + [] == SecretsBlocks(lines[..n], io);
      assert w.file + (SecretsBlocks(lines[..n], io) + [Secrets(lines[n])]) ==
             (w.file + SecretsBlocks(lines[..n], io)) + [Secrets(lines[n])];
    }
  }

  // ---------------------------------------------------------------- what was accepted

  /** The packets that found room: fewer than 1024 were waiting when they were offered. */
  function AcceptedPackets(steps: seq<Step>): seq<Packet> {
    if steps == [] then [] else
      var last, w := steps[|steps| - 1], Exec(steps[..|steps| - 1]);
      AcceptedPackets(steps[..|steps| - 1]) +
      (if last.AddPacket? && w.Some? && |w.value.packetChan| < 1024 then [last.p] else [])
  }

  /** The lines that found room: fewer than 256 were waiting when they were offered. */
  function AcceptedLines(steps: seq<Step>): seq<seq<byte>> {
    if steps == [] then [] else
      var last, w := steps[|steps| - 1], Exec(steps[..|steps| - 1]);
      AcceptedLines(steps[..|steps| - 1]) +
      (if last.AddKeylog? && w.Some? && |w.value.keylogChan| < 256 then [last.line] else [])
  }

  lemma StepAccepts(w: Writer, step: Step)
    requires Inv(w) && Enabled(w, step)
    ensures Apply(w, step).hist.accepted ==
      w.hist.accepted + (if step.AddPacket? && |w.packetChan| < 1024 then [step.p] else [])
    ensures Apply(w, step).hist.acceptedKeys ==
      w.hist.acceptedKeys + (if step.AddKeylog? && |w.keylogChan| < 256 then [step.line] else [])
  {
    hide TickStep, RecvKeylogStep, DrainStep, Conserved, SecretsFirst, TickFails, KeylogFails, DrainFails;
    assert w.hist.accepted + [] == w.hist.accepted && w.hist.acceptedKeys + [] == w.hist.acceptedKeys;
    match step
    case Tick(now, io) => TickHistory(w, now, io);
    case RecvKeylog(io) => KeylogHistory(w, io);
    case Drain(io) => DrainHistory(w, io);
    case RecvClosed(_) => // not enabled
    case _ =>
  }

  /** The histories are those of the steps. */
  lemma {:induction false} HistoryIsSteps(steps: seq<Step>)
    requires Exec(steps).Some?
    ensures Exec(steps).value.hist.accepted == AcceptedPackets(steps)
    ensures Exec(steps).value.hist.acceptedKeys == AcceptedLines(steps)
  {
    hide Apply, Enabled, Inv;
    if steps != [] {
      ExecLast(steps);
      HistoryIsSteps(steps[..|steps| - 1]);
      RunKeepsInv(steps[..|steps| - 1]);
      StepAccepts(Exec(steps[..|steps| - 1]).value, steps[|steps| - 1]);
    }
  }

  // ---------------------------------------------------------------- which writes failed

  /** A batch of `n` packets meets a failing write or a failing flush. */
  predicate BatchFails(io: Io, n: nat) {
    n > 0 && (io.flushFails || exists k :: 0 <= k < n && io.packetFails(k))
  }

  predicate LineFails(io: Io, n: nat) { exists k :: 0 <= k < n && io.secretsFail(k) }

  predicate TickFails(w: Writer, now: int, io: Io) { (w.firstDSBWritten || now >= 3000) && BatchFails(io, |w.tcPackets|) }

  predicate KeylogFails(w: Writer, io: Io) { BatchFails(io, |w.tcPackets|) }

  predicate DrainFails(w: Writer, io: Io) { BatchFails(io, |w.tcPackets| + |w.packetChan|) }

  /** The step saves packets and meets a failure. */
  predicate SaveFails(w: Writer, step: Step) {
    match step
    case Tick(now, io) => TickFails(w, now, io)
    case RecvKeylog(io) => KeylogFails(w, io)
    case Drain(io) => DrainFails(w, io)
    case _ => false
  }

  /** The step attempts secrets blocks and one of them fails. */
  predicate SecretsFail(w: Writer, step: Step) {
    match step
    case RecvKeylog(io) => io.secretsFail(0)
    case Drain(io) => LineFails(io, |w.keylogChan|)
    case _ => false
  }

  lemma SaveOkMeans(io: Io, total: nat)
    ensures SaveOk(io, total) <==> !BatchFails(io, total)
  {
    WrittenToFirstFailure(io, 0, total);
  }

  /** What a step that writes does to the histories of acceptance and failure. */
  predicate Recorded(h: History, h': History, saveFails: bool, secretsFail: bool) {
    && h'.accepted == h.accepted && h'.acceptedKeys == h.acceptedKeys
    && (h'.saveFailed <==> h.saveFailed || saveFails)
    && (h'.secretsFailed <==> h.secretsFailed || secretsFail)
  }

  lemma SaveHistory(w: Writer, cause: Cause, io: Io)
    ensures Recorded(w.hist, Save(w, cause, io).hist, BatchFails(io, |w.tcPackets|), false)
  {
    hide Written, BatchFails, SaveOk;
    SaveOkMeans(io, |w.tcPackets|);
  }

  lemma NoBatchNoFailure(io: Io)
    ensures !BatchFails(io, 0)
  {
  }

  lemma SecretsHistory(w: Writer, line: seq<byte>, fails: bool, cause: Cause)
    ensures Recorded(w.hist, WriteSecrets(w, line, fails, cause).hist, false, fails)
  {
  }

  lemma {:induction false} AllSecretsHistory(w: Writer, lines: seq<seq<byte>>, io: Io, cause: Cause)
    ensures Recorded(w.hist, WriteAllSecrets(w, lines, io, cause).hist, false, LineFails(io, |lines|))
  {
    hide WriteSecrets;
    if lines != [] {
      var n := |lines| - 1;
      AllSecretsHistory(w, lines[..n], io, cause);
      SecretsHistory(WriteAllSecrets(w, lines[..n], io, cause), lines[n], io.secretsFail(n), cause);
      assert LineFails(io, n + 1) <==> LineFails(io, n) || io.secretsFail(n);
    }
  }

  lemma TickHistory(w: Writer, now: int, io: Io)
    requires Lifecycle(w) && w.serving
    ensures Recorded(w.hist, TickStep(w, now, io).hist, TickFails(w, now, io), false)
  {
    hide Save, BatchFails;
    SaveHistory(w, AtTick(now), io);
    NoBatchNoFailure(io);
  }

  lemma KeylogHistory(w: Writer, io: Io)
    requires w.keylogChan != []
    ensures Recorded(w.hist, RecvKeylogStep(w, io).hist, KeylogFails(w, io), io.secretsFail(0))
  {
    hide Save, WriteSecrets, BatchFails;
    var w1 := WriteSecrets(w, w.keylogChan[0], io.secretsFail(0), AfterSecrets);
    SecretsHistory(w, w.keylogChan[0], io.secretsFail(0), AfterSecrets);
    SecretsFrameOne(w, w.keylogChan[0], io.secretsFail(0), AfterSecrets);
    SaveHistory(w1.(keylogChan := w.keylogChan[1..], firstDSBWritten := true), AfterSecrets, io);
    NoBatchNoFailure(io);
  }

  lemma DrainHistory(w: Writer, io: Io)
    ensures Recorded(w.hist, DrainStep(w, io).hist, DrainFails(w, io), LineFails(io, |w.keylogChan|))
  {
    hide Save, WriteAllSecrets, BatchFails, LineFails;
    var w1, cause := w.(tcPackets := w.tcPackets + w.packetChan, packetChan := []), AtShutdown(|w.keylogChan|);
    AllSecretsHistory(w1, w.keylogChan, io, cause);
    SecretsFrame(w1, w.keylogChan, io, cause);
    SaveHistory(WriteAllSecrets(w1, w.keylogChan, io, cause).(keylogChan := []), cause, io);
    NoBatchNoFailure(io);
  }

  lemma StepFlags(w: Writer, step: Step)
    requires Inv(w) && Enabled(w, step)
    ensures Apply(w, step).hist.saveFailed <==> w.hist.saveFailed || SaveFails(w, step)
    ensures Apply(w, step).hist.secretsFailed <==> w.hist.secretsFailed || SecretsFail(w, step)
  {
    hide TickStep, RecvKeylogStep, DrainStep, Conserved, SecretsFirst, LineFails, TickFails, KeylogFails, DrainFails;
    match step
    case Tick(now, io) => TickHistory(w, now, io);
    case RecvKeylog(io) => KeylogHistory(w, io);
    case Drain(io) => DrainHistory(w, io);
    case RecvClosed(_) => // not enabled
    case _ =>
  }

  ghost predicate SaveFailsAt(steps: seq<Step>, i: nat) {
    i < |steps| && Exec(steps[..i]).Some? && SaveFails(Exec(steps[..i]).value, steps[i])
  }

  ghost predicate SecretsFailAt(steps: seq<Step>, i: nat) {
    i < |steps| && Exec(steps[..i]).Some? && SecretsFail(Exec(steps[..i]).value, steps[i])
  }

  ghost predicate SomeSaveFails(steps: seq<Step>) { exists i: nat :: SaveFailsAt(steps, i) }

  ghost predicate SomeSecretsFail(steps: seq<Step>) { exists i: nat :: SecretsFailAt(steps, i) }

  lemma FailuresSplit(steps: seq<Step>)
    requires steps != []
    ensures SomeSaveFails(steps) <==> SomeSaveFails(steps[..|steps| - 1]) || SaveFailsAt(steps, |steps| - 1)
    ensures SomeSecretsFail(steps) <==> SomeSecretsFail(steps[..|steps| - 1]) || SecretsFailAt(steps, |steps| - 1)
  {
    hide Exec, SaveFails, SecretsFail;
    var n := |steps| - 1;
    forall i: nat | i < n
      ensures SaveFailsAt(steps, i) <==> SaveFailsAt(steps[..n], i)
      ensures SecretsFailAt(steps, i) <==> SecretsFailAt(steps[..n], i)
    {
      assert steps[..n][..i] == steps[..i];
    }
  }

  /** The failure flags are set exactly by failing writes. */
  lemma {:induction false} FlagsAreFailures(steps: seq<Step>)
    requires Exec(steps).Some?
    ensures Exec(steps).value.hist.saveFailed <==> SomeSaveFails(steps)
    ensures Exec(steps).value.hist.secretsFailed <==> SomeSecretsFail(steps)
  {
    hide Apply, Enabled, Inv, SaveFails, SecretsFail, SomeSaveFails, SomeSecretsFail;
    if steps == [] {
      NoFailuresAtStart();
    } else {
      var n := |steps| - 1;
      ExecLast(steps);
      FlagsAreFailures(steps[..n]);
      RunKeepsInv(steps[..n]);
      StepFlags(Exec(steps[..n]).value, steps[n]);
      FailuresSplit(steps);
    }
  }

  lemma NoFailuresAtStart()
    ensures !SomeSaveFails([]) && !SomeSecretsFail([])
  {
  }

  // ---------------------------------------------------------------- after Close

  /** After Serve has returned the file holds exactly the accepted packets in order, each once,
      and `packetCount` is their number, if no save of the run met a failing write; and exactly
      the accepted lines in order, if no secrets block of the run failed. */
  lemma CloseWritesEverything(steps: seq<Step>)
    requires Exec(steps).Some? && !Exec(steps).value.serving
    ensures var w := Exec(steps).value;
      && (!SomeSaveFails(steps) ==> PacketsOf(w.file) == AcceptedPackets(steps) && w.packetCount == |AcceptedPackets(steps)|)
      && (!SomeSecretsFail(steps) ==> LinesOf(w.file) == AcceptedLines(steps))
  {
    hide Exec, PacketsOf, LinesOf;
    ClosedMeans(steps);
    HistoryIsSteps(steps);
    FlagsAreFailures(steps);
  }

  ghost predicate Clean(io: Io) {
    !io.flushFails && forall k: nat :: !io.packetFails(k) && !io.secretsFail(k)
  }

  /** No write of the run fails. */
  ghost predicate CleanWriter(steps: seq<Step>) {
    forall i | 0 <= i < |steps| ::
      match steps[i]
      case Tick(_, io) => Clean(io)
      case RecvKeylog(io) => Clean(io)
      case RecvClosed(io) => Clean(io)
      case Drain(io) => Clean(io)
      case _ => true
  }

  lemma CleanNeverFails(steps: seq<Step>, i: nat)
    requires CleanWriter(steps) && i < |steps|
    ensures !SaveFailsAt(steps, i) && !SecretsFailAt(steps, i)
  {
    hide Exec;
    match steps[i]
    case Tick(_, io) => assert Clean(io);
    case RecvKeylog(io) => assert Clean(io);
    case Drain(io) => assert Clean(io);
    case _ =>
  }

  /** With a writer that never fails, at every moment the file and what is waiting are together
      everything accepted, in order; after Close it is all in the file. */
  lemma NothingLost(steps: seq<Step>)
    requires Exec(steps).Some? && CleanWriter(steps)
    ensures var w := Exec(steps).value;
      && PacketsOf(w.file) + w.tcPackets + w.packetChan == AcceptedPackets(steps)
      && LinesOf(w.file) + w.keylogChan == AcceptedLines(steps)
      && w.packetCount == |PacketsOf(w.file)|
      && (!w.serving ==> PacketsOf(w.file) == AcceptedPackets(steps) && LinesOf(w.file) == AcceptedLines(steps))
  {
    hide Exec, PacketsOf, LinesOf, Items, WrittenItems;
    RunKeepsInv(steps);
    HistoryIsSteps(steps);
    FlagsAreFailures(steps);
    forall i: nat ensures !SaveFailsAt(steps, i) && !SecretsFailAt(steps, i) {
      if i < |steps| { CleanNeverFails(steps, i); }
    }
    var w := Exec(steps).value;
    assert PacketsOf(w.file) + [] + [] == PacketsOf(w.file);
    assert LinesOf(w.file) + [] == LinesOf(w.file);
  }

  /** Close can be called at any time, and Serve then drains and returns. */
  lemma CloseReturns(steps: seq<Step>, io: Io) returns (steps': seq<Step>)
    requires Exec(steps).Some? && !Exec(steps).value.cancelled
    ensures steps' == steps + [Cancel] + [Drain(io)] + [CloseChannels]
    ensures Exec(steps').Some? && !Exec(steps').value.serving && Exec(steps').value.channelsClosed
  {
    RunKeepsInv(steps);
    hide Exec, WriteAllSecrets, Save, Conserved, SecretsFirst;
    var w := Exec(steps).value;
    assert w.serving;
    ExecSnoc(steps, w, Cancel);
    var w1 := w.(cancelled := true);
    ExecSnoc(steps + [Cancel], w1, Drain(io));
    var w2 := DrainStep(w1, io);
    DrainFrame(w1, io);
    ExecSnoc(steps + [Cancel] + [Drain(io)], w2, CloseChannels);
    steps' := steps + [Cancel] + [Drain(io)] + [CloseChannels];
  }

  lemma DrainFrame(w: Writer, io: Io)
    ensures DrainStep(w, io).cancelled == w.cancelled && !DrainStep(w, io).serving
  {
    hide WriteAllSecrets;
    SecretsFrame(w.(tcPackets := w.tcPackets + w.packetChan, packetChan := []), w.keylogChan, io, AtShutdown(|w.keylogChan|));
  }
}

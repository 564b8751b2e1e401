/**
  The PCAPNG writer loop (internal/output/writers/pcap_writer.go): two bounded input channels,
  a batch of packets, a grace deadline that holds packets back until the first secrets block,
  and a shutdown that drains everything.

  Blocks are written by the Serve goroutine only.  The ordering rule is that of the Decryption
  Secrets Block section of draft-ietf-opsawg-pcapng: secrets come before the packets they
  decrypt.  The block writer may fail; `Io` says where.
 */
module PcapWriter {
  import opened Basics

  const PACKET_CHAN: nat := 1024
  const KEYLOG_CHAN: nat := 256
  const GRACE: int := 3000       // milliseconds after the start of Serve

  datatype Packet = Packet(stamp: int, data: seq<byte>)
  datatype Block = PacketBlock(p: Packet) | Secrets(line: seq<byte>)

  /** Why a block was written. */
  datatype Cause = AtTick(now: int) | AfterSecrets | AtShutdown(keylogs: nat) | OnClosedChannel

  /** Which writes fail: the k-th packet of a save, the flush after it, the k-th secrets block. */
  datatype Io = Io(packetFails: nat -> bool, flushFails: bool, secretsFail: nat -> bool)

  datatype Settled<T> = Settled(item: T, written: bool)

  datatype History = History(
    causes: seq<Cause>,                  // one per block of the file
    accepted: seq<Packet>,               // packets WritePacket accepted
    acceptedKeys: seq<seq<byte>>,        // lines WriteKeyLog accepted
    settled: seq<Settled<Packet>>,       // packets taken out of the batch
    settledKeys: seq<Settled<seq<byte>>>,
    secretsFailed: bool,                 // some secrets block could not be written
    saveFailed: bool)                    // some save returned an error

  datatype Writer = Writer(
    file: seq<Block>,
    tcPackets: seq<Packet>,
    packetChan: seq<Packet>,
    keylogChan: seq<seq<byte>>,
    counter: nat,
    packetCount: nat,
    firstDSBWritten: bool,
    serving: bool,
    cancelled: bool,
    channelsClosed: bool,
    hist: History)

  const Start: Writer :=
    Writer([], [], [], [], 0, 0, false, true, false, false, History([], [], [], [], [], false, false))

  // ---------------------------------------------------------------- saving a batch

  /** How many of `total` packets are written before the first failure. */
  function Written(io: Io, n: nat, total: nat): (r: nat)
    requires n <= total
    ensures n <= r <= total
    decreases total - n
  {
    if n == total || io.packetFails(n) then n else Written(io, n + 1, total)
  }

  function PacketBlocks(ps: seq<Packet>): seq<Block> {
    seq(|ps|, i requires 0 <= i < |ps| => PacketBlock(ps[i]))
  }

  function Settle<T>(items: seq<T>, n: nat): seq<Settled<T>> {
    seq(|items|, i requires 0 <= i < |items| => Settled(items[i], i < n))
  }

  function Repeat(c: Cause, n: nat): seq<Cause> { seq(n, _ => c) }

  predicate SaveOk(io: Io, total: nat) {
    Written(io, 0, total) == total && (total == 0 || !io.flushFails)
  }

  /** `savePcapng` and the reset that follows it: what is not written is dropped, and the
      counter of saved packets grows only by error-free saves. */
  function Save(w: Writer, cause: Cause, io: Io): Writer {
    var total := |w.tcPackets|;
    var n := Written(io, 0, total);
    w.(file := w.file + PacketBlocks(w.tcPackets[..n]),
       tcPackets := [],
       packetCount := if SaveOk(io, total) then w.packetCount + total else w.packetCount,
       hist := w.hist.(
         causes := w.hist.causes + Repeat(cause, n),
         settled := w.hist.settled + Settle(w.tcPackets, n),
         saveFailed := w.hist.saveFailed || !SaveOk(io, total)))
  }

  /** One attempt to write a Decryption Secrets Block. */
  function WriteSecrets(w: Writer, line: seq<byte>, fails: bool, cause: Cause): Writer {
    if fails then w.(hist := w.hist.(settledKeys := w.hist.settledKeys + [Settled(line, false)], secretsFailed := true))
    else w.(file := w.file + [Secrets(line)],
            hist := w.hist.(causes := w.hist.causes + [cause],
                            settledKeys := w.hist.settledKeys + [Settled(line, true)]))
  }

  function WriteAllSecrets(w: Writer, lines: seq<seq<byte>>, io: Io, cause: Cause): Writer {
    if lines == [] then w
    else WriteSecrets(WriteAllSecrets(w, lines[..|lines| - 1], io, cause), lines[|lines| - 1], io.secretsFail(|lines| - 1), cause)
  }

  // ---------------------------------------------------------------- steps

  datatype Step =
    | AddPacket(p: Packet) | AddKeylog(line: seq<byte>)  // WritePacket, WriteKeyLog
    | Tick(now: int, io: Io)
    | RecvPacket | RecvClosed(io: Io) | RecvKeylog(io: Io)
    | Cancel                    // Close cancels the context
    | Drain(io: Io)             // Serve sees the cancellation and drains
    | CloseChannels             // Close, after Serve has returned

  /** No producer overlaps Close: nothing is added once the context is cancelled. */
  predicate Enabled(w: Writer, step: Step) {
    match step
    case AddPacket(_) => !w.cancelled
    case AddKeylog(_) => !w.cancelled
    case Tick(_, _) => w.serving
    case RecvPacket => w.serving && w.packetChan != []
    case RecvClosed(_) => w.serving && w.packetChan == [] && w.channelsClosed
    case RecvKeylog(_) => w.serving && w.keylogChan != []
    case Cancel => !w.cancelled
    case Drain(_) => w.serving && w.cancelled
    case CloseChannels => w.cancelled && !w.serving
  }

  function AddPacketStep(w: Writer, p: Packet): Writer {
    if |w.packetChan| < PACKET_CHAN
    then w.(packetChan := w.packetChan + [p], hist := w.hist.(accepted := w.hist.accepted + [p])) else w
  }

  function AddKeylogStep(w: Writer, line: seq<byte>): Writer {
    if |w.keylogChan| < KEYLOG_CHAN
    then w.(keylogChan := w.keylogChan + [line], hist := w.hist.(acceptedKeys := w.hist.acceptedKeys + [line])) else w
  }

  function TickStep(w: Writer, now: int, io: Io): Writer {
    if w.counter == 0 || w.tcPackets == [] then w
    else if !w.firstDSBWritten && now < GRACE then w
    else Save(w, AtTick(now), io).(counter := 0)
  }

  function RecvPacketStep(w: Writer): Writer
    requires w.packetChan != []
  {
    w.(tcPackets := w.tcPackets + [w.packetChan[0]], packetChan := w.packetChan[1..], counter := w.counter + 1)
  }

  function RecvKeylogStep(w: Writer, io: Io): Writer
    requires w.keylogChan != []
  {
    var w1 := WriteSecrets(w, w.keylogChan[0], io.secretsFail(0), AfterSecrets);
    var w2 := w1.(keylogChan := w.keylogChan[1..], firstDSBWritten := true);
    if w.tcPackets != [] then Save(w2, AfterSecrets, io).(counter := 0) else w2
  }

  function DrainStep(w: Writer, io: Io): Writer {
    var w1 := w.(tcPackets := w.tcPackets + w.packetChan, packetChan := []);
    var w2 := WriteAllSecrets(w1, w.keylogChan, io, AtShutdown(|w.keylogChan|)).(keylogChan := []);
    (if w2.tcPackets != [] then Save(w2, AtShutdown(|w.keylogChan|), io) else w2).(serving := false)
  }

  function Apply(w: Writer, step: Step): Writer
    requires Enabled(w, step)
  {
    match step
    case AddPacket(p) => AddPacketStep(w, p)
    case AddKeylog(line) => AddKeylogStep(w, line)
    case Tick(now, io) => TickStep(w, now, io)
    case RecvPacket => RecvPacketStep(w)
    case RecvClosed(io) => Save(w, OnClosedChannel, io).(serving := false)
    case RecvKeylog(io) => RecvKeylogStep(w, io)
    case Cancel => w.(cancelled := true)
    case Drain(io) => DrainStep(w, io)
    case CloseChannels => w.(channelsClosed := true)
  }

  // ---------------------------------------------------------------- the loop in the source's form

  /** `PcapWriter`: the select branches of Serve, drainOnShutdown and savePcapng over fields. */
  class PcapWriter {
    var file: seq<Block>
    var tcPackets: seq<Packet>
    var packetChan: seq<Packet>
    var keylogChan: seq<seq<byte>>
    var counter: nat
    var packetCount: nat
    var firstDSBWritten: bool
    ghost var serving: bool
    ghost var cancelled: bool
    ghost var channelsClosed: bool
    ghost var hist: History

    ghost function View(): Writer reads this {
      Writer(file, tcPackets, packetChan, keylogChan, counter, packetCount, firstDSBWritten,
             serving, cancelled, channelsClosed, hist)
    }

    constructor ()
      ensures View() == Start
    {
      file, tcPackets, packetChan, keylogChan := [], [], [], [];
      counter, packetCount, firstDSBWritten := 0, 0, false;
      serving, cancelled, channelsClosed := true, false, false;
      hist := Start.hist;
    }

    method WritePacket(p: Packet) returns (ok: bool)
      modifies this`packetChan, this`hist
      ensures View() == AddPacketStep(old(View()), p) && ok == (|old(packetChan)| < 1024)
    {
      ok := |packetChan| < PACKET_CHAN;
      if ok {
        packetChan := packetChan + [p];
        hist := hist.(accepted := hist.accepted + [p]);
      }
    }

    method WriteKeyLog(line: seq<byte>) returns (ok: bool)
      modifies this`keylogChan, this`hist
      ensures View() == AddKeylogStep(old(View()), line) && ok == (|old(keylogChan)| < 256)
    {
      ok := |keylogChan| < KEYLOG_CHAN;
      if ok {
        keylogChan := keylogChan + [line];
        hist := hist.(acceptedKeys := hist.acceptedKeys + [line]);
      }
    }

    /** The write loop of `savePcapng`: it stops at the first block that fails. */
    method WriteBatch(io: Io) returns (n: nat, ok: bool)
      modifies this`file
      ensures var k := Written(io, 0, |tcPackets|);
        && file == old(file) + PacketBlocks(tcPackets[..k])
        && ok == (k == |tcPackets|) && n == if ok then k else k + 1
    {
      n, ok := 0, true;
      while n < |tcPackets|
        invariant n <= |tcPackets|
        invariant Written(io, 0, |tcPackets|) == Written(io, n, |tcPackets|)
        invariant file == old(file) + PacketBlocks(tcPackets[..n])
      {
        n := n + 1;
        if io.packetFails(n - 1) { return n, false; }
        file := file + [PacketBlock(tcPackets[n - 1])];
        assert PacketBlocks(tcPackets[..n]) == PacketBlocks(tcPackets[..n - 1]) + [PacketBlock(tcPackets[n - 1])];
      }
    }

    /** `savePcapng`, then the count and the reset of the batch by its caller. */
    method SavePcapng(ghost cause: Cause, io: Io) returns (n: nat, ok: bool)
      modifies this`file, this`hist, this`tcPackets, this`packetCount
      ensures View() == Save(old(View()), cause, io)
      ensures ok == SaveOk(io, |old(tcPackets)|)
    {
      n, ok := WriteBatch(io);
      if ok && n > 0 { ok := !io.flushFails; }
      if ok { packetCount := packetCount + n; }
      ghost var k := Written(io, 0, |tcPackets|);
      hist := hist.(causes := hist.causes + Repeat(cause, k),
                    settled := hist.settled + Settle(tcPackets, k),
                    saveFailed := hist.saveFailed || !SaveOk(io, |tcPackets|));
      tcPackets := [];
    }

    method OnTick(now: int, io: Io)
      modifies this
      ensures View() == TickStep(old(View()), now, io)
    {
      if counter == 0 || |tcPackets| == 0 { return; }
      if !firstDSBWritten && now < GRACE { return; }
      var n, ok := SavePcapng(AtTick(now), io);
      counter := 0;
    }

    method OnPacket()
      requires packetChan != []
      modifies this
      ensures View() == RecvPacketStep(old(View()))
    {
      tcPackets := tcPackets + [packetChan[0]];
      packetChan := packetChan[1..];
      counter := counter + 1;
    }

    method WriteBlock(line: seq<byte>, fails: bool, ghost cause: Cause)
      modifies this`file, this`hist
      ensures View() == WriteSecrets(old(View()), line, fails, cause)
    {
      if fails {
        hist := hist.(settledKeys := hist.settledKeys + [Settled(line, false)], secretsFailed := true);
      } else {
        file := file + [Secrets(line)];
        hist := hist.(causes := hist.causes + [cause], settledKeys := hist.settledKeys + [Settled(line, true)]);
      }
    }

    method OnKeylog(io: Io)
      requires keylogChan != []
      modifies this
      ensures View() == RecvKeylogStep(old(View()), io)
    {
      var line := keylogChan[0];
      keylogChan := keylogChan[1..];
      WriteBlock(line, io.secretsFail(0), AfterSecrets);
      firstDSBWritten := true;
      if |tcPackets| > 0 {
        var n, ok := SavePcapng(AfterSecrets, io);
        counter := 0;
      }
    }

    method DrainPackets()
      modifies this`tcPackets, this`packetChan
      ensures tcPackets == old(tcPackets) + old(packetChan) && packetChan == []
    {
      while packetChan != []
        invariant tcPackets + packetChan == old(tcPackets) + old(packetChan)
        decreases |packetChan|
      {
        tcPackets := tcPackets + [packetChan[0]];
        packetChan := packetChan[1..];
      }
    }

    method DrainKeylogs(io: Io, ghost cause: Cause)
      modifies this`file, this`hist, this`keylogChan
      ensures View() == WriteAllSecrets(old(View()), old(keylogChan), io, cause).(keylogChan := [])
    {
      hide WriteAllSecrets, WriteSecrets;
      var lines, k := keylogChan, 0;
      ghost var v, w := View(), View();
      WriteAllNone(v, io, cause);
      while k < |lines|
        invariant k <= |lines| && keylogChan == lines[k..]
        invariant w == WriteAllSecrets(v, lines[..k], io, cause) && file == w.file && hist == w.hist
      {
        WriteAllNext(v, lines, k, io, cause);
        keylogChan := keylogChan[1..];
        SecretsOfSame(w, View(), lines[k], io.secretsFail(k), cause);
        WriteBlock(lines[k], io.secretsFail(k), cause);
        w := WriteSecrets(w, lines[k], io.secretsFail(k), cause);
        k := k + 1;
      }
      assert lines[..k] == lines;
      SecretsFrame(v, lines, io, cause);
    }

    /** The first two phases: packets are gathered, secrets written. */
    method DrainChannels(io: Io, ghost cause: Cause)
      modifies this
      ensures View() == WriteAllSecrets(old(View()).(tcPackets := old(tcPackets) + old(packetChan), packetChan := []),
                                        old(keylogChan), io, cause).(keylogChan := [])
    {
      hide WriteAllSecrets;
      DrainPackets();
      assert View() == old(View()).(tcPackets := old(tcPackets) + old(packetChan), packetChan := []);
      DrainKeylogs(io, cause);
    }

    method DrainOnShutdown(io: Io)
      modifies this
      ensures View() == DrainStep(old(View()), io)
    {
      hide WriteAllSecrets, Save, SaveOk;
      ghost var queued := |keylogChan|;
      DrainChannels(io, AtShutdown(queued));
      if |tcPackets| > 0 {
        var n, ok := SavePcapng(AtShutdown(queued), io);
      }
      serving := false;
    }
  }

  /** A secrets block depends on the file and the history only, and changes nothing else. */
  lemma SecretsOfSame(w: Writer, v: Writer, line: seq<byte>, fails: bool, cause: Cause)
    requires w.file == v.file && w.hist == v.hist
    ensures WriteSecrets(w, line, fails, cause).file == WriteSecrets(v, line, fails, cause).file
    ensures WriteSecrets(w, line, fails, cause).hist == WriteSecrets(v, line, fails, cause).hist
  {
  }

  lemma WriteAllNone(w: Writer, io: Io, cause: Cause)
    ensures WriteAllSecrets(w, [], io, cause) == w
  {
  }

  lemma WriteAllNext(w: Writer, lines: seq<seq<byte>>, k: nat, io: Io, cause: Cause)
    requires k < |lines|
    ensures lines[..0] == []
    ensures WriteAllSecrets(w, lines[..k + 1], io, cause) ==
            WriteSecrets(WriteAllSecrets(w, lines[..k], io, cause), lines[k], io.secretsFail(k), cause)
  {
    assert lines[..k + 1][..k] == lines[..k];
  }

  lemma {:induction false} SecretsFrame(w: Writer, lines: seq<seq<byte>>, io: Io, cause: Cause)
    ensures var w' := WriteAllSecrets(w, lines, io, cause); w' == w.(file := w'.file, hist := w'.hist)
  {
    if lines != [] { SecretsFrame(w, lines[..|lines| - 1], io, cause); }
  }
}

/**
  Flow-to-process attribution (kern/tc.h): sendmsg probes record which process owns a flow in
  an LRU map, and the traffic-control classifier looks packets up in it, in either direction.

  BPF helpers are modelled by their effects: the map may lose any entry at any time, pulling
  packet data may fail or give any linear length, and kernel reads of a socket succeed.  The
  header sizes are those of the CO-RE build.
 */
module TcCapture {
  import opened Basics

  const ETH_HDR: nat := 14
  const IPV4_HDR: nat := 20
  const IPV6_HDR: nat := 40
  const TCP_HDR: nat := 20
  const ETH_P_IP: nat := 0x0800
  const ETH_P_IPV6: nat := 0x86DD
  const IPPROTO_ICMP: nat := 1
  const IPPROTO_TCP: nat := 6
  const IPPROTO_UDP: nat := 17
  const IPPROTO_ICMPV6: nat := 58
  const AF_INET: nat := 2
  const AF_INET6: nat := 10

  datatype Ip6 = Ip6(w0: nat, w1: nat, w2: nat, w3: nat)
  const NoIp6: Ip6 := Ip6(0, 0, 0, 0)

  /** `struct net_id_t`. */
  datatype NetId = NetId(protocol: nat, srcPort: nat, srcIp4: nat, dstPort: nat, dstIp4: nat, srcIp6: Ip6, dstIp6: Ip6)

  const ZeroId: NetId := NetId(0, 0, 0, 0, 0, NoIp6, NoIp6)

  /** `struct net_ctx_t`. */
  datatype NetCtx = NetCtx(pid: nat, uid: nat, cgroupId: nat, comm: string)

  datatype SkbEvent = SkbEvent(pid: nat, comm: string, ts: nat, len: nat, ifindex: nat)

  /** The constants rewritten at load time. */
  datatype Target = Target(less52: bool, pid: nat, uid: nat, cgroupId: nat)

  /** The fields of `struct sock` that a sendmsg probe reads; ports in host order. */
  datatype SockView = SockView(family: nat, lport: nat, dport: nat, saddr4: nat, daddr4: nat, saddr6: Ip6, daddr6: Ip6)

  /** A packet: its header fields, its linear length, and what the two calls of
      `bpf_skb_pull_data` would leave (None for an error). */
  datatype Frame = Frame(
    linear: nat, etherType: nat, l4: nat,
    src4: nat, dst4: nat, src6: Ip6, dst6: Ip6, sport: nat, dport: nat,
    pull1: Option<nat>, pull2: Option<nat>, pcapAccepts: bool,
    ts: nat, len: nat, ifindex: nat)

  // ---------------------------------------------------------------- specification

  /** `filter_rejects_base`. */
  predicate RejectsBase(t: Target, pid: nat, uid: nat) {
    !t.less52 && ((t.pid != 0 && t.pid != pid) || (t.uid != 0 && t.uid != uid))
  }

  /** The process passes the pid, uid and cgroup filters. */
  predicate Passes(t: Target, c: NetCtx) {
    !RejectsBase(t, c.pid, c.uid) && (t.cgroupId == 0 || c.cgroupId == t.cgroupId)
  }

  function Swap(k: NetId): NetId {
    k.(srcPort := k.dstPort, dstPort := k.srcPort, srcIp4 := k.dstIp4, dstIp4 := k.srcIp4,
       srcIp6 := k.dstIp6, dstIp6 := k.srcIp6)
  }

  function SockKey(s: SockView, protocol: nat): NetId {
    if s.family == AF_INET6 then NetId(protocol, s.lport, 0, s.dport, 0, s.saddr6, s.daddr6)
    else if s.family == AF_INET then NetId(protocol, s.lport, s.saddr4, s.dport, s.daddr4, NoIp6, NoIp6)
    else ZeroId
  }

  /** `skb_revalidate_data`: the linear length afterwards, or failure. */
  function Revalidate(linear: nat, offset: nat, pull: Option<nat>): Option<nat> {
    if offset <= linear then Some(linear)
    else if pull.Some? && offset <= pull.value then pull else None
  }

  /** What the packet is classified by. */
  datatype Parsed = Dropped | NoFlow | Flow(key: NetId)

  function Parse(t: Target, f: Frame): Parsed {
    if f.linear < ETH_HDR + IPV4_HDR then Dropped
    else if !t.less52 && !f.pcapAccepts then Dropped
    else if f.etherType == ETH_P_IPV6 then
      var off := ETH_HDR + IPV6_HDR;
      var l1 := Revalidate(f.linear, off, f.pull1);
      if l1.None? || f.l4 !in {IPPROTO_TCP, IPPROTO_UDP, IPPROTO_ICMPV6} then Dropped
      else if Revalidate(l1.value, off + TCP_HDR, f.pull2).None? then Dropped
      else Flow(NetId(f.l4, f.sport, 0, f.dport, 0, f.src6, f.dst6))
    else if f.etherType == ETH_P_IP then
      var off := ETH_HDR + IPV4_HDR;
      var l1 := Revalidate(f.linear, off, f.pull1);
      if l1.None? || f.l4 !in {IPPROTO_TCP, IPPROTO_UDP, IPPROTO_ICMP} then Dropped
      else if Revalidate(l1.value, off + TCP_HDR, f.pull2).None? then Dropped
      else Flow(NetId(f.l4, f.sport, f.src4, f.dport, f.dst4, NoIp6, NoIp6))
    else NoFlow
  }

  /** The recorded owner of a flow: the direct orientation wins. */
  function Owner(m: map<NetId, NetCtx>, k: NetId): Option<NetCtx> {
    if k in m then Some(m[k]) else if Swap(k) in m then Some(m[Swap(k)]) else None
  }

  function OwnerOf(m: map<NetId, NetCtx>, p: Parsed): Option<NetCtx> {
    if p.Flow? then Owner(m, p.key) else None
  }

  function Captured(t: Target, m: map<NetId, NetCtx>, f: Frame): Option<SkbEvent> {
    var p := Parse(t, f);
    var o := OwnerOf(m, p);
    if p.Dropped? || (o.Some? && !Passes(t, o.value)) then None
    else if o.Some? then Some(SkbEvent(o.value.pid, o.value.comm, f.ts, f.len, f.ifindex))
    else Some(SkbEvent(0, "", f.ts, f.len, f.ifindex))
  }

  // ---------------------------------------------------------------- the probes in the source's form

  class TcProbe {
    const target: Target
    var networkMap: map<NetId, NetCtx>

    constructor (target: Target)
      ensures this.target == target && networkMap == map[]
    {
      this.target := target;
      networkMap := map[];
    }

    /** `trace_sendmsg`; a null socket records nothing. */
    method TraceSendmsg(sk: Option<SockView>, protocol: nat, ctx: NetCtx)
      modifies this
      ensures networkMap == if sk.None? then old(networkMap) else old(networkMap)[SockKey(sk.value, protocol) := ctx]
    {
      if sk.None? { return; }
      var s := sk.value;
      var connId := ZeroId;
      if s.family == AF_INET6 {
        connId := connId.(protocol := protocol);
        connId := connId.(srcPort := s.lport, dstPort := s.dport);
        connId := connId.(srcIp6 := s.saddr6, dstIp6 := s.daddr6);
      } else if s.family == AF_INET {
        connId := connId.(protocol := protocol);
        connId := connId.(srcPort := s.lport, srcIp4 := s.saddr4);
        connId := connId.(dstPort := s.dport, dstIp4 := s.daddr4);
      }
      networkMap := networkMap[connId := ctx];
    }

    /** `capture_packets`: the key is built, looked up, exchanged in place and looked up again. */
    method CapturePackets(f: Frame) returns (out: Option<SkbEvent>)
      ensures out == Captured(target, networkMap, f)
    {
      var linear := f.linear;
      if ETH_HDR + IPV4_HDR > linear { return None; }
      if !target.less52 {
        if !f.pcapAccepts { return None; }
      }
      var connId := ZeroId;
      var netCtx: Option<NetCtx> := None;
      if f.etherType == ETH_P_IPV6 {
        var l4Off := ETH_HDR + IPV6_HDR;
        var r := Revalidate(linear, l4Off, f.pull1);
        if r.None? { return None; }
        linear := r.value;
        if f.l4 != IPPROTO_TCP && f.l4 != IPPROTO_UDP && f.l4 != IPPROTO_ICMPV6 { return None; }
        connId := connId.(protocol := f.l4, srcIp6 := f.src6, dstIp6 := f.dst6);
        r := Revalidate(linear, l4Off + TCP_HDR, f.pull2);
        if r.None? { return None; }
        connId := connId.(srcPort := f.sport, dstPort := f.dport);
        netCtx := Lookup(connId);
        if netCtx.None? {
          var tmpIp := connId.srcIp6;
          connId := connId.(srcIp6 := connId.dstIp6);
          connId := connId.(dstIp6 := tmpIp);
          var tmpPort := connId.srcPort;
          connId := connId.(srcPort := connId.dstPort);
          connId := connId.(dstPort := tmpPort);
          netCtx := Lookup(connId);
        }
      } else if f.etherType == ETH_P_IP {
        var l4Off := ETH_HDR + IPV4_HDR;
        var r := Revalidate(linear, l4Off, f.pull1);
        if r.None? { return None; }
        linear := r.value;
        if f.l4 != IPPROTO_TCP && f.l4 != IPPROTO_UDP && f.l4 != IPPROTO_ICMP { return None; }
        connId := connId.(protocol := f.l4, srcIp4 := f.src4, dstIp4 := f.dst4);
        r := Revalidate(linear, l4Off + TCP_HDR, f.pull2);
        if r.None? { return None; }
        connId := connId.(srcPort := f.sport, dstPort := f.dport);
        netCtx := Lookup(connId);
        if netCtx.None? {
          var tmpIp := connId.srcIp4;
          connId := connId.(srcIp4 := connId.dstIp4);
          connId := connId.(dstIp4 := tmpIp);
          var tmpPort := connId.srcPort;
          connId := connId.(srcPort := connId.dstPort);
          connId := connId.(dstPort := tmpPort);
          netCtx := Lookup(connId);
        }
      }
      var event := SkbEvent(0, "", 0, 0, 0);
      if netCtx.Some? {
        if RejectsBase(target, netCtx.value.pid, netCtx.value.uid) { return None; }
        if target.cgroupId != 0 && netCtx.value.cgroupId != target.cgroupId { return None; }
        event := event.(pid := netCtx.value.pid, comm := netCtx.value.comm);
      }
      event := event.(ts := f.ts, len := f.len, ifindex := f.ifindex);
      return Some(event);
    }

    function Lookup(k: NetId): Option<NetCtx> reads this {
      if k in networkMap then Some(networkMap[k]) else None
    }
  }

  // ---------------------------------------------------------------- runs

  datatype Step = Send(sk: Option<SockView>, protocol: nat, ctx: NetCtx) | Evict(k: NetId)

  function Exec(steps: seq<Step>): map<NetId, NetCtx> {
    if steps == [] then map[] else
      var m := Exec(steps[..|steps| - 1]);
      match steps[|steps| - 1]
      case Send(sk, protocol, ctx) => if sk.None? then m else m[SockKey(sk.value, protocol) := ctx]
      case Evict(k) => m - {k}
  }

  /** The process of the latest sendmsg recorded for a tuple, eviction ignored. */
  function Latest(steps: seq<Step>, k: NetId): Option<NetCtx> {
    if steps == [] then None else
      var last := steps[|steps| - 1];
      if last.Send? && last.sk.Some? && SockKey(last.sk.value, last.protocol) == k then Some(last.ctx)
      else Latest(steps[..|steps| - 1], k)
  }

  lemma {:induction false} RecordedIsLatest(steps: seq<Step>, k: NetId)
    requires k in Exec(steps)
    ensures Latest(steps, k) == Some(Exec(steps)[k])
  {
    var last := steps[|steps| - 1];
    if !(last.Send? && last.sk.Some? && SockKey(last.sk.value, last.protocol) == k) {
      RecordedIsLatest(steps[..|steps| - 1], k);
    }
  }

  /** Over any run of sendmsg and eviction: a nonzero pid on a packet event is that of the
      latest sendmsg for the packet's tuple, or, only if that tuple is not recorded, for its
      reverse; and the process passes the filters. */
  lemma AttributionIsLatestSender(t: Target, steps: seq<Step>, f: Frame)
    ensures var out := Captured(t, Exec(steps), f);
      out.Some? && out.value.pid != 0 ==>
        && Parse(t, f).Flow?
        && var k := Parse(t, f).key;
           var from := if k in Exec(steps) then Latest(steps, k) else Latest(steps, Swap(k));
           from.Some? && from.value.pid == out.value.pid && from.value.comm == out.value.comm && Passes(t, from.value)
  {
    var p := Parse(t, f);
    if p.Flow? {
      if p.key in Exec(steps) { RecordedIsLatest(steps, p.key); }
      else if Swap(p.key) in Exec(steps) { RecordedIsLatest(steps, Swap(p.key)); }
    }
  }

  /** The step records a sender under the tuple. */
  predicate Records(step: Step, k: NetId) { step.Send? && step.sk.Some? && SockKey(step.sk.value, step.protocol) == k }

  /** Send `i` records the tuple, and nothing has overwritten or evicted it since. */
  ghost predicate Current(steps: seq<Step>, i: nat, k: NetId) {
    && i < |steps| && Records(steps[i], k)
    && forall j | i < j < |steps| :: !Records(steps[j], k) && steps[j] != Evict(k)
  }

  lemma {:induction false} CurrentIsStored(steps: seq<Step>, i: nat, k: NetId)
    requires Current(steps, i, k)
    ensures k in Exec(steps) && Exec(steps)[k] == steps[i].ctx
  {
    var n := |steps| - 1;
    if i < n {
      assert Current(steps[..n], i, k);
      CurrentIsStored(steps[..n], i, k);
    }
  }

  lemma {:induction false} StoredIsCurrent(steps: seq<Step>, k: NetId)
    requires k in Exec(steps)
    ensures exists i: nat :: Current(steps, i, k)
  {
    var n := |steps| - 1;
    if Records(steps[n], k) {
      assert Current(steps, n, k);
    } else {
      StoredIsCurrent(steps[..n], k);
      var i: nat :| Current(steps[..n], i, k);
      assert Current(steps, i, k) by {
        forall j | i < j < |steps| ensures !Records(steps[j], k) && steps[j] != Evict(k) {
          if j < n { assert steps[j] == steps[..n][j]; }
        }
      }
    }
  }

  /** The verdict on a packet over any run: the latest sender on its own tuple decides if it is
      still recorded; otherwise the one on the reverse tuple; otherwise the packet is emitted
      without an owner.  So a filtered-out process stays silent in both directions for as long
      as its own record is the deciding one. */
  lemma VerdictFollowsSender(t: Target, steps: seq<Step>, f: Frame, i: nat)
    requires Parse(t, f).Flow? && i < |steps| && steps[i].Send?
    requires var k := Parse(t, f).key;
      || Current(steps, i, k)
      || (Current(steps, i, Swap(k)) && !exists j: nat :: Current(steps, j, k))
    ensures Captured(t, Exec(steps), f) ==
      if Passes(t, steps[i].ctx) then Some(SkbEvent(steps[i].ctx.pid, steps[i].ctx.comm, f.ts, f.len, f.ifindex)) else None
  {
    var k := Parse(t, f).key;
    if Current(steps, i, k) {
      CurrentIsStored(steps, i, k);
    } else {
      CurrentIsStored(steps, i, Swap(k));
      if k in Exec(steps) { StoredIsCurrent(steps, k); }
    }
  }

  /** With no current record in either orientation the packet is emitted without an owner. */
  lemma UnrecordedIsEmitted(t: Target, steps: seq<Step>, f: Frame)
    requires Parse(t, f).Flow?
    requires forall j: nat :: !Current(steps, j, Parse(t, f).key) && !Current(steps, j, Swap(Parse(t, f).key))
    ensures Captured(t, Exec(steps), f) == Some(SkbEvent(0, "", f.ts, f.len, f.ifindex))
  {
    var k := Parse(t, f).key;
    if k in Exec(steps) { StoredIsCurrent(steps, k); }
    if Swap(k) in Exec(steps) { StoredIsCurrent(steps, Swap(k)); }
  }

  /** Frames of other protocols are emitted without an owner. */
  lemma OtherFramesAreEmitted(t: Target, m: map<NetId, NetCtx>, f: Frame)
    requires f.etherType != 0x0800 && f.etherType != 0x86DD && f.linear >= 34 && (t.less52 || f.pcapAccepts)
    ensures Captured(t, m, f) == Some(SkbEvent(0, "", f.ts, f.len, f.ifindex))
  {
  }

  // ---------------------------------------------------------------- sockets and their packets

  /** The packet belongs to the socket's flow as the socket sends it. */
  predicate SentBy(s: SockView, protocol: nat, f: Frame) {
    && f.l4 == protocol && f.sport == s.lport && f.dport == s.dport
    && if s.family == 2 then f.etherType == 0x0800 && f.src4 == s.saddr4 && f.dst4 == s.daddr4
       else s.family == 10 && f.etherType == 0x86DD && f.src6 == s.saddr6 && f.dst6 == s.daddr6
  }

  /** The packet belongs to the socket's flow as the socket receives it. */
  predicate ReceivedBy(s: SockView, protocol: nat, f: Frame) {
    && f.l4 == protocol && f.sport == s.dport && f.dport == s.lport
    && if s.family == 2 then f.etherType == 0x0800 && f.src4 == s.daddr4 && f.dst4 == s.saddr4
       else s.family == 10 && f.etherType == 0x86DD && f.src6 == s.daddr6 && f.dst6 == s.saddr6
  }

  predicate Gives(pull: Option<nat>, length: nat) { pull.Some? && pull.value >= length }

  /** The headers up to the ports are linear, at first or after the pulls that are asked for. */
  predicate HeadersThere(f: Frame) {
    if f.etherType == 0x86DD
    then || f.linear >= 74
         || (f.linear >= 54 && Gives(f.pull2, 74))
         || (34 <= f.linear < 54 && Gives(f.pull1, 54) && (Gives(f.pull1, 74) || Gives(f.pull2, 74)))
    else f.linear >= 54 || (f.linear >= 34 && Gives(f.pull2, 54))
  }

  /** A TCP or UDP packet that the packet filter takes and whose headers are there. */
  predicate WellFormed(t: Target, f: Frame) {
    (f.l4 == 6 || f.l4 == 17) && HeadersThere(f) && (t.less52 || f.pcapAccepts)
  }

  /** The filters of the command line: kernels before 5.2 have no pid and uid filter. */
  predicate Wanted(t: Target, c: NetCtx) {
    && (t.less52 || ((t.pid == 0 || t.pid == c.pid) && (t.uid == 0 || t.uid == c.uid)))
    && (t.cgroupId == 0 || t.cgroupId == c.cgroupId)
  }

  /** Send `i` is the latest on a socket of this flow, and its record has not been evicted: no
      later step sends on the same addresses, ports and protocol. */
  ghost predicate LatestOn(steps: seq<Step>, i: nat, s: SockView, protocol: nat) {
    && i < |steps| && steps[i].Send? && steps[i].sk == Some(s) && steps[i].protocol == protocol
    && forall j | i < j < |steps| ::
         && (steps[j].Send? && steps[j].sk.Some? ==> !SameFlow(s, protocol, steps[j].sk.value, steps[j].protocol))
         && (steps[j].Evict? ==> steps[j].k != FlowOf(s, protocol))
  }

  /** The tuple of a socket, written out. */
  function FlowOf(s: SockView, protocol: nat): NetId {
    if s.family == 2 then NetId(protocol, s.lport, s.saddr4, s.dport, s.daddr4, NoIp6, NoIp6)
    else NetId(protocol, s.lport, 0, s.dport, 0, s.saddr6, s.daddr6)
  }

  predicate SameFlow(a: SockView, p: nat, b: SockView, q: nat) {
    (b.family == 2 || b.family == 10) && FlowOf(a, p) == FlowOf(b, q)
  }

  /** The other end of the flow, as a local socket would show it. */
  function Mirror(s: SockView): SockView {
    s.(lport := s.dport, dport := s.lport, saddr4 := s.daddr4, daddr4 := s.saddr4, saddr6 := s.daddr6, daddr6 := s.saddr6)
  }

  /** Whatever was sent on this flow has been evicted since. */
  ghost predicate NoneFrom(steps: seq<Step>, s: SockView, protocol: nat) {
    forall j | 0 <= j < |steps| && steps[j].Send? && steps[j].sk.Some? ::
      SameFlow(s, protocol, steps[j].sk.value, steps[j].protocol) ==>
      exists k :: j < k < |steps| && steps[k] == Evict(FlowOf(s, protocol))
  }

  lemma KeyOfFlow(s: SockView, protocol: nat)
    requires s.family == 2 || s.family == 10
    ensures SockKey(s, protocol) == FlowOf(s, protocol)
  {
  }

  lemma OtherFamilyKey(s: SockView, protocol: nat)
    requires s.family != 2 && s.family != 10
    ensures SockKey(s, protocol) == NetId(0, 0, 0, 0, 0, NoIp6, NoIp6)
  {
  }

  lemma PacketKey(t: Target, f: Frame, s: SockView, protocol: nat)
    requires (s.family == 2 || s.family == 10) && WellFormed(t, f)
    ensures SentBy(s, protocol, f) ==> Parse(t, f) == Flow(FlowOf(s, protocol))
    ensures ReceivedBy(s, protocol, f) ==> Parse(t, f) == Flow(FlowOf(Mirror(s), protocol))
    ensures Swap(FlowOf(s, protocol)) == FlowOf(Mirror(s), protocol)
    ensures Swap(FlowOf(Mirror(s), protocol)) == FlowOf(s, protocol)
  {
  }

  lemma LatestIsCurrent(steps: seq<Step>, i: nat, s: SockView, protocol: nat)
    requires (s.family == 2 || s.family == 10) && protocol != 0 && LatestOn(steps, i, s, protocol)
    ensures Current(steps, i, FlowOf(s, protocol))
  {
    KeyOfFlow(s, protocol);
    hide FlowOf, SockKey;
    forall j | i < j < |steps| ensures !Records(steps[j], FlowOf(s, protocol)) && steps[j] != Evict(FlowOf(s, protocol)) {
      KeyIsFlow(steps[j], s, protocol);
    }
  }

  lemma KeyIsFlow(step: Step, s: SockView, protocol: nat)
    requires (s.family == 2 || s.family == 10) && protocol != 0
    ensures Records(step, FlowOf(s, protocol)) <==>
      step.Send? && step.sk.Some? && SameFlow(s, protocol, step.sk.value, step.protocol)
  {
  }

  lemma NoneIsCurrent(steps: seq<Step>, s: SockView, protocol: nat)
    requires (s.family == 2 || s.family == 10) && protocol != 0 && NoneFrom(steps, s, protocol)
    ensures !exists j: nat :: Current(steps, j, FlowOf(s, protocol))
  {
    hide FlowOf, SockKey;
    forall j: nat ensures !Current(steps, j, FlowOf(s, protocol)) {
      if j < |steps| { KeyIsFlow(steps[j], s, protocol); }
    }
  }

  /** From the socket to the packet, for TCP and UDP over IPv4 and IPv6, over any run: a packet
      the socket sends is emitted under the name of the flow's latest sender if the filters want
      that process, and not at all otherwise; a packet the socket receives likewise, as long as
      nothing sent from its other end is on record. */
  lemma SocketOwnsItsPackets(t: Target, steps: seq<Step>, i: nat, s: SockView, protocol: nat, f: Frame)
    requires (s.family == 2 || s.family == 10) && LatestOn(steps, i, s, protocol) && WellFormed(t, f)
    requires SentBy(s, protocol, f) || (ReceivedBy(s, protocol, f) && NoneFrom(steps, Mirror(s), protocol))
    ensures Captured(t, Exec(steps), f) ==
      if Wanted(t, steps[i].ctx) then Some(SkbEvent(steps[i].ctx.pid, steps[i].ctx.comm, f.ts, f.len, f.ifindex)) else None
  {
    PacketKey(t, f, s, protocol);
    LatestIsCurrent(steps, i, s, protocol);
    if !SentBy(s, protocol, f) { NoneIsCurrent(steps, Mirror(s), protocol); }
    hide FlowOf, Exec, Parse, LatestOn, NoneFrom, SentBy, ReceivedBy, Captured, Current;
    VerdictFollowsSender(t, steps, f, i);
  }

  /** A packet is looked up exactly if it is TCP, UDP or ICMP over IP, the packet filter takes
      it, and its headers up to the ports can be read; its key then is its own tuple. */
  lemma LookedUpIff(t: Target, f: Frame)
    ensures Parse(t, f).Flow? <==>
      && (f.etherType == 0x0800 || f.etherType == 0x86DD)
      && (f.l4 == 6 || f.l4 == 17 || f.l4 == (if f.etherType == 0x86DD then 58 else 1))
      && HeadersThere(f)
      && (t.less52 || f.pcapAccepts)
    ensures Parse(t, f).Flow? ==>
      var k := Parse(t, f).key;
      && k.protocol == f.l4 && k.srcPort == f.sport && k.dstPort == f.dport
      && if f.etherType == 0x0800 then k.srcIp4 == f.src4 && k.dstIp4 == f.dst4 && k.srcIp6 == NoIp6 == k.dstIp6
         else k.srcIp6 == f.src6 && k.dstIp6 == f.dst6 && k.srcIp4 == 0 == k.dstIp4
    ensures Parse(t, f).NoFlow? <==>
      f.etherType != 0x0800 && f.etherType != 0x86DD && f.linear >= 34 && (t.less52 || f.pcapAccepts)
  {
  }

  // ---------------------------------------------------------------- direction

  /** The same packet seen in the other direction. */
  function Reverse(f: Frame): Frame {
    f.(src4 := f.dst4, dst4 := f.src4, src6 := f.dst6, dst6 := f.src6, sport := f.dport, dport := f.sport)
  }

  lemma ReverseSwaps(t: Target, f: Frame)
    ensures var p, q := Parse(t, f), Parse(t, Reverse(f));
      (p.Flow? <==> q.Flow?) && (p.Flow? ==> q.key == Swap(p.key)) && (p.Dropped? <==> q.Dropped?)
  {
  }

  /** The owner does not depend on the direction exactly when the two orientations are not
      both recorded with different processes. */
  lemma OwnerIgnoresDirectionIff(m: map<NetId, NetCtx>, k: NetId)
    ensures Owner(m, k) == Owner(m, Swap(k)) <==> (k in m && Swap(k) in m ==> m[k] == m[Swap(k)])
  {
    assert Swap(Swap(k)) == k;
  }

  /** The process a verdict names, and whether the packet is emitted. */
  function Verdict(e: Option<SkbEvent>): Option<(nat, string)> {
    if e.None? then None else Some((e.value.pid, e.value.comm))
  }

  /** Two packets of one flow in opposite directions that both reach the look-up get the same
      verdict, however the packet filter and the pulls treated them, unless the orientations
      are recorded with different processes. */
  lemma BothDirectionsAgree(t: Target, m: map<NetId, NetCtx>, f: Frame, g: Frame)
    requires Parse(t, f).Flow? && Parse(t, g) == Flow(Swap(Parse(t, f).key))
    requires var k := Parse(t, f).key; k in m && Swap(k) in m ==> m[k] == m[Swap(k)]
    ensures Verdict(Captured(t, m, f)) == Verdict(Captured(t, m, g))
  {
    OwnerIgnoresDirectionIff(m, Parse(t, f).key);
  }

  /** So the verdict on a packet and on its reverse agree when at most one orientation of the
      flow is recorded. */
  lemma VerdictIgnoresDirection(t: Target, m: map<NetId, NetCtx>, f: Frame)
    requires Parse(t, f).Flow? ==> !(Parse(t, f).key in m && Swap(Parse(t, f).key) in m)
    ensures Captured(t, m, f) == Captured(t, m, Reverse(f))
  {
    ReverseSwaps(t, f);
    if Parse(t, f).Flow? { OwnerIgnoresDirectionIff(m, Parse(t, f).key); }
  }

  /** The all-zero key recorded for other address families never decides about a packet. */
  lemma OtherFamiliesAreInvisible(t: Target, m: map<NetId, NetCtx>, s: SockView, protocol: nat, ctx: NetCtx, f: Frame)
    requires s.family != AF_INET && s.family != AF_INET6
    ensures Captured(t, m[SockKey(s, protocol) := ctx], f) == Captured(t, m, f)
  {
    var p := Parse(t, f);
    if p.Flow? { assert p.key.protocol != 0 && Swap(p.key).protocol != 0; }
  }
}

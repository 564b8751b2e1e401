/**
  The broadcast hub (pkg/ecaptureq/hub.go): one goroutine owns the set of clients, sends every
  broadcast to each of them without blocking, and evicts a client whose channel is full.

  The hub owns the closing of a client's channel.  Other goroutines also fill and empty the
  channel (pkg/ecaptureq/server.go:84-88, pkg/ecaptureq/client.go:132); here they only use up
  and free its capacity.
 */
module Hub {
  import opened Basics

  const SEND_CAP: nat := 256

  type Msg = seq<byte>

  /** A client's channel with the hub's history on it. */
  datatype Chan = Chan(
    used: nat,         // occupied slots
    closed: bool,
    sent: seq<Msg>,    // broadcasts the hub put into the channel
    since: nat,        // number of broadcasts processed before the registration
    until: nat)        // number of broadcasts completed before the removal; meaningful once closed

  datatype State = State(
    clients: set<nat>,
    chans: map<nat, Chan>,
    broadcasts: seq<Msg>,  // history
    panicked: bool)        // a channel was closed twice, or a send met a closed channel

  datatype Step =
    | Register(c: nat)
    | Unregister(c: nat)
    | Broadcast(m: Msg)
    | OtherSend(c: nat) | Consume(c: nat)

  const Start: State := State({}, map[], [], false)

  predicate Enabled(s: State, step: Step) {
    match step
    case OtherSend(c) => c in s.chans && !s.chans[c].closed && s.chans[c].used < SEND_CAP
    case Consume(c) => c in s.chans && s.chans[c].used > 0
    case _ => true
  }

  /** A client comes with a new channel; registering it again keeps the channel it has. */
  function RegisterStep(s: State, c: nat): State {
    s.(clients := s.clients + {c},
       chans := if c in s.chans then s.chans else s.chans[c := Chan(0, false, [], |s.broadcasts|, 0)])
  }

  function CloseChan(ch: Chan, until: nat): Chan { ch.(closed := true, until := until) }

  function UnregisterStep(s: State, c: nat): State {
    if c !in s.clients || c !in s.chans then s
    else s.(clients := s.clients - {c},
            chans := s.chans[c := CloseChan(s.chans[c], |s.broadcasts|)],
            panicked := s.panicked || s.chans[c].closed)
  }

  /** What a broadcast makes of one client's channel. */
  function Offered(s: State, c: nat, m: Msg): Chan
    requires c in s.chans
  {
    var ch := s.chans[c];
    if c !in s.clients || ch.closed then ch
    else if ch.used < SEND_CAP then ch.(used := ch.used + 1, sent := ch.sent + [m])
    else CloseChan(ch, |s.broadcasts|)
  }

  predicate Stays(s: State, c: nat) { c !in s.chans || s.chans[c].closed || s.chans[c].used < SEND_CAP }

  /** The whole range loop, in whatever order the map is traversed. */
  function BroadcastStep(s: State, m: Msg): State {
    State(
      set c | c in s.clients && Stays(s, c),
      map c | c in s.chans :: Offered(s, c, m),
      s.broadcasts + [m],
      s.panicked || exists c :: c in s.clients && c in s.chans && s.chans[c].closed)
  }

  function Apply(s: State, step: Step): State
    requires Enabled(s, step)
  {
    match step
    case Register(c) => RegisterStep(s, c)
    case Unregister(c) => UnregisterStep(s, c)
    case Broadcast(m) => BroadcastStep(s, m)
    case OtherSend(c) => s.(chans := s.chans[c := s.chans[c].(used := s.chans[c].used + 1)])
    case Consume(c) => s.(chans := s.chans[c := s.chans[c].(used := s.chans[c].used - 1)])
  }

  /** `Hub`: the branches of the select in `run`. */
  class Hub {
    var clients: set<nat>
    var chans: map<nat, Chan>
    var broadcasts: seq<Msg>
    ghost var panicked: bool

    ghost function View(): State reads this { State(clients, chans, broadcasts, panicked) }

    constructor ()
      ensures View() == Start
    {
      clients, chans, broadcasts, panicked := {}, map[], [], false;
    }

    method OnRegister(c: nat)
      modifies this
      ensures View() == RegisterStep(old(View()), c)
    {
      clients := clients + {c};
      if c !in chans { chans := chans[c := Chan(0, false, [], |broadcasts|, 0)]; }
    }

    method OnUnregister(c: nat)
      requires c in clients ==> c in chans
      modifies this
      ensures View() == UnregisterStep(old(View()), c)
    {
      if c in clients {
        clients := clients - {c};
        panicked := panicked || chans[c].closed;
        chans := chans[c := CloseChan(chans[c], |broadcasts|)];
      }
    }

    /** One turn of the range loop: a non-blocking send, or eviction. */
    method OfferTo(c: nat, m: Msg)
      requires c in clients && c in chans
      modifies this`clients, this`chans, this`panicked
      ensures chans == old(chans)[c := Offered(old(View()), c, m)]
      ensures clients == if Stays(old(View()), c) then old(clients) else old(clients) - {c}
      ensures panicked <==> old(panicked) || old(chans[c]).closed
    {
      var ch := chans[c];
      if ch.closed {
        panicked := true;
      } else if ch.used < SEND_CAP {
        chans := chans[c := ch.(used := ch.used + 1, sent := ch.sent + [m])];
      } else {
        chans := chans[c := CloseChan(ch, |broadcasts|)];
        clients := clients - {c};
      }
    }

    /** `for client := range h.clients`: any order of the clients, with eviction during the
        traversal, gives the same result. */
    method OnBroadcast(m: Msg)
      requires clients <= chans.Keys
      modifies this
      ensures View() == BroadcastStep(old(View()), m)
    {
      hide Offered, Stays, MetClosed, BroadcastStep;
      ghost var s0 := View();
      BeforeTheLoop(s0, m);
      var todo := clients;
      while todo != {}
        invariant todo <= clients <= s0.clients <= chans.Keys == s0.chans.Keys && broadcasts == s0.broadcasts
        invariant forall c | c in chans :: chans[c] == if c in todo then s0.chans[c] else Offered(s0, c, m)
        invariant forall c | c in s0.clients :: c in clients <==> c in todo || Stays(s0, c)
        invariant panicked <==> s0.panicked || MetClosed(s0, todo)
        decreases |todo|
      {
        var c :| c in todo;
        OfferIsLocal(s0, View(), c, m);
        MetOneMore(s0, todo, c);
        todo := todo - {c};
        OfferTo(c, m);
      }
      broadcasts := broadcasts + [m];
      AllOffered(s0, View(), m);
    }
  }

  /** Some client whose turn has come had a closed channel. */
  ghost predicate MetClosed(s: State, todo: set<nat>) {
    exists c :: c in s.clients && c !in todo && c in s.chans && s.chans[c].closed
  }

  lemma BeforeTheLoop(s: State, m: Msg)
    ensures !MetClosed(s, s.clients)
    ensures forall c | c in s.chans && c !in s.clients :: Offered(s, c, m) == s.chans[c]
  {
  }

  lemma OfferIsLocal(s: State, v: State, c: nat, m: Msg)
    requires c in s.chans && c in v.chans && s.chans[c] == v.chans[c]
    requires (c in s.clients <==> c in v.clients) && |s.broadcasts| == |v.broadcasts|
    ensures Offered(v, c, m) == Offered(s, c, m) && (Stays(v, c) <==> Stays(s, c))
  {
  }

  lemma AllOffered(s: State, v: State, m: Msg)
    requires s.clients <= s.chans.Keys == v.chans.Keys && v.clients <= s.clients
    requires v.broadcasts == s.broadcasts + [m]
    requires forall c | c in v.chans :: v.chans[c] == Offered(s, c, m)
    requires forall c | c in s.clients :: c in v.clients <==> Stays(s, c)
    requires v.panicked <==> s.panicked || MetClosed(s, {})
    ensures v == BroadcastStep(s, m)
  {
    assert v.clients == BroadcastStep(s, m).clients;
    assert v.chans == BroadcastStep(s, m).chans;
  }

  lemma MetOneMore(s: State, todo: set<nat>, c: nat)
    requires c in todo && c in s.clients && c in s.chans
    ensures MetClosed(s, todo - {c}) <==> MetClosed(s, todo) || s.chans[c].closed
  {
    if s.chans[c].closed { assert c !in todo - {c}; }
    if d :| d in s.clients && d !in todo && d in s.chans && s.chans[d].closed { assert d !in todo - {c}; }
  }

  // ---------------------------------------------------------------- the invariant

  /** Every client in the set has an open channel that has received every broadcast since its
      registration; every other channel is closed and received those up to its removal. */
  ghost predicate Inv(s: State) {
    && !s.panicked
    && (forall c | c in s.clients :: c in s.chans)
    && (forall c | c in s.chans :: ChanOk(s, c))
  }

  ghost predicate ChanOk(s: State, c: nat)
    requires c in s.chans
  {
    var ch := s.chans[c];
    && (ch.closed <==> c !in s.clients)
    && ch.since <= |s.broadcasts|
    && (!ch.closed ==> ch.sent == s.broadcasts[ch.since..])
    && (ch.closed ==> ch.since <= ch.until <= |s.broadcasts| && ch.sent == s.broadcasts[ch.since..ch.until])
  }

  lemma BroadcastOk(s: State, m: Msg)
    requires Inv(s)
    ensures Inv(BroadcastStep(s, m))
  {
    var s' := BroadcastStep(s, m);
    forall c | c in s'.chans ensures ChanOk(s', c) {
      var ch := s.chans[c];
      assert ChanOk(s, c);
      assert s'.broadcasts[ch.since..] == s.broadcasts[ch.since..] + [m];
      if ch.closed {
        assert s'.broadcasts[ch.since..ch.until] == s.broadcasts[ch.since..ch.until];
      } else {
        assert s'.broadcasts[ch.since..|s.broadcasts|] == s.broadcasts[ch.since..];
      }
    }
  }

  lemma SliceToEnd(ms: seq<Msg>, i: nat)
    requires i <= |ms|
    ensures ms[i..|ms|] == ms[i..]
  {
  }

  lemma StepKeepsInv(s: State, step: Step)
    requires Inv(s) && Enabled(s, step) && (step.Register? ==> step.c !in s.chans)
    ensures Inv(Apply(s, step))
  {
    match step
    case Broadcast(m) => BroadcastOk(s, m);
    case _ =>
      var s' := Apply(s, step);
      forall c | c in s'.chans ensures ChanOk(s', c) {
        if c in s.chans {
          assert ChanOk(s, c);
          SliceToEnd(s.broadcasts, s.chans[c].since);
        }
      }
  }

  // ---------------------------------------------------------------- whole runs

  function Exec(steps: seq<Step>): Option<State> {
    if steps == [] then Some(Start) else
      var s := Exec(steps[..|steps| - 1]);
      if s.Some? && Enabled(s.value, steps[|steps| - 1]) then Some(Apply(s.value, steps[|steps| - 1])) else None
  }

  /** As in the server, which registers each new client once. */
  ghost predicate RegisteredOnce(steps: seq<Step>) {
    forall i, j | 0 <= i < j < |steps| && steps[i].Register? && steps[j].Register? :: steps[i] != steps[j]
  }

  lemma {:induction false} ChansWereRegistered(steps: seq<Step>, c: nat)
    requires Exec(steps).Some? && c in Exec(steps).value.chans
    ensures exists i | 0 <= i < |steps| :: steps[i] == Register(c)
  {
    var n := |steps| - 1;
    var s := Exec(steps[..n]).value;
    if c in s.chans {
      ChansWereRegistered(steps[..n], c);
      var i :| 0 <= i < n && steps[..n][i] == Register(c);
      assert steps[i] == Register(c);
    } else {
      assert steps[n] == Register(c);
    }
  }

  lemma {:induction false} RunKeepsInv(steps: seq<Step>)
    requires Exec(steps).Some? && RegisteredOnce(steps)
    ensures Inv(Exec(steps).value)
  {
    if steps != [] {
      var n := |steps| - 1;
      RunKeepsInv(steps[..n]);
      var s, last := Exec(steps[..n]).value, steps[n];
      if last.Register? && last.c in s.chans {
        ChansWereRegistered(steps[..n], last.c);
      }
      hide Inv, Apply, Enabled, Exec;
      StepKeepsInv(s, last);
    }
  }

  /** Over every run in which each client registers once: the hub never closes a channel twice
      and never sends on a closed one, and what it put into a client's channel is a gap-free,
      duplicate-free run of the broadcasts from its registration to its removal, or to now. */
  lemma DeliveriesAreContiguous(steps: seq<Step>, c: nat)
    requires Exec(steps).Some? && RegisteredOnce(steps)
    ensures var s := Exec(steps).value;
      && !s.panicked
      && (c in s.chans ==> s.chans[c].since <= |s.broadcasts|)
      && (c in s.clients ==> c in s.chans && !s.chans[c].closed && s.chans[c].sent == s.broadcasts[s.chans[c].since..])
      && (c in s.chans && c !in s.clients ==>
           && s.chans[c].closed
           && s.chans[c].since <= s.chans[c].until <= |s.broadcasts|
           && s.chans[c].sent == s.broadcasts[s.chans[c].since..s.chans[c].until])
  {
    RunKeepsInv(steps);
    var s := Exec(steps).value;
    assert c in s.chans ==> ChanOk(s, c);
  }

  // ---------------------------------------------------------------- a client's life, from the steps

  /** The messages of the broadcasts. */
  function Broadcasts(steps: seq<Step>): seq<Msg> {
    if steps == [] then [] else
      var last := steps[|steps| - 1];
      Broadcasts(steps[..|steps| - 1]) + (if last.Broadcast? then [last.m] else [])
  }

  /** Step `j` takes client `c` out: it is removed, or a broadcast finds its 256 slots taken. */
  ghost predicate TakesOut(steps: seq<Step>, j: nat, c: nat) {
    && j < |steps|
    && (|| steps[j] == Unregister(c)
        || (steps[j].Broadcast? && Exec(steps[..j]).Some? && c in Exec(steps[..j]).value.chans &&
            Exec(steps[..j]).value.chans[c].used >= 256))
  }

  lemma TakesOutGrows(steps: seq<Step>, j: nat, c: nat)
    requires steps != [] && j < |steps| - 1
    ensures TakesOut(steps, j, c) <==> TakesOut(steps[..|steps| - 1], j, c)
  {
    assert steps[..|steps| - 1][..j] == steps[..j];
  }

  lemma BroadcastsLast(steps: seq<Step>, i: nat)
    requires steps != [] && i < |steps|
    ensures var n := |steps| - 1;
      Broadcasts(steps[i..]) == Broadcasts(steps[..n][i..]) + (if steps[n].Broadcast? then [steps[n].m] else [])
  {
    assert steps[i..][..|steps| - 1 - i] == steps[..|steps| - 1][i..];
  }

  lemma OnceBefore(steps: seq<Step>, c: nat)
    requires steps != [] && Exec(steps).Some? && RegisteredOnce(steps) && steps[|steps| - 1] == Register(c)
    ensures Exec(steps[..|steps| - 1]).Some? && c !in Exec(steps[..|steps| - 1]).value.chans
  {
    var n := |steps| - 1;
    ExecLast(steps);
    if c in Exec(steps[..n]).value.chans {
      ChansWereRegistered(steps[..n], c);
    }
  }

  /** The step as it bears on an open client: nothing, a message, or the end. */
  lemma OpenClientStep(s: State, step: Step, c: nat)
    requires Enabled(s, step) && c in s.clients && c in s.chans && !s.chans[c].closed
    requires step != Unregister(c) && (step.Broadcast? ==> s.chans[c].used < 256)
    ensures var s' := Apply(s, step);
      && c in s'.clients && c in s'.chans && !s'.chans[c].closed
      && s'.chans[c].sent == s.chans[c].sent + (if step.Broadcast? then [step.m] else [])
  {
    assert s.chans[c].sent + [] == s.chans[c].sent;
  }

  lemma LastClientStep(s: State, step: Step, c: nat)
    requires Enabled(s, step) && c in s.clients && c in s.chans && !s.chans[c].closed
    requires step == Unregister(c) || (step.Broadcast? && s.chans[c].used >= 256)
    ensures var s' := Apply(s, step);
      c !in s'.clients && c in s'.chans && s'.chans[c].closed && s'.chans[c].sent == s.chans[c].sent
  {
  }

  lemma GoneClientStep(s: State, step: Step, c: nat)
    requires Enabled(s, step) && c !in s.clients && c in s.chans && s.chans[c].closed && step != Register(c)
    ensures var s' := Apply(s, step);
      c !in s'.clients && c in s'.chans && s'.chans[c].closed && s'.chans[c].sent == s.chans[c].sent
  {
  }

  /** A client registered once and not taken out since is in the set, its channel is open, and
      the hub has put into it every broadcast since the registration, in order. */
  lemma {:induction false} RegisteredClientGetsAll(steps: seq<Step>, i: nat, c: nat)
    requires Exec(steps).Some? && RegisteredOnce(steps) && i < |steps| && steps[i] == Register(c)
    requires forall j | i < j < |steps| :: !TakesOut(steps, j, c)
    ensures var s := Exec(steps).value;
      && c in s.clients && c in s.chans && !s.chans[c].closed
      && s.chans[c].sent == Broadcasts(steps[i..])
  {
    var n := |steps| - 1;
    ExecLast(steps);
    BroadcastsLast(steps, i);
    if i == n {
      OnceBefore(steps, c);
      assert steps[..n][i..] == [];
    } else {
      forall j | i < j < n ensures !TakesOut(steps[..n], j, c) { TakesOutGrows(steps, j, c); }
      RegisteredClientGetsAll(steps[..n], i, c);
      assert !TakesOut(steps, n, c);
      hide Exec, Broadcasts, Apply, Enabled;
      OpenClientStep(Exec(steps[..n]).value, steps[n], c);
    }
  }

  /** From the step that takes it out, its channel is closed and holds exactly the broadcasts
      between the two. */
  lemma {:induction false} RemovedClientGetsNoMore(steps: seq<Step>, i: nat, j: nat, c: nat)
    requires Exec(steps).Some? && RegisteredOnce(steps) && i < j < |steps| && steps[i] == Register(c)
    requires TakesOut(steps, j, c) && forall k | i < k < j :: !TakesOut(steps, k, c)
    ensures var s := Exec(steps).value;
      && c !in s.clients && c in s.chans && s.chans[c].closed
      && s.chans[c].sent == Broadcasts(steps[i..j])
  {
    var n := |steps| - 1;
    ExecLast(steps);
    if j == n {
      forall k | i < k < n ensures !TakesOut(steps[..n], k, c) { TakesOutGrows(steps, k, c); }
      RegisteredClientGetsAll(steps[..n], i, c);
      assert steps[..n][i..] == steps[i..j];
      LastClientStep(Exec(steps[..n]).value, steps[n], c);
    } else {
      forall k | i < k <= j ensures TakesOut(steps[..n], k, c) <==> TakesOut(steps, k, c) { TakesOutGrows(steps, k, c); }
      RemovedClientGetsNoMore(steps[..n], i, j, c);
      assert steps[..n][i..j] == steps[i..j];
      assert steps[n] != Register(c);
      GoneClientStep(Exec(steps[..n]).value, steps[n], c);
    }
  }

  function CountOf(steps: seq<Step>, x: Step): nat {
    if steps == [] then 0 else CountOf(steps[..|steps| - 1], x) + (if steps[|steps| - 1] == x then 1 else 0)
  }

  lemma SlotsStep(s: State, step: Step, c: nat)
    requires Enabled(s, step) && s.clients <= s.chans.Keys && (step == Register(c) ==> c !in s.chans)
    ensures var s' := Apply(s, step);
      && (c !in s'.chans ==> c !in s.chans && step != OtherSend(c) && step != Consume(c))
      && (c in s'.chans && c !in s.chans ==> s'.chans[c].used == 0 && s'.chans[c].sent == [] && step == Register(c))
      && (c in s'.chans && c in s.chans ==>
            s'.chans[c].used + |s.chans[c].sent| + (if step == Consume(c) then 1 else 0) ==
            s.chans[c].used + |s'.chans[c].sent| + (if step == OtherSend(c) then 1 else 0))
  {
  }

  /** The slots taken are the hub's messages and those of others, less what was consumed. */
  lemma {:induction false} SlotsAreCounted(steps: seq<Step>, c: nat)
    requires Exec(steps).Some? && RegisteredOnce(steps)
    ensures var s := Exec(steps).value;
      if c in s.chans
      then s.chans[c].used + CountOf(steps, Consume(c)) == |s.chans[c].sent| + CountOf(steps, OtherSend(c))
      else CountOf(steps, Consume(c)) == 0 && CountOf(steps, OtherSend(c)) == 0
  {
    if steps != [] {
      var n := |steps| - 1;
      ExecLast(steps);
      ClientsHaveChans(steps[..n]);
      SlotsAreCounted(steps[..n], c);
      if steps[n] == Register(c) { OnceBefore(steps, c); }
      SlotsStep(Exec(steps[..n]).value, steps[n], c);
    }
  }

  // ---------------------------------------------------------------- exactly when the hub panics

  /** Step `i` registers client `c` although the hub has already closed its channel. */
  ghost predicate Revives(steps: seq<Step>, i: nat, c: nat)
    requires Exec(steps).Some?
  {
    && i < |steps| && steps[i] == Register(c)
    && Exec(steps[..i]).Some? && ClosedFor(Exec(steps[..i]).value, c)
  }

  ghost predicate Revived(steps: seq<Step>, c: nat)
    requires Exec(steps).Some?
  {
    exists i: nat :: Revives(steps, i, c)
  }

  predicate ClosedFor(s: State, c: nat) { c in s.chans && s.chans[c].closed }

  /** A step that meets the channel of a client in the set: a broadcast, or its removal. */
  predicate Meets(step: Step, c: nat) { step.Broadcast? || step == Unregister(c) }

  lemma ExecLast(steps: seq<Step>)
    requires steps != [] && Exec(steps).Some?
    ensures var n := |steps| - 1;
      Exec(steps[..n]).Some? && Enabled(Exec(steps[..n]).value, steps[n]) &&
      Exec(steps).value == Apply(Exec(steps[..n]).value, steps[n])
  {
  }

  lemma {:induction false} ClientsHaveChans(steps: seq<Step>)
    requires Exec(steps).Some?
    ensures Exec(steps).value.clients <= Exec(steps).value.chans.Keys
  {
    if steps != [] {
      ExecLast(steps);
      ClientsHaveChans(steps[..|steps| - 1]);
    }
  }

  lemma RevivesGrows(steps: seq<Step>, i: nat, c: nat)
    requires steps != [] && Exec(steps).Some? && i < |steps| - 1
    ensures Exec(steps[..|steps| - 1]).Some?
    ensures Revives(steps, i, c) <==> Revives(steps[..|steps| - 1], i, c)
  {
    ExecLast(steps);
    assert steps[..|steps| - 1][..i] == steps[..i];
  }

  lemma RegisterLast(steps: seq<Step>, c: nat)
    requires steps != [] && Exec(steps).Some? && steps[|steps| - 1] == Register(c)
    ensures Exec(steps[..|steps| - 1]).Some?
    ensures Revives(steps, |steps| - 1, c) <==> ClosedFor(Exec(steps[..|steps| - 1]).value, c)
  {
    ExecLast(steps);
  }

  /** As long as nothing has gone wrong, a client in the set has a closed channel exactly if it
      was registered with one. */
  lemma {:induction false} ClosedClientIff(steps: seq<Step>, c: nat)
    requires Exec(steps).Some? && !Exec(steps).value.panicked
    ensures c in Exec(steps).value.clients && ClosedFor(Exec(steps).value, c) <==> Revived(steps, c)
  {
    if steps != [] {
      var n := |steps| - 1;
      ExecLast(steps);
      ClientsHaveChans(steps[..n]);
      ClosedClientIff(steps[..n], c);
      RevivesSplit(steps, c);
      var s, last := Exec(steps[..n]).value, steps[n];
      hide Exec, Revived;
      ClosedClientStep(s, last, c);
    }
  }

  lemma RevivesSplit(steps: seq<Step>, c: nat)
    requires steps != [] && Exec(steps).Some?
    ensures Exec(steps[..|steps| - 1]).Some?
    ensures Revived(steps, c) <==>
      || Revived(steps[..|steps| - 1], c)
      || (steps[|steps| - 1] == Register(c) && ClosedFor(Exec(steps[..|steps| - 1]).value, c))
  {
    var n := |steps| - 1;
    ExecLast(steps);
    hide Exec, Apply, Enabled, ClosedFor;
    if i: nat :| Revives(steps, i, c) {
      assert i < |steps|;
      if i < n { RevivesGrows(steps, i, c); } else { RegisterLast(steps, c); }
    }
    if i: nat :| Revives(steps[..n], i, c) {
      assert i < n;
      RevivesGrows(steps, i, c);
    }
    if steps[n] == Register(c) { RegisterLast(steps, c); }
  }

  lemma ClosedClientStep(s: State, step: Step, c: nat)
    requires Enabled(s, step) && s.clients <= s.chans.Keys && !Apply(s, step).panicked
    ensures !s.panicked
    ensures var s' := Apply(s, step);
      c in s'.clients && ClosedFor(s', c) <==>
      (c in s.clients && ClosedFor(s, c)) || (step == Register(c) && ClosedFor(s, c))
  {
  }

  lemma PanicStep(s: State, step: Step)
    requires Enabled(s, step) && s.clients <= s.chans.Keys
    ensures Apply(s, step).panicked <==> s.panicked || exists c :: c in s.clients && ClosedFor(s, c) && Meets(step, c)
  {
    if step.Unregister? && step.c in s.clients && ClosedFor(s, step.c) {
      assert Meets(step, step.c);
    }
    if step.Broadcast? && !s.panicked {
      if c :| c in s.clients && c in s.chans && s.chans[c].closed {
        assert ClosedFor(s, c) && Meets(step, c);
      }
    }
  }

  /** Step `j` meets a client that was registered before it with a closed channel. */
  ghost predicate MeetsRevived(steps: seq<Step>, j: nat) {
    j < |steps| && Exec(steps[..j]).Some? && exists c :: Revived(steps[..j], c) && Meets(steps[j], c)
  }

  ghost predicate SomeMeetsRevived(steps: seq<Step>) { exists j: nat :: MeetsRevived(steps, j) }

  /** Over every run the hub closes a channel twice or sends on a closed one exactly if it is
      given a client whose channel it has already closed and then broadcasts or removes that
      client.  The server never does the former: it registers each client as it makes it. */
  lemma {:induction false} PanicsIff(steps: seq<Step>)
    requires Exec(steps).Some?
    ensures Exec(steps).value.panicked <==> SomeMeetsRevived(steps)
  {
    if steps != [] {
      var n := |steps| - 1;
      ExecLast(steps);
      PanicsIff(steps[..n]);
      ClientsHaveChans(steps[..n]);
      var s, last := Exec(steps[..n]).value, steps[n];
      PanicStep(s, last);
      MeetsSplit(steps);
      if !s.panicked {
        forall c ensures c in s.clients && ClosedFor(s, c) <==> Revived(steps[..n], c) {
          ClosedClientIff(steps[..n], c);
        }
      }
      hide Exec, Apply, Enabled, Revived, SomeMeetsRevived, ClosedFor, Meets;
    }
  }

  lemma MeetsSplit(steps: seq<Step>)
    requires steps != []
    ensures SomeMeetsRevived(steps) <==> SomeMeetsRevived(steps[..|steps| - 1]) || MeetsRevived(steps, |steps| - 1)
  {
    hide Exec, Revived, Meets;
    var n := |steps| - 1;
    forall j: nat | j < n ensures MeetsRevived(steps, j) <==> MeetsRevived(steps[..n], j) {
      assert steps[..n][..j] == steps[..j];
    }
  }

  /** Such a run. */
  lemma RegisteringTwicePanics(c: nat)
    ensures var steps := [Register(c), Unregister(c), Register(c), Unregister(c)];
      Exec(steps).Some? && Exec(steps).value.panicked
  {
    hide Exec;
    var w1 := RegisterStep(Start, c);
    var w2 := UnregisterStep(w1, c);
    var w3 := RegisterStep(w2, c);
    assert [] + [Register(c)] == [Register(c)];
    assert [Register(c)] + [Unregister(c)] == [Register(c), Unregister(c)];
    assert [Register(c), Unregister(c)] + [Register(c)] == [Register(c), Unregister(c), Register(c)];
    assert [Register(c), Unregister(c), Register(c)] + [Unregister(c)] ==
           [Register(c), Unregister(c), Register(c), Unregister(c)];
    ExecNone();
    ExecSnoc([], Start, Register(c));
    ExecSnoc([Register(c)], w1, Unregister(c));
    ExecSnoc([Register(c), Unregister(c)], w2, Register(c));
    ExecSnoc([Register(c), Unregister(c), Register(c)], w3, Unregister(c));
  }

  lemma ExecNone()
    ensures Exec([]) == Some(Start)
  {
  }

  lemma ExecSnoc(steps: seq<Step>, s: State, step: Step)
    requires Exec(steps) == Some(s) && Enabled(s, step)
    ensures Exec(steps + [step]) == Some(Apply(s, step))
  {
    assert (steps + [step])[..|steps|] == steps;
  }
}

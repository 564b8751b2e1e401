/**
  The processor's object (pkg/event_processor/processor.go): the methods that Serve and the
  producers call on it, over a map of worker objects.

  Each method is described as it runs alone.  What other goroutines do between its steps is
  the subject of the modules EventProcessor, EventProcessorRuns and EventProcessorProgress.
 */
module ProcessorObject {
  import opened Basics
  import opened Uuid
  import W = EventWorker
  import P = EventProcessor

  type Event = W.Event

  /** What a worker's bounded queue keeps of the events offered to it. */
  function Capped(q: seq<Event>): seq<Event> { q[..Min(|q|, W.MAX_CHAN_LEN)] }

  /** The events of one UUID, in order. */
  function For(u: string, es: seq<Event>): seq<Event> {
    if es == [] then [] else
      For(u, es[..|es| - 1]) + (if es[|es| - 1].uuid == u then [es[|es| - 1]] else [])
  }

  /** A queue that held `q` after the first `k` of the events `es` were offered by UUID. */
  function Filled(q: seq<Event>, u: string, es: seq<Event>, k: nat): seq<Event>
    requires k <= |es|
  {
    Capped(q + For(u, es[..k]))
  }

  /** Capping event by event is capping at the end: once refused, always refused. */
  lemma FilledStep(q: seq<Event>, u: string, es: seq<Event>, k: nat)
    requires k < |es|
    ensures Filled(q, u, es, k + 1) ==
            if u == es[k].uuid then Capped(Filled(q, u, es, k) + [es[k]]) else Filled(q, u, es, k)
  {
    var taken := For(u, es[..k]);
    assert es[..k + 1][..k] == es[..k];
    assert taken + [] == taken;
    assert q + (taken + [es[k]]) == (q + taken) + [es[k]];
  }

  lemma AllFilled(was: imap<string, seq<Event>>, es: seq<Event>, k: nat,
                  now: imap<string, seq<Event>>, next: imap<string, seq<Event>>)
    requires k < |es|
    requires forall u :: u in was && u in now && u in next
    requires forall u :: now[u] == Filled(was[u], u, es, k)
    requires forall u :: next[u] == if u == es[k].uuid then Capped(now[u] + [es[k]]) else now[u]
    ensures forall u :: next[u] == Filled(was[u], u, es, k + 1)
  {
    hide Filled, Capped;
    forall u ensures next[u] == Filled(was[u], u, es, k + 1) { FilledStep(was[u], u, es, k); }
  }

  lemma FilledEnds(q: seq<Event>, u: string, es: seq<Event>)
    ensures |q| <= 1024 ==> Filled(q, u, es, 0) == q
    ensures Filled(q, u, es, |es|) == Capped(q + For(u, es))
  {
    assert es[..|es|] == es;
    assert q + [] == q;
  }

  lemma AllEnds(was: imap<string, seq<Event>>, es: seq<Event>)
    requires forall u :: u in was && |was[u]| <= W.MAX_CHAN_LEN
    ensures forall u :: was[u] == Filled(was[u], u, es, 0)
    ensures forall u :: Filled(was[u], u, es, |es|) == Capped(was[u] + For(u, es))
  {
    hide Filled, Capped, For;
    forall u
      ensures was[u] == Filled(was[u], u, es, 0) && Filled(was[u], u, es, |es|) == Capped(was[u] + For(u, es))
    {
      FilledEnds(was[u], u, es);
    }
  }

  lemma QueueIsBounded(w: W.EventWorker, e: Event)
    requires w.Valid()
    ensures |w.incoming| <= 1024
    ensures Capped(w.incoming + [e]) == if |w.incoming| < 1024 then w.incoming + [e] else w.incoming
  {
  }

  /** Only socket workers carry a socket to be destroyed with. */
  lemma DestroyIdIsSock(uuid: string)
    ensures ParseUuid(uuid).destroyId > 0 <==> ParseUuid(uuid).life == Sock
  {
  }

  class EventProcessor {
    const truncateSize: int
    var isClosed: bool
    var incoming: seq<Event>
    var workerQueue: map<string, W.EventWorker>
    ghost var workers: set<W.EventWorker>  // the workers of the map

    /** No dispatch is under way, and each worker is filed under its own UUID. */
    ghost predicate Valid() reads this, workers {
      forall u | u in workerQueue ::
        && workerQueue[u] in workers
        && workerQueue[u].uuid == u
        && workerQueue[u].Valid()
        && !workerQueue[u].used
    }

    ghost function QueueOf(u: string): seq<Event>
      requires Valid()
      reads this, workers
    {
      if u in workerQueue then workerQueue[u].incoming else []
    }

    lemma QueuesAreBounded()
      requires Valid()
      ensures forall u :: |QueueOf(u)| <= 1024
    {
      hide W.BodyOk, ParseUuid;
    }

    constructor (truncateSize: int)
      ensures Valid() && this.truncateSize == truncateSize
      ensures !isClosed && incoming == [] && workerQueue == map[] && workers == {}
    {
      this.truncateSize := truncateSize;
      isClosed, incoming, workerQueue, workers := false, [], map[], {};
    }

    method Write(e: Event)
      modifies this`incoming
      ensures incoming == if isClosed || |old(incoming)| >= 1024 then old(incoming)
                          else old(incoming) + [e]
    {
      if isClosed { return; }
      if |incoming| < P.MAX_INCOMING_CHAN_LEN { incoming := incoming + [e]; }
    }

    /** The worker of a UUID, started and registered if there is none. */
    method FindOrAdd(uuid: string) returns (worker: W.EventWorker)
      requires Valid()
      modifies this`workerQueue, this`workers
      ensures Valid() && uuid in workerQueue && workerQueue[uuid] == worker && worker in workers
      ensures workerQueue.Keys == old(workerQueue.Keys) + {uuid}
      ensures forall u | u in old(workerQueue) :: workerQueue[u] == old(workerQueue[u])
      ensures fresh(workers - old(workers))
      ensures forall u :: QueueOf(u) == old(QueueOf(u))
    {
      hide W.EventWorker.Valid;
      if uuid in workerQueue {
        worker := workerQueue[uuid];
      } else {
        worker := new W.EventWorker(uuid, truncateSize);
        workerQueue, workers := workerQueue[uuid := worker], workers + {worker};
      }
    }

    /** Get, Write and Put on one worker: only its queue changes. */
    method Deliver(worker: W.EventWorker, e: Event) returns (ok: bool)
      requires Valid() && worker.uuid in workerQueue && workerQueue[worker.uuid] == worker
      modifies worker`incoming, worker`used
      ensures Valid() && ok == (|old(worker.incoming)| < 1024)
      ensures forall u :: QueueOf(u) == if u == worker.uuid then Capped(old(QueueOf(u)) + [e]) else old(QueueOf(u))
    {
      QueueIsBounded(worker, e);
      hide W.EventWorker.Valid, Capped;
      var got := worker.Get();
      ok := worker.Write(e);
      var put := worker.Put();
    }

    /** `dispatch` with the map operations it calls: the event goes to the worker of its UUID,
        which is started if there is none, and to no other. */
    method Dispatch(e: Event) returns (ok: bool)
      requires Valid()
      modifies this`workerQueue, this`workers, workers`incoming, workers`used
      ensures Valid() && ok == (|old(QueueOf(e.uuid))| < 1024)
      ensures workerQueue.Keys == old(workerQueue.Keys) + {e.uuid}
      ensures forall u | u in old(workerQueue) :: workerQueue[u] == old(workerQueue[u])
      ensures fresh(workers - old(workers))
      ensures forall u :: QueueOf(u) == if u == e.uuid then Capped(old(QueueOf(u)) + [e]) else old(QueueOf(u))
    {
      hide Capped, W.EventWorker.Valid;
      var worker := FindOrAdd(e.uuid);
      assert worker.incoming == QueueOf(e.uuid);
      ok := Deliver(worker, e);
    }

    method DispatchNext()
      requires Valid() && incoming != []
      modifies this`workerQueue, this`workers, this`incoming, workers`incoming, workers`used
      ensures Valid() && incoming == old(incoming)[1..]
      ensures forall u | u in old(workerQueue) :: u in workerQueue && workerQueue[u] == old(workerQueue[u])
      ensures fresh(workers - old(workers))
      ensures var e := old(incoming)[0];
        forall u :: QueueOf(u) == if u == e.uuid then Capped(old(QueueOf(u)) + [e]) else old(QueueOf(u))
    {
      hide Capped, W.EventWorker.Valid;
      var e := incoming[0];
      incoming := incoming[1..];
      assert forall u :: QueueOf(u) == old(QueueOf(u));
      var ok := Dispatch(e);
    }

    /** The first phase of `drain`: every queued event is dispatched, so each worker's queue
        gets exactly the events of its UUID, in order, up to its capacity. */
    method DrainIncoming()
      requires Valid()
      modifies this`workerQueue, this`workers, this`incoming, workers`incoming, workers`used
      ensures Valid() && incoming == []
      ensures forall u | u in old(workerQueue) :: u in workerQueue && workerQueue[u] == old(workerQueue[u])
      ensures forall u :: QueueOf(u) == Capped(old(QueueOf(u)) + For(u, old(incoming)))
    {
      QueuesAreBounded();
      ghost var es, k := incoming, 0;
      ghost var was := imap u :: QueueOf(u);
      hide Capped, For, Filled, Valid, QueueOf, W.EventWorker.Valid;
      AllEnds(was, es);
      while incoming != []
        invariant Valid() && k <= |es| && incoming == es[k..]
        invariant forall u | u in old(workerQueue) :: u in workerQueue && workerQueue[u] == old(workerQueue[u])
        invariant fresh(workers - old(workers))
        invariant forall u :: QueueOf(u) == Filled(was[u], u, es, k)
        decreases |incoming|
      {
        ghost var now := imap u :: QueueOf(u);
        DispatchNext();
        AllFilled(was, es, k, now, imap u :: QueueOf(u));
        k := k + 1;
      }
    }

    lemma SameIds()
      requires Valid()
      ensures forall u: string | u in workerQueue :: workerQueue[u].destroyUuid == ParseUuid(u).destroyId
    {
      hide W.BodyOk, ParseUuid;
    }

    method Signal(u: string)
      requires Valid() && u in workerQueue
      modifies workers`closing
      ensures Valid()
      ensures forall v: string | v in workerQueue :: QueueOf(v) == old(QueueOf(v))
      ensures forall v: string | v in workerQueue ::
        workerQueue[v].closing == (old(workerQueue[v].closing) || (v == u && ParseUuid(u).life == Sock))
    {
      assert workerQueue[u].lifeCycle == ParseUuid(u).life by { hide W.BodyOk, ParseUuid; }
      hide W.EventWorker.Valid, ParseUuid;
      workerQueue[u].CloseEventWorker();
    }

    /** `destroyWorkers`: one worker bound to the socket is told to close, whichever the map
        traversal meets first; every other worker is left alone. */
    method DestroyWorkers(destroyUuid: nat) returns (ghost hit: Option<string>)
      requires Valid()
      modifies workers`closing
      ensures Valid()
      ensures forall u | u in workerQueue :: QueueOf(u) == old(QueueOf(u))
      ensures hit.Some? <==> destroyUuid > 0 && exists u :: u in workerQueue && workerQueue[u].destroyUuid == destroyUuid
      ensures hit.Some? ==> hit.value in workerQueue && workerQueue[hit.value].destroyUuid == destroyUuid
      ensures forall u | u in workerQueue ::
        workerQueue[u].closing == (old(workerQueue[u].closing) || hit == Some(u))
    {
      SameIds();
      hide W.EventWorker.Valid, ParseUuid;
      hit := None;
      if destroyUuid <= 0 { return; }
      var todo := workerQueue.Keys;
      while todo != {}
        invariant Valid() && todo <= workerQueue.Keys
        invariant forall u | u in workerQueue && u !in todo :: workerQueue[u].destroyUuid != destroyUuid
        invariant forall u | u in workerQueue :: workerQueue[u].closing == old(workerQueue[u].closing)
        invariant forall u | u in workerQueue :: QueueOf(u) == old(QueueOf(u))
        decreases |todo|
      {
        var u :| u in todo;
        todo := todo - {u};
        if destroyUuid == workerQueue[u].destroyUuid {
          DestroyIdIsSock(u);
          Signal(u);
          hit := Some(u);
          return;
        }
      }
    }

    /** `Close`, up to its wait for Serve. */
    method Close() returns (first: bool)
      modifies this`isClosed
      ensures isClosed && first == !old(isClosed)
    {
      first := !isClosed;
      isClosed := true;
    }

    /** The second phase of `drain`: every socket worker is told to close, and no other. */
    method SignalWorkers()
      requires Valid()
      modifies workers`closing
      ensures Valid()
      ensures forall u | u in workerQueue :: QueueOf(u) == old(QueueOf(u))
      ensures forall u | u in workerQueue ::
        workerQueue[u].closing == (old(workerQueue[u].closing) || ParseUuid(u).life == Sock)
    {
      hide W.EventWorker.Valid, ParseUuid;
      var todo := workerQueue.Keys;
      while todo != {}
        invariant Valid() && todo <= workerQueue.Keys
        invariant forall u | u in workerQueue :: QueueOf(u) == old(QueueOf(u))
        invariant forall u | u in workerQueue ::
          workerQueue[u].closing == (old(workerQueue[u].closing) || (u !in todo && ParseUuid(u).life == Sock))
        decreases |todo|
      {
        var u :| u in todo;
        todo := todo - {u};
        Signal(u);
      }
    }
  }
}

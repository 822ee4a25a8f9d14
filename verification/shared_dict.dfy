/** The registry of eqsn/shared_dict.py: which queue and which thread serve each qubit id, and
    the lists of every thread and queue ever registered. The module-level dicts and lists are
    the fields of Registry; the read-write lock around each function is left out, so every
    function here runs alone.

    Queues and threads are Python objects compared by identity; Queue(n) and Thread(n) are
    such identities. */
module SharedDict {
  import opened Outcomes
  import opened Lists

  datatype Queue = Queue(n: nat)
  datatype Thread = Thread(n: nat)

  /** id_to_queue, id_to_thread, thread_list and queue_list. */
  datatype Tables = Tables(idToQueue: map<QubitId, Queue>, idToThread: map<QubitId, Thread>,
                           threadList: seq<Thread>, queueList: seq<Queue>)

  /** The two dicts have the same keys: every function below keeps this. */
  ghost predicate SameKeys(t: Tables)
  {
    t.idToQueue.Keys == t.idToThread.Keys
  }

  /** The tables after a function and how it ended; an exception half-way leaves the updates
      made before it. */
  datatype Changed = Changed(after: Tables, status: Status)

  // ---------------------------------------------------------------- what each function does

  /** set_thread_with_id: the id is bound to the queue and the thread, overwriting any earlier
      binding, and both are appended to their lists. */
  function SetSpec(t: Tables, id: QubitId, thread: Thread, queue: Queue): (r: Tables)
    ensures SameKeys(t) ==> SameKeys(r)
    ensures r.idToQueue.Keys == t.idToQueue.Keys + {id}
    ensures r.idToQueue[id] == queue && id in r.idToThread && r.idToThread[id] == thread
    ensures forall k :: k in t.idToQueue && k != id ==> r.idToQueue[k] == t.idToQueue[k]
    ensures forall k :: k in t.idToThread && k != id ==> k in r.idToThread && r.idToThread[k] == t.idToThread[k]
    ensures t.queueList < r.queueList && t.threadList < r.threadList
  {
    Tables(t.idToQueue[id := queue], t.idToThread[id := thread], t.threadList + [thread], t.queueList + [queue])
  }

  /** delete_id: both dicts lose the id; an id missing from id_to_queue raises KeyError and
      changes nothing, one missing only from id_to_thread raises KeyError after the first
      deletion. */
  function DeleteSpec(t: Tables, id: QubitId): (r: Changed)
    ensures r.status.Done? <==> id in t.idToQueue && id in t.idToThread
    ensures r.status.Fail? ==> r.status.error == KeyError
    ensures id !in t.idToQueue ==> r.after == t
    ensures id in t.idToQueue ==> r.after.idToQueue == t.idToQueue - {id} && id !in r.after.idToQueue
    ensures id in t.idToQueue ==> r.after.idToThread == t.idToThread - {id}
    ensures r.after.threadList == t.threadList && r.after.queueList == t.queueList
  {
    if id !in t.idToQueue then Changed(t, Fail(KeyError))
    else
      var t1 := t.(idToQueue := t.idToQueue - {id});
      if id !in t.idToThread then Changed(t1, Fail(KeyError))
      else Changed(t1.(idToThread := t.idToThread - {id}), Done)
  }

  /** delete_id_and_check_to_join_thread with alive the answer of thread.is_alive(): nothing
      happens for an id without a thread; otherwise a thread that has ended is joined and
      leaves thread_list (if it is there), and the id leaves id_to_thread and then
      id_to_queue, where it raises KeyError when absent. */
  function DeleteJoinSpec(t: Tables, id: QubitId, alive: bool): (r: Changed)
    ensures id !in t.idToThread ==> r == Changed(t, Done)
    ensures r.status.Fail? <==> id in t.idToThread && id !in t.idToQueue
    ensures r.status.Fail? ==> r.status.error == KeyError
    ensures id in t.idToThread ==> id !in r.after.idToThread && id !in r.after.idToQueue
    ensures r.after.idToThread == t.idToThread - {id}
    ensures id in t.idToThread ==> r.after.idToQueue == t.idToQueue - {id}
    ensures alive ==> r.after.threadList == t.threadList
    ensures multiset(r.after.threadList) <= multiset(t.threadList)
    ensures id in t.idToThread && !alive && t.idToThread[id] in t.threadList ==>
      multiset(r.after.threadList) == multiset(t.threadList) - multiset{t.idToThread[id]}
    ensures id in t.idToThread && t.idToThread[id] !in t.threadList ==> r.after.threadList == t.threadList
    ensures r.after.queueList == t.queueList
  {
    if id !in t.idToThread then Changed(t, Done)
    else
      var thread := t.idToThread[id];
      var list := if !alive && thread in t.threadList then RemoveFirst(t.threadList, thread) else t.threadList;
      var t1 := Tables(t.idToQueue, t.idToThread - {id}, list, t.queueList);
      if id !in t.idToQueue then Changed(t1, Fail(KeyError))
      else Changed(t1.(idToQueue := t.idToQueue - {id}), Done)
  }

  /** The loop of change_thread_and_queue_of_ids_and_join over ids: each id's current thread
      is joined and leaves thread_list if it is there, and the id is bound to the new thread
      and queue; an id without a thread raises KeyError with the earlier ids done. */
  function RepointLoop(t: Tables, ids: seq<QubitId>, newThread: Thread, newQueue: Queue): (r: Changed)
    ensures r.status.Fail? ==> r.status.error == KeyError
    ensures r.after.queueList == t.queueList
    decreases |ids|
  {
    if ids == [] then Changed(t, Done)
    else if ids[0] !in t.idToThread then Changed(t, Fail(KeyError))
    else
      var thread := t.idToThread[ids[0]];
      var list := if thread in t.threadList then RemoveFirst(t.threadList, thread) else t.threadList;
      RepointLoop(Tables(t.idToQueue[ids[0] := newQueue], t.idToThread[ids[0] := newThread], list, t.queueList),
                  ids[1..], newThread, newQueue)
  }

  /** change_thread_and_queue_of_ids_and_join: the thread and queue of target are looked up
      first (KeyError, nothing changed, when either is missing), then every id is repointed
      to them. */
  function ChangeSpec(t: Tables, ids: seq<QubitId>, target: QubitId): (r: Changed)
    ensures target !in t.idToThread || target !in t.idToQueue ==> r == Changed(t, Fail(KeyError))
    ensures r.status.Fail? ==> r.status.error == KeyError
    ensures r.after.queueList == t.queueList
  {
    if target !in t.idToThread || target !in t.idToQueue then Changed(t, Fail(KeyError))
    else RepointLoop(t, ids, t.idToThread[target], t.idToQueue[target])
  }

  // ---------------------------------------------------------------- properties

  /** A bound id's queue is what get_queues_for_ids returns for it alone. */
  lemma LookupAfterSet(t: Tables, id: QubitId, thread: Thread, queue: Queue)
    ensures Dedup(Lookups(SetSpec(t, id, thread, queue).idToQueue, [id])) == [queue]
  {
    var l := Lookups(SetSpec(t, id, thread, queue).idToQueue, [id]);
    assert l == [queue];
    assert l[..0] == [];
  }

  /** Deleting keeps the two dicts in step, and then fails exactly for an unknown id. */
  lemma DeleteKeepsKeys(t: Tables, id: QubitId)
    requires SameKeys(t)
    ensures SameKeys(DeleteSpec(t, id).after)
    ensures DeleteSpec(t, id).status.Done? <==> id in t.idToQueue
    ensures DeleteSpec(t, id).after.idToQueue.Keys == t.idToQueue.Keys - {id}
  {
  }

  /** The conditional delete keeps the two dicts in step, and then never fails. */
  lemma DeleteJoinKeepsKeys(t: Tables, id: QubitId, alive: bool)
    requires SameKeys(t)
    ensures SameKeys(DeleteJoinSpec(t, id, alive).after)
    ensures DeleteJoinSpec(t, id, alive).status == Done
    ensures DeleteJoinSpec(t, id, alive).after.idToQueue.Keys == t.idToQueue.Keys - {id}
  {
  }

  /** The repoint succeeds exactly when every id has a thread, and then every id is bound to
      the new thread and queue. */
  lemma {:induction false} RepointBinds(t: Tables, ids: seq<QubitId>, newThread: Thread, newQueue: Queue)
    ensures RepointLoop(t, ids, newThread, newQueue).status.Done? <==> forall k :: k in ids ==> k in t.idToThread
    ensures RepointLoop(t, ids, newThread, newQueue).status.Done? ==>
      forall k :: k in ids ==>
        k in RepointLoop(t, ids, newThread, newQueue).after.idToThread &&
        RepointLoop(t, ids, newThread, newQueue).after.idToThread[k] == newThread &&
        k in RepointLoop(t, ids, newThread, newQueue).after.idToQueue &&
        RepointLoop(t, ids, newThread, newQueue).after.idToQueue[k] == newQueue
    decreases |ids|
  {
    if ids != [] && ids[0] in t.idToThread {
      var thread := t.idToThread[ids[0]];
      var list := if thread in t.threadList then RemoveFirst(t.threadList, thread) else t.threadList;
      var t1 := Tables(t.idToQueue[ids[0] := newQueue], t.idToThread[ids[0] := newThread], list, t.queueList);
      RepointBinds(t1, ids[1..], newThread, newQueue);
      RepointKeeps(t1, ids[1..], newThread, newQueue);
      assert forall k :: k in ids <==> k == ids[0] || k in ids[1..];
    }
  }

  /** The repoint leaves the binding of every other id as it was, and adds no key to
      id_to_thread. */
  lemma {:induction false} RepointKeeps(t: Tables, ids: seq<QubitId>, newThread: Thread, newQueue: Queue)
    ensures RepointLoop(t, ids, newThread, newQueue).after.idToThread.Keys == t.idToThread.Keys
    ensures forall k :: k !in ids ==>
      (k in RepointLoop(t, ids, newThread, newQueue).after.idToQueue <==> k in t.idToQueue)
    ensures forall k :: k !in ids && k in t.idToThread ==>
      RepointLoop(t, ids, newThread, newQueue).after.idToThread[k] == t.idToThread[k]
    ensures forall k :: k !in ids && k in t.idToQueue ==>
      RepointLoop(t, ids, newThread, newQueue).after.idToQueue[k] == t.idToQueue[k]
    ensures forall k :: k in RepointLoop(t, ids, newThread, newQueue).after.idToQueue ==>
      k in t.idToQueue || k in ids
    decreases |ids|
  {
    if ids != [] && ids[0] in t.idToThread {
      var thread := t.idToThread[ids[0]];
      var list := if thread in t.threadList then RemoveFirst(t.threadList, thread) else t.threadList;
      var t1 := Tables(t.idToQueue[ids[0] := newQueue], t.idToThread[ids[0] := newThread], list, t.queueList);
      RepointKeeps(t1, ids[1..], newThread, newQueue);
      assert forall k :: k in ids <==> k == ids[0] || k in ids[1..];
    }
  }

  /** A successful repoint keeps the two dicts in step. */
  lemma RepointKeepsKeys(t: Tables, ids: seq<QubitId>, newThread: Thread, newQueue: Queue)
    requires SameKeys(t) && RepointLoop(t, ids, newThread, newQueue).status.Done?
    ensures SameKeys(RepointLoop(t, ids, newThread, newQueue).after)
    ensures RepointLoop(t, ids, newThread, newQueue).after.idToQueue.Keys == t.idToQueue.Keys
  {
    RepointBinds(t, ids, newThread, newQueue);
    RepointKeeps(t, ids, newThread, newQueue);
  }

  /** thread_list only shrinks in the repoint. */
  lemma {:induction false} RepointShrinks(t: Tables, ids: seq<QubitId>, newThread: Thread, newQueue: Queue)
    ensures multiset(RepointLoop(t, ids, newThread, newQueue).after.threadList) <= multiset(t.threadList)
    decreases |ids|
  {
    if ids != [] && ids[0] in t.idToThread {
      var thread := t.idToThread[ids[0]];
      var list := if thread in t.threadList then RemoveFirst(t.threadList, thread) else t.threadList;
      var t1 := Tables(t.idToQueue[ids[0] := newQueue], t.idToThread[ids[0] := newThread], list, t.queueList);
      RepointShrinks(t1, ids[1..], newThread, newQueue);
    }
  }

  /** A thread that is neither the new one nor the thread of any repointed id keeps all its
      entries in thread_list. */
  lemma {:induction false} RepointSpares(t: Tables, ids: seq<QubitId>, newThread: Thread, newQueue: Queue, other: Thread)
    requires other != newThread
    requires forall k :: k in ids && k in t.idToThread ==> t.idToThread[k] != other
    ensures multiset(RepointLoop(t, ids, newThread, newQueue).after.threadList)[other] == multiset(t.threadList)[other]
    decreases |ids|
  {
    if ids != [] && ids[0] in t.idToThread {
      var thread := t.idToThread[ids[0]];
      var list := if thread in t.threadList then RemoveFirst(t.threadList, thread) else t.threadList;
      var t1 := Tables(t.idToQueue[ids[0] := newQueue], t.idToThread[ids[0] := newThread], list, t.queueList);
      assert multiset(list)[other] == multiset(t.threadList)[other];
      assert forall k :: k in ids[1..] ==> k in ids;
      RepointSpares(t1, ids[1..], newThread, newQueue, other);
    }
  }

  /** When thread_list holds each thread once, no repointed id's old thread is left in it
      after a successful repoint: each was joined and removed. */
  lemma {:induction false} RepointJoinsAll(t: Tables, ids: seq<QubitId>, newThread: Thread, newQueue: Queue)
    requires Distinct(t.threadList) && forall k :: k in ids ==> k in t.idToThread
    ensures forall k :: k in ids ==> t.idToThread[k] !in RepointLoop(t, ids, newThread, newQueue).after.threadList
    decreases |ids|
  {
    if ids != [] {
      var thread := t.idToThread[ids[0]];
      var list := if thread in t.threadList then RemoveFirst(t.threadList, thread) else t.threadList;
      var t1 := Tables(t.idToQueue[ids[0] := newQueue], t.idToThread[ids[0] := newThread], list, t.queueList);
      var after := RepointLoop(t1, ids[1..], newThread, newQueue).after;
      assert RepointLoop(t, ids, newThread, newQueue).after == after;
      if thread in t.threadList {
        DistinctRemove(t.threadList, thread);
      }
      assert Distinct(list) && thread !in list;
      RepointShrinks(t1, ids[1..], newThread, newQueue);
      assert thread !in after.threadList by {
        assert multiset(after.threadList)[thread] <= multiset(list)[thread] == 0;
      }
      assert forall k :: k in ids[1..] ==> k in ids;
      RepointJoinsAll(t1, ids[1..], newThread, newQueue);
      forall k | k in ids
        ensures t.idToThread[k] !in after.threadList
      {
        if k != ids[0] {
          assert k in ids[1..] && t1.idToThread[k] == t.idToThread[k];
        }
      }
    }
  }

  // ---------------------------------------------------------------- the module state

  /** The module-level tables of eqsn/shared_dict.py:73-78. */
  class Registry {
    var idToQueue: map<QubitId, Queue>
    var idToThread: map<QubitId, Thread>
    var threadList: seq<Thread>
    var queueList: seq<Queue>

    function Abs(): Tables
      reads this
    {
      Tables(idToQueue, idToThread, threadList, queueList)
    }

    /** The tables at import time: all empty. */
    constructor ()
      ensures Abs() == Tables(map[], map[], [], []) && SameKeys(Abs())
    {
      idToQueue, idToThread, threadList, queueList := map[], map[], [], [];
    }

    /** get_queues_for_ids: the queues of the ids, each once, in order of first occurrence;
        KeyError for an id without a queue. Nothing changes. */
    method GetQueuesForIds(ids: seq<QubitId>) returns (r: Result<seq<Queue>>)
      ensures r.Err? <==> exists k :: k in ids && k !in idToQueue
      ensures r.Err? ==> r.error == KeyError
      ensures r.Ok? ==> r.value == Dedup(Lookups(idToQueue, ids))
    {
      r := LookupDistinct(idToQueue, ids);
    }

    method SetThreadWithId(id: QubitId, thread: Thread, queue: Queue)
      modifies this
      ensures Abs() == SetSpec(old(Abs()), id, thread, queue)
    {
      idToQueue := idToQueue[id := queue];
      idToThread := idToThread[id := thread];
      queueList := queueList + [queue];
      threadList := threadList + [thread];
    }

    method DeleteId(id: QubitId) returns (r: Status)
      modifies this
      ensures Changed(Abs(), r) == DeleteSpec(old(Abs()), id)
    {
      if id !in idToQueue {
        return Fail(KeyError);
      }
      idToQueue := idToQueue - {id};
      if id !in idToThread {
        return Fail(KeyError);
      }
      idToThread := idToThread - {id};
      return Done;
    }

    /** alive stands for thread.is_alive() at the time of the call; join returns at once
        for a thread that has ended. */
    method DeleteIdAndCheckToJoinThread(id: QubitId, alive: bool) returns (r: Status)
      modifies this
      ensures Changed(Abs(), r) == DeleteJoinSpec(old(Abs()), id, alive)
    {
      if id in idToThread {
        var thread := idToThread[id];
        if !alive {
          if thread in threadList {
            threadList := RemoveFirst(threadList, thread);
          }
        }
        idToThread := idToThread - {id};
        if id !in idToQueue {
          return Fail(KeyError);
        }
        idToQueue := idToQueue - {id};
      }
      return Done;
    }

    method ChangeThreadAndQueueOfIdsAndJoin(ids: seq<QubitId>, target: QubitId) returns (r: Status)
      modifies this
      ensures Changed(Abs(), r) == ChangeSpec(old(Abs()), ids, target)
    {
      if target !in idToThread {
        return Fail(KeyError);
      }
      var newThread := idToThread[target];
      if target !in idToQueue {
        return Fail(KeyError);
      }
      var newQueue := idToQueue[target];
      for i := 0 to |ids|
        invariant RepointLoop(Abs(), ids[i..], newThread, newQueue) == ChangeSpec(old(Abs()), ids, target)
      {
        assert ids[i..][0] == ids[i] && ids[i..][1..] == ids[i + 1..];
        if ids[i] !in idToThread {
          return Fail(KeyError);
        }
        var thread := idToThread[ids[i]];
        if thread in threadList {
          threadList := RemoveFirst(threadList, thread);
        }
        idToThread := idToThread[ids[i] := newThread];
        idToQueue := idToQueue[ids[i] := newQueue];
      }
      return Done;
    }
  }
}

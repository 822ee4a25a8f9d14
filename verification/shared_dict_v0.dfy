/** The earlier registry (src/shared_dict.py): one dict from qubit id to queue, and the lists of
    every thread and queue registered. Nothing is ever deleted from it. The read-write lock
    is left out, as in SharedDict. */
module EarlySharedDict {
  import opened Outcomes
  import opened Lists
  import opened SharedDict

  /** id_to_queue, thread_list and queue_list of src/shared_dict.py:65-69. */
  datatype EarlyTables = EarlyTables(idToQueue: map<QubitId, Queue>, threadList: seq<Thread>, queueList: seq<Queue>)

  /** set_thread_with_id: the id is bound to the queue, overwriting any earlier binding, and
      the queue and the thread are appended to their lists. */
  function EarlySet(t: EarlyTables, id: QubitId, thread: Thread, queue: Queue): (r: EarlyTables)
    ensures r.idToQueue.Keys == t.idToQueue.Keys + {id} && r.idToQueue[id] == queue
    ensures forall k :: k in t.idToQueue && k != id ==> r.idToQueue[k] == t.idToQueue[k]
    ensures r.threadList == t.threadList + [thread] && r.queueList == t.queueList + [queue]
  {
    EarlyTables(t.idToQueue[id := queue], t.threadList + [thread], t.queueList + [queue])
  }

  /** change_ids_queue: exactly one id is bound to the queue; the lists stay as they are. */
  function ChangeQueue(t: EarlyTables, id: QubitId, queue: Queue): (r: EarlyTables)
    ensures r.idToQueue.Keys == t.idToQueue.Keys + {id} && r.idToQueue[id] == queue
    ensures forall k :: k in t.idToQueue && k != id ==> r.idToQueue[k] == t.idToQueue[k]
    ensures r.threadList == t.threadList && r.queueList == t.queueList
  {
    t.(idToQueue := t.idToQueue[id := queue])
  }

  /** A call to one of the registry's functions. */
  datatype Call =
    | Lookup(ids: seq<QubitId>)                                  // get_threads_for_ids
    | Register(id: QubitId, thread: Thread, queue: Queue)        // set_thread_with_id
    | Repoint(id: QubitId, queue: Queue)                         // change_ids_queue

  /** The tables after a call; a lookup changes nothing, whether or not it raises. */
  function Apply(t: EarlyTables, c: Call): EarlyTables
  {
    match c
    case Lookup(_) => t
    case Register(id, thread, queue) => EarlySet(t, id, thread, queue)
    case Repoint(id, queue) => ChangeQueue(t, id, queue)
  }

  function ApplyAll(t: EarlyTables, calls: seq<Call>): EarlyTables
    decreases |calls|
  {
    if calls == [] then t else ApplyAll(Apply(t, calls[0]), calls[1..])
  }

  /** No sequence of calls removes anything from thread_list or queue_list, nor unbinds an
      id: the lists only grow at their ends and the set of bound ids only grows. */
  lemma {:induction false} AppendOnly(t: EarlyTables, calls: seq<Call>)
    ensures t.threadList <= ApplyAll(t, calls).threadList
    ensures t.queueList <= ApplyAll(t, calls).queueList
    ensures t.idToQueue.Keys <= ApplyAll(t, calls).idToQueue.Keys
    decreases |calls|
  {
    if calls != [] {
      AppendOnly(Apply(t, calls[0]), calls[1..]);
    }
  }

  /** An id bound by a registration stays bound to that queue until a later registration or
      repoint names it again. */
  lemma {:induction false} BindingPersists(t: EarlyTables, calls: seq<Call>, id: QubitId)
    requires id in t.idToQueue
    requires forall i :: 0 <= i < |calls| ==> !calls[i].Lookup? ==> calls[i].id != id
    ensures id in ApplyAll(t, calls).idToQueue && ApplyAll(t, calls).idToQueue[id] == t.idToQueue[id]
    decreases |calls|
  {
    if calls != [] {
      assert !calls[0].Lookup? ==> calls[0].id != id;
      BindingPersists(Apply(t, calls[0]), calls[1..], id);
    }
  }

  /** The module-level tables of src/shared_dict.py:65-69. */
  class EarlyRegistry {
    var idToQueue: map<QubitId, Queue>
    var threadList: seq<Thread>
    var queueList: seq<Queue>

    function Abs(): EarlyTables
      reads this
    {
      EarlyTables(idToQueue, threadList, queueList)
    }

    constructor ()
      ensures Abs() == EarlyTables(map[], [], [])
    {
      idToQueue, threadList, queueList := map[], [], [];
    }

    /** get_threads_for_ids: despite its name, the queues of the ids, each once, in order of
        first occurrence; KeyError for an unknown id. Nothing changes. */
    method GetThreadsForIds(ids: seq<QubitId>) returns (r: Result<seq<Queue>>)
      ensures r.Err? <==> exists k :: k in ids && k !in idToQueue
      ensures r.Err? ==> r.error == KeyError
      ensures r.Ok? ==> r.value == Dedup(Lookups(idToQueue, ids))
    {
      r := LookupDistinct(idToQueue, ids);
    }

    method SetThreadWithId(id: QubitId, thread: Thread, queue: Queue)
      modifies this
      ensures Abs() == EarlySet(old(Abs()), id, thread, queue)
    {
      idToQueue := idToQueue[id := queue];
      queueList := queueList + [queue];
      threadList := threadList + [thread];
    }

    method ChangeIdsQueue(id: QubitId, queue: Queue)
      modifies this
      ensures Abs() == ChangeQueue(old(Abs()), id, queue)
    {
      idToQueue := idToQueue[id := queue];
    }
  }
}

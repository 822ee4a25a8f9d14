/** The user-facing operations of eqsn/gates.py: new_qubit, the single gates X, Y and Z,
    merge_qubits, cnot_gate and measure.

    Each operation looks up queues in the registry, puts commands on worker queues and,
    where it needs one, waits for an answer. Here the operations run one at a time and every
    command put on a queue is taken by its worker at once, as one Step of QubitThreads: the
    state of the simulator is the registry together with the group of the worker behind each
    live queue. */
module Gates {
  import opened ComplexNumbers
  import opened LinearAlgebra
  import opened StateVector
  import opened PauliGates
  import opened Outcomes
  import opened Lists
  import opened QubitThreads
  import opened SharedDict

  /** The registry, the group of the worker behind each live queue, and how many queue and
      process objects have been created: the next new_qubit gets Queue(created) and
      Thread(created). */
  datatype World = World(tables: Tables, groups: map<Queue, Group>, created: nat)

  /** A world after an operation, with what the operation returned. */
  datatype After<R> = After(world: World, result: R)

  /** What a call to measure comes back with: the outcome, the exception it raises, or
      nothing ever, when the worker raised before it put an outcome on the return channel. */
  datatype Reply = Returns(bit: nat) | Raises(error: Error) | NoReply

  /** Every registered id is held by the group of its queue. */
  ghost predicate Served(t: Tables, groups: map<Queue, Group>)
  {
    forall id :: id in t.idToQueue ==> t.idToQueue[id] in groups && id in groups[t.idToQueue[id]].qubits
  }

  /** Every id a group holds is registered to that group's queue. */
  ghost predicate Listed(t: Tables, groups: map<Queue, Group>)
  {
    forall q, id :: q in groups && id in groups[q].qubits ==> id in t.idToQueue && t.idToQueue[id] == q
  }

  /** Every group is consistent and holds each id once, and its queue has been created. */
  ghost predicate Sound(groups: map<Queue, Group>, created: nat)
  {
    forall q :: q in groups ==> Consistent(groups[q]) && Distinct(groups[q].qubits) && q.n < created
  }

  /** The registry and the workers agree: each registered id is held by exactly the worker
      the registry sends its commands to. */
  ghost predicate Owns(w: World)
  {
    SameKeys(w.tables) && Served(w.tables, w.groups) && Listed(w.tables, w.groups) && Sound(w.groups, w.created)
  }

  // ---------------------------------------------------------------- what each operation does

  /** new_qubit: a new queue and process, whose worker holds one qubit in |0>, registered
      under the id; an id already registered is silently rebound. */
  function NewQubitSpec(w: World, id: QubitId): (r: World)
  {
    World(SetSpec(w.tables, id, Thread(w.created), Queue(w.created)),
          w.groups[Queue(w.created) := Fresh(id)], w.created + 1)
  }

  /** The worker behind queue q takes a gate command: its new group, or the exception its
      run loop ends with. */
  function Deliver(w: World, q: Queue, c: Command): (r: After<Status>)
    requires q in w.groups && Consistent(w.groups[q]) && (c.SingleGateCmd? || c.ControlledGateCmd?)
  {
    match Step(w.groups[q], c)
    case Halt(t) => After(w, Fail(if t.end.Raised? then t.end.error else ValueError))
    case Continue(next, _) => After(w.(groups := w.groups[q := next]), Done)
  }

  /** X_gate, Y_gate, Z_gate: KeyError for an unregistered id, else SINGLE_GATE on its queue. */
  function GateSpec(w: World, g: Gate, id: QubitId): (r: After<Status>)
    requires Owns(w)
  {
    if id !in w.tables.idToQueue then After(w, Fail(KeyError))
    else Deliver(w, w.tables.idToQueue[id], SingleGateCmd(g, id))
  }

  /** merge_qubits: KeyError for an unregistered id; nothing for two ids on one queue;
      otherwise q_id1's worker hands its ids and vector to q_id2's worker, which appends them
      to its own, and q_id1's worker ends; then the handed ids are repointed to q_id2's thread
      and queue. */
  function MergeSpec(w: World, id1: QubitId, id2: QubitId): (r: After<Status>)
    requires Owns(w)
  {
    var m := w.tables.idToQueue;
    if id1 !in m || id2 !in m then After(w, Fail(KeyError))
    else if m[id1] == m[id2] then After(w, Done)
    else
      var sender, receiver := w.groups[m[id1]], w.groups[m[id2]];
      var ch := ChangeSpec(w.tables, sender.qubits, id2);
      After(World(ch.after, (w.groups - {m[id1]})[m[id2] := Accept(receiver, sender.qubits, sender.qubit)], w.created),
            ch.status)
  }

  /** The body shared by cnot_gate and cphase_gate: merge, then CONTROLLED_GATE with the
      matrix g on the queue of q_id1, with target q_id1 and control q_id2. */
  function ControlledGateSpec(w: World, g: Gate, id1: QubitId, id2: QubitId): (r: After<Status>)
    requires Owns(w)
  {
    var merged := MergeSpec(w, id1, id2);
    if merged.result.Fail? then merged
    else
      MergeOwns(w, id1, id2);
      var v := merged.world;
      Deliver(v, v.tables.idToQueue[id1], ControlledGateCmd(g, id1, id2))
  }

  /** cnot_gate: the controlled gate with X. */
  function CnotSpec(w: World, id1: QubitId, id2: QubitId): (r: After<Status>)
    requires Owns(w)
  {
    ControlledGateSpec(w, PauliX, id1, id2)
  }

  /** cphase_gate: the controlled gate with [[0, 1], [0, -1]]. */
  function CphaseSpec(w: World, id1: QubitId, id2: QubitId): (r: After<Status>)
    requires Owns(w)
  {
    ControlledGateSpec(w, CphaseMatrix, id1, id2)
  }

  /** measure, with u the draw of the worker and alive the answer of is_alive() for its
      process when the entry goes: KeyError for an unregistered id; the non-destructive
      branch names MEASURE_NON_DESTRUCTIVE, which nothing defines, and raises NameError;
      otherwise the worker measures (a worker whose last qubit was measured ends), the
      outcome comes back, and the id leaves the registry. When the worker raises instead,
      the caller waits forever for the outcome. */
  function MeasureQubitSpec(w: World, id: QubitId, nonDestructive: bool, u: real, alive: bool): (r: After<Reply>)
    requires Owns(w) && 0.0 <= u < 1.0
  {
    if id !in w.tables.idToQueue then After(w, Raises(KeyError))
    else if nonDestructive then After(w, Raises(NameError))
    else
      var q := w.tables.idToQueue[id];
      var m := MeasureSpec(w.groups[q], id, u);
      if m.Err? then After(w, NoReply)
      else
        var groups := if m.value.after.qubits == [] then w.groups - {q} else w.groups[q := m.value.after];
        After(World(DeleteJoinSpec(w.tables, id, alive).after, groups, w.created), Returns(m.value.outcome))
  }

  // ---------------------------------------------------------------- the operations keep Owns

  /** A new qubit under an id not yet registered keeps the invariant. */
  lemma NewQubitOwns(w: World, id: QubitId)
    requires Owns(w) && id !in w.tables.idToQueue
    ensures Owns(NewQubitSpec(w, id))
  {
    var r := NewQubitSpec(w, id);
    assert Queue(w.created) !in w.groups;
    assert Sound(r.groups, r.created);
    NewQubitListed(w, id, r);
  }

  lemma NewQubitListed(w: World, id: QubitId, r: World)
    requires Owns(w) && id !in w.tables.idToQueue && Queue(w.created) !in w.groups
    requires r == NewQubitSpec(w, id)
    ensures Listed(r.tables, r.groups)
  {
    var q := Queue(w.created);
    forall p, k | p in r.groups && k in r.groups[p].qubits
      ensures k in r.tables.idToQueue && r.tables.idToQueue[k] == p
    {
      if p != q {
        assert k != id;
      }
    }
  }

  /** new_qubit under an id already registered breaks the invariant: the old worker still
      holds the id, but the registry sends its commands to the new one. */
  lemma NewQubitRebinds(w: World, id: QubitId)
    requires Owns(w) && id in w.tables.idToQueue
    ensures !Owns(NewQubitSpec(w, id))
  {
    var r := NewQubitSpec(w, id);
    var old_q := w.tables.idToQueue[id];
    assert old_q.n < w.created;
    assert old_q in r.groups && id in r.groups[old_q].qubits;
    assert r.tables.idToQueue[id] == Queue(w.created) != old_q;
  }

  /** A worker that keeps its ids keeps the invariant. */
  lemma ReplaceGroup(w: World, q: Queue, g: Group)
    requires Owns(w) && q in w.groups && g.qubits == w.groups[q].qubits && Consistent(g)
    ensures Owns(w.(groups := w.groups[q := g]))
  {
  }

  lemma DeliverOwns(w: World, q: Queue, c: Command)
    requires Owns(w) && q in w.groups && (c.SingleGateCmd? || c.ControlledGateCmd?)
    ensures Owns(Deliver(w, q, c).world)
    ensures Deliver(w, q, c).world.tables == w.tables
  {
    var s := Step(w.groups[q], c);
    if s.Continue? {
      if c.SingleGateCmd? {
        assert s.next == SingleGate(w.groups[q], c.gate, c.id).value;
      } else {
        assert s.next == Controlled(w.groups[q], c.gate, c.id1, c.id2).value;
      }
      ReplaceGroup(w, q, s.next);
    }
  }

  lemma GateOwns(w: World, g: Gate, id: QubitId)
    requires Owns(w)
    ensures Owns(GateSpec(w, g, id).world)
  {
    if id in w.tables.idToQueue {
      DeliverOwns(w, w.tables.idToQueue[id], SingleGateCmd(g, id));
    }
  }

  /** The groups after a merge of sender q1 into receiver q2, given tables that send the
      sender's ids to q2 and every other id where it went before. */
  lemma Moved(w: World, q1: Queue, q2: Queue, t: Tables)
    requires Owns(w) && q1 in w.groups && q2 in w.groups && q1 != q2
    requires SameKeys(t) && t.idToQueue.Keys == w.tables.idToQueue.Keys
    requires forall k :: k in w.groups[q1].qubits ==> t.idToQueue[k] == q2
    requires forall k :: k in t.idToQueue && k !in w.groups[q1].qubits ==> t.idToQueue[k] == w.tables.idToQueue[k]
    ensures Owns(World(t, (w.groups - {q1})[q2 := Accept(w.groups[q2], w.groups[q1].qubits, w.groups[q1].qubit)], w.created))
  {
    var sender, receiver := w.groups[q1], w.groups[q2];
    var g := (w.groups - {q1})[q2 := Accept(receiver, sender.qubits, sender.qubit)];
    assert forall k :: k in receiver.qubits ==> k !in sender.qubits by {
      forall k | k in receiver.qubits ensures k !in sender.qubits {
        assert w.tables.idToQueue[k] == q2;
      }
    }
    DistinctAppend(receiver.qubits, sender.qubits);
    assert Sound(g, w.created);
    MovedServed(w, q1, q2, t, g);
    MovedListed(w, q1, q2, t, g);
  }

  lemma MovedServed(w: World, q1: Queue, q2: Queue, t: Tables, g: map<Queue, Group>)
    requires Owns(w) && q1 in w.groups && q2 in w.groups && q1 != q2
    requires t.idToQueue.Keys == w.tables.idToQueue.Keys
    requires forall k :: k in w.groups[q1].qubits ==> t.idToQueue[k] == q2
    requires forall k :: k in t.idToQueue && k !in w.groups[q1].qubits ==> t.idToQueue[k] == w.tables.idToQueue[k]
    requires g == (w.groups - {q1})[q2 := Accept(w.groups[q2], w.groups[q1].qubits, w.groups[q1].qubit)]
    ensures Served(t, g)
  {
    var m := w.tables.idToQueue;
    forall k | k in t.idToQueue
      ensures t.idToQueue[k] in g && k in g[t.idToQueue[k]].qubits
    {
      if k !in w.groups[q1].qubits {
        assert m[k] in w.groups && k in w.groups[m[k]].qubits;
      }
    }
  }

  lemma MovedListed(w: World, q1: Queue, q2: Queue, t: Tables, g: map<Queue, Group>)
    requires Owns(w) && q1 in w.groups && q2 in w.groups && q1 != q2
    requires t.idToQueue.Keys == w.tables.idToQueue.Keys
    requires forall k :: k in w.groups[q1].qubits ==> t.idToQueue[k] == q2
    requires forall k :: k in t.idToQueue && k !in w.groups[q1].qubits ==> t.idToQueue[k] == w.tables.idToQueue[k]
    requires g == (w.groups - {q1})[q2 := Accept(w.groups[q2], w.groups[q1].qubits, w.groups[q1].qubit)]
    ensures Listed(t, g)
  {
    var m := w.tables.idToQueue;
    forall p, k | p in g && k in g[p].qubits
      ensures k in t.idToQueue && t.idToQueue[k] == p
    {
      if p == q2 {
        assert k in w.groups[q2].qubits || k in w.groups[q1].qubits;
      } else {
        assert k in w.groups[p].qubits && m[k] == p;
      }
    }
  }

  /** Merging keeps the invariant and the set of registered ids, and succeeds when both ids
      are registered. */
  lemma MergeOwns(w: World, id1: QubitId, id2: QubitId)
    requires Owns(w)
    ensures Owns(MergeSpec(w, id1, id2).world)
    ensures MergeSpec(w, id1, id2).world.tables.idToQueue.Keys == w.tables.idToQueue.Keys
    ensures MergeSpec(w, id1, id2).result ==
      if id1 in w.tables.idToQueue && id2 in w.tables.idToQueue then Done else Fail(KeyError)
  {
    var m := w.tables.idToQueue;
    if id1 in m && id2 in m && m[id1] != m[id2] {
      var t := w.tables;
      var sender := w.groups[m[id1]];
      assert forall k :: k in sender.qubits ==> k in t.idToThread;
      var ch := RepointLoop(t, sender.qubits, t.idToThread[id2], m[id2]);
      RepointBinds(t, sender.qubits, t.idToThread[id2], m[id2]);
      RepointKeeps(t, sender.qubits, t.idToThread[id2], m[id2]);
      RepointKeepsKeys(t, sender.qubits, t.idToThread[id2], m[id2]);
      Moved(w, m[id1], m[id2], ch.after);
    }
  }

  lemma ControlledGateOwns(w: World, g: Gate, id1: QubitId, id2: QubitId)
    requires Owns(w)
    ensures Owns(ControlledGateSpec(w, g, id1, id2).world)
  {
    MergeOwns(w, id1, id2);
    if id1 in w.tables.idToQueue && id2 in w.tables.idToQueue {
      ControlledGateUnfold(w, g, id1, id2);
      var v := MergeSpec(w, id1, id2).world;
      DeliverOwns(v, v.tables.idToQueue[id1], ControlledGateCmd(g, id1, id2));
    }
  }

  /** The tables and groups after measuring id, given the group it leaves behind. */
  lemma Dropped(w: World, id: QubitId, t: Tables, g: Group)
    requires Owns(w) && id in w.tables.idToQueue
    requires SameKeys(t) && t.idToQueue == w.tables.idToQueue - {id}
    requires g.qubits == RemoveFirst(w.groups[w.tables.idToQueue[id]].qubits, id)
    requires g.qubits != [] ==> Consistent(g)
    ensures Owns(World(t, if g.qubits == [] then w.groups - {w.tables.idToQueue[id]}
                          else w.groups[w.tables.idToQueue[id] := g], w.created))
  {
    var q := w.tables.idToQueue[id];
    DistinctRemove(w.groups[q].qubits, id);
    var groups := if g.qubits == [] then w.groups - {q} else w.groups[q := g];
    DroppedServed(w, id, t, g, groups);
    DroppedListed(w, id, t, g, groups);
  }

  lemma DroppedServed(w: World, id: QubitId, t: Tables, g: Group, groups: map<Queue, Group>)
    requires Owns(w) && id in w.tables.idToQueue
    requires t.idToQueue == w.tables.idToQueue - {id}
    requires forall k :: k in g.qubits <==> k in w.groups[w.tables.idToQueue[id]].qubits && k != id
    requires groups == if g.qubits == [] then w.groups - {w.tables.idToQueue[id]} else w.groups[w.tables.idToQueue[id] := g]
    ensures Served(t, groups)
  {
    var q := w.tables.idToQueue[id];
    forall k | k in t.idToQueue
      ensures t.idToQueue[k] in groups && k in groups[t.idToQueue[k]].qubits
    {
      if t.idToQueue[k] == q {
        assert k in w.groups[q].qubits && k != id;
      }
    }
  }

  lemma DroppedListed(w: World, id: QubitId, t: Tables, g: Group, groups: map<Queue, Group>)
    requires Owns(w) && id in w.tables.idToQueue
    requires t.idToQueue == w.tables.idToQueue - {id}
    requires forall k :: k in g.qubits <==> k in w.groups[w.tables.idToQueue[id]].qubits && k != id
    requires groups == if g.qubits == [] then w.groups - {w.tables.idToQueue[id]} else w.groups[w.tables.idToQueue[id] := g]
    ensures Listed(t, groups)
  {
    var q := w.tables.idToQueue[id];
    forall p, k | p in groups && k in groups[p].qubits
      ensures k in t.idToQueue && t.idToQueue[k] == p
    {
      if p == q {
        assert k in w.groups[q].qubits && k != id;
      }
    }
  }

  lemma MeasureOwns(w: World, id: QubitId, nonDestructive: bool, u: real, alive: bool)
    requires Owns(w) && 0.0 <= u < 1.0
    ensures Owns(MeasureQubitSpec(w, id, nonDestructive, u, alive).world)
  {
    var m := w.tables.idToQueue;
    if id in m && !nonDestructive {
      var r := MeasureSpec(w.groups[m[id]], id, u);
      if r.Ok? {
        DeleteJoinKeepsKeys(w.tables, id, alive);
        Dropped(w, id, DeleteJoinSpec(w.tables, id, alive).after, r.value.after);
      }
    }
  }

  // ---------------------------------------------------------------- properties

  /** Merging two registered ids on different queues: every id of q_id1's group is now
      served by q_id2's queue and every other id where it was, the receiving group lists its
      own ids first and then the sender's, its vector is the Kronecker product of the two, and
      q_id1's worker is gone. */
  lemma MergeMoves(w: World, id1: QubitId, id2: QubitId)
    requires Owns(w) && id1 in w.tables.idToQueue && id2 in w.tables.idToQueue
    requires w.tables.idToQueue[id1] != w.tables.idToQueue[id2]
    ensures var q1, q2 := w.tables.idToQueue[id1], w.tables.idToQueue[id2];
      var r := MergeSpec(w, id1, id2).world;
      q1 !in r.groups && q2 in r.groups &&
      r.groups[q2] == Group(w.groups[q2].qubits + w.groups[q1].qubits, KronVec(w.groups[q2].qubit, w.groups[q1].qubit)) &&
      (forall k :: k in w.groups[q1].qubits ==> k in r.tables.idToQueue && r.tables.idToQueue[k] == q2) &&
      (forall k :: k in w.tables.idToQueue && k !in w.groups[q1].qubits ==>
        k in r.tables.idToQueue && r.tables.idToQueue[k] == w.tables.idToQueue[k])
  {
    var m := w.tables.idToQueue;
    var sender := w.groups[m[id1]];
    var newT := w.tables.idToThread[id2];
    assert forall k :: k in sender.qubits ==> k in w.tables.idToThread;
    RepointBinds(w.tables, sender.qubits, newT, m[id2]);
    RepointKeeps(w.tables, sender.qubits, newT, m[id2]);
  }

  /** Merging two ids already on one queue changes nothing. */
  lemma MergeSameQueue(w: World, id1: QubitId, id2: QubitId)
    requires Owns(w) && id1 in w.tables.idToQueue && id2 in w.tables.idToQueue
    requires w.tables.idToQueue[id1] == w.tables.idToQueue[id2]
    ensures MergeSpec(w, id1, id2) == After(w, Done)
  {
  }

  /** What the sender of a merge does with the commands merge_qubits puts on its queue: it
      answers MERGE_SEND with its ids and vector and GIVE_QUBITS_AND_TERMINATE with its ids,
      and ends. */
  lemma SenderProtocol(sender: Group)
    requires Consistent(sender)
    ensures Admissible([MergeSendCmd, GiveQubitsCmd])
    ensures RunSpec(sender, [MergeSendCmd, GiveQubitsCmd]) ==
      Trace(sender, Returned, [Handover(sender.qubits, sender.qubit), QubitList(sender.qubits)], 2)
  {
    var give := [MergeSendCmd, GiveQubitsCmd];
    assert CommandAdmissible(give[0]) && CommandAdmissible(give[1]);
    RunUnfold(sender, give);
    assert give[1..] == [GiveQubitsCmd];
    RunUnfold(sender, give[1..]);
  }

  /** The receiver of a merge appends what it was handed and waits for more. */
  lemma ReceiverProtocol(sender: Group, receiver: Group)
    requires Consistent(sender) && Consistent(receiver)
    ensures Admissible([MergeAcceptCmd(sender.qubits, sender.qubit)])
    ensures RunSpec(receiver, [MergeAcceptCmd(sender.qubits, sender.qubit)]) ==
      Trace(Accept(receiver, sender.qubits, sender.qubit), Waiting, [], 1)
  {
    var accept := [MergeAcceptCmd(sender.qubits, sender.qubit)];
    assert CommandAdmissible(accept[0]);
    RunUnfold(receiver, accept);
    assert accept[1..] == [];
  }

  /** cnot_gate or cphase_gate on two registered ids: the merge succeeds and the controlled
      gate goes to the queue q_id1 has after it. */
  lemma ControlledGateUnfold(w: World, g: Gate, id1: QubitId, id2: QubitId)
    requires Owns(w) && id1 in w.tables.idToQueue && id2 in w.tables.idToQueue
    ensures Owns(MergeSpec(w, id1, id2).world) && id1 in MergeSpec(w, id1, id2).world.tables.idToQueue
    ensures ControlledGateSpec(w, g, id1, id2) ==
      Deliver(MergeSpec(w, id1, id2).world, MergeSpec(w, id1, id2).world.tables.idToQueue[id1], ControlledGateCmd(g, id1, id2))
  {
    MergeOwns(w, id1, id2);
  }

  /** A controlled gate delivered to a worker succeeds exactly when Controlled does. */
  lemma DeliverControlled(w: World, q: Queue, g: Gate, id1: QubitId, id2: QubitId)
    requires q in w.groups && Consistent(w.groups[q])
    ensures Deliver(w, q, ControlledGateCmd(g, id1, id2)).result ==
      if Controlled(w.groups[q], g, id1, id2).Ok? then Done else Fail(Controlled(w.groups[q], g, id1, id2).error)
  {
  }

  /** After a merge of two separate groups the target q_id1 sits after the control q_id2,
      so the controlled gate of cnot_gate and cphase_gate does not reach the misspelt name:
      either gate on registered qubits of different groups succeeds. */
  lemma ControlledAcrossGroups(w: World, g: Gate, id1: QubitId, id2: QubitId)
    requires Owns(w) && id1 in w.tables.idToQueue && id2 in w.tables.idToQueue
    requires w.tables.idToQueue[id1] != w.tables.idToQueue[id2]
    ensures ControlledGateSpec(w, g, id1, id2).result == Done
  {
    var m := w.tables.idToQueue;
    ControlledGateUnfold(w, g, id1, id2);
    MergeMoves(w, id1, id2);
    var v := MergeSpec(w, id1, id2).world;
    assert v.tables.idToQueue[id1] == m[id2];
    ForwardOrder(w.groups[m[id2]], w.groups[m[id1]], g, id1, id2);
    DeliverControlled(v, m[id2], g, id1, id2);
  }

  /** Once a merge has put q_id1 after q_id2 in one group, cnot_gate or cphase_gate the other
      way round, with target q_id2 before control q_id1, raises NameError. */
  lemma ControlledBackwards(w: World, g: Gate, id1: QubitId, id2: QubitId)
    requires Owns(w) && id1 in w.tables.idToQueue && id2 in w.tables.idToQueue
    requires w.tables.idToQueue[id1] != w.tables.idToQueue[id2]
    ensures Owns(MergeSpec(w, id1, id2).world)
    ensures ControlledGateSpec(MergeSpec(w, id1, id2).world, g, id2, id1).result == Fail(NameError)
  {
    var m := w.tables.idToQueue;
    MergeOwns(w, id1, id2);
    MergeMoves(w, id1, id2);
    var v := MergeSpec(w, id1, id2).world;
    assert v.tables.idToQueue[id1] == v.tables.idToQueue[id2] == m[id2];
    ControlledGateUnfold(v, g, id2, id1);
    MergeSameQueue(v, id2, id1);
    ForwardOrder(w.groups[m[id2]], w.groups[m[id1]], g, id1, id2);
    DeliverControlled(v, m[id2], g, id2, id1);
  }

  /** In receiver ++ sender, an id of the sender comes after an id of the receiver. */
  lemma ForwardOrder(receiver: Group, sender: Group, g: Gate, id1: QubitId, id2: QubitId)
    requires id1 in sender.qubits && id2 in receiver.qubits && id1 !in receiver.qubits
    requires Consistent(receiver) && Consistent(sender)
    ensures var merged := Group(receiver.qubits + sender.qubits, KronVec(receiver.qubit, sender.qubit));
      Consistent(merged) &&
      Controlled(merged, g, id1, id2).Ok? && Controlled(merged, g, id2, id1) == Err(NameError)
  {
    var merged := Accept(receiver, sender.qubits, sender.qubit);
    IndexOfAppend(receiver.qubits, sender.qubits, id2);
    IndexOfAppend(receiver.qubits, sender.qubits, id1);
  }

  /** A measurement that comes back takes the id out of the registry, and a
      non-destructive one raises and changes nothing. */
  lemma MeasureUnregisters(w: World, id: QubitId, nonDestructive: bool, u: real, alive: bool)
    requires Owns(w) && 0.0 <= u < 1.0
    ensures nonDestructive ==> MeasureQubitSpec(w, id, nonDestructive, u, alive) == After(w, Raises(if id in w.tables.idToQueue then NameError else KeyError))
    ensures MeasureQubitSpec(w, id, nonDestructive, u, alive).result.Returns? ==>
      id in w.tables.idToQueue &&
      MeasureQubitSpec(w, id, nonDestructive, u, alive).world.tables.idToQueue == w.tables.idToQueue - {id} &&
      MeasureQubitSpec(w, id, nonDestructive, u, alive).result.bit < 2
  {
  }

  /** merge_qubits on ids of two different queues q1 and q2. */
  lemma MergeUnfold(w: World, id1: QubitId, id2: QubitId, q1: Queue, q2: Queue)
    requires Owns(w) && id1 in w.tables.idToQueue && id2 in w.tables.idToQueue
    requires w.tables.idToQueue[id1] == q1 && w.tables.idToQueue[id2] == q2 && q1 != q2
    ensures q1 in w.groups && q2 in w.groups && Consistent(w.groups[q1]) && Consistent(w.groups[q2])
    ensures var ch := ChangeSpec(w.tables, w.groups[q1].qubits, id2);
      MergeSpec(w, id1, id2) ==
        After(World(ch.after, (w.groups - {q1})[q2 := Accept(w.groups[q2], w.groups[q1].qubits, w.groups[q1].qubit)], w.created),
              ch.status)
  {
  }

  /** A destructive measure of a registered id on queue q. */
  lemma MeasureUnfold(w: World, id: QubitId, u: real, alive: bool, q: Queue)
    requires Owns(w) && 0.0 <= u < 1.0 && id in w.tables.idToQueue && w.tables.idToQueue[id] == q
    ensures q in w.groups && Consistent(w.groups[q])
    ensures var m := MeasureSpec(w.groups[q], id, u);
      MeasureQubitSpec(w, id, false, u, alive) ==
        if m.Err? then After(w, NoReply)
        else After(World(DeleteJoinSpec(w.tables, id, alive).after,
                         if m.value.after.qubits == [] then w.groups - {q} else w.groups[q := m.value.after], w.created),
                   Returns(m.value.outcome))
  {
  }

  /** gates.measure waits forever where the intended measurement would answer: a new qubit
      taken by X_gate then Y_gate to -i|0> makes its worker raise ValueError on MEASURE, so
      no outcome ever reaches the return channel, and the registry keeps the id. */
  lemma NewXYMeasureBlocks(w: World, id: QubitId, u: real, alive: bool)
    requires Owns(w) && id !in w.tables.idToQueue && 0.0 <= u < 1.0
    ensures Owns(NewQubitSpec(w, id))
    ensures var w1 := NewQubitSpec(w, id);
      var q := Queue(w.created);
      var w2 := w1.(groups := w1.groups[q := Group([id], Basis(1))]);
      var w3 := w1.(groups := w1.groups[q := Group([id], [Complex(0.0, -1.0), Zero])]);
      GateSpec(w1, PauliX, id) == After(w2, Done) && Owns(w2) &&
      GateSpec(w2, PauliY, id) == After(w3, Done) && Owns(w3) &&
      MeasureQubitSpec(w3, id, false, u, alive) == After(w3, NoReply)
  {
    NewQubitOwns(w, id);
    var w1 := NewQubitSpec(w, id);
    var q := Queue(w.created);
    var w2 := w1.(groups := w1.groups[q := Group([id], Basis(1))]);
    assert w1.tables.idToQueue[id] == q && w1.groups[q] == Fresh(id);
    FreshX(w1, id, q);
    OneY(w2, id, q);
    RegroupTwice(w1, q, Group([id], Basis(1)), Group([id], [Complex(0.0, -1.0), Zero]));
    MinusImagBlocks(w1.(groups := w1.groups[q := Group([id], [Complex(0.0, -1.0), Zero])]), id, q, u, alive);
  }

  /** A worker's group replaced twice holds the second. */
  lemma RegroupTwice(w: World, q: Queue, a: Group, b: Group)
    ensures var v := w.(groups := w.groups[q := a]);
      v.(groups := v.groups[q := b]) == w.(groups := w.groups[q := b])
  {
    assert w.groups[q := a][q := b] == w.groups[q := b];
  }

  /** X_gate on a new qubit's own worker: the group becomes |1>. */
  lemma FreshX(w: World, id: QubitId, q: Queue)
    requires Owns(w) && id in w.tables.idToQueue && w.tables.idToQueue[id] == q
    requires q in w.groups && w.groups[q] == Fresh(id)
    ensures var w2 := w.(groups := w.groups[q := Group([id], Basis(1))]);
      GateSpec(w, PauliX, id) == After(w2, Done) && Owns(w2)
  {
    XThenYSteps(id);
    GateOwns(w, PauliX, id);
  }

  /** Y_gate on a worker holding |1> alone: the group becomes -i|0>. */
  lemma OneY(w: World, id: QubitId, q: Queue)
    requires Owns(w) && id in w.tables.idToQueue && w.tables.idToQueue[id] == q
    requires q in w.groups && w.groups[q] == Group([id], Basis(1))
    ensures var w3 := w.(groups := w.groups[q := Group([id], [Complex(0.0, -1.0), Zero])]);
      GateSpec(w, PauliY, id) == After(w3, Done) && Owns(w3)
  {
    XThenYSteps(id);
    GateOwns(w, PauliY, id);
  }

  /** gates.measure on a worker holding -i|0> alone waits forever. */
  lemma MinusImagBlocks(w: World, id: QubitId, q: Queue, u: real, alive: bool)
    requires Owns(w) && id in w.tables.idToQueue && w.tables.idToQueue[id] == q
    requires q in w.groups && w.groups[q] == Group([id], [Complex(0.0, -1.0), Zero])
    requires 0.0 <= u < 1.0
    ensures MeasureQubitSpec(w, id, false, u, alive) == After(w, NoReply)
  {
    MinusImagFails(id, u);
    MeasureUnfold(w, id, u, alive, q);
  }

  /** get_queues_for_ids([q_id]) raises only for an unregistered id. */
  lemma Missing(m: map<QubitId, Queue>, id: QubitId)
    requires exists k :: k in [id] && k !in m
    ensures id !in m
  {
  }

  /** get_queues_for_ids([q_id1, q_id2]) raises only for an unregistered id. */
  lemma MissingOne(m: map<QubitId, Queue>, a: QubitId, b: QubitId)
    requires exists k :: k in [a, b] && k !in m
    ensures a !in m || b !in m
  {
    var k :| k in [a, b] && k !in m;
    assert k == a || k == b;
  }

  /** get_queues_for_ids([q_id]) for a registered id: its queue alone. */
  lemma LookupOne(m: map<QubitId, Queue>, id: QubitId)
    requires id in m
    ensures Dedup(Lookups(m, [id])) == [m[id]]
  {
    assert Lookups(m, [id]) == [] + [m[id]];
    DedupSnoc([], m[id]);
  }

  // ---------------------------------------------------------------- the module state

  /** The simulator behind eqsn/gates.py: the registry of eqsn/shared_dict.py, the worker
      behind each live queue, and the number of queues and processes created so far. */
  class Simulator {
    const registry: Registry
    var groups: map<Queue, Group>
    var created: nat

    function Abs(): World
      reads this, registry
    {
      World(registry.Abs(), groups, created)
    }

    /** Import time: no qubits, no workers. */
    constructor ()
      ensures Abs() == World(Tables(map[], map[], [], []), map[], 0) && Owns(Abs())
      ensures fresh(registry)
    {
      registry := new Registry();
      groups := map[];
      created := 0;
    }

    /** new_qubit: a new queue, a worker for the id on it, and its registration. */
    method NewQubit(id: QubitId)
      modifies this, registry
      ensures Abs() == NewQubitSpec(old(Abs()), id)
      ensures old(id !in registry.idToQueue && Owns(Abs())) ==> Owns(Abs())
    {
      ghost var w := Abs();
      var q, process := Queue(created), Thread(created);
      var thread := new QubitThread(id);
      registry.SetThreadWithId(id, process, q);
      groups := groups[q := thread.Abs()];
      created := created + 1;
      if id !in w.tables.idToQueue && Owns(w) {
        NewQubitOwns(w, id);
      }
    }

    /** X_gate. */
    method XGate(id: QubitId) returns (r: Status)
      requires Owns(Abs())
      modifies this
      ensures After(Abs(), r) == GateSpec(old(Abs()), PauliX, id) && Owns(Abs())
    {
      r := PutSingleGate(PauliX, id);
    }

    /** Y_gate. */
    method YGate(id: QubitId) returns (r: Status)
      requires Owns(Abs())
      modifies this
      ensures After(Abs(), r) == GateSpec(old(Abs()), PauliY, id) && Owns(Abs())
    {
      r := PutSingleGate(PauliY, id);
    }

    /** Z_gate. */
    method ZGate(id: QubitId) returns (r: Status)
      requires Owns(Abs())
      modifies this
      ensures After(Abs(), r) == GateSpec(old(Abs()), PauliZ, id) && Owns(Abs())
    {
      r := PutSingleGate(PauliZ, id);
    }

    /** The queue of the id, and SINGLE_GATE with the matrix on it, taken by its worker. */
    method PutSingleGate(g: Gate, id: QubitId) returns (r: Status)
      requires Owns(Abs())
      modifies this
      ensures After(Abs(), r) == GateSpec(old(Abs()), g, id) && Owns(Abs())
    {
      ghost var w := Abs();
      var l := registry.GetQueuesForIds([id]);
      if l.Err? {
        Missing(registry.idToQueue, id);
        return Fail(l.error);
      }
      LookupOne(registry.idToQueue, id);
      var q := l.value[0];
      r := Put(q, SingleGateCmd(g, id));
      GateOwns(w, g, id);
    }

    /** A gate command put on queue q and taken by its worker; a worker that raises keeps its
        group. */
    method Put(q: Queue, c: Command) returns (r: Status)
      requires q in groups && Consistent(groups[q]) && (c.SingleGateCmd? || c.ControlledGateCmd?)
      modifies this
      ensures After(Abs(), r) == Deliver(old(Abs()), q, c)
    {
      match Step(groups[q], c)
      case Halt(t) =>
        r := Fail(if t.end.Raised? then t.end.error else ValueError);
      case Continue(next, _) =>
        groups := groups[q := next];
        r := Done;
    }

    /** merge_qubits: the queues of the two ids; when they differ, the workers hand over
        and the ids q_id1's worker gives back are repointed to q_id2's thread and queue. */
    method MergeQubits(id1: QubitId, id2: QubitId) returns (r: Status)
      requires Owns(Abs())
      modifies this, registry
      ensures After(Abs(), r) == MergeSpec(old(Abs()), id1, id2)
      ensures Owns(Abs())
    {
      ghost var w := Abs();
      MergeOwns(w, id1, id2);
      var l := registry.GetQueuesForIds([id1, id2]);
      if l.Err? {
        MissingOne(registry.idToQueue, id1, id2);
        assert MergeSpec(w, id1, id2) == After(w, Fail(KeyError));
        return Fail(l.error);
      }
      PairLookup(registry.idToQueue, id1, id2);
      if |l.value| == 1 {
        MergeSameQueue(w, id1, id2);
        return Done;
      }
      r := MergeGroups(id1, id2, l.value[0], l.value[1]);
    }

    /** merge_qubits for ids on two different queues q1 and q2. */
    method MergeGroups(id1: QubitId, id2: QubitId, q1: Queue, q2: Queue) returns (r: Status)
      requires Owns(Abs()) && id1 in registry.idToQueue && id2 in registry.idToQueue
      requires registry.idToQueue[id1] == q1 && registry.idToQueue[id2] == q2 && q1 != q2
      modifies this, registry
      ensures After(Abs(), r) == MergeSpec(old(Abs()), id1, id2)
    {
      MergeUnfold(Abs(), id1, id2, q1, q2);
      var qubits := HandOver(q1, q2);
      r := registry.ChangeThreadAndQueueOfIdsAndJoin(qubits, id2);
    }

    /** The commands merge_qubits puts on the two queues, taken by their workers: q1's worker
        answers MERGE_SEND with its group, q2's worker appends it on MERGE_ACCEPT, and q1's
        worker answers GIVE_QUBITS_AND_TERMINATE with its ids and ends. */
    method HandOver(q1: Queue, q2: Queue) returns (qubits: seq<QubitId>)
      requires q1 in groups && q2 in groups && q1 != q2 && Consistent(groups[q1]) && Consistent(groups[q2])
      modifies this
      ensures qubits == old(groups[q1].qubits)
      ensures groups == (old(groups) - {q1})[q2 := Accept(old(groups[q2]), qubits, old(groups[q1].qubit))]
      ensures created == old(created)
    {
      var send := Step(groups[q1], MergeSendCmd);
      var handed := send.out[0];
      var accept := Step(groups[q2], MergeAcceptCmd(handed.ids, handed.vector));
      var give := Step(send.next, GiveQubitsCmd);
      qubits := give.trace.sent[0].ids;
      groups := (groups - {q1})[q2 := accept.next];
    }

    /** cnot_gate: merge, then CONTROLLED_GATE with X on the queue of q_id1. */
    method CnotGate(id1: QubitId, id2: QubitId) returns (r: Status)
      requires Owns(Abs())
      modifies this, registry
      ensures After(Abs(), r) == CnotSpec(old(Abs()), id1, id2) && Owns(Abs())
    {
      r := ControlledGate(PauliX, id1, id2);
    }

    /** cphase_gate: merge, then CONTROLLED_GATE with [[0, 1], [0, -1]] on the queue of q_id1. */
    method CphaseGate(id1: QubitId, id2: QubitId) returns (r: Status)
      requires Owns(Abs())
      modifies this, registry
      ensures After(Abs(), r) == CphaseSpec(old(Abs()), id1, id2) && Owns(Abs())
    {
      r := ControlledGate(CphaseMatrix, id1, id2);
    }

    /** The steps cnot_gate and cphase_gate share. */
    method ControlledGate(g: Gate, id1: QubitId, id2: QubitId) returns (r: Status)
      requires Owns(Abs())
      modifies this, registry
      ensures After(Abs(), r) == ControlledGateSpec(old(Abs()), g, id1, id2) && Owns(Abs())
    {
      ghost var w := Abs();
      r := MergeQubits(id1, id2);
      if r.Fail? {
        return;
      }
      var l := registry.GetQueuesForIds([id1]);
      if l.Err? {
        return Fail(KeyError);
      }
      LookupOne(registry.idToQueue, id1);
      var q := l.value[0];
      r := Put(q, ControlledGateCmd(g, id1, id2));
      ControlledGateOwns(w, g, id1, id2);
    }

    /** measure: the worker measures and puts the outcome on the return channel; after a
        destructive measurement the id leaves the registry. */
    method Measure(id: QubitId, nonDestructive: bool, u: real, alive: bool) returns (r: Reply)
      requires Owns(Abs()) && 0.0 <= u < 1.0
      modifies this, registry
      ensures After(Abs(), r) == MeasureQubitSpec(old(Abs()), id, nonDestructive, u, alive)
      ensures Owns(Abs())
    {
      ghost var w := Abs();
      MeasureOwns(w, id, nonDestructive, u, alive);
      var l := registry.GetQueuesForIds([id]);
      if l.Err? {
        Missing(registry.idToQueue, id);
        return Raises(l.error);
      }
      if nonDestructive {
        return Raises(NameError);
      }
      LookupOne(registry.idToQueue, id);
      MeasureUnfold(w, id, u, alive, l.value[0]);
      r := TakeMeasurement(l.value[0], id, u);
      if r.Returns? {
        var _ := registry.DeleteIdAndCheckToJoinThread(id, alive);
      }
    }

    /** MEASURE on queue q, taken by its worker: the outcome it puts on the return channel,
        or nothing ever when it raises. A worker that measured its last qubit ends. */
    method TakeMeasurement(q: Queue, id: QubitId, u: real) returns (r: Reply)
      requires q in groups && Consistent(groups[q]) && 0.0 <= u < 1.0
      modifies this
      ensures var m := MeasureSpec(old(groups[q]), id, u);
        m.Err? ==> r == NoReply && groups == old(groups)
      ensures var m := MeasureSpec(old(groups[q]), id, u);
        m.Ok? ==> r == Returns(m.value.outcome) && groups == (if m.value.after.qubits == [] then old(groups) - {q} else old(groups)[q := m.value.after])
      ensures created == old(created)
    {
      match Step(groups[q], MeasureCmd(id, u))
      case Halt(t) =>
        if t.end.Raised? {
          return NoReply;
        }
        r := Returns(t.sent[0].bit);
        groups := groups - {q};
      case Continue(next, out) =>
        r := Returns(out[0].bit);
        groups := groups[q := next];
    }
  }
}

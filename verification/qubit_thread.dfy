/** The worker that owns one group of qubits (eqsn/qubit_thread.py): the ids of its qubits in
    register order, their joint state vector, and the loop that takes commands from its queue.

    The operations are stated twice. The functions on Group values say what each command does
    with the reference semantics of StateVector; the methods of QubitThread compute what the
    source computes (the explicit np.kron / np.eye matrices and np.dot) and are proved to end
    in the state the functions give. */
module QubitThreads {
  import opened ComplexNumbers
  import opened LinearAlgebra
  import opened StateVector
  import opened PauliGates
  import opened ThreadMatrices
  import opened Measurement
  import opened Outcomes
  import opened Lists

  /** The state of one worker: qubit ids, position 0 first, and the state vector in which
      position p is the bit of weight 2^(n-p-1). */
  datatype Group = Group(qubits: seq<QubitId>, qubit: Vector)

  /** The vector has one amplitude per basis state of the group's qubits. */
  ghost predicate Consistent(s: Group)
  {
    |s.qubit| == Pow2(|s.qubits|)
  }

  /** A new worker: one qubit, in state |0>. */
  function Fresh(id: QubitId): (s: Group)
    ensures Consistent(s) && id in s.qubits
  {
    Group([id], Basis(0))
  }

  /** The weight of the qubit at position p among n. */
  function Weight(n: nat, p: nat): (a: nat)
    requires p < n
    ensures a > 0 && Blocks(Pow2(n), 2 * a)
  {
    RegisterBlocks(p, n - p - 1);
    assert p + 1 + (n - p - 1) == n;
    Pow2(n - p - 1)
  }

  // ---------------------------------------------------------------- what each command does

  /** apply_single_gate: list.index raises ValueError for an id the group does not hold;
      otherwise the gate acts on the qubit at that id's first position. */
  function SingleGate(s: Group, g: Gate, id: QubitId): (r: Result<Group>)
    requires Consistent(s)
    ensures r.Err? <==> id !in s.qubits
    ensures r.Err? ==> r.error == ValueError
    ensures r.Ok? ==> r.value.qubits == s.qubits && Consistent(r.value)
  {
    var p := IndexOf(s.qubits, id);
    if p == |s.qubits| then Err(ValueError)
    else Ok(Group(s.qubits, ApplyGate(g, s.qubit, Weight(|s.qubits|, p))))
  }

  /** apply_controlled_gate with target id1 and control id2: either id missing raises
      ValueError; a target at or before its control reaches the misspelt name firt_mat and
      raises NameError; otherwise the gate acts on the target where the control is 1. */
  function Controlled(s: Group, g: Gate, id1: QubitId, id2: QubitId): (r: Result<Group>)
    requires Consistent(s)
    ensures r.Err? <==> id1 !in s.qubits || id2 !in s.qubits ||
                        IndexOf(s.qubits, id1) <= IndexOf(s.qubits, id2)
    ensures r.Err? && id1 in s.qubits && id2 in s.qubits ==> r.error == NameError
    ensures r.Err? && (id1 !in s.qubits || id2 !in s.qubits) ==> r.error == ValueError
    ensures r.Ok? ==> r.value.qubits == s.qubits && Consistent(r.value)
  {
    var n := |s.qubits|;
    var p1, p2 := IndexOf(s.qubits, id1), IndexOf(s.qubits, id2);
    if p1 == n || p2 == n then Err(ValueError)
    else if p1 <= p2 then Err(NameError)
    else Ok(Group(s.qubits, ApplyControlled(g, s.qubit, Weight(n, p1), Weight(n, p2))))
  }

  /** The matrix apply_controlled_gate builds, for a target after its control, does what
      Controlled says. */
  lemma ControlledStep(s: Group, g: Gate, id1: QubitId, id2: QubitId, before: nat, mid: nat, after: nat)
    requires Consistent(s) && id1 in s.qubits && id2 in s.qubits
    requires before == IndexOf(s.qubits, id2) < IndexOf(s.qubits, id1)
    requires mid == IndexOf(s.qubits, id1) - before - 1 && after == |s.qubits| - IndexOf(s.qubits, id1) - 1
    ensures Shaped(ControlledMatrix(g, before, mid, after))
    ensures Cols(ControlledMatrix(g, before, mid, after)) == |s.qubit|
    ensures Controlled(s, g, id1, id2) == Ok(Group(s.qubits, MatVec(ControlledMatrix(g, before, mid, after), s.qubit)))
  {
    var n, p1 := |s.qubits|, IndexOf(s.qubits, id1);
    assert before + 1 + mid + 1 + after == n;
    assert Weight(n, p1) == Pow2(after);
    assert mid + 1 + after == n - before - 1;
    assert Weight(n, before) == Pow2(mid + 1 + after);
    ControlledCorrect(g, before, mid, after, s.qubit);
    assert Controlled(s, g, id1, id2) == Ok(Group(s.qubits, ApplyControlled(g, s.qubit, Weight(n, p1), Weight(n, before))));
  }

  /** The reduction matrix measure builds, for a drawn outcome, does what MeasureSpec says. */
  lemma MeasureDrawn(s: Group, id: QubitId, u: real, before: nat, after: nat, b: nat)
    requires Consistent(s) && 0.0 <= u < 1.0 && id in s.qubits
    requires before == IndexOf(s.qubits, id) && after == |s.qubits| - before - 1
    requires Draw(s.qubit, before, after, u) == Ok(b)
    ensures b < 2
    ensures MeasureSpec(s, id, u) == Ok(Measured(Reduced(s, id, b), b))
  {
  }

  lemma ReducedByMatrix(s: Group, id: QubitId, before: nat, after: nat, b: nat)
    requires Consistent(s) && id in s.qubits && b < 2
    requires before == IndexOf(s.qubits, id) && after == |s.qubits| - before - 1
    ensures |s.qubits| > 1 ==> Shaped(ReductionMatrix(b, before, after))
    ensures |s.qubits| > 1 ==> Cols(ReductionMatrix(b, before, after)) == |s.qubit|
    ensures Reduced(s, id, b) == Group(RemoveFirst(s.qubits, id),
      if |s.qubits| == 1 then s.qubit else MatVec(ReductionMatrix(b, before, after), s.qubit))
  {
    var n := |s.qubits|;
    assert before + 1 + after == n;
    assert Weight(n, before) == Pow2(after);
    if n > 1 {
      ReductionCorrect(b, before, after, s.qubit);
    }
  }

  lemma MeasureStep(s: Group, id: QubitId, u: real, before: nat, after: nat, b: nat)
    requires Consistent(s) && 0.0 <= u < 1.0 && id in s.qubits
    requires before == IndexOf(s.qubits, id) && after == |s.qubits| - before - 1
    requires Draw(s.qubit, before, after, u) == Ok(b)
    ensures b < 2
    ensures |s.qubits| > 1 ==> Shaped(ReductionMatrix(b, before, after))
    ensures |s.qubits| > 1 ==> Cols(ReductionMatrix(b, before, after)) == |s.qubit|
    ensures MeasureSpec(s, id, u) == Ok(Measured(Group(RemoveFirst(s.qubits, id),
      if |s.qubits| == 1 then s.qubit else MatVec(ReductionMatrix(b, before, after), s.qubit)), b))
  {
    MeasureDrawn(s, id, u, before, after, b);
    ReducedByMatrix(s, id, before, after, b);
  }

  /** A failing draw fails the measurement with ValueError. */
  lemma MeasureFails(s: Group, id: QubitId, u: real, before: nat, after: nat)
    requires Consistent(s) && 0.0 <= u < 1.0 && id in s.qubits
    requires before == IndexOf(s.qubits, id) && after == |s.qubits| - before - 1
    requires Draw(s.qubit, before, after, u).Err?
    ensures MeasureSpec(s, id, u) == Err(ValueError)
  {
    assert before + 1 + after == |s.qubits|;
  }

  /** pr_0 as measure computes it: measure_vec is [1, 0] widened with ones on each side of the
      measured position, and pr_0 the sum of squares of its entrywise product with the vector. */
  method ZeroWeight(v: Vector, before: nat, after: nat) returns (pr0: Complex)
    requires |v| == Pow2(before + 1 + after)
    ensures pr0 == ProbZeroAsWritten(v, before, after)
  {
    var measureVec := [One, Zero];
    if before > 0 {
      measureVec := KronVec(Ones(Pow2(before)), measureVec);
    }
    if after > 0 {
      measureVec := KronVec(measureVec, Ones(Pow2(after)));
    }
    assert measureVec == MeasureVector(before, after);
    MeasureVectorSize(before, after);
    var weighted := Hadamard(measureVec, v);
    pr0 := Dot(weighted, weighted);
  }

  /** The draw measure makes: binomial(1, 1 - pr_0) on the vector as the model holds it, which
      the source holds divided by its norm. */
  method WorkerDraw(v: Vector, before: nat, after: nat, u: real) returns (draw: Result<nat>)
    requires |v| == Pow2(before + 1 + after) && 0.0 <= u < 1.0
    ensures draw == Draw(v, before, after, u)
  {
    var pr0 := ZeroWeight(v, before, after);
    var norm := NormSq(v);
    draw := if norm == 0.0 then Err(ValueError) else Binomial(1.0 - pr0.re / norm, u);
    DrawAsWritten(v, before, after, u);
  }

  /** The result of a measurement: the worker's new state and the outcome put on the
      return channel. */
  datatype Measured = Measured(after: Group, outcome: nat)

  /** measure with u the uniform number behind np.random.binomial: ValueError for an id the
      group does not hold, and ValueError when the draw as written fails (a probability
      outside [0, 1], or no probability at all); otherwise the outcome is drawn, the id's
      first occurrence leaves the list, and unless it was the group's last qubit the vector
      keeps just the amplitudes that agree with the outcome. The vector of a group that
      measured its last qubit is left as it was. */
  function MeasureSpec(s: Group, id: QubitId, u: real): (r: Result<Measured>)
    requires Consistent(s) && 0.0 <= u < 1.0
    ensures id !in s.qubits || NormSq(s.qubit) == 0.0 ==> r.Err?
    ensures r.Err? ==> r.error == ValueError
    ensures r.Ok? ==> r.value.outcome < 2 && r.value.after.qubits == RemoveFirst(s.qubits, id)
    ensures r.Ok? && |s.qubits| == 1 ==> r.value.after.qubits == [] && r.value.after.qubit == s.qubit
    ensures r.Ok? && |s.qubits| > 1 ==> Consistent(r.value.after)
  {
    var p := IndexOf(s.qubits, id);
    if p == |s.qubits| then Err(ValueError)
    else
      var n := |s.qubits|;
      assert p + 1 + (n - p - 1) == n;
      var d := Draw(s.qubit, p, n - p - 1, u);
      if d.Err? then Err(d.error) else Ok(Measured(Reduced(s, id, d.value), d.value))
  }

  /** The group after outcome b of a measurement of id: the id's first occurrence leaves
      the list, and when qubits remain, the vector keeps the amplitudes with that outcome. */
  function Reduced(s: Group, id: QubitId, b: nat): (r: Group)
    requires Consistent(s) && id in s.qubits && b < 2
    ensures r.qubits == RemoveFirst(s.qubits, id)
    ensures |s.qubits| == 1 ==> r.qubits == [] && r.qubit == s.qubit
    ensures |s.qubits| > 1 ==> Consistent(r)
  {
    var n := |s.qubits|;
    var rest := RemoveFirst(s.qubits, id);
    if n == 1 then Group(rest, s.qubit)
    else
      assert 2 * Pow2(n - 1) == Pow2(n);
      Group(rest, Collapse(s.qubit, Weight(n, IndexOf(s.qubits, id)), b))
  }

  /** merge_accept: the received ids go after this group's own, and the state vector becomes
      the Kronecker product of the two vectors. */
  function Accept(s: Group, ids: seq<QubitId>, vector: Vector): (r: Group)
    ensures |r.qubits| == |s.qubits| + |ids|
    ensures Consistent(s) && |vector| == Pow2(|ids|) ==> Consistent(r)
  {
    Pow2Add(|s.qubits|, |ids|);
    Group(s.qubits + ids, KronVec(s.qubit, vector))
  }

  // ---------------------------------------------------------------- the command loop

  /** An item taken from the worker's queue. The tags are those of eqsn/qubit_thread.py:4-10;
      OtherCmd stands for a list whose tag is none of SINGLE_GATE .. GIVE_QUBITS_AND_TERMINATE
      (NONE = 0 included). */
  datatype Command =
    | Stop                                                   // None
    | SingleGateCmd(gate: Gate, id: QubitId)                 // [SINGLE_GATE, mat, id]
    | ControlledGateCmd(gate: Gate, id1: QubitId, id2: QubitId)
    | MeasureCmd(id: QubitId, draw: real)                    // draw: the uniform number of the binomial
    | MergeAcceptCmd(ids: seq<QubitId>, vector: Vector)      // what merge_accept takes from its channel
    | MergeSendCmd
    | GiveQubitsCmd                                          // GIVE_QUBITS_AND_TERMINATE
    | OtherCmd(tag: int)

  /** What the worker puts on the channels it is handed. */
  datatype Message =
    | Outcome(bit: nat)                                      // measure's ret_channel
    | Handover(ids: seq<QubitId>, vector: Vector)            // merge_send
    | QubitList(ids: seq<QubitId>)                           // send_qubits

  /** run returns, lets an exception escape, or waits forever on an empty queue. */
  datatype RunEnd = Returned | Raised(error: Error) | Waiting

  /** The worker's final state, how run ended, every message it sent, and how many items it
      took from its queue. */
  datatype Trace = Trace(state: Group, end: RunEnd, sent: seq<Message>, consumed: nat)

  /** What the other side of the protocol guarantees about the queue: a merged-in vector
      matches its ids (merge_send sends a consistent group) and every draw lies in [0, 1). */
  ghost predicate Admissible(cmds: seq<Command>)
  {
    forall i :: 0 <= i < |cmds| ==> CommandAdmissible(cmds[i])
  }

  ghost predicate CommandAdmissible(c: Command)
  {
    (c.MergeAcceptCmd? ==> |c.vector| == Pow2(|c.ids|)) && (c.MeasureCmd? ==> 0.0 <= c.draw < 1.0)
  }

  /** A trace resumed after k items that sent out. */
  function Resume(out: seq<Message>, k: nat, t: Trace): Trace
  {
    Trace(t.state, t.end, out + t.sent, k + t.consumed)
  }

  /** What one item does: the loop either ends with a trace, or carries on from a new state
      after sending out. */
  datatype StepResult = Halt(trace: Trace) | Continue(next: Group, out: seq<Message>)

  /** One pass of run's loop body: None, GIVE_QUBITS_AND_TERMINATE and a measurement of the
      group's last qubit end the loop; an exception in a handler or an unknown tag ends it with
      that exception; every other item updates the state and the loop goes on. */
  function Step(s: Group, c: Command): (r: StepResult)
    requires Consistent(s) && CommandAdmissible(c)
    ensures r.Continue? ==> Consistent(r.next)
    ensures r.Halt? ==> r.trace.consumed == 1 && r.trace.end != Waiting
    ensures c.Stop? || c.GiveQubitsCmd? || c.OtherCmd? ==> r.Halt? && r.trace.state == s
    ensures c.OtherCmd? ==> r.trace.end == Raised(ValueError)
  {
    match c
    case Stop => Halt(Trace(s, Returned, [], 1))
    case SingleGateCmd(g, id) =>
      var r := SingleGate(s, g, id);
      if r.Err? then Halt(Trace(s, Raised(r.error), [], 1)) else Continue(r.value, [])
    case ControlledGateCmd(g, id1, id2) =>
      var r := Controlled(s, g, id1, id2);
      if r.Err? then Halt(Trace(s, Raised(r.error), [], 1)) else Continue(r.value, [])
    case MeasureCmd(id, u) =>
      var r := MeasureSpec(s, id, u);
      if r.Err? then Halt(Trace(s, Raised(r.error), [], 1))
      else if r.value.after.qubits == [] then Halt(Trace(r.value.after, Returned, [Outcome(r.value.outcome)], 1))
      else Continue(r.value.after, [Outcome(r.value.outcome)])
    case MergeAcceptCmd(ids, vector) => Continue(Accept(s, ids, vector), [])
    case MergeSendCmd => Continue(s, [Handover(s.qubits, s.qubit)])
    case GiveQubitsCmd => Halt(Trace(s, Returned, [QubitList(s.qubits)], 1))
    case OtherCmd(_) => Halt(Trace(s, Raised(ValueError), [], 1))
  }

  /** run: the items are taken in queue order, one Step each, until a step halts; when the
      queue runs dry the worker waits. */
  function RunSpec(s: Group, cmds: seq<Command>): (t: Trace)
    requires Consistent(s) && Admissible(cmds)
    ensures t.consumed <= |cmds|
    ensures t.end == Waiting ==> t.consumed == |cmds| && Consistent(t.state)
    ensures t.end != Waiting ==> t.consumed > 0
    decreases |cmds|
  {
    if cmds == [] then Trace(s, Waiting, [], 0)
    else
      assert CommandAdmissible(cmds[0]);
      AdmissibleTail(cmds);
      match Step(s, cmds[0])
      case Halt(t) => t
      case Continue(next, out) => Resume(out, 1, RunSpec(next, cmds[1..]))
  }

  /** Items behind the one that ends the loop are never taken. */
  lemma {:induction false} RunIgnoresRest(s: Group, cmds: seq<Command>, more: seq<Command>)
    requires Consistent(s) && Admissible(cmds) && Admissible(more)
    requires RunSpec(s, cmds).end != Waiting
    ensures Admissible(cmds + more)
    ensures RunSpec(s, cmds + more) == RunSpec(s, cmds)
    decreases |cmds|
  {
    AdmissibleAppend(cmds, more);
    var c, rest := cmds[0], cmds[1..];
    assert CommandAdmissible(c);
    AdmissibleTail(cmds);
    AdmissibleAppend(rest, more);
    HeadTail(cmds, more);
    RunCons(s, c, rest);
    RunCons(s, c, rest + more);
    var st := Step(s, c);
    if st.Continue? {
      RunIgnoresRest(st.next, rest, more);
    }
  }

  /** A run that is still waiting after cmds carries on with more from where it stopped:
      the worker keeps no state besides its group. */
  lemma {:induction false} RunAppend(s: Group, cmds: seq<Command>, more: seq<Command>)
    requires Consistent(s) && Admissible(cmds) && Admissible(more)
    requires RunSpec(s, cmds).end == Waiting
    ensures Admissible(cmds + more)
    ensures RunSpec(s, cmds + more) ==
      Resume(RunSpec(s, cmds).sent, |cmds|, RunSpec(RunSpec(s, cmds).state, more))
    decreases |cmds|, 1
  {
    AdmissibleAppend(cmds, more);
    if cmds == [] {
      assert cmds + more == more;
    } else {
      RunAppendStep(s, cmds, more);
    }
  }

  /** RunAppend when cmds is not empty: its first item continues the loop. */
  lemma {:induction false} RunAppendStep(s: Group, cmds: seq<Command>, more: seq<Command>)
    requires Consistent(s) && Admissible(cmds) && Admissible(more) && cmds != []
    requires RunSpec(s, cmds).end == Waiting
    ensures Admissible(cmds + more)
    ensures RunSpec(s, cmds + more) ==
      Resume(RunSpec(s, cmds).sent, |cmds|, RunSpec(RunSpec(s, cmds).state, more))
    decreases |cmds|, 0
  {
    var c, rest := cmds[0], cmds[1..];
    assert CommandAdmissible(c);
    AdmissibleTail(cmds);
    AdmissibleAppend(rest, more);
    HeadTail(cmds, more);
    RunCons(s, c, rest);
    RunCons(s, c, rest + more);
    var st := Step(s, c);
    assert st.Continue?;
    RunAppend(st.next, rest, more);
    var t1 := RunSpec(st.next, rest);
    AppendAssoc(st.out, t1.sent, RunSpec(t1.state, more).sent);
  }

  /** One unfolding of RunSpec on a queue whose head is c. */
  lemma RunCons(s: Group, c: Command, rest: seq<Command>)
    requires Consistent(s) && CommandAdmissible(c) && Admissible(rest)
    ensures Admissible([c] + rest)
    ensures Step(s, c).Halt? ==> RunSpec(s, [c] + rest) == Step(s, c).trace
    ensures Step(s, c).Continue? ==>
      RunSpec(s, [c] + rest) == Resume(Step(s, c).out, 1, RunSpec(Step(s, c).next, rest))
  {
    assert Admissible([c]);
    AdmissibleAppend([c], rest);
    var cmds := [c] + rest;
    assert cmds[0] == c && cmds[1..] == rest;
  }

  /** An item that changes the state and sends nothing, followed by a run: one more item
      consumed. */
  lemma RunSilent(s: Group, c: Command, next: Group, rest: seq<Command>, t: Trace)
    requires Consistent(s) && CommandAdmissible(c) && Admissible(rest) && Consistent(next)
    requires Step(s, c) == Continue(next, []) && RunSpec(next, rest) == t
    ensures Admissible([c] + rest)
    ensures RunSpec(s, [c] + rest) == Trace(t.state, t.end, t.sent, t.consumed + 1)
  {
    RunCons(s, c, rest);
  }

  /** The same, for a queue of two items. */
  lemma RunSilentPair(s: Group, c: Command, next: Group, d: Command, t: Trace)
    requires Consistent(s) && CommandAdmissible(c) && CommandAdmissible(d) && Consistent(next)
    requires Step(s, c) == Continue(next, []) && RunSpec(next, [d]) == t
    ensures Admissible([c, d])
    ensures RunSpec(s, [c, d]) == Trace(t.state, t.end, t.sent, t.consumed + 1)
  {
    RunSilent(s, c, next, [d], t);
    assert [c] + [d] == [c, d];
  }

  /** An item that ends the loop, alone on the queue. */
  lemma RunHalting(s: Group, c: Command, t: Trace)
    requires Consistent(s) && CommandAdmissible(c) && Step(s, c) == Halt(t)
    ensures Admissible([c]) && RunSpec(s, [c]) == t
  {
    RunCons(s, c, []);
    assert [c] + [] == [c];
  }

  lemma ResumeTwice(x: seq<Message>, y: seq<Message>, k: nat, t: Trace)
    ensures Resume(x + y, k + 1, t) == Resume(x, k, Resume(y, 1, t))
  {
    assert x + y + t.sent == x + (y + t.sent);
  }

  /** One unfolding of RunSpec. */
  lemma RunUnfold(s: Group, cmds: seq<Command>)
    requires Consistent(s) && Admissible(cmds) && cmds != []
    ensures CommandAdmissible(cmds[0]) && Admissible(cmds[1..])
    ensures Step(s, cmds[0]).Halt? ==> RunSpec(s, cmds) == Step(s, cmds[0]).trace
    ensures Step(s, cmds[0]).Continue? ==>
      RunSpec(s, cmds) == Resume(Step(s, cmds[0]).out, 1, RunSpec(Step(s, cmds[0]).next, cmds[1..]))
  {
    AdmissibleTail(cmds);
  }

  /** None ends the loop with nothing sent and the state untouched. */
  lemma RunThenStop(s: Group, cmds: seq<Command>)
    requires Consistent(s) && Admissible(cmds) && RunSpec(s, cmds).end == Waiting
    ensures Admissible(cmds + [Stop])
    ensures RunSpec(s, cmds + [Stop]) ==
      Trace(RunSpec(s, cmds).state, Returned, RunSpec(s, cmds).sent, |cmds| + 1)
  {
    assert Admissible([Stop]);
    RunAppend(s, cmds, [Stop]);
    assert RunSpec(s, cmds).sent + [] == RunSpec(s, cmds).sent;
  }

  lemma AdmissibleTail(cmds: seq<Command>)
    requires Admissible(cmds) && cmds != []
    ensures Admissible(cmds[1..])
  {
    forall i | 0 <= i < |cmds| - 1 ensures CommandAdmissible(cmds[1..][i]) {
      assert cmds[1..][i] == cmds[i + 1];
    }
  }

  lemma AdmissibleAppend(cmds: seq<Command>, more: seq<Command>)
    requires Admissible(cmds) && Admissible(more)
    ensures Admissible(cmds + more)
  {
    forall i | 0 <= i < |cmds + more| ensures CommandAdmissible((cmds + more)[i]) {
      if i >= |cmds| { assert (cmds + more)[i] == more[i - |cmds|]; }
    }
  }

  // ---------------------------------------------------------------- properties

  /** merge_accept places the product of amplitude i of the receiver and amplitude j of the
      sender at index i * |sender| + j: the receiver's qubits are the high bits. */
  lemma AcceptLayout(s: Group, ids: seq<QubitId>, vector: Vector, i: nat, j: nat)
    requires i < |s.qubit| && j < |vector|
    ensures i * |vector| + j < |Accept(s, ids, vector).qubit|
    ensures Accept(s, ids, vector).qubit[i * |vector| + j] == Mul(s.qubit[i], vector[j])
  {
    KronVecAt(s.qubit, vector, i, j);
  }

  /** A self-inverse gate applied twice to the same qubit gives the group back. */
  lemma GateTwice(s: Group, g: Gate, id: QubitId)
    requires Consistent(s) && SelfInverse(g) && id in s.qubits
    ensures SingleGate(s, g, id).Ok?
    ensures SingleGate(SingleGate(s, g, id).value, g, id) == Ok(s)
  {
    var a := Weight(|s.qubits|, IndexOf(s.qubits, id));
    ApplyTwice(g, s.qubit, a);
  }

  /** X on a new qubit gives |1>. */
  lemma FlipNew(id: QubitId)
    ensures SingleGate(Fresh(id), PauliX, id) == Ok(Group([id], Basis(1)))
  {
    FlipFresh();
    assert Weight(1, 0) == 1;
  }

  /** The basis state |b> of one qubit. */
  function Basis(b: nat): (v: Vector)
    requires b < 2
    ensures |v| == 2
  {
    if b == 0 then [One, Zero] else [Zero, One]
  }

  /** The draw on |b> gives b whatever the random number. */
  lemma BasisSample(b: nat, u: real)
    requires b < 2 && 0.0 <= u < 1.0
    ensures Blocks(2, 2) && Sample(Basis(b), 1, u) == Ok(b)
  {
    assert Blocks(2, 2) by { PairCollapse(One, Zero); }
    if b == 0 {
      assert Sample([One, Zero], 1, u) == Ok(0) by {
        ModSqOne();
        GroundSample(One, u);
      }
    } else {
      assert Sample([Zero, One], 1, u) == Ok(1) by {
        ModSqOne();
        ModSqZero();
        PairCollapse(Zero, One);
        CertainOutcome([Zero, One], 1, 1, u);
      }
    }
  }

  /** The worker's draw on |b> gives b whatever the random number. */
  lemma BasisDraw(b: nat, u: real)
    requires b < 2 && 0.0 <= u < 1.0
    ensures Draw(Basis(b), 0, 0, u) == Ok(b)
  {
    BasisSample(b, u);
    assert Real(Basis(b));
    DrawAgreesOnReal(Basis(b), 0, 0, u);
  }

  /** A lone qubit in |0> or |1> measures as its value whatever the draw, and the worker is
      left with no qubits and its vector as it was. */
  lemma MeasureBasis(id: QubitId, b: nat, u: real)
    requires b < 2 && 0.0 <= u < 1.0
    ensures Consistent(Group([id], Basis(b)))
    ensures MeasureSpec(Group([id], Basis(b)), id, u) == Ok(Measured(Group([], Basis(b)), b))
  {
    var s := Group([id], Basis(b));
    assert IndexOf(s.qubits, id) == 0;
    BasisDraw(b, u);
    MeasureDrawn(s, id, u, 0, 0, b);
    assert Reduced(s, id, b) == Group([], Basis(b));
  }

  /** A worker holding one qubit in |b>, measured, ends with outcome b. */
  lemma RunToBasis(id: QubitId, b: nat, u: real)
    requires b < 2 && 0.0 <= u < 1.0
    ensures Consistent(Group([id], Basis(b))) && Admissible([MeasureCmd(id, u)])
    ensures RunSpec(Group([id], Basis(b)), [MeasureCmd(id, u)]) == Trace(Group([], Basis(b)), Returned, [Outcome(b)], 1)
  {
    MeasureBasis(id, b, u);
    var m := MeasureCmd(id, u);
    assert Step(Group([id], Basis(b)), m) == Halt(Trace(Group([], Basis(b)), Returned, [Outcome(b)], 1));
    RunHalting(Group([id], Basis(b)), m, Trace(Group([], Basis(b)), Returned, [Outcome(b)], 1));
  }

  /** tests/test_single_gate.py, test_x_gate on one worker: a new qubit, X, then a measurement
      gives 1 and ends the worker. */
  lemma NewThenXThenMeasure(id: QubitId, u: real)
    requires 0.0 <= u < 1.0
    ensures Admissible([SingleGateCmd(PauliX, id), MeasureCmd(id, u)])
    ensures RunSpec(Fresh(id), [SingleGateCmd(PauliX, id), MeasureCmd(id, u)]) ==
      Trace(Group([], Basis(1)), Returned, [Outcome(1)], 2)
  {
    var x, m := SingleGateCmd(PauliX, id), MeasureCmd(id, u);
    XThenYSteps(id);
    RunToBasis(id, 1, u);
    RunSilentPair(Fresh(id), x, Group([id], Basis(1)), m, Trace(Group([], Basis(1)), Returned, [Outcome(1)], 1));
  }

  /** The worker's measurement departs from the intended one: X then Y leave a new qubit in
      -i|0>, on which pr_0 as written is -1, so the draw raises ValueError and the loop ends
      with the qubit still held, where the intended draw gives 0. */
  lemma NewThenXThenYThenMeasure(id: QubitId, u: real)
    requires 0.0 <= u < 1.0
    ensures Admissible([SingleGateCmd(PauliX, id), SingleGateCmd(PauliY, id), MeasureCmd(id, u)])
    ensures RunSpec(Fresh(id), [SingleGateCmd(PauliX, id), SingleGateCmd(PauliY, id), MeasureCmd(id, u)]) ==
      Trace(Group([id], [Complex(0.0, -1.0), Zero]), Raised(ValueError), [], 3)
  {
    var x, y, m := SingleGateCmd(PauliX, id), SingleGateCmd(PauliY, id), MeasureCmd(id, u);
    XThenYSteps(id);
    OneThenYThenMeasure(id, u);
    RunSilent(Fresh(id), x, Group([id], Basis(1)), [y, m], Trace(Group([id], [Complex(0.0, -1.0), Zero]), Raised(ValueError), [], 2));
    assert [x] + [y, m] == [x, y, m];
  }

  /** A lone qubit in |1>, taken by Y then measured, raises ValueError. */
  lemma OneThenYThenMeasure(id: QubitId, u: real)
    requires 0.0 <= u < 1.0
    ensures Admissible([SingleGateCmd(PauliY, id), MeasureCmd(id, u)])
    ensures RunSpec(Group([id], Basis(1)), [SingleGateCmd(PauliY, id), MeasureCmd(id, u)]) ==
      Trace(Group([id], [Complex(0.0, -1.0), Zero]), Raised(ValueError), [], 2)
  {
    var y, m := SingleGateCmd(PauliY, id), MeasureCmd(id, u);
    var minus := Group([id], [Complex(0.0, -1.0), Zero]);
    XThenYSteps(id);
    MinusImagMeasure(id, u);
    RunHalting(minus, m, Trace(minus, Raised(ValueError), [], 1));
    RunSilentPair(Group([id], Basis(1)), y, minus, m, Trace(minus, Raised(ValueError), [], 1));
  }

  /** X takes a new qubit to |1>, and Y then to -i|0>. */
  lemma XThenYSteps(id: QubitId)
    ensures Consistent(Group([id], [Complex(0.0, -1.0), Zero]))
    ensures Step(Fresh(id), SingleGateCmd(PauliX, id)) == Continue(Group([id], Basis(1)), [])
    ensures Step(Group([id], Basis(1)), SingleGateCmd(PauliY, id)) ==
      Continue(Group([id], [Complex(0.0, -1.0), Zero]), [])
  {
    var one, minus := Group([id], Basis(1)), Group([id], [Complex(0.0, -1.0), Zero]);
    FlipNew(id);
    FreshXY();
    assert Weight(1, 0) == 1 && IndexOf(one.qubits, id) == 0;
    assert SingleGate(one, PauliY, id) == Ok(minus);
  }

  /** measure on a lone qubit in -i|0> raises ValueError. */
  lemma MinusImagFails(id: QubitId, u: real)
    requires 0.0 <= u < 1.0
    ensures Consistent(Group([id], [Complex(0.0, -1.0), Zero]))
    ensures MeasureSpec(Group([id], [Complex(0.0, -1.0), Zero]), id, u) == Err(ValueError)
  {
    DrawCounterexample(u);
    MeasureFails(Group([id], [Complex(0.0, -1.0), Zero]), id, u, 0, 0);
  }

  /** A lone qubit in -i|0>, measured, raises ValueError and stays held. */
  lemma MinusImagMeasure(id: QubitId, u: real)
    requires 0.0 <= u < 1.0
    ensures Consistent(Group([id], [Complex(0.0, -1.0), Zero]))
    ensures Step(Group([id], [Complex(0.0, -1.0), Zero]), MeasureCmd(id, u)) ==
      Halt(Trace(Group([id], [Complex(0.0, -1.0), Zero]), Raised(ValueError), [], 1))
  {
    MinusImagFails(id, u);
  }

  /** On real amplitudes, the only ones the source's tests reach, measure fails for a held
      qubit exactly when the vector has no weight, as the intended draw does. */
  lemma MeasureOnReal(s: Group, id: QubitId, u: real)
    requires Consistent(s) && 0.0 <= u < 1.0 && id in s.qubits && Real(s.qubit)
    ensures MeasureSpec(s, id, u).Err? <==> NormSq(s.qubit) == 0.0
  {
    var n, p := |s.qubits|, IndexOf(s.qubits, id);
    assert p + 1 + (n - p - 1) == n;
    var d := Draw(s.qubit, p, n - p - 1, u);
    DrawOnReal(s.qubit, p, n - p - 1, u);
    if d.Err? {
      MeasureFails(s, id, u, p, n - p - 1);
    } else {
      MeasureDrawn(s, id, u, p, n - p - 1, d.value);
    }
  }

  /** test_y_gate and test_z_gate on one worker: a new qubit, a self-inverse gate twice (Y and
      Z are, PauliSelfInverse), then a measurement gives 0. */
  lemma NewThenTwiceThenMeasure(id: QubitId, g: Gate, u: real)
    requires SelfInverse(g) && 0.0 <= u < 1.0
    ensures Admissible([SingleGateCmd(g, id), SingleGateCmd(g, id), MeasureCmd(id, u)])
    ensures RunSpec(Fresh(id), [SingleGateCmd(g, id), SingleGateCmd(g, id), MeasureCmd(id, u)]) ==
      Trace(Group([], Basis(0)), Returned, [Outcome(0)], 3)
  {
    var x, m := SingleGateCmd(g, id), MeasureCmd(id, u);
    GateTwice(Fresh(id), g, id);
    var once := SingleGate(Fresh(id), g, id).value;
    assert Step(Fresh(id), x) == Continue(once, []);
    assert Step(once, x) == Continue(Fresh(id), []);
    assert Fresh(id) == Group([id], Basis(0));
    RunToBasis(id, 0, u);
    RunCons(once, x, [m]);
    assert [x] + [m] == [x, m];
    RunCons(Fresh(id), x, [x, m]);
    assert [x] + [x, m] == [x, x, m];
  }

  // ---------------------------------------------------------------- the worker object

  /** What a successful command left behind, as the functions above report it. */
  function Effect(r: Status, s: Group): Result<Group>
  {
    if r.Done? then Ok(s) else Err(r.error)
  }

  function MeasureEffect(r: Result<nat>, s: Group): Result<Measured>
  {
    if r.Ok? then Ok(Measured(s, r.value)) else Err(r.error)
  }

  class QubitThread {
    var qubits: seq<QubitId>
    var qubit: Vector

    ghost predicate Valid()
      reads this
    {
      Consistent(Abs())
    }

    function Abs(): Group
      reads this
    {
      Group(qubits, qubit)
    }

    /** __init__: the group of one new qubit, in state |0>. */
    constructor (id: QubitId)
      ensures Abs() == Fresh(id) && Valid()
    {
      qubits := [id];
      qubit := [One, Zero];
    }

    /** apply_single_gate: builds I(2^before) ⊗ mat ⊗ I(2^after) and multiplies it in. */
    method ApplySingleGate(g: Gate, id: QubitId) returns (r: Status)
      requires Valid()
      modifies this
      ensures Effect(r, Abs()) == SingleGate(old(Abs()), g, id)
      ensures r.Fail? ==> Abs() == old(Abs())
      ensures Valid()
    {
      var nr := IndexOf(qubits, id);
      if nr == |qubits| {
        return Fail(ValueError);
      }
      var total := |qubits|;
      var before, after := nr, total - nr - 1;
      var applyMat := SingleGateMatrix(g, before, after);
      assert before + 1 + after == total;
      SingleGateCorrect(g, before, after, qubit);
      qubit := MatVec(applyMat, qubit);
      return Done;
    }

    /** apply_controlled_gate: the target id1 must come after its control id2; then
        first_mat + second_mat is multiplied in. */
    method ApplyControlledGate(g: Gate, id1: QubitId, id2: QubitId) returns (r: Status)
      requires Valid()
      modifies this
      ensures Effect(r, Abs()) == Controlled(old(Abs()), g, id1, id2)
      ensures r.Fail? ==> Abs() == old(Abs())
      ensures Valid()
    {
      var nr1 := IndexOf(qubits, id1);
      if nr1 == |qubits| {
        return Fail(ValueError);
      }
      var nr2 := IndexOf(qubits, id2);
      if nr2 == |qubits| {
        return Fail(ValueError);
      }
      if nr1 <= nr2 {
        // np.kron(firt_mat, np.eye(2)): the name is defined nowhere
        return Fail(NameError);
      }
      var total := |qubits|;
      var before, after := nr2, total - nr1 - 1;
      var mid := total - before - after - 2;
      var applyMat := ControlledMatrix(g, before, mid, after);
      ControlledStep(Abs(), g, id1, id2, before, mid, after);
      qubit := MatVec(applyMat, qubit);
      return Done;
    }

    /** merge_accept, with the ids and the vector the channel delivers. */
    method MergeAccept(ids: seq<QubitId>, vector: Vector)
      requires Valid() && |vector| == Pow2(|ids|)
      modifies this
      ensures Abs() == Accept(old(Abs()), ids, vector)
      ensures Valid()
    {
      qubits := qubits + ids;
      qubit := KronVec(qubit, vector);
    }

    /** merge_send: what it puts on the channel, a copy of the ids and of the vector. */
    method MergeSend() returns (ids: seq<QubitId>, vector: Vector)
      requires Valid()
      ensures |vector| == Pow2(|ids|)
      ensures ids == qubits && vector == qubit
    {
      ids, vector := qubits, qubit;
    }

    /** send_qubits: what it puts on the channel, a copy of the ids. */
    method SendQubits() returns (ids: seq<QubitId>)
      ensures ids == qubits
    {
      ids := qubits;
    }

    /** measure: the outcome is drawn from the weights of the qubit's two values, the id is
        removed, and unless it was the last one the reduction matrix keeps the amplitudes
        that agree with the outcome. */
    method Measure(id: QubitId, u: real) returns (r: Result<nat>)
      requires Valid() && 0.0 <= u < 1.0
      modifies this
      ensures MeasureEffect(r, Abs()) == MeasureSpec(old(Abs()), id, u)
      ensures r.Err? ==> Abs() == old(Abs())
    {
      var nr := IndexOf(qubits, id);
      if nr == |qubits| {
        return Err(ValueError);
      }
      var total := |qubits|;
      var before, after := nr, total - nr - 1;
      assert before + 1 + after == total;
      var draw := WorkerDraw(qubit, before, after, u);
      if draw.Err? {
        MeasureFails(Abs(), id, u, before, after);
        return Err(draw.error);
      }
      var measRes := draw.value;
      MeasureStep(Abs(), id, u, before, after, measRes);
      var reductionMat := ReductionMatrix(measRes, before, after);
      qubits := RemoveFirst(qubits, id);
      if total == 1 {
        return Ok(measRes);
      }
      qubit := MatVec(reductionMat, qubit);
      return Ok(measRes);
    }

    /** One pass of run's loop body: dispatches the item on its tag. */
    method Handle(item: Command) returns (halt: bool, end: RunEnd, out: seq<Message>)
      requires Valid() && CommandAdmissible(item)
      modifies this
      ensures halt ==> Step(old(Abs()), item) == Halt(Trace(Abs(), end, out, 1))
      ensures !halt ==> Step(old(Abs()), item) == Continue(Abs(), out) && Valid()
    {
      out := [];
      end := Waiting;
      match item {
        case Stop =>
          return true, Returned, [];
        case SingleGateCmd(g, id) =>
          var r := ApplySingleGate(g, id);
          if r.Fail? {
            return true, Raised(r.error), [];
          }
          halt := false;
        case ControlledGateCmd(g, id1, id2) =>
          var r := ApplyControlledGate(g, id1, id2);
          if r.Fail? {
            return true, Raised(r.error), [];
          }
          halt := false;
        case MeasureCmd(id, u) =>
          var r := Measure(id, u);
          if r.Err? {
            return true, Raised(r.error), [];
          }
          out := [Outcome(r.value)];
          // no qubit left: the worker ends
          halt := |qubits| == 0;
          if halt {
            end := Returned;
          }
        case MergeAcceptCmd(ids, vector) =>
          MergeAccept(ids, vector);
          halt := false;
        case MergeSendCmd =>
          var ids, vector := MergeSend();
          return false, Waiting, [Handover(ids, vector)];
        case GiveQubitsCmd =>
          var ids := SendQubits();
          return true, Returned, [QubitList(ids)];
        case OtherCmd(_) =>
          return true, Raised(ValueError), [];
      }
    }

    /** run: takes the items of its queue in order and hands each to its handler until one
        ends the loop; with the queue empty, queue.get() blocks and the worker waits. */
    method Run(cmds: seq<Command>) returns (end: RunEnd, sent: seq<Message>, consumed: nat)
      requires Valid() && Admissible(cmds)
      modifies this
      ensures Trace(Abs(), end, sent, consumed) == RunSpec(old(Abs()), cmds)
    {
      sent := [];
      var i := 0;
      while true
        invariant 0 <= i <= |cmds| && Valid() && Admissible(cmds[i..])
        invariant Resume(sent, i, RunSpec(Abs(), cmds[i..])) == RunSpec(old(Abs()), cmds)
        decreases |cmds| - i
      {
        if i == |cmds| {
          assert sent + [] == sent;
          return Waiting, sent, i;
        }
        ghost var s := Abs();
        RunUnfold(s, cmds[i..]);
        assert cmds[i..][0] == cmds[i] && cmds[i..][1..] == cmds[i + 1..];
        var halt, e, out := Handle(cmds[i]);
        if halt {
          return e, sent + out, i + 1;
        }
        ResumeTwice(sent, out, i, RunSpec(Abs(), cmds[i + 1..]));
        sent := sent + out;
        i := i + 1;
      }
    }
  }
}

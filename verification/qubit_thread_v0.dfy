/** The earlier revision of the worker (src/qubit_thread.py). Its __init__, apply_single_gate
    and measure do what the later ones do (QubitThreads.QubitThread models them), except that
    its apply_single_gate also prints. Its run loop knows fewer commands: DOUBLE_GATE,
    MERGE_ACCEPT and MERGE_SEND are taken from the queue and ignored, and there is no
    controlled gate and no GIVE_QUBITS_AND_TERMINATE. Its own merge_accept and merge_send,
    which differ from the later ones, are never called from the loop. */
module EarlyQubitThreads {
  import opened StateVector
  import opened Outcomes
  import opened QubitThreads

  /** An item of the early worker's queue, with the tags of src/qubit_thread.py:3-8. The items
      of the ignored tags are taken whatever they hold. UnknownItem stands for a list whose tag
      is none of SINGLE_GATE .. MERGE_SEND (NONE = 0 included). */
  datatype Item =
    | NoneItem                                  // None
    | SingleGateItem(gate: Gate, id: QubitId)   // [SINGLE_GATE, mat, id]
    | DoubleGateItem                            // [DOUBLE_GATE, ...]
    | MeasureItem(id: QubitId, draw: real)      // [MEASURE, id, ret_channel]
    | MergeAcceptItem                           // [MERGE_ACCEPT, ...]
    | MergeSendItem                             // [MERGE_SEND, ...]
    | UnknownItem(tag: int)

  /** The items the early loop takes and ignores. */
  predicate Ignored(c: Item)
  {
    c.DoubleGateItem? || c.MergeAcceptItem? || c.MergeSendItem?
  }

  /** Every draw lies in [0, 1). */
  ghost predicate ItemsAdmissible(cmds: seq<Item>)
  {
    forall i :: 0 <= i < |cmds| ==> ItemAdmissible(cmds[i])
  }

  ghost predicate ItemAdmissible(c: Item)
  {
    c.MeasureItem? ==> 0.0 <= c.draw < 1.0
  }

  /** The later command an item of a tag both revisions know corresponds to. */
  function Later(c: Item): (r: Command)
    requires !Ignored(c)
    ensures ItemAdmissible(c) ==> CommandAdmissible(r)
  {
    match c
    case NoneItem => Stop
    case SingleGateItem(g, id) => SingleGateCmd(g, id)
    case MeasureItem(id, u) => MeasureCmd(id, u)
    case UnknownItem(t) => OtherCmd(t)
  }

  /** One pass of the early loop body: the ignored tags leave everything as it was; None, a
      single gate, a measurement and an unknown tag do what the later loop does with them. */
  function EarlyStep(s: Group, c: Item): (r: StepResult)
    requires Consistent(s) && ItemAdmissible(c)
    ensures r.Continue? ==> Consistent(r.next)
    ensures r.Halt? ==> r.trace.consumed == 1 && r.trace.end != Waiting
    ensures Ignored(c) ==> r == Continue(s, [])
  {
    if Ignored(c) then Continue(s, []) else Step(s, Later(c))
  }

  /** run of the early worker: the items are taken in queue order, one EarlyStep each, until
      a step halts; when the queue runs dry the worker waits. */
  function EarlyRunSpec(s: Group, cmds: seq<Item>): (t: Trace)
    requires Consistent(s) && ItemsAdmissible(cmds)
    ensures t.consumed <= |cmds|
    ensures t.end == Waiting ==> t.consumed == |cmds| && Consistent(t.state)
    ensures t.end != Waiting ==> t.consumed > 0
    decreases |cmds|
  {
    if cmds == [] then Trace(s, Waiting, [], 0)
    else
      assert ItemAdmissible(cmds[0]);
      ItemsTail(cmds);
      match EarlyStep(s, cmds[0])
      case Halt(t) => t
      case Continue(next, out) => Resume(out, 1, EarlyRunSpec(next, cmds[1..]))
  }

  lemma ItemsTail(cmds: seq<Item>)
    requires ItemsAdmissible(cmds) && cmds != []
    ensures ItemsAdmissible(cmds[1..])
  {
    forall i | 0 <= i < |cmds| - 1 ensures ItemAdmissible(cmds[1..][i]) {
      assert cmds[1..][i] == cmds[i + 1];
    }
  }

  /** One unfolding of EarlyRunSpec. */
  lemma EarlyRunUnfold(s: Group, cmds: seq<Item>)
    requires Consistent(s) && ItemsAdmissible(cmds) && cmds != []
    ensures ItemAdmissible(cmds[0]) && ItemsAdmissible(cmds[1..])
    ensures EarlyStep(s, cmds[0]).Halt? ==> EarlyRunSpec(s, cmds) == EarlyStep(s, cmds[0]).trace
    ensures EarlyStep(s, cmds[0]).Continue? ==>
      EarlyRunSpec(s, cmds) == Resume(EarlyStep(s, cmds[0]).out, 1, EarlyRunSpec(EarlyStep(s, cmds[0]).next, cmds[1..]))
  {
    ItemsTail(cmds);
  }

  // ---------------------------------------------------------------- properties of the early loop

  /** Ignored items in front of the queue change nothing but the count of items taken. */
  lemma {:induction false} IgnoredPrefix(s: Group, skipped: seq<Item>, cmds: seq<Item>)
    requires Consistent(s) && ItemsAdmissible(skipped + cmds)
    requires forall i :: 0 <= i < |skipped| ==> Ignored(skipped[i])
    ensures ItemsAdmissible(cmds)
    ensures EarlyRunSpec(s, skipped + cmds) == Resume([], |skipped|, EarlyRunSpec(s, cmds))
    decreases |skipped|
  {
    var all := skipped + cmds;
    if skipped == [] {
      assert all == cmds;
      assert [] + EarlyRunSpec(s, cmds).sent == EarlyRunSpec(s, cmds).sent;
    } else {
      assert all[0] == skipped[0] && all[1..] == skipped[1..] + cmds;
      EarlyRunUnfold(s, all);
      IgnoredPrefix(s, skipped[1..], cmds);
    }
  }

  /** Every message is a measurement outcome. */
  ghost predicate OnlyOutcomes(ms: seq<Message>)
  {
    forall i :: 0 <= i < |ms| ==> ms[i].Outcome?
  }

  lemma OnlyOutcomesAppend(x: seq<Message>, y: seq<Message>)
    requires OnlyOutcomes(x) && OnlyOutcomes(y)
    ensures OnlyOutcomes(x + y)
  {
    forall i | 0 <= i < |x + y| ensures (x + y)[i].Outcome? {
      if i >= |x| {
        assert (x + y)[i] == y[i - |x|];
      }
    }
  }

  /** What one early step sends is at most an outcome. */
  lemma StepSendsOutcome(s: Group, c: Item)
    requires Consistent(s) && ItemAdmissible(c)
    ensures EarlyStep(s, c).Continue? ==> OnlyOutcomes(EarlyStep(s, c).out)
    ensures EarlyStep(s, c).Halt? ==> OnlyOutcomes(EarlyStep(s, c).trace.sent)
  {
    if !Ignored(c) && c.MeasureItem? {
      var r := MeasureSpec(s, c.id, c.draw);
      assert EarlyStep(s, c) == Step(s, MeasureCmd(c.id, c.draw));
      if r.Ok? {
        assert OnlyOutcomes([Outcome(r.value.outcome)]);
      }
    }
  }

  /** The early worker answers on no channel but measure's: everything it sends is an
      outcome. */
  lemma {:induction false} OnlyOutcomesSent(s: Group, cmds: seq<Item>)
    requires Consistent(s) && ItemsAdmissible(cmds)
    ensures OnlyOutcomes(EarlyRunSpec(s, cmds).sent)
    decreases |cmds|
  {
    if cmds != [] {
      EarlyRunUnfold(s, cmds);
      var r := EarlyStep(s, cmds[0]);
      StepSendsOutcome(s, cmds[0]);
      if r.Continue? {
        OnlyOutcomesSent(r.next, cmds[1..]);
        OnlyOutcomesAppend(r.out, EarlyRunSpec(r.next, cmds[1..]).sent);
      }
    }
  }

  /** On a queue with no ignored item, the early loop runs exactly as the later one does on
      the corresponding commands. */
  lemma {:induction false} AgreesWithLater(s: Group, cmds: seq<Item>, later: seq<Command>)
    requires Consistent(s) && ItemsAdmissible(cmds)
    requires forall i :: 0 <= i < |cmds| ==> !Ignored(cmds[i])
    requires |later| == |cmds| && forall i :: 0 <= i < |cmds| ==> later[i] == Later(cmds[i])
    ensures Admissible(later)
    ensures EarlyRunSpec(s, cmds) == RunSpec(s, later)
    decreases |cmds|
  {
    assert Admissible(later) by {
      forall i | 0 <= i < |later| ensures CommandAdmissible(later[i]) {
        assert ItemAdmissible(cmds[i]);
      }
    }
    if cmds != [] {
      EarlyRunUnfold(s, cmds);
      RunUnfold(s, later);
      var r := EarlyStep(s, cmds[0]);
      assert r == Step(s, later[0]);
      if r.Continue? {
        AgreesWithLater(r.next, cmds[1..], later[1..]);
      }
    }
  }

  /** Tag 6, GIVE_QUBITS_AND_TERMINATE in the later revision, is an unknown command to the
      early worker, which raises ValueError and sends nothing. */
  lemma GiveQubitsUnknown(s: Group)
    requires Consistent(s)
    ensures ItemsAdmissible([UnknownItem(6)]) && Admissible([GiveQubitsCmd])
    ensures EarlyRunSpec(s, [UnknownItem(6)]) == Trace(s, Raised(ValueError), [], 1)
    ensures RunSpec(s, [GiveQubitsCmd]) == Trace(s, Returned, [QubitList(s.qubits)], 1)
  {
    assert ItemAdmissible([UnknownItem(6)][0]);
    assert CommandAdmissible([GiveQubitsCmd][0]);
    EarlyRunUnfold(s, [UnknownItem(6)]);
    RunUnfold(s, [GiveQubitsCmd]);
  }

  // ---------------------------------------------------------------- the early loop

  /** One pass of the early loop body on worker t. */
  method Handle(t: QubitThread, item: Item) returns (halt: bool, end: RunEnd, out: seq<Message>)
    requires t.Valid() && ItemAdmissible(item)
    modifies t
    ensures halt ==> EarlyStep(old(t.Abs()), item) == Halt(Trace(t.Abs(), end, out, 1))
    ensures !halt ==> EarlyStep(old(t.Abs()), item) == Continue(t.Abs(), out) && t.Valid()
  {
    out := [];
    end := Waiting;
    ghost var s := t.Abs();
    match item {
      case NoneItem =>
        return true, Returned, [];
      case SingleGateItem(g, id) =>
        assert EarlyStep(s, item) == Step(s, SingleGateCmd(g, id));
        var r := t.ApplySingleGate(g, id);
        if r.Fail? {
          return true, Raised(r.error), [];
        }
        halt := false;
      case DoubleGateItem =>
        halt := false;
      case MeasureItem(id, u) =>
        assert EarlyStep(s, item) == Step(s, MeasureCmd(id, u));
        var r := t.Measure(id, u);
        if r.Err? {
          return true, Raised(r.error), [];
        }
        out := [Outcome(r.value)];
        // no qubit left: the worker ends
        halt := |t.qubits| == 0;
        if halt {
          end := Returned;
        }
      case MergeAcceptItem =>
        halt := false;
      case MergeSendItem =>
        halt := false;
      case UnknownItem(_) =>
        return true, Raised(ValueError), [];
    }
  }

  /** run of the early worker t: takes the items of its queue in order and handles each until
      one ends the loop; with the queue empty, the worker waits. */
  method Run(t: QubitThread, cmds: seq<Item>) returns (end: RunEnd, sent: seq<Message>, consumed: nat)
    requires t.Valid() && ItemsAdmissible(cmds)
    modifies t
    ensures Trace(t.Abs(), end, sent, consumed) == EarlyRunSpec(old(t.Abs()), cmds)
  {
    sent := [];
    var i := 0;
    while true
      invariant 0 <= i <= |cmds| && t.Valid() && ItemsAdmissible(cmds[i..])
      invariant Resume(sent, i, EarlyRunSpec(t.Abs(), cmds[i..])) == EarlyRunSpec(old(t.Abs()), cmds)
      decreases |cmds| - i
    {
      if i == |cmds| {
        assert sent + [] == sent;
        return Waiting, sent, i;
      }
      EarlyRunUnfold(t.Abs(), cmds[i..]);
      assert cmds[i..][0] == cmds[i] && cmds[i..][1..] == cmds[i + 1..];
      var halt, e, out := Handle(t, cmds[i]);
      if halt {
        return e, sent + out, i + 1;
      }
      ResumeTwice(sent, out, i, EarlyRunSpec(t.Abs(), cmds[i + 1..]));
      sent := sent + out;
      i := i + 1;
    }
  }
}

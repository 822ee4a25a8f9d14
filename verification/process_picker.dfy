/** The round-robin choice of the worker process that hosts the next new qubit
    (eqsn/process_picker.py): a pointer that moves one step per call, taken modulo the number
    of processes. */
module ProcessPickers {
  import opened Outcomes
  import opened LinearAlgebra

  /** Python's a % b: an integer modulo by zero raises ZeroDivisionError, and a non-zero
      remainder has the sign of the divisor. */
  function PyMod(a: int, b: int): (r: Result<int>)
    ensures r.Err? <==> b == 0
    ensures r.Err? ==> r.error == ZeroDivisionError
    ensures r.Ok? && b > 0 ==> r.value == a % b && 0 <= r.value < b
    ensures r.Ok? && b < 0 ==> b < r.value <= 0 && (r.value == 0 <==> a % b == 0)
    ensures r.Ok? ==> (a - r.value) % b == 0
  {
    if b == 0 then Err(ZeroDivisionError)
    else
      var m := a % b;
      SubRemainder(a, b, m);
      SubRemainder(a, b, m + b);
      if b < 0 && m != 0 then Ok(m + b) else Ok(m)
  }

  /** a minus its remainder, or minus its remainder plus b, is a multiple of b. */
  lemma SubRemainder(a: int, b: int, r: int)
    requires b != 0 && (r == a % b || r == a % b + b)
    ensures (a - r) % b == 0
  {
    var q := a / b;
    if r == a % b {
      assert a - r == q * b;
      MultipleMod(q, b);
    } else {
      assert a - r == (q - 1) * b;
      MultipleMod(q - 1, b);
    }
  }

  /** A multiple of b leaves no remainder. */
  lemma MultipleMod(k: int, b: int)
    requires b != 0
    ensures (k * b) % b == 0
  {
    var x := k * b;
    var d := k - x / b;
    assert d * b == x % b;
    var c := if b > 0 then b else -b;
    var e := if b > 0 then d else -d;
    assert e * c == d * b;
    if e >= 1 {
      MulLe(1, e, c);
    } else if e <= -1 {
      MulLe(e, -1, c);
    }
  }

  /** Python's s[i]: a negative index counts from the end; an index outside the list raises
      IndexError. */
  function PyIndex<Q>(s: seq<Q>, i: int): (r: Result<Q>)
    ensures r.Err? <==> !(-|s| <= i < |s|)
    ensures r.Err? ==> r.error == IndexError
    ensures 0 <= i < |s| ==> r == Ok(s[i])
    ensures -|s| <= i < 0 ==> r == Ok(s[|s| + i])
  {
    if 0 <= i < |s| then Ok(s[i])
    else if -|s| <= i < 0 then Ok(s[|s| + i])
    else Err(IndexError)
  }

  /** The queue process_queue_list[pointer % amount_processes]. */
  function Pick<Q>(queues: seq<Q>, amount: int, pointer: int): (r: Result<Q>)
    ensures amount == 0 ==> r == Err(ZeroDivisionError)
    ensures 0 < amount <= |queues| && pointer >= 0 ==> r == Ok(queues[pointer % amount])
    ensures amount > |queues| && pointer % amount >= |queues| ==> r == Err(IndexError)
  {
    var m := PyMod(pointer, amount);
    if m.Err? then Err(m.error) else PyIndex(queues, m.value)
  }

  /** The indices that amount consecutive calls from pointer read. */
  function Slots(amount: int, pointer: int): (s: seq<int>)
    requires amount > 0
    ensures |s| == amount
  {
    seq(amount, k => (pointer + k) % amount)
  }

  /** From any pointer, amount consecutive calls return each of the first amount queues
      exactly once: the k-th of them returns the queue at index (pointer + k) % amount, no two
      of these indices are equal, and every index below amount is among them. */
  lemma RoundRobin<Q>(queues: seq<Q>, amount: int, pointer: int)
    requires 0 < amount <= |queues| && pointer >= 0
    ensures forall k :: 0 <= k < amount ==>
      0 <= Slots(amount, pointer)[k] < amount && Pick(queues, amount, pointer + k) == Ok(queues[Slots(amount, pointer)[k]])
    ensures forall k1, k2 :: 0 <= k1 < k2 < amount ==> Slots(amount, pointer)[k1] != Slots(amount, pointer)[k2]
    ensures forall j :: 0 <= j < amount ==> j in Slots(amount, pointer)
  {
    var s := Slots(amount, pointer);
    forall k | 0 <= k < amount
      ensures 0 <= s[k] < amount && Pick(queues, amount, pointer + k) == Ok(queues[s[k]])
    {
      assert s[k] == (pointer + k) % amount;
    }
    forall k1, k2 | 0 <= k1 < k2 < amount
      ensures s[k1] != s[k2]
    {
      DistinctSlots(pointer, k1, k2, amount);
    }
    forall j | 0 <= j < amount
      ensures j in s
    {
      var k := (j - pointer) % amount;
      ReachSlot(pointer, j, amount);
      assert s[k] == j;
    }
  }

  lemma DistinctSlots(p: int, k1: int, k2: int, a: int)
    requires 0 <= k1 < k2 < a
    ensures (p + k1) % a != (p + k2) % a
  {
    var q1, q2 := (p + k1) / a, (p + k2) / a;
    if (p + k1) % a == (p + k2) % a {
      assert k2 - k1 == a * q2 - a * q1;
      MulBounds(a, q2 - q1);
    }
  }

  /** A multiple of a positive a is at least a or at most 0. */
  lemma MulBounds(a: int, m: int)
    requires a > 0
    ensures a * m >= a || a * m <= 0
  {
    if m >= 1 {
      assert a * m == a * (m - 1) + a;
    }
  }

  lemma ReachSlot(p: int, j: int, a: int)
    requires 0 <= j < a
    ensures (p + (j - p) % a) % a == j
  {
    var x := p + (j - p) % a;
    assert x == j - a * ((j - p) / a);
    ModOfShift(j, -((j - p) / a), a);
  }

  /** Adding a multiple of a does not change the remainder. */
  lemma ModOfShift(j: int, q: int, a: int)
    requires 0 <= j < a
    ensures (j + a * q) % a == j
  {
    var x := j + a * q;
    var q', r' := x / a, x % a;
    assert r' - j == a * q - a * q';
    MulBounds(a, q - q');
    MulBounds(a, q' - q);
  }

  class ProcessPicker<Q> {
    var amountProcesses: int
    var pointer: int
    var processQueueList: seq<Q>

    /** __init__ from line 16 on: the pointer starts at 0. */
    constructor (cpuCount: int, processQueueList: seq<Q>)
      ensures this.amountProcesses == cpuCount && this.processQueueList == processQueueList
      ensures pointer == 0
    {
      this.amountProcesses := cpuCount;
      this.pointer := 0;
      this.processQueueList := processQueueList;
    }

    /** get_next_process_queue: the queue at the pointer modulo the number of processes; the
        pointer moves on by one unless the lookup raised. */
    method GetNextProcessQueue() returns (r: Result<Q>)
      modifies this
      ensures r == Pick(processQueueList, amountProcesses, old(pointer))
      ensures pointer == if r.Ok? then old(pointer) + 1 else old(pointer)
      ensures amountProcesses == old(amountProcesses) && processQueueList == old(processQueueList)
    {
      var slot := PyMod(pointer, amountProcesses);
      if slot.Err? {
        return Err(slot.error);
      }
      var resQ := PyIndex(processQueueList, slot.value);
      if resQ.Err? {
        return Err(resQ.error);
      }
      pointer := pointer + 1;
      return resQ;
    }
  }
}

# EQSN in Dafny

EQSN is a quantum-network simulator in Python. It keeps the qubits that are entangled with each other in one group. Each group lives in a worker (a `QubitThread` run as a separate process) that owns the state vector of the group. The worker takes commands from its own queue: a single-qubit gate, a controlled gate, a measurement, and the three steps of a merge. A shared registry records, for every qubit id, the queue and the process that serve it. The user-facing functions of `eqsn/gates.py` create qubits, send gates and measurements to the right queue, and merge two groups into one before a two-qubit gate. A round-robin picker hands out the queues of a fixed pool of processes.

This project models that core. It also models the earlier revision under `src/`, where the worker ignores two-qubit gates and merges and nothing is ever deleted from the registry.

Modules:

- `Outcomes` (outcomes.dfy): qubit ids, the Python exceptions the code raises, and the `Result` and `Status` types that carry them.
- `ComplexNumbers`, `LinearAlgebra` (complex.dfy, linear_algebra.dfy): exact complex amplitudes, vectors and matrices, `np.kron`, `np.eye` and `np.dot`.
- `StateVector` (state_vector.dfy): independent reference definitions, stated amplitude by amplitude:
  - a gate applied to the qubit of weight `a` (`ApplyGate`);
  - a controlled gate (`ApplyControlled`);
  - the half of the vector a measurement outcome keeps (`Collapse`);
  - the weight of an outcome (`ProbOfBit`).
- `ThreadMatrices` (thread_matrices.dfy): the matrices the worker builds with Kronecker products, proved equal in effect to those references.
- `PauliGates` (pauli.dfy): the X, Y and Z matrices of `eqsn/gates.py`, and the matrix of `cphase_gate`.
- `Measurement` (measurement.dfy): the outcome draw of `measure`, both as written and as intended.
- `Scaling` (scaling.dfy): how the squared norm and the sum of squares change when a vector is multiplied by a real number, which carries the draw across the renormalisation the model leaves out.
- `Lists` (lists.dfy): `list.index`, `list.remove`, and the de-duplicating lookup of the registry.
- `QubitThreads` (qubit_thread.dfy): the worker of `eqsn/qubit_thread.py`. Each command is a function on a `Group` (ids and vector). `RunSpec` specifies the command loop. The class `QubitThread` has the source's fields and methods, each proved against those functions.
- `EarlyQubitThreads` (qubit_thread_v0.dfy): the loop of `src/qubit_thread.py`, run over the same class.
- `SharedDict` (shared_dict.dfy): the registry of `eqsn/shared_dict.py`, as functions on `Tables` and as the class `Registry`.
- `EarlySharedDict` (shared_dict_v0.dfy): the registry of `src/shared_dict.py`.
- `ProcessPickers` (process_picker.dfy): the picker of `eqsn/process_picker.py`.
- `Gates` (gates.dfy): `eqsn/gates.py`, as functions on a `World` and as the class `Simulator`.
  - A `World` holds the registry, the group of the worker behind each live queue, and a counter that names new queues.
  - The invariant `Owns` says that every registered id is held by exactly the group of its queue, and that every held id is registered.

Points where the code does something a reader might not expect, modelled as written:

- **Drawing the outcome.** `measure` passes `1.0 - pr_0.real` to `np.random.binomial` as it is (`eqsn/qubit_thread.py:109`). `np.random.binomial` raises `ValueError` for a probability outside [0, 1], and `Measurement.Binomial` does the same.
- **Non-destructive measurement.** `eqsn/gates.py:159` names the undefined `MEASURE_NON_DESTRUCTIVE`, which raises `NameError`.
- **Qubit order in a controlled gate.** `apply_controlled_gate` reorders nothing. When the target comes before its control, it reaches the undefined name `firt_mat` (`eqsn/qubit_thread.py:58`) and raises `NameError`.
- **The cphase matrix.** `cphase_gate` applies `[[0, 1], [0, -1]]` under control (`eqsn/gates.py:144`), although its docstring calls it a controlled X gate. That matrix is not unitary: it sends |0> to the zero vector (`PauliGates.CphaseSingular`).
- **Amplitude weight.** pr_0 is `np.dot(w, w)` with no conjugation (`eqsn/qubit_thread.py:107-108`). The worker's draw, `Measurement.Draw`, computes it the same way (see Findings).

## Model

| member | source | states |
|---|---|---|
| Lists.IndexOf | eqsn/qubit_thread.py:29 | list.index: the position of the first occurrence, and it exists exactly when the id is held |
| Lists.RemoveFirst | eqsn/qubit_thread.py:123 | list.remove: one element fewer, the first occurrence gone, everything before it kept and everything after it shifted left by one |
| Lists.DistinctRemove | eqsn/qubit_thread.py:123 | removing from a list without repetitions leaves no copy of the id and keeps every other id |
| Lists.Dedup | eqsn/shared_dict.py:84-88 | the collected queues have no repetition, and each looked-up queue is among them |
| Lists.DedupOrder | eqsn/shared_dict.py:84-88 | the collected queues keep the order of their first occurrence |
| Lists.DedupSnoc | eqsn/shared_dict.py:86-87 | one more lookup appends its queue exactly when that queue is new |
| Lists.PairLookup | eqsn/gates.py:112-118 | looking up two ids gives one queue when they share it and both in order otherwise |
| Lists.LookupDistinct | eqsn/shared_dict.py:81-89 | KeyError exactly when some id is unregistered; otherwise the queues of the ids, each once, in order of first occurrence |
| ThreadMatrices.SingleGateEmbedding | eqsn/qubit_thread.py:28-36 | whichever of the two ifs fire, the matrix is I(2^before) ⊗ mat ⊗ I(2^after) |
| ThreadMatrices.SingleGateCorrect | eqsn/qubit_thread.py:27-37 | that matrix times the vector applies the gate to each pair of amplitudes that differ only in the qubit's bit |
| ThreadMatrices.ControlledMatrix | eqsn/qubit_thread.py:49-78 | first_mat + second_mat for a control before its target is square, of the register's size |
| ThreadMatrices.ControlledCorrect | eqsn/qubit_thread.py:59-79 | that matrix times the vector applies the gate to the target exactly on the amplitudes whose control bit is 1 |
| ThreadMatrices.ReductionEmbedding | eqsn/qubit_thread.py:114-122 | the reduction matrix is I(2^before) ⊗ row b ⊗ I(2^after) |
| ThreadMatrices.ReductionCorrect | eqsn/qubit_thread.py:128 | that matrix times the vector keeps exactly the amplitudes whose measured bit is the outcome, in order |
| PauliGates.PauliSelfInverse | eqsn/gates.py:29-53 | the X, Y and Z matrices each square to the identity |
| PauliGates.ApplyTwice | eqsn/gates.py:29-53 | a self-inverse gate applied twice to one qubit restores the state vector |
| PauliGates.FlipFresh | eqsn/gates.py:33 | X turns the fresh state [1, 0] into [0, 1] |
| PauliGates.XSwaps | eqsn/gates.py:33 | X exchanges the two amplitudes of every pair |
| PauliGates.CphaseRows | eqsn/gates.py:144 | the cphase matrix sends (lo, hi) to (hi, -hi) for every lo and hi |
| PauliGates.CphaseSingular | eqsn/gates.py:144 | the cphase matrix sends the norm-1 state [1, 0] to [0, 0], and any two states that differ only in the first amplitude to the same state |
| Measurement.YRows | eqsn/gates.py:42 | Y sends the pair (lo, hi) to (-i·hi, i·lo) |
| Measurement.Binomial | eqsn/qubit_thread.py:109 | the draw gives 0 or 1, raises ValueError exactly for a probability outside [0, 1], and never gives an outcome of probability zero |
| Measurement.WidenForm | eqsn/qubit_thread.py:103-106 | measure_vec with the ifs is the Kronecker product ones ⊗ [1, 0] ⊗ ones |
| Measurement.MeasureVectorAt | eqsn/qubit_thread.py:98-106 | measure_vec is 1 exactly where the measured qubit's bit is 0 |
| Measurement.HadamardMasked | eqsn/qubit_thread.py:107 | the elementwise product keeps the amplitudes whose measured bit is 0 and zeroes the rest |
| Measurement.ProbZeroAsWrittenSquares | eqsn/qubit_thread.py:107-108 | pr_0 as written is the sum of the squares, not the squared moduli, of the kept amplitudes |
| Measurement.AsWrittenAgreesOnReal | eqsn/qubit_thread.py:107-109 | on a normalised vector of real amplitudes the draw as written equals the intended draw |
| Measurement.OneProbability | eqsn/qubit_thread.py:107-109 | the probability of outcome 1 lies in [0, 1], and each outcome has positive probability exactly when it has weight |
| Measurement.Sample | eqsn/qubit_thread.py:109 | the intended draw fails only on the zero vector, and gives only an outcome with positive weight |
| Measurement.CertainOutcome | eqsn/qubit_thread.py:109-118 | when only outcome b has weight, the intended draw gives b whatever the random number |
| Measurement.GroundAsWritten | eqsn/qubit_thread.py:107-108 | for a single qubit [c, 0], pr_0 as written is c·c |
| Measurement.GroundSample | eqsn/qubit_thread.py:109 | for a single qubit [c, 0] with c ≠ 0, the intended draw gives 0 |
| Measurement.NegativeSquareAsWritten | eqsn/qubit_thread.py:109 | when the real part of c·c is negative, the draw as written raises ValueError |
| Measurement.FreshXY | eqsn/gates.py:29-44 | X and then Y on a fresh qubit give [-i, 0] |
| Measurement.AsWrittenCounterexample | eqsn/qubit_thread.py:107-109 | on [-i, 0] the draw as written raises ValueError while the intended draw gives 0 |
| Measurement.Draw | eqsn/qubit_thread.py:98-109 | the worker's draw on the model's vector: pr_0 as written over the squared norm; ValueError for a vector of no weight; otherwise 0 or 1 |
| Measurement.DrawAsWritten | eqsn/qubit_thread.py:98-109 | the worker's draw is binomial(1, 1 - pr_0 / squared norm) with pr_0 built from measure_vec exactly as measure builds it; ValueError on a vector of no weight |
| Measurement.DrawOnUnitVector | eqsn/qubit_thread.py:107-109 | on a vector of norm 1 the worker's draw is the draw as written |
| Scaling.NormSqScale | eqsn/qubit_thread.py:130-131 | multiplying a vector by a real c multiplies its squared norm by c·c |
| Scaling.SquaresScale | eqsn/qubit_thread.py:108 | multiplying a vector by a real c multiplies the sum of the squares of its entries by c·c |
| Measurement.ProbZeroScale | eqsn/qubit_thread.py:107-108 | multiplying the vector by a real c multiplies pr_0 as written, a complex number, by c·c |
| Measurement.DrawRenormalised | eqsn/qubit_thread.py:107-131 | whenever a real multiple of the model's vector has norm 1, as the source's renormalised vector does, the source's draw on it is the worker's draw on the model's vector |
| Measurement.DrawAgreesOnReal | eqsn/qubit_thread.py:107-109 | on real amplitudes of any norm the worker's draw is the intended draw |
| Measurement.DrawOnReal | eqsn/qubit_thread.py:107-109 | on real amplitudes the worker's draw fails exactly on a vector of no weight |
| Measurement.DrawCounterexample | eqsn/qubit_thread.py:107-109 | on [-i, 0] the worker's draw raises ValueError |
| QubitThreads.Fresh | eqsn/qubit_thread.py:15-25 | a new worker's group is consistent and holds the id |
| QubitThreads.SingleGate | eqsn/qubit_thread.py:27-37 | ValueError exactly when the id is not held; otherwise the same ids and a vector of the same size |
| QubitThreads.Controlled | eqsn/qubit_thread.py:39-79 | ValueError when either id is not held; NameError exactly when the target does not come after its control; otherwise the same ids |
| QubitThreads.ControlledStep | eqsn/qubit_thread.py:42-79 | for a target after its control, the new vector is first_mat + second_mat times the old one |
| QubitThreads.ZeroWeight | eqsn/qubit_thread.py:98-108 | measure_vec built with the two ifs, then pr_0 = np.dot of the elementwise product with itself, is pr_0 as written |
| QubitThreads.MeasureSpec | eqsn/qubit_thread.py:96-131 | ValueError for an id not held and for a failing draw (always for a vector of no weight); otherwise outcome 0 or 1 and the id removed; the last qubit leaves its vector as it was |
| QubitThreads.WorkerDraw | eqsn/qubit_thread.py:98-109 | pr_0 from ZeroWeight, divided by the squared norm and passed to the binomial draw, is the worker's draw |
| QubitThreads.MeasureDrawn | eqsn/qubit_thread.py:109-126 | when the worker's draw gives b, measure gives outcome b and the group with the id removed and the amplitudes of outcome b kept |
| QubitThreads.ReducedByMatrix | eqsn/qubit_thread.py:114-128 | the group after outcome b is the id removed and the reduction matrix times the vector (the vector as it was for the last qubit) |
| QubitThreads.MeasureStep | eqsn/qubit_thread.py:96-128 | after the worker's draw gives b, the new vector is the reduction matrix times the old one, which keeps the amplitudes whose measured bit is b |
| QubitThreads.MeasureFails | eqsn/qubit_thread.py:109 | when the worker's draw fails, the measurement raises ValueError |
| QubitThreads.MeasureOnReal | eqsn/qubit_thread.py:96-109 | on real amplitudes, measuring a held qubit fails exactly when the vector has no weight |
| QubitThreads.Reduced | eqsn/qubit_thread.py:119-128 | the id leaves the list; with other qubits left the vector halves, and the last qubit keeps it |
| QubitThreads.Accept | eqsn/qubit_thread.py:81-85 | the group grows by the received ids and stays consistent |
| QubitThreads.AcceptLayout | eqsn/qubit_thread.py:85 | amplitude i·len(vector)+j of the merged group is amplitude i of the receiver times amplitude j of the sender |
| QubitThreads.Step | eqsn/qubit_thread.py:137-158 | None, GIVE_QUBITS_AND_TERMINATE and an unknown tag end the loop with the state unchanged; an unknown tag raises ValueError |
| QubitThreads.RunSpec | eqsn/qubit_thread.py:134-158 | items are taken in queue order; a run that has not ended has consumed the whole queue |
| QubitThreads.RunIgnoresRest | eqsn/qubit_thread.py:136-158 | items behind the one that ends the loop are never taken |
| QubitThreads.RunAppend | eqsn/qubit_thread.py:136-137 | a waiting run carries on with later items from where it stopped |
| QubitThreads.RunThenStop | eqsn/qubit_thread.py:138-139 | None ends a waiting run with nothing sent and the state untouched |
| QubitThreads.GateTwice | eqsn/qubit_thread.py:27-37 | a self-inverse gate applied twice to a held qubit gives the group back |
| QubitThreads.FlipNew | eqsn/qubit_thread.py:27-37 | X on a new worker's qubit gives the state [0, 1] |
| QubitThreads.BasisSample | eqsn/qubit_thread.py:109 | with the intended draw, a qubit in a basis state draws that state's value whatever the random number (the worker's own draw is QubitThreads.BasisDraw) |
| QubitThreads.BasisDraw | eqsn/qubit_thread.py:98-109 | the worker's draw on a basis state gives that state's value whatever the random number |
| QubitThreads.MeasureBasis | eqsn/qubit_thread.py:123-126 | a lone qubit in a basis state measures as its value and the group becomes empty |
| QubitThreads.RunToBasis | eqsn/qubit_thread.py:145-149 | a worker with a lone basis qubit sends its value and returns after one measurement |
| QubitThreads.NewThenXThenMeasure | eqsn/qubit_thread.py:134-158 | a new qubit, X and a measurement: the worker sends 1 and returns |
| QubitThreads.NewThenTwiceThenMeasure | eqsn/qubit_thread.py:134-158 | a new qubit, a self-inverse gate twice and a measurement: the worker sends 0 and returns |
| QubitThreads.XThenYSteps | eqsn/qubit_thread.py:27-37 | X takes a new qubit to [0, 1], and Y then to [-i, 0] |
| QubitThreads.MinusImagFails | eqsn/qubit_thread.py:107-109 | measure on a lone qubit in [-i, 0] raises ValueError |
| QubitThreads.MinusImagMeasure | eqsn/qubit_thread.py:145-149 | a worker holding a lone qubit in [-i, 0] ends its loop with ValueError on MEASURE, sending nothing and keeping the qubit |
| QubitThreads.NewThenXThenYThenMeasure | eqsn/qubit_thread.py:134-158 | a new qubit, X, Y and a measurement: the loop ends in ValueError after three items, with nothing sent |
| QubitThreads.QubitThread.constructor | eqsn/qubit_thread.py:15-25 | the new worker is Fresh(id) |
| QubitThreads.QubitThread.ApplySingleGate | eqsn/qubit_thread.py:27-37 | the new state is SingleGate of the old one; on failure nothing changes |
| QubitThreads.QubitThread.ApplyControlledGate | eqsn/qubit_thread.py:39-79 | the new state is Controlled of the old one; on failure nothing changes |
| QubitThreads.QubitThread.MergeAccept | eqsn/qubit_thread.py:81-85 | the new state is Accept of the old one with the received ids and vector |
| QubitThreads.QubitThread.MergeSend | eqsn/qubit_thread.py:87-90 | sends copies of the ids and the vector, and changes nothing |
| QubitThreads.QubitThread.SendQubits | eqsn/qubit_thread.py:92-94 | sends a copy of the ids, and changes nothing |
| QubitThreads.QubitThread.Measure | eqsn/qubit_thread.py:96-131 | builds measure_vec and pr_0 as the source does; the outcome and the new state are those of MeasureSpec; on failure nothing changes |
| QubitThreads.QubitThread.Handle | eqsn/qubit_thread.py:137-158 | one pass of the loop body does what Step says |
| QubitThreads.QubitThread.Run | eqsn/qubit_thread.py:134-158 | the end, the messages sent, the items consumed and the final state are those of RunSpec |
| EarlyQubitThreads.EarlyStep | src/qubit_thread.py:87-104 | DOUBLE_GATE, MERGE_ACCEPT and MERGE_SEND change nothing; the other tags act as in the later worker |
| EarlyQubitThreads.EarlyRunSpec | src/qubit_thread.py:85-104 | items in queue order; a run that has not ended has consumed the whole queue |
| EarlyQubitThreads.IgnoredPrefix | src/qubit_thread.py:92-102 | ignored items at the head of the queue change nothing but the count of items taken |
| EarlyQubitThreads.OnlyOutcomesSent | src/qubit_thread.py:85-104 | the early worker sends nothing but measurement outcomes |
| EarlyQubitThreads.AgreesWithLater | src/qubit_thread.py:85-104 | on a queue without ignored items the early loop runs exactly as the later one |
| EarlyQubitThreads.GiveQubitsUnknown | src/qubit_thread.py:103-104 | tag 6 raises ValueError in the early worker, while the later one hands over its ids |
| EarlyQubitThreads.Handle | src/qubit_thread.py:87-104 | one pass of the early loop body does what EarlyStep says |
| EarlyQubitThreads.Run | src/qubit_thread.py:85-104 | the early run's outcome is that of EarlyRunSpec |
| SharedDict.SetSpec | eqsn/shared_dict.py:92-98 | the id is bound to the queue and thread, overwriting any earlier binding; other ids keep theirs; both lists grow |
| SharedDict.DeleteSpec | eqsn/shared_dict.py:101-105 | both dicts lose the id; KeyError when it is missing from either, with id_to_queue already changed in the second case |
| SharedDict.DeleteJoinSpec | eqsn/shared_dict.py:108-119 | nothing for an id without a thread; otherwise both dicts lose it; a thread that is not alive and is listed leaves thread_list once, and thread_list is untouched otherwise |
| SharedDict.RepointLoop | eqsn/shared_dict.py:138-143 | the loop raises only KeyError and never touches queue_list |
| SharedDict.ChangeSpec | eqsn/shared_dict.py:133-144 | KeyError and no change when the target is unregistered; queue_list is untouched |
| SharedDict.LookupAfterSet | eqsn/shared_dict.py:92-98 | after set_thread_with_id, looking the id up gives exactly the new queue |
| SharedDict.DeleteKeepsKeys | eqsn/shared_dict.py:101-105 | with the dicts in step, delete fails exactly for an unknown id and keeps them in step |
| SharedDict.DeleteJoinKeepsKeys | eqsn/shared_dict.py:108-119 | with the dicts in step, the conditional delete never fails and removes the id from both |
| SharedDict.RepointBinds | eqsn/shared_dict.py:138-143 | the repoint succeeds exactly when every id has a thread, and then binds each to the new thread and queue |
| SharedDict.RepointKeeps | eqsn/shared_dict.py:138-143 | every other id keeps its binding, and no key is added |
| SharedDict.RepointKeepsKeys | eqsn/shared_dict.py:138-143 | a successful repoint keeps the dicts in step |
| SharedDict.RepointShrinks | eqsn/shared_dict.py:138-140 | thread_list only loses threads |
| SharedDict.RepointSpares | eqsn/shared_dict.py:138-140 | a thread that is neither the new one nor an old one of the ids keeps its place |
| SharedDict.RepointJoinsAll | eqsn/shared_dict.py:137-141 | with distinct threads, no repointed id's old thread is left in thread_list |
| SharedDict.Registry.constructor | eqsn/shared_dict.py:73-78 | the tables start empty and in step |
| SharedDict.Registry.GetQueuesForIds | eqsn/shared_dict.py:81-89 | KeyError exactly when an id is unregistered; otherwise the queues of the ids, each once, in order of first occurrence |
| SharedDict.Registry.SetThreadWithId | eqsn/shared_dict.py:92-98 | the tables become SetSpec of the old ones |
| SharedDict.Registry.DeleteId | eqsn/shared_dict.py:101-105 | the tables and status are DeleteSpec of the old ones |
| SharedDict.Registry.DeleteIdAndCheckToJoinThread | eqsn/shared_dict.py:108-119 | the tables and status are DeleteJoinSpec of the old ones |
| SharedDict.Registry.ChangeThreadAndQueueOfIdsAndJoin | eqsn/shared_dict.py:133-144 | the tables and status are ChangeSpec of the old ones |
| EarlySharedDict.EarlySet | src/shared_dict.py:82-87 | the id is bound to the queue, overwriting; other ids keep theirs; the queue and thread are appended |
| EarlySharedDict.ChangeQueue | src/shared_dict.py:89-92 | exactly one id is rebound; the lists stay as they are |
| EarlySharedDict.AppendOnly | src/shared_dict.py:65-92 | no sequence of calls removes a thread, a queue or a bound id |
| EarlySharedDict.BindingPersists | src/shared_dict.py:82-92 | an id keeps its queue until a later call names it again |
| EarlySharedDict.EarlyRegistry.constructor | src/shared_dict.py:65-69 | the tables start empty |
| EarlySharedDict.EarlyRegistry.GetThreadsForIds | src/shared_dict.py:72-80 | KeyError exactly when an id is unregistered; otherwise its queues, each once, in order of first occurrence |
| EarlySharedDict.EarlyRegistry.SetThreadWithId | src/shared_dict.py:82-87 | the tables become EarlySet of the old ones |
| EarlySharedDict.EarlyRegistry.ChangeIdsQueue | src/shared_dict.py:89-92 | the tables become ChangeQueue of the old ones |
| ProcessPickers.PyMod | eqsn/process_picker.py:25 | Python's %: ZeroDivisionError exactly for a zero divisor, and otherwise the one remainder that differs from the dividend by a multiple of the divisor and has the divisor's sign, within the divisor's range |
| ProcessPickers.PyIndex | eqsn/process_picker.py:25 | Python's subscript: a negative index counts from the end, IndexError outside the list |
| ProcessPickers.Pick | eqsn/process_picker.py:25 | ZeroDivisionError with no processes; the queue at pointer mod amount when the list is long enough; IndexError when it is too short |
| ProcessPickers.RoundRobin | eqsn/process_picker.py:20-27 | from any pointer, amount consecutive calls return each of the first amount queues exactly once |
| ProcessPickers.ProcessPicker.constructor | eqsn/process_picker.py:16-18 | the pointer starts at 0 |
| ProcessPickers.ProcessPicker.GetNextProcessQueue | eqsn/process_picker.py:20-27 | returns Pick at the old pointer; the pointer advances by one exactly when that succeeds |
| Gates.NewQubitOwns | eqsn/gates.py:10-18 | a new qubit under a new id keeps registry and workers in agreement |
| Gates.NewQubitRebinds | eqsn/gates.py:10-18 | a new qubit under a registered id breaks that agreement: the old worker still holds the id |
| Gates.GateOwns | eqsn/gates.py:29-53 | X, Y and Z keep registry and workers in agreement |
| Gates.MergeOwns | eqsn/gates.py:107-125 | merging keeps the agreement and the registered ids; it succeeds exactly when both ids are registered, else KeyError |
| Gates.MergeMoves | eqsn/gates.py:117-125 | after merging two groups, q_id1's queue is gone, q_id2's group is its old ids then the sender's with the Kronecker product vector, the sender's ids point to q_id2's queue and other ids are unchanged |
| Gates.MergeSameQueue | eqsn/gates.py:112-114 | two ids already on one queue: nothing changes |
| Gates.SenderProtocol | eqsn/gates.py:120-124 | q_id1's worker sends its ids and vector, then its ids, and returns |
| Gates.ReceiverProtocol | eqsn/gates.py:121 | q_id2's worker appends what it was handed and waits for more |
| Gates.ForwardOrder | eqsn/qubit_thread.py:84 | in the merged group a sender id comes after a receiver id |
| Gates.ControlledGateOwns | eqsn/gates.py:128-147 | cnot_gate and cphase_gate keep registry and workers in agreement |
| Gates.ControlledGateUnfold | eqsn/gates.py:128-147 | cnot_gate and cphase_gate are merge_qubits followed by CONTROLLED_GATE with their matrix, target q_id1 and control q_id2, on q_id1's queue |
| Gates.DeliverControlled | eqsn/gates.py:136 | the controlled gate put on a queue succeeds exactly when the worker's apply_controlled_gate does |
| Gates.ControlledAcrossGroups | eqsn/gates.py:128-147 | on two ids of different groups, cnot_gate and cphase_gate succeed |
| Gates.ControlledBackwards | eqsn/qubit_thread.py:57-58 | after that merge, cnot_gate or cphase_gate with the roles swapped fails with NameError |
| Gates.MeasureOwns | eqsn/gates.py:150-165 | measure keeps registry and workers in agreement |
| Gates.NewXYMeasureBlocks | eqsn/gates.py:150-165 | a new qubit taken by X_gate and Y_gate to [-i, 0]: measure never gets an answer, and the registry keeps the id |
| Gates.MeasureUnregisters | eqsn/gates.py:150-165 | a non-destructive measure raises NameError, or KeyError for an unknown id, and changes nothing; a returned outcome is 0 or 1 and exactly that id leaves the registry |
| Gates.Simulator.constructor | eqsn/gates.py:1-7 | no qubits, no workers, and the invariant holds |
| Gates.Simulator.NewQubit | eqsn/gates.py:10-18 | the world becomes NewQubitSpec of the old one, keeping the agreement for a new id |
| Gates.Simulator.XGate | eqsn/gates.py:29-35 | KeyError for an unknown id, else X applied by its worker; the agreement is kept |
| Gates.Simulator.YGate | eqsn/gates.py:38-44 | KeyError for an unknown id, else Y applied by its worker; the agreement is kept |
| Gates.Simulator.ZGate | eqsn/gates.py:47-53 | KeyError for an unknown id, else Z applied by its worker; the agreement is kept |
| Gates.Simulator.PutSingleGate | eqsn/gates.py:29-35 | the lookup and the SINGLE_GATE put of the three gates |
| Gates.Simulator.Put | eqsn/gates.py:136 | a gate command taken by the worker of the queue; a worker that raises keeps its group |
| Gates.Simulator.MergeQubits | eqsn/gates.py:107-125 | the world and result are MergeSpec of the old world; the agreement is kept |
| Gates.Simulator.MergeGroups | eqsn/gates.py:117-125 | the merge of two different queues does what MergeSpec says |
| Gates.Simulator.HandOver | eqsn/gates.py:119-124 | q_id1's group is gone and q_id2's group has accepted its ids and vector |
| Gates.Simulator.CnotGate | eqsn/gates.py:128-136 | the world and result are CnotSpec of the old world; the agreement is kept |
| Gates.Simulator.CphaseGate | eqsn/gates.py:139-147 | the world and result are CphaseSpec of the old world; the agreement is kept |
| Gates.Simulator.ControlledGate | eqsn/gates.py:133-136 | the merge, lookup and CONTROLLED_GATE put both gates share: ControlledGateSpec of the old world, with the agreement kept |
| Gates.Simulator.Measure | eqsn/gates.py:150-165 | the world and reply are MeasureQubitSpec of the old world; the agreement is kept |
| Gates.Simulator.TakeMeasurement | eqsn/gates.py:161-162 | MEASURE taken by the worker: the outcome and the group MeasureSpec gives, with the worker's draw as written, or no reply when the worker raises |

## Left out

- Floating point: amplitudes are exact complex numbers over the reals, not `np.csingle`, so rounding is not modelled.
- Renormalisation after a measurement (`eqsn/qubit_thread.py:130-131`, `src/qubit_thread.py:81-82`) is left out, because it needs a square root. The model keeps the vector unnormalised. `Measurement.Draw` divides pr_0 as written by the squared norm, and `Measurement.DrawRenormalised` proves that this is the source's draw on the vector divided by any real number that brings it to norm 1.
- A vector of no weight: the model's vector becomes zero where the source's renormalisation divides a collapsed vector of no weight by a norm of 0, leaving NaN entries. numpy's binomial refuses a NaN probability with ValueError, and `Measurement.Draw` raises ValueError on the zero vector.
- Random numbers: the draw of `np.random.binomial` is a parameter `u` in [0, 1). Outcome 1 is drawn when `u` is below its probability.
- Processes, queues and locks:
  - `multiprocessing` queues, processes and the `ReadWriteLock` of both registries are left out.
  - Each user-level operation runs to completion, and the worker drains its queue before the call returns.
  - Interleavings of concurrent callers are not modelled.
  - Queues and processes are identified by numbers (`Queue(n)`, `Thread(n)`).
- `delete_id` raising KeyError leaves the write lock held (`eqsn/shared_dict.py:101-105`); without locks the model cannot show that.
- `join`, `is_alive` and process start/termination: `alive` is a parameter of the conditional delete, and joining is a no-op.
- A worker that raises: in `Gates`, a worker that raises has its group kept and the caller sees `Fail` or no reply (`NoReply`). In the real system the process dies and the caller of `X_gate` sees nothing.
- QubitThreads.Admissible: the merge protocol's guarantee that a merged-in vector has one amplitude per received id, and that draws lie in [0, 1), is stated as a precondition on the queue contents rather than derived from the channel.
- `send_all_threads`, `stop_all_threads` (`eqsn/shared_dict.py:147-158`) and `stop_all` (`eqsn/gates.py:21-26`) only send `None` and join processes; they are not modelled.
- `join_thread_with_id` (`eqsn/shared_dict.py:122-130`) is not called by the modelled code and is not modelled.
- `H_gate`, `T_gate`, `RX_gate`, `RY_gate` and `RZ_gate` (`eqsn/gates.py:56-104`) are not modelled: their matrices hold irrational or trigonometric entries.
- `ProcessPicker.get_instance` and the singleton check at `eqsn/process_picker.py:6-15` are not modelled. The check reads `ProcessPicker.__instance` (name-mangled to `_ProcessPicker__instance`), which is never assigned, so it raises `AttributeError` on every construction. The constructor, modelled from line 16 on, is therefore never reached in the source.
- `eqsn/worker_process.py` and `src/main.py` are not part of this model.
- The `print` in `src/qubit_thread.py:36` is left out.
- `merge_accept` and `merge_send` of `src/qubit_thread.py:38-45` are never reached from its `run`, so they are not modelled for that revision. Their in-place `+=` and the aliasing of the sent list are not modelled either.
- QubitThreads.MeasureSpec: states the vector after the measurement without renormalisation, so the source's vector is always a real multiple of the model's. Its draw is the source's whenever a real multiple of the model's vector has norm 1 (`Measurement.DrawRenormalised`), which holds while only X, Y, Z and CNOT act. A non-unitary matrix makes the source draw on a vector whose norm is not 1, and the model does not follow that. `cphase_gate` applies such a matrix (`PauliGates.CphaseSingular`): with control |1> and target |0> it leaves the zero vector, on which the source's next measurement in that group has pr_0 = 0 and gives 1, while the model's `Draw` gives ValueError. A matrix such as 2·I put straight on a worker's queue does the same: from [1, 0] the source has pr_0 = 4 and raises ValueError, while the model draws 0.
- QubitThreads.MeasureStep: the same renormalisation caveat as MeasureSpec.
- QubitThreads.MeasureFails: the same renormalisation caveat as MeasureSpec.
- QubitThreads.QubitThread.Measure: the same renormalisation caveat as MeasureSpec.
- Gates.Simulator.TakeMeasurement: the same renormalisation caveat as MeasureSpec.
- QubitThreads.Controlled: when the target comes first, lines 53-55 of `eqsn/qubit_thread.py` build the identity matrices when `before > 0`, and line 58 then raises NameError on `firt_mat`. Nothing is multiplied into the vector, so the group is unchanged. What that branch would compute were the name defined is not modelled.
- Gates.GateSpec, Gates.MergeSpec, Gates.ControlledGateSpec (and so CnotSpec and CphaseSpec) and Gates.MeasureQubitSpec, and every `Gates.Simulator` method except NewQubit, require `Owns`. `new_qubit` under an id that is already registered breaks `Owns` (`Gates.NewQubitRebinds`), and the source allows that call (`eqsn/gates.py:10-18`, `eqsn/shared_dict.py:92-98`). After such a call the old worker still holds the id while later commands reach the new worker, and a merge of the old group could repoint the id or raise KeyError partway. That behaviour is not modelled.

## Findings

| source | as written | input that shows it | evidently intended | confidence | as-written member | corrected member |
|---|---|---|---|---|---|---|
| eqsn/qubit_thread.py:107-109 | pr_0 is `np.dot(w, w)`, the sum of the squares of the complex amplitudes, with no conjugation | a fresh qubit after X then Y is [-i, 0]: pr_0 is -1, so `binomial(1, 2.0)` raises ValueError, the worker's loop ends (QubitThreads.NewThenXThenYThenMeasure) and `measure` waits forever (Gates.NewXYMeasureBlocks) | pr_0 is the sum of the squared moduli, so outcome 0 is certain for [-i, 0] | not executed | Measurement.AsWrittenCounterexample | Measurement.Sample |

# Verified model of the HiQ simulators and scheduler

A Dafny model of four connected parts of the HiQ quantum simulation framework,
with proofs of what they promise. `dafny verify dfyconfig.toml` checks the
whole project.

**Scheduling.** `ClusterScheduler.dfy` is the memoised search for the largest
set of gates that can be fused on a few local qubits. `SwapScheduler.dfy` is
the budgeted backtracking search for the qubits to make local next, with the
fusing of single-qubit gates before it. `GreedyScheduler.dfy` is the compiler
engine that calls both until the whole circuit is sent. `Circuits.dfy` says
when two orders of a circuit mean the same, `CircuitMeaning.dfy` that gates as
operators on amplitudes are such a meaning.

**Stabilizer simulator.** `Symplectic.dfy` is the linear algebra over GF(2),
`PauliPhase.dfy` the word-parallel phase of a row product, `GateCache.dfy` the
layered cache of gates, `Tableau.dfy` measurement, `Outcomes.dfy` the
probability query, `StabilizerSimulator.dfy` the object that updates all this
in place. `StabilizerGroup.dfy`, `StabilizerState.dfy`, `GateAction.dfy` and
`SetQubits.dfy` say what the signs mean: the group that the signed stabilizer
rows generate, and how gates, measurements and `set_qubits` change it;
`WideTableau.dfy` is a circuit on which they come out wrong.

**Distributed qubit exchange.** `Bits.dfy` and `QubitSwap.dfy` are the index
arithmetic and the reason why the state does not change, `SwapTables.dfy` the
three sorts of `q2bits_ng`, `DistributedSwap.dfy` and `SwapQubits.dfy` the
exchange on all ranks in lock-step, `Pipeline.dfy` the three threads with their
queues and recycled buffers as a state machine.

**Gates on arrays.** `Operators.dfy` gives gates their meaning, `Fusion.dfy`
and `FusedGates.dfy` are the fusion of controlled gates into one matrix,
`InvertibleGates.dfy` what invertible matrices add to that, `Kernels.dfy` the
in-place kernels, `GateApplication.dfy` the restriction of a gate to each rank
and the ranks together.

Conventions. A bit mask over qubits is a set of qubit positions, an amplitude a
pair of exact reals. A random bit is a parameter of the method that would draw
it. An exception is a result (`ok`, `Option`). Where the source treats all
ranks alike, one object holds the arrays of all ranks.

## Where the code does less than its documentation says

- The sign of a row product. `compute_phase_` combines the two-bit counters of
  the eight lanes by XOR, which loses carries. `PauliPhase.PhaseExactIff` gives
  the exact condition on the two rows, `PauliPhase.WideRowsCanBeWrong` two rows
  where it fails, `StabilizerState.OutcomeExactIff` and `StateExactIff` what
  this means for measurements, `WideTableau.WideOutcomeIsWrong` a circuit whose
  sure outcome comes out wrong. With at most 32 qubits all signs are right; for
  more, everything here that does not mention signs holds, and so do repeated
  measurement, inversion and setting of one qubit, and all laws of
  probabilities.
- The factor of 1x1 matrices in `Fusion`. It is applied inside the block of the
  common controls. `GateFusion.InsertExactIff` and `GateFusion.FactorExactIff`
  say exactly when that is right. It also goes wrong when a 1x1 matrix comes
  before the first controlled gate. `ApplyGate` runs into this only while the
  controls of a gate that exceeds a cluster are pending.
- `Fusion::insert` ignores the control list of a 1x1 matrix, which
  `GateFusion.FactorExactIff` covers too; `ApplyGate` runs into this when such
  a matrix has more local controls than a cluster has qubits.
- `ApplyGate` inserts a gate that exceeds a cluster with its global targets and
  controls. `Run` then fails when a target is global, or when a later gate
  turns a pending global control into a target. The engine flushes after such a
  gate, which avoids the second case.
- The buffered 4-target kernel computes some bases in two batches when its
  batch size does not divide the number of bases (`Kernels.BatchesExactIff`);
  the default size, a power of two, avoids this.

## Model

| member | source | states |
|---|---|---|
| ClusterScheduling.GreedyScanIsLargest | src/scheduler/cluster_scheduler.h:76-99 | For a fixed cluster the scan over the gates takes an admissible set that contains every other admissible set, so its size is the maximum. |
| ClusterScheduling.ClusterScheduler.CalcCombination | src/scheduler/cluster_scheduler.h:76-99 | Afterwards the best answer is at least as good as the given cluster; a cluster that the memo marks as seen was covered before. |
| ClusterScheduling.Problem.CompleteFromBranches | src/scheduler/cluster_scheduler.cpp:80-99 | If both branches at a qubit position leave nothing better to find, neither does the position itself. |
| ClusterScheduling.ClusterScheduler.Rec | src/scheduler/cluster_scheduler.cpp:80-99 | After the call no extension of the cluster by local qubits from this position on, within the size limit, beats the best answer; work that the memo marks as finished stays finished although the best answer changes. |
| ClusterScheduling.Problem.SingleGateClustersSuffice | src/scheduler/cluster_scheduler.cpp:54-59 | Starting only from the local qubits of single gates loses nothing: when those starts are complete, every cluster within the limit is covered. |
| ClusterScheduling.ClusterScheduler.ScheduleCluster | src/scheduler/cluster_scheduler.cpp:42-78 | The returned gates can be pulled to the front on the local qubits; no cluster within the size limit fuses more gates, none fuses as many on fewer qubits; when no gate fits a cluster the first one that can run is returned alone; nothing is returned exactly when nothing can run. |
| ClusterScheduling.ClusterScheduler.GetCommandsFromMask | src/scheduler/cluster_scheduler.h:102-119 | The gates listed for the best cluster are admissible on it and are as many as the search counted, so the size check never fails. |
| ClusterScheduling.ClusterScheduler.GetCommandsFromLocals | src/scheduler/cluster_scheduler.h:122-136 | The first gate that can run on the local qubits, or nothing, and nothing exactly when no gate can run. |
| SwapScheduling.Problem.OptimumMonotone | src/scheduler/swap_scheduler.h:73-87 | Blocking fewer qubits never lowers the best total weight that is still reachable. |
| SwapScheduling.Problem.FreeGateIsTaken | src/scheduler/swap_scheduler.cpp:105-117 | A gate that can be taken without new local qubits belongs to some optimum, so the search may refuse to skip it. |
| SwapScheduling.Problem.OptimumBoundsPlans | src/scheduler/swap_scheduler.cpp:90-170 | No set of gates that can be run in dependency order on a choice of local qubits outweighs the exhaustive recursion. |
| SwapScheduling.Problem.NoPlanBeatsOptimum | src/scheduler/swap_scheduler.cpp:81-87 | The recursion from the empty choice bounds every plan on every choice of local qubits. |
| SwapScheduling.SwapSearch.Rec | src/scheduler/swap_scheduler.cpp:90-170 | No CHECK fails; the best answer becomes the first strictly better one that Search finds below this node with the given splits, and the splits it leaves come back; exactly 1 + (budget - returned) leaves are reached in at most (gates left + 1) calls a leaf; the best answer is always a runnable plan and makes no qubit local that the plan does not need. |
| SwapScheduling.Problem.SearchBeatsGreedy | src/scheduler/swap_scheduler.cpp:125-169 | With any budget the search finds at least as much as taking every gate that can be taken; without splits it finds exactly that. |
| SwapScheduling.Problem.SearchWithinOptimum | src/scheduler/swap_scheduler.cpp:90-170 | With any budget it claims no more than the exhaustive recursion. |
| SwapScheduling.Problem.EnoughSplits | src/scheduler/swap_scheduler.cpp:90-170 | With at least 2^gates - 1 splits it finds as much as the exhaustive recursion. |
| SwapScheduling.Problem.OneMoreSplit | src/scheduler/swap_scheduler.cpp:143-166 | From every node one split more never finds less, and leaves at most one more. |
| SwapScheduling.Problem.MoreSplitsFindMore | src/scheduler/swap_scheduler.cpp:81-87 | A larger budget never finds less. |
| SwapScheduling.FuseJoins | src/scheduler/swap_scheduler.h:91-105 | Fusing keeps the account of what a gate is made of: the fused gate is exactly the gates of both parts, in its targets, its qubits and its diagonality. |
| SwapScheduling.FusedGateIs | src/scheduler/swap_scheduler.h:91-105 | A qubit is a target of a fused gate exactly when it is one of some gate in it, and a control exactly when it is a qubit of some and a target of none; the fused gate is diagonal exactly when all of them are. |
| SwapScheduling.FuseStep | src/scheduler/swap_scheduler.cpp:47-68 | One fusion and the erasure after it keep the relation to the original list: order of gates sharing a qubit, qubits and weights. |
| SwapScheduling.SwapScheduler.FuseToThis | src/scheduler/swap_scheduler.h:91-105 | The weight moves to the other gate; a control it acts on becomes a target, no other control does, and the gate stays diagonal only if the fused one is. |
| SwapScheduling.SwapScheduler.FuseToPrev | src/scheduler/swap_scheduler.h:109-118 | Fuses into the nearest earlier gate that acts on the qubit; when it does not fuse, no earlier gate does. |
| SwapScheduling.SwapScheduler.FuseToNext | src/scheduler/swap_scheduler.h:122-131 | Fuses into the nearest later gate that acts on the qubit; when it does not fuse, no later gate does. |
| SwapScheduling.SwapScheduler.FuseSingleQubitGates | src/scheduler/swap_scheduler.cpp:47-68 | The list is the one the backward pass gives, with non-diagonal gates fused forward first and diagonal ones backward first; every gate of it is exactly the original gates in it, every original gate is in one of them, and no single-qubit gate is left that shares its qubit with another gate. |
| SwapScheduling.PlanTransfers | src/scheduler/swap_scheduler.cpp:70-88 | A plan for the fused list, spread out to the original gates, is a plan for the original list with as many gates as its weight. |
| SwapScheduling.SwapScheduler.constructor | src/scheduler/swap_scheduler.cpp:25-45 | The list starts as given, or fused with nothing left to fuse, in the fusion relation to the original. |
| SwapScheduling.SwapScheduler.ScheduleSwap | src/scheduler/swap_scheduler.cpp:70-88 | The qubits and the number that Search finds on the list; that many gates of the original, unfused list can be executed in dependency order on them, each qubit is a target of one of these gates, and there are at most num_locals; with every num_splits no fewer than the greedy choice allows, with num_splits >= 2^gates - 1 no plan weighs more; at most (num_splits + 1)(gates + 1) calls. |
| Circuits.SameMeaning | hiq/projectq/cengines/_greedyscheduler.py:119-137 | If two action lists agree on every qubit in the order of the actions that touch it, a barrier touching every qubit, they have the same result under every semantics in which disjoint actions commute. |
| Circuits.EquivalentIsPermutation | hiq/projectq/cengines/_greedyscheduler.py:119-137 | Such lists are permutations of each other. |
| CircuitMeaning.ControlledZIsSymmetric | hiq/projectq/cengines/_greedyscheduler.py:95-112 | A controlled Z changes the sign where all its qubits are 1, whichever of them is called the target. |
| CircuitMeaning.GatesCommute | hiq/projectq/cengines/_greedyscheduler.py:127-136 | Controlled gates of any matrices without a common qubit commute as operators on amplitudes. |
| CircuitMeaning.ReorderedState | hiq/projectq/cengines/_greedyscheduler.py:203-242 | Gates as operators on amplitudes, and anything at all for the barriers: a reordered circuit gives the same amplitudes as the received one. |
| GreedyScheduling.PullingForwardIsEquivalent | hiq/projectq/cengines/_greedyscheduler.py:127-136 | Sending the gates of a runnable plan first and keeping the rest in order is equivalent to the original order. |
| GreedyScheduling.GreedyScheduler.PrepareControlledZ | hiq/projectq/cengines/_greedyscheduler.py:95-112 | Every controlled Z with a global target and a local control has the target exchanged with its first local control and is on a local target then; every other command stays as it is, and no action of the circuit changes. |
| GreedyScheduling.GreedyScheduler.SendCluster | hiq/projectq/cengines/_greedyscheduler.py:130-136 | Exactly the gates of one best cluster are appended to the log, in order and while all their non-diagonal targets are local, and a flush after them; exactly they leave the list; the whole circuit stays equivalent. |
| GreedyScheduling.BestFits | hiq/projectq/cengines/_greedyscheduler.py:124-133 | A best cluster is one gate or shares at most cluster_size local qubits, which the log invariant demands of everything that a flush closes. |
| GreedyScheduling.GreedyScheduler.CallClusterScheduler | hiq/projectq/cengines/_greedyscheduler.py:119-137 | What is appended is a sequence of clusters, each the best there was on the remaining list within cluster_size and closed by a flush, until nothing can run; the circuit stays equivalent; if a gate at the front of its qubits has local targets, or is a controlled Z that can get one by exchanging a control, at least one gate is sent. |
| GreedyScheduling.GreedyScheduler.CallSwapScheduler | hiq/projectq/cengines/_greedyscheduler.py:175-193 | The exchange brings in exactly the wanted qubits that are not local and takes out the smallest ones that are not wanted; as many gates as the search found can run after it, no fewer than the greedy choice allows and, with splits enough, no fewer than any plan of the searched list; when nothing can run the exchange makes the targets of some front gate local, so neither assertion of the source fails. |
| GreedyScheduling.SearchLocals | hiq/projectq/cengines/_greedyscheduler.py:178-183 | The wanted qubits are those the search finds on the fused list, or, only if that finds none, on the list itself. |
| GreedyScheduling.GreedyScheduler.ChooseExchange | hiq/projectq/cengines/_greedyscheduler.py:185-193 | There are always enough unwanted local qubits to make room for the wanted global ones. |
| GreedyScheduling.GreedyScheduler.CheckCommands | hiq/projectq/cengines/_greedyscheduler.py:195-201 | Accepts exactly the lists without a gate of more targets than local qubits, or more than 5. |
| GreedyScheduling.GreedyScheduler.FirstExchange | hiq/projectq/cengines/_greedyscheduler.py:212-222 | One event is appended, the exchange that the search chooses; its qubits trade places between local and global, no others; no gate is sent. |
| GreedyScheduling.GreedyScheduler.OneStage | hiq/projectq/cengines/_greedyscheduler.py:226-239 | One event with the exchange that the search chooses, then the best clusters until nothing can run: at least one gate is sent. |
| GreedyScheduling.GreedyScheduler.ForceScheduling | hiq/projectq/cengines/_greedyscheduler.py:203-242 | Terminates; what was sent before stays as it was, and what this call sends is the cached circuit reordered, every non-diagonal gate while its targets are local: the relabelling if it is the first time, and then stage by stage the exchange and the clusters that the searches choose, every cluster within cluster_size and closed by a flush; or, exactly when a gate is too large, nothing is sent and nothing changes. |
| GreedyScheduling.GreedyScheduler.SendDeallocations | hiq/projectq/cengines/_greedyscheduler.py:244-248 | Appends the cached deallocations by descending qubit id and nothing else. |
| GreedyScheduling.SortDescends | hiq/projectq/cengines/_greedyscheduler.py:245 | The deallocations are sorted by descending id. |
| GreedyScheduling.SortedEquivalent | hiq/projectq/cengines/_greedyscheduler.py:244-248 | Sorting deallocations of different qubits keeps the order every qubit sees. |
| GreedyScheduling.GreedyScheduler.FlushAll | hiq/projectq/cengines/_greedyscheduler.py:257-260 | Flushing appends everything received and not yet sent, the circuit as ForceScheduling sends it and then the deallocations, or nothing at all. |
| GreedyScheduling.GreedyScheduler.ReceiveImmediate | hiq/projectq/cengines/_greedyscheduler.py:257-260 | An allocation, a measurement or a flush is a barrier: everything received before it is sent before it, and it is sent last. |
| GreedyScheduling.SentAndLeft | hiq/projectq/cengines/_greedyscheduler.py:250-265 | While the log only grows and the whole circuit stays equivalent, what was sent since, followed by what is left, is what was pending, reordered. |
| GreedyScheduling.GreedyScheduler.Receive | hiq/projectq/cengines/_greedyscheduler.py:250-265 | For every stream of commands: the log only grows; what it gains, followed by what is still cached, is what was cached before followed by what was received, reordered across no barrier; after a barrier nothing is cached; nothing is sent before a barrier comes, or a gate after a deallocation; this up to the first exception, which has one of the stated causes. |
| Symplectic.InitialBasis | src/stabilizer-simulator/StabilizerSimulator.hpp:131-157 | The rows X_i and Z_i of the constructor are a symplectic basis. |
| Symplectic.Spanning | src/stabilizer-simulator/StabilizerSimulator.hpp:850-857 | Every row is the sum of the basis rows selected by its symplectic products with their partners. |
| Symplectic.MeasuredBasis | src/stabilizer-simulator/StabilizerSimulator.hpp:817-839 | Adding row p to the rows with an x bit at q, moving it to its destabilizer and replacing it by Z_q turns a symplectic basis into one. |
| Symplectic.ZIsSumOfStabilizers | src/stabilizer-simulator/StabilizerSimulator.hpp:841-858 | If no stabilizer row has an x bit at q, then Z_q is the sum of the stabilizer rows whose destabilizers have one. |
| PauliPhase.ExponentIsThatOfProduct | src/stabilizer-simulator/StabilizerSimulator.hpp:545-566 | The bitwise conditions give the exponent of i in the product of two single-qubit Pauli operators; it is odd exactly when they anticommute. |
| PauliPhase.Counter.Next | src/stabilizer-simulator/StabilizerSimulator.hpp:560-565 | One step adds the exponent to the two-bit counter modulo 4. |
| PauliPhase.Machine.CounterIsRunningSum | src/stabilizer-simulator/StabilizerSimulator.hpp:602-610 | Along the words of a lane each two-bit counter is the running sum of the exponents modulo 4. |
| PauliPhase.Machine.CountedExponent | src/stabilizer-simulator/StabilizerSimulator.hpp:612-626 | The exact exponent differs from what is counted by twice the carries that XOR over the lanes drops. |
| PauliPhase.Machine.LowIsOdd | src/stabilizer-simulator/StabilizerSimulator.hpp:560-565 | The low counter of a column says whether the rows anticommute at an odd number of its qubits, so the dropped carries are a property of the two rows. |
| PauliPhase.ComputePhase | src/stabilizer-simulator/StabilizerSimulator.hpp:568-634 | The method computes the phase function. |
| PauliPhase.PhaseExactIff | src/stabilizer-simulator/StabilizerSimulator.hpp:568-634 | For every number of qubits: the computed phase is the phase of the operator product exactly when the number of pairs of lanes, per bit position, that each anticommute at an odd number of qubits is even in sum. |
| PauliPhase.PhaseParity | src/stabilizer-simulator/StabilizerSimulator.hpp:568-634 | For every number of qubits the parity is right: odd exactly when the rows anticommute. |
| PauliPhase.NarrowRowsAreExact | src/stabilizer-simulator/StabilizerSimulator.hpp:568-634 | With at most 32 qubits the phase is exact. |
| PauliPhase.WideRowsCanBeWrong | src/stabilizer-simulator/StabilizerSimulator.hpp:612-626 | For X_0 X_32 and Z_0 Z_32 the computed phase is 0 where the product has phase 2. |
| PauliPhase.PhaseOfEmptyRow | src/stabilizer-simulator/StabilizerSimulator.hpp:568-634 | Multiplying onto the empty row copies the sign. |
| GateCache.GateKeepsBasis | src/stabilizer-simulator/StabilizerSimulator.hpp:663-676 | H, S and CNOT keep symplectic bases. |
| GateCache.XIsHSSH | src/stabilizer-simulator/StabilizerSimulator.hpp:785-791 | H S S H flips the sign of exactly the rows with a z bit at the qubit. |
| GateCache.KernelWithH | src/stabilizer-simulator/StabilizerSimulator.hpp:665-676 | Adding a qubit to the H mask of a layer is applying H after the layer. |
| GateCache.KernelWithS | src/stabilizer-simulator/StabilizerSimulator.hpp:665-676 | Adding a qubit to the S mask of a layer is applying S after the layer. |
| GateCache.GatesCommute | src/stabilizer-simulator/StabilizerSimulator.hpp:665-676 | Gates on disjoint qubits commute on rows and signs. |
| GateCache.RecordIsApply | src/stabilizer-simulator/StabilizerSimulator.hpp:459-483 | Recording a gate at a depth from which on its qubits are free has the effect, at the next flush, of applying it after everything recorded before. |
| GateCache.RecordGate | src/stabilizer-simulator/StabilizerSimulator.hpp:761-805 | The depth a gate is recorded at exists, and the positions after it again point past every use of a qubit. |
| GateAction.ConjugateKeepsProducts | src/stabilizer-simulator/StabilizerSimulator.hpp:663-759 | The kernels act on signed operators as a group homomorphism: the image of a product is the product of the images, phases included. |
| GateAction.GatesAreClifford | src/stabilizer-simulator/StabilizerSimulator.hpp:663-759 | The images of X and Z are those of the Hadamard, phase and CNOT gates. |
| GateAction.GateConjugatesState | src/stabilizer-simulator/StabilizerSimulator.hpp:663-759 | After a gate g the state is stabilized by g a g^-1 exactly when it was stabilized by a before. |
| Tableau.GateKeepsGood | src/stabilizer-simulator/StabilizerSimulator.hpp:459-483 | Every gate keeps the symplectic invariant of the tableau. |
| Tableau.CollapseKeepsGood | src/stabilizer-simulator/StabilizerSimulator.hpp:817-839 | So does every random measurement outcome. |
| Tableau.DeterminedProductIsZ | src/stabilizer-simulator/StabilizerSimulator.hpp:841-858 | For every number of qubits and every tableau that satisfies the invariant: the product built in row 2n has exactly the bits of Z_q. |
| Tableau.ProductPhaseIsEven | src/stabilizer-simulator/StabilizerSimulator.hpp:639-646 | Every row product on the way multiplies commuting rows, so its phase is 0 or 2 and halving it loses nothing. |
| Tableau.MeasureTwice | src/stabilizer-simulator/StabilizerSimulator.hpp:860-879 | A second measurement of the same qubit is determined, returns the same bit and changes no row below 2n. |
| Tableau.FlipNegates | src/stabilizer-simulator/StabilizerSimulator.hpp:785-791 | X on a qubit with a determined outcome negates the outcome, for every number of qubits. |
| Outcomes.ProbabilityIsPowerOfHalf | src/stabilizer-simulator/StabilizerSimulator.hpp:881-956 | A probability is 2^-k with k the number of random outcomes when the outcome can be forced, and 0 when it cannot. |
| Outcomes.PositiveIffCollapses | src/stabilizer-simulator/StabilizerSimulator.hpp:381-429 | It is positive exactly when collapse_wavefunction succeeds on the same arguments. |
| Outcomes.SplitsByLastBit | src/stabilizer-simulator/StabilizerSimulator.hpp:381-391 | P(b 0) + P(b 1) = P(b). |
| Outcomes.OutcomesSumToOne | src/stabilizer-simulator/StabilizerSimulator.hpp:381-391 | The probabilities of all outcomes of a list of qubits add up to 1. |
| Outcomes.ForceBoth | src/stabilizer-simulator/StabilizerSimulator.hpp:400-429 | Collapsing one list after another is collapsing their concatenation, and the numbers of random outcomes add. |
| Outcomes.ProbabilityIsOfMeasuring | src/stabilizer-simulator/StabilizerSimulator.hpp:297-309 | An outcome has positive probability exactly when some random bits make measure_qubits_return produce it, and its probability is that of the random bits drawn on the way. |
| StabilizerGroup.MulAssociates | src/stabilizer-simulator/StabilizerSimulator.hpp:636-646 | Products of signed rows associate, phases included. |
| StabilizerGroup.MulCommutes | src/stabilizer-simulator/StabilizerSimulator.hpp:636-646 | Commuting rows multiply to the same operator in both orders. |
| StabilizerGroup.GroupCloses | src/stabilizer-simulator/StabilizerSimulator.hpp:841-858 | The products of chosen stabilizers form a group. |
| StabilizerState.OneSignPerRow | src/stabilizer-simulator/StabilizerSimulator.hpp:841-858 | The group contains every row with at most one sign, in particular not -1. |
| StabilizerState.RowSumIsProduct | src/stabilizer-simulator/StabilizerSimulator.hpp:639-661 | With at most 32 qubits, rowsum_ of commuting rows is the operator product. |
| StabilizerState.OutcomeIsThatOfGroup | src/stabilizer-simulator/StabilizerSimulator.hpp:860-879 | With at most 32 qubits: a measurement of q is sure to give b exactly when (-1)^b Z_q stabilizes the state. |
| StabilizerState.OutcomeExactIff | src/stabilizer-simulator/StabilizerSimulator.hpp:841-879 | For any number of qubits: a sure outcome is that of the state exactly when an even number of carries is dropped while the product is built, and otherwise it is the opposite one. |
| StabilizerState.ExactRowSum | src/stabilizer-simulator/StabilizerSimulator.hpp:639-661 | For any number of qubits: rowsum_ of commuting rows is the operator product exactly when an even number of carries is dropped. |
| StabilizerState.StateAfterOutcome | src/stabilizer-simulator/StabilizerSimulator.hpp:817-839 | After the random outcome b the state is stabilized by exactly the old stabilizers that commute with Z_q and their products with (-1)^b Z_q, when the row additions among the stabilizers drop carries evenly, as they do with at most 32 qubits. |
| StabilizerState.StateExactIff | src/stabilizer-simulator/StabilizerSimulator.hpp:817-839 | For any number of qubits: the state after a random outcome is that one exactly under this condition. |
| WideTableau.WideOutcomeIsWrong | src/stabilizer-simulator/StabilizerSimulator.hpp:841-879 | A circuit of 8 gates on 34 qubits (width + 2 in general) whose last measurement is sure, and the tableau answers with the opposite outcome. |
| SetQubits.SetOneQubit | src/stabilizer-simulator/StabilizerSimulator.hpp:981-1013 | Setting one qubit leaves it determined with the requested value, for every number of qubits. |
| SetQubits.SetManyQubits | src/stabilizer-simulator/StabilizerSimulator.hpp:431-454 | With at most 32 qubits, setting several distinct qubits leaves each determined with its value. |
| StabilizerSimulation.StabilizerSimulator.constructor | src/stabilizer-simulator/StabilizerSimulator.hpp:131-157 | The invariant holds at the start, all signs plus. |
| StabilizerSimulation.StabilizerSimulator.Sync | src/stabilizer-simulator/StabilizerSimulator.hpp:459-483 | Flushing changes the stored rows 0 to 2n-1 into those of gate-by-gate execution, empties the cache and leaves row 2n alone. |
| StabilizerSimulation.StabilizerSimulator.HAndSKernel | src/stabilizer-simulator/StabilizerSimulator.hpp:678-747 | The loop over one row computes the layer of H and S gates and the parity of the phase changes. |
| StabilizerSimulation.StabilizerSimulator.CnotKernel | src/stabilizer-simulator/StabilizerSimulator.hpp:749-759 | The four reads and writes are the CNOT of the row and its sign. |
| StabilizerSimulation.StabilizerSimulator.ApplyGate | src/stabilizer-simulator/StabilizerSimulator.hpp:761-805 | Each of H_, S_, CNOT_ changes the tableau as if the gate had been applied at once and keeps the invariant; no row is touched before a gate reaches the last layer, and then all rows are flushed. |
| StabilizerSimulation.StabilizerSimulator.X | src/stabilizer-simulator/StabilizerSimulator.hpp:785-791 | X_ flips exactly the signs of the rows with a z bit. |
| StabilizerSimulation.StabilizerSimulator.RowSumInPlace | src/stabilizer-simulator/StabilizerSimulator.hpp:639-661 | rowsum_ replaces one row and nothing else. |
| StabilizerSimulation.StabilizerSimulator.DetermineOutcomeType | src/stabilizer-simulator/StabilizerSimulator.hpp:807-815 | Finds the first stabilizer row with an x bit at the qubit, if there is one. |
| StabilizerSimulation.StabilizerSimulator.PreMeasurementRandom | src/stabilizer-simulator/StabilizerSimulator.hpp:817-839 | All rows below 2n after the loop and the moves are those of Collapsed; row 2n is untouched. |
| StabilizerSimulation.StabilizerSimulator.PreMeasurementDeterministic | src/stabilizer-simulator/StabilizerSimulator.hpp:841-858 | Only row 2n changes, into the product. |
| StabilizerSimulation.StabilizerSimulator.MeasureOne | src/stabilizer-simulator/StabilizerSimulator.hpp:860-879 | measure_ keeps the invariant and returns what Measured says, for each value of the random bit. |
| StabilizerSimulation.StabilizerSimulator.MeasureQubits | src/stabilizer-simulator/StabilizerSimulator.hpp:297-309 | A list of qubits is measured in order after a flush. |
| StabilizerSimulation.StabilizerSimulator.CollapseWavefunction | src/stabilizer-simulator/StabilizerSimulator.hpp:400-429 | Succeeds exactly when every outcome can be forced; otherwise the tableau, row 2n included, is as before. |
| StabilizerSimulation.StabilizerSimulator.ProbabilityRecursive | src/stabilizer-simulator/StabilizerSimulator.hpp:881-956 | Returns the probability and leaves every x, z and sign bit of all 2n+1 rows unchanged. |
| StabilizerSimulation.StabilizerSimulator.GetProbability | src/stabilizer-simulator/StabilizerSimulator.hpp:381-391 | So does the query, up to the flush of cached gates. |
| StabilizerSimulation.StabilizerSimulator.SetQubits | src/stabilizer-simulator/StabilizerSimulator.hpp:431-454 | Collapses in order and then inverts the qubits that came out wrong. |
| QubitSwap.CellInjective | src/simulator-mpi/swapping.hpp:36-66 | Different free indices or swapped bits address different amplitudes. |
| QubitSwap.CellCovers | src/simulator-mpi/swapping.hpp:36-66 | Every local index is addressed, by the bits it has at the swapped positions. |
| QubitSwap.ColorOfSameSet | src/simulator-mpi/SimulatorMPI.cpp:1091-1094 | The colour does not depend on the order of the pairs. |
| QubitSwap.CommunicatorIsMembers | src/simulator-mpi/SimulatorMPI.cpp:1111 | The c-th rank of a colour, in rank order, has the bits of c at the swapped global positions, lowest position first; so there are 2^n_bits of them. |
| QubitSwap.SwapKeepsAmplitudes | src/simulator-mpi/SimulatorMPI.cpp:1085-1138 | Exchanging block c of rank d with block d of rank c and relabelling the qubits keeps the amplitude of every basis state. |
| SwapTables.SortBy | src/simulator-mpi/funcs.hpp:141-154 | A sort by distinct keys: the same elements, ascending by key. |
| SwapTables.SortsAgree | src/simulator-mpi/funcs.hpp:125-155 | The three interdependent sorts match global-bit order with sorted local-bit order. |
| SwapTables.Q2Bits | src/simulator-mpi/funcs.hpp:125-155 | The vector holds the local bits ascending and, for the b-th smallest global bit, the index of the local bit of the same pair. |
| DistributedSwap.DoCalc | src/simulator-mpi/swapping.hpp:33-67 | Slot n*d + i of the buffers holds the index with swapped bits d and free index start + i, and the amplitude there. |
| DistributedSwap.Consume | src/simulator-mpi/SwapperMT.cpp:56-79 | Every block but the own one is written to its cells; no other cell changes. |
| DistributedSwap.SendCountFits | src/simulator-mpi/SwapperMT.hpp:72-84 | Chunks are positive and divide the array evenly, and they fit the buffers exactly when 2^n_bits is at most the number of amplitudes a buffer holds (n_bits <= 14 in the source). |
| SwapQubits.Round | src/simulator-mpi/SwapperMT.cpp:30-126 | One chunk on all ranks in lock-step: fill, exchange, write back. |
| SwapQubits.Simulator.Positions | src/simulator-mpi/SimulatorMPI.cpp:1091-1108 | Fails exactly when a qubit is not where it should be or occurs twice. |
| SwapQubits.Simulator.Relabel | src/simulator-mpi/SimulatorMPI.cpp:1130-1134 | After the swaps each qubit of a pair is in the place of the other, everything else where it was. |
| SwapQubits.Simulator.Exchange | src/simulator-mpi/SwapperMT.cpp:100-126 | The rounds move every block of every rank. |
| SwapQubits.Simulator.SwapQubits | src/simulator-mpi/SimulatorMPI.cpp:1085-1138 | For every number of local and global qubits, every pair list in every order: the amplitude of every basis state is as before; or, exactly when the pairs are invalid, nothing changes. |
| Pipeline.RingStep | src/simulator-mpi/SwapArrays.hpp:63-83 | The buffers form a ring that a step leaves alone or rotates by one. |
| Pipeline.RingKept | src/simulator-mpi/SwapArrays.hpp:63-83 | Every buffer stays in exactly one place. |
| Pipeline.MarksKept | src/simulator-mpi/SwapperMT.cpp:30-126 | nullptr is pushed once, after the last round, and is the last thing to pass through each queue. |
| Pipeline.ReadsOld | src/simulator-mpi/SwapperMT.cpp:30-46 | Whatever the interleaving, the producer reads an amplitude that no consumer write has reached. |
| Pipeline.StepKeeps | src/simulator-mpi/SwapperMT.cpp:30-126 | Every step of every thread of every rank, and every exchange, keeps the invariant: buffers, their contents, arrays, and equal round numbers across ranks. |
| Pipeline.RankCanMove | src/simulator-mpi/SwapperMT.cpp:30-126 | A rank that is neither finished nor inside all_to_all has a thread that can step. |
| Pipeline.NoDeadlock | src/simulator-mpi/SwapperMT.cpp:30-126 | No reachable state is stuck before all threads of all ranks have finished. |
| Pipeline.NextWorks | src/simulator-mpi/SwapperMT.cpp:30-126 | Every step decreases the work left. |
| Pipeline.RunInvariant | src/simulator-mpi/SwapperMT.cpp:30-126 | Every state of every run satisfies the invariant. |
| Pipeline.RunsEnd | src/simulator-mpi/SwapperMT.cpp:30-126 | No run is longer than the work at its start. |
| Pipeline.MaximalRunIsComplete | src/simulator-mpi/SwapperMT.cpp:100-126 | A run that cannot be continued has finished every thread and moved every block. |
| Pipeline.SameAsSequential | src/simulator-mpi/SwapperMT.cpp:100-126 | Every interleaving ends with the arrays of chunk-by-chunk lock-step execution. |
| Pipeline.FinalPool | src/simulator-mpi/SwapArrays.hpp:63-83 | At the end every buffer is back in the pool, once, and all queues are empty. |
| Pipeline.EndIsStart | src/simulator-mpi/SwapperMT.cpp:100-126 | The end of one exchange is a start of the next, so all of the above holds for every exchange in the life of a simulator. |
| GateFusion.AddedControlsControl | src/simulator-mpi/fusion_mpi.hpp:167-187 | The enlarged matrix is the gate with the new controls. |
| GateFusion.ControlledItems | src/simulator-mpi/fusion_mpi.hpp:214-225 | Controls that no item touches can be moved into all items at once. |
| GateFusion.InsertKeepsMeaning | src/simulator-mpi/fusion_mpi.hpp:85-99 | An insertion is the gate after everything collected, through every migration of controls, when the factor is safe. |
| GateFusion.InsertExactIff | src/simulator-mpi/fusion_mpi.hpp:85-99 | For matrices without a zero column an insertion keeps the meaning exactly when the factor is 1, or no common control is dropped and none is put around it. |
| GateFusion.FactorKeepsMeaning | src/simulator-mpi/fusion_mpi.hpp:88-91 | A 1x1 matrix keeps the meaning when it is 1 or its controls are the common ones. |
| GateFusion.FactorExactIff | src/simulator-mpi/fusion_mpi.hpp:88-91 | And only then, for collected gates that do not annihilate every state: the factor neither reaches outside the common controls nor obeys controls of its own. |
| GateFusion.StepComposes | src/simulator-mpi/fusion_mpi.hpp:120-159 | Multiplying an item onto the matrix is applying it after what the matrix does. |
| GateFusion.FusionKeepsMeaning | src/simulator-mpi/fusion_mpi.hpp:101-165 | The fused matrix under the common controls does what the collected gates do. |
| FusedGates.AddControls | src/simulator-mpi/fusion_mpi.hpp:167-187 | The loops build the enlarged matrix. |
| FusedGates.FuseItem | src/simulator-mpi/fusion_mpi.hpp:133-158 | The column-by-column rewriting in place computes the product with the item. |
| FusedGates.Fusion.Insert | src/simulator-mpi/fusion_mpi.hpp:85-99 | The new state, and the meaning it keeps. |
| FusedGates.Fusion.HandleControls | src/simulator-mpi/fusion_mpi.hpp:190-226 | Which controls go into the new item, which common ones into the old items, and which stay common. |
| FusedGates.Fusion.PerformFusion | src/simulator-mpi/fusion_mpi.hpp:101-165 | The matrix and the two ascending lists mean what was collected; the factor is reset. |
| FusedGates.RunMeaning | src/simulator-mpi/fusion_mpi.hpp:85-165 | After any run of insertions that are sound one by one, the collected gates do what the gates do in order. |
| FusedGates.FusedMatrixOfRun | src/simulator-mpi/fusion_mpi.hpp:85-165 | Without 1x1 matrices the fused matrix of every run is the ordered product of its controlled gates. |
| InvertibleGates.InverseApplies | src/simulator-mpi/fusion_mpi.hpp:120-159 | Applying the inverse matrix first gives the state back. |
| InvertibleGates.InsertKeepsInvertible | src/simulator-mpi/fusion_mpi.hpp:190-226 | Through every migration of controls the collected matrices stay invertible. |
| InvertibleGates.RunFactorExactIff | src/simulator-mpi/fusion_mpi.hpp:88-91 | In every run of invertible gates a 1x1 gate keeps the meaning exactly when it is 1 or brings the common controls. |
| Kernels.KernelCore | src/simulator-mpi/kernels/nointrin/kernel2.hpp:17-39 | The amplitudes above one base, all read before any is written, become the matrix times the old ones; nothing else changes. |
| Kernels.StrideLoop | src/simulator-mpi/kernels/nointrin/kernel5.hpp:1134-1191 | The loops below one stride rewrite exactly what lies above the bases in their range, and visit each of these once, ascending. |
| Kernels.Kernel | src/simulator-mpi/kernels/nointrin/kernel5.hpp:1134-1191 | For any distinct targets in any order and disjoint controls the loops rewrite every amplitude the controls allow, from old amplitudes only. |
| Kernels.KernelIsGate | src/simulator-mpi/kernels/nointrin/kernel2.hpp:41-73 | What the kernel leaves in the array is the simultaneous controlled gate on the state the array described. |
| Kernels.GetIdxIsZeroInsert | src/simulator-mpi/kernels/intrin/kernel4_cf.hpp:29-34 | get_idx, with the masks of its caller, inserts zero bits at the targets. |
| Kernels.LoopsAndEnumerationAgree | src/simulator-mpi/kernels/intrin/kernel4_cf.hpp:674-690 | The flat loop computes exactly the indices the nested loops visit, in the same order. |
| Kernels.GetIdxRepeats | src/simulator-mpi/kernels/intrin/kernel4_cf.hpp:36-54 | Past the end of the enumeration get_idx starts again from the first base. |
| Kernels.BatchesExactIff | src/simulator-mpi/kernels/intrin/kernel4_cf.hpp:684-699 | The batches compute no base twice exactly when the batch size divides the number of bases or all of them fit one batch. |
| Kernels.EveryBatched | src/simulator-mpi/kernels/intrin/kernel4_cf.hpp:684-699 | No base is left out by the batches. |
| Kernels.KernelCoreDiag | src/simulator-mpi/kernels/nointrin/kernels_diag.hpp:19-84 | For a diagonal matrix the diagonal core leaves what the dense core leaves. |
| Kernels.IsDiag | src/simulator-mpi/funcs.hpp:325-337 | True exactly for matrices without a nonzero entry off the diagonal. |
| GateApplication.OkIndicesAre | src/simulator-mpi/SimulatorMPI.cpp:758-796 | The c-th index that agrees with the rank has the bits of c at the local targets. |
| GateApplication.RestrictedActs | src/simulator-mpi/SimulatorMPI.cpp:758-799 | On its rank the restricted matrix acts as the whole one, if that is diagonal or has no global target. |
| GateApplication.RestrictMatrix | src/simulator-mpi/SimulatorMPI.cpp:770-796 | The nested loops build the restricted matrix. |
| GateApplication.RankSimulator.ApplyGate | src/simulator-mpi/SimulatorMPI.cpp:710-815 | A rank does its part of the gate on the state it stands for (array and collected gates): its restriction under its local controls, or nothing when a global control is 0, after a run when the gate exceeds a cluster; exactly when it fails; and what it leaves in the cases of a 1x1 matrix that are not right. |
| GateApplication.WholeIsRestricted | src/simulator-mpi/SimulatorMPI.cpp:752-815 | On the states of a rank the whole gate and its restriction agree, for a diagonal matrix or local targets. |
| GateApplication.HugeInserted | src/simulator-mpi/SimulatorMPI.cpp:752-756 | A gate that exceeds a cluster is inserted whole, and does its part too. |
| GateApplication.ScalarExactIff | src/simulator-mpi/SimulatorMPI.cpp:806-814 | A matrix restricted to one entry is inserted right exactly when the entry is 1 or no local common control is pending. |
| GateApplication.HugeScalarExactIff | src/simulator-mpi/SimulatorMPI.cpp:752-756 | A 1x1 matrix whose local controls exceed a cluster is inserted right exactly when it is 1. |
| GateApplication.AllRanksApplyTheGate | src/simulator-mpi/SimulatorMPI.cpp:710-815 | When all ranks do their parts, together they apply the original controlled gate to the distributed state, global controls and global diagonal targets included. |
| GateApplication.CallsApplyInOrder | src/simulator-mpi/SimulatorMPI.cpp:441-541 | After any sequence of gates and runs on all ranks, what the ranks stand for together is the gates in order on the first state. |
| GateApplication.RankSimulator.Run | src/simulator-mpi/SimulatorMPI.cpp:441-541 | Running puts into the array exactly what was collected, global common controls included, and starts afresh; it fails exactly when there are more than five targets or one of them is global, and leaves the array alone then. |

## Left out

Scheduling:
- Masks of 64 bits: qubits are sets of positions of any size; the check that at most 63 qubits occur and the renumbering between ids and positions are not modelled.
- ClusterScheduling.ClusterScheduler.ScheduleCluster: a second call on the same object is not covered, because the memo is not cleared; the engine builds a new object for every call.
- Supremacy mode (`_remove_ending_cz`), which drops gates on purpose.
- GreedyScheduling.GreedyScheduler.FirstExchange: the first relabelling of qubits is taken to keep the state, which holds for a permutation-symmetric initial state only.
- What the backend reports about its qubits after an allocation or a deallocation is an input.

Stabilizer simulator:
- The map from qubit ids to indices, allocation and deallocation; qubits are addressed by index, so the exceptions for unallocated ids do not occur.
- Words and lanes are sequences of bits except in the phase computation, where only the grouping into words changes the result; the SIMD templates and the alignment loops are not modelled.
- `get_classical_value` and `is_classical`, which only compare one probability.
- SetQubits.SetManyQubits: for more than 32 qubits only the single steps have an exact condition (StabilizerState.StateExactIff and StabilizerState.OutcomeExactIff), not their composition.

Distributed exchange:
- SwapQubits.Simulator.SwapQubits: asks for at least one pair and at most 14 (the parameter e); with none the producer would not advance, with more the buffers are too short.
- MPI transport: all_to_all is a transpose of blocks that takes effect when every rank of the communicator has called it.
- One array element is read or written at a time; the C++ memory model and the OpenMP loops are not modelled.

Gates on arrays:
- GateApplication.RankSimulator.ApplyGate: the places of global qubits that are not allocated are not modelled; every global place holds a qubit.
- Kernels.BatchesExactIff: only which bases a batch of the buffered 4-target kernel computes; its vectorised body, which reads a whole batch before it writes, is not modelled.
- Kernels.KernelCore: the sums of the 1- to 5-target cores are one sum over 2^k terms; rounding and the order of the additions are not modelled.
- The flag that says a fused matrix is diagonal, and with it the choice between the two cores, which leave the same array.
- Allocation, measurement, probabilities, entropy and normalisation of the distributed simulator, timing and logging.

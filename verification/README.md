# TensorNetworkQCircuit, modelled in Dafny

TensorNetworkQCircuit simulates a quantum circuit as a tensor network. Every
qubit is a site of a connectivity graph (`CircuitTopology`), and every link of
the graph is a bond. A circuit (`QCircuit`) holds:

- a tensor per site;
- a bond index per link and a physical index per site;
- a two-site "cursor" and the wave function `Psi` contracted at the cursor.

Gates are applied at the cursor. The cursor walks the graph one neighbouring
site at a time, splitting `Psi` by a singular value decomposition as it goes.
On the Python side there is a small QASM interpreter with quantum and
classical register bookkeeping.

The numerics live in the ITensor library, so this model keeps every tensor as
the SET OF ITS INDEX LABELS:

- an `Index` is an id, a tag and a prime level;
- contraction is the symmetric difference of the label sets;
- `prime` raises the prime level;
- an SVD splits the labels and adds two fresh bond labels.

What is proved is the exact bookkeeping around the numerics:

- the graph the factories build;
- the invariant the cursor moves keep: ids distinct, every tensor outside the cursor holding its physical index and its bonds, `Psi` holding what the two cursor sites hold less their shared bond, and the cursor on a link;
- the frame of every move;
- that `overlap` contracts to a scalar;
- the gate matrices, exactly;
- the register allocation, the bit-level register operations and the interpreter's statement dispatch.

Modules:

- `Topology` (topology.dfy): the graph class and its reference definition `IncidentTo`.
- `Circuits` (circuits.dfy): the chain, all-to-all and 53-site factories.
- `Labels` (labels.dfy): tensors as label sets, prime, contraction, SVD.
- `NeighborLists` (neighbor_lists.dfy): the list scans the circuit does.
- `QCircuitState` (qcircuit_state.dfy): the circuit state as a value, its transitions, and the lemmas about them.
- `QCircuits` (qcircuit.dfy): the `QCircuit` class, proved against those transitions.
- `QCircuitOverlap` (overlap.dfy): `overlap`.
- `QuantumGates` (gates.dfy): the gate matrices. In the table below, ket0 and ket1 are the basis states |0⟩ and |1⟩, and ket± is (ket0 ± ket1)/√2.
- `Bitfield` (bitfield.dfy): Python's shift and bitwise operators on non-negative integers.
- `Registers` (registers.dfy): qcircuit/qasm/registers.py.
- `QasmInterpreter` (interpreter.dfy): qcircuit/qasm/qasm_interpreter.py.

Where the repository's prose and its code differ, the model follows the code:

- The constructor puts the cursor on (0, 1) unconditionally (include/qcircuit.hpp:90-91). This holds whether or not 0 and 1 are linked. The model proves the cursor is on a link exactly when link 0-1 exists (`QCircuitState.InitialInvariant`).
- `shiftCursorTo` takes the LAST link id naming the other cursor site (a loop without `break`, defaulting to 0). `decomposePsi` takes the FIRST one (`find_if`). Both scans are modelled as written, and `NeighborLists.ScansAgree` shows they agree on a graph without repeated links.
- include/circuits.hpp calls `generateLink`, while the class in include/circuit_topology.hpp defines `generate_link`. The model has one operation, `CircuitTopology.GenerateLink`.
- `_call_cnot` calls `_get_qreg_index` without `self` (qcircuit/qasm/qasm_interpreter.py:139). The model raises `NameError` for every CNOT statement.
- When `shiftCursorTo` finds `ind` next to neither cursor site, the source has `assert(false)` (include/qcircuit.hpp:249-250). The model does what a build without assertions does: nothing changes, and `ShiftCursorTo` reports `moved == false`. The other source `assert`s are preconditions.

## Model

| member | source | states |
|---|---|---|
| Topology.CircuitTopology.constructor | include/circuit_topology.hpp:28-30 | a new topology has `num_bits` empty neighbour lists and no link |
| Topology.CircuitTopology.GenerateLink | include/circuit_topology.hpp:32-39 | the new link gets id = old link count. `(site2, id)` is appended to site1's list, then `(site1, id)` to site2's, and the count rises by one. Every other list is unchanged, and the recorded links grow by exactly this link |
| Topology.CircuitTopology.NumberOfLinks | include/circuit_topology.hpp:41-43 | the link count equals the number of links inserted |
| Topology.CircuitTopology.NumberOfBits | include/circuit_topology.hpp:45-47 | the site count is the one fixed at construction |
| Topology.CircuitTopology.NeighborsOf | include/circuit_topology.hpp:49-51 | a site's list is exactly the entries its links contributed, in insertion order (`IncidentTo`) |
| Topology.IncidentMembership | include/circuit_topology.hpp:36-37 | `(t, id)` is in s's list iff link `id` exists and joins s and t in one orientation or the other |
| Topology.IncidentSymmetric | include/circuit_topology.hpp:36-37 | `(t, id)` is in s's list iff `(s, id)` is in t's list |
| Topology.IncidentOrdered | include/circuit_topology.hpp:36-38 | the link ids of a list are below the link count and appear in nondecreasing order |
| Topology.IncidentLinkCount | include/circuit_topology.hpp:36-38 | a link id appears in a site's list once per endpoint equal to that site: twice for a self-link, never for a link elsewhere |
| Topology.TotalLinkCountIs | include/circuit_topology.hpp:36-38 | summed over the first m lists, a link id appears once per endpoint below m |
| Topology.LinkIdTwice | include/circuit_topology.hpp:36-38 | over all lists, every id below the link count appears exactly twice and no other id appears |
| Topology.WalkStaysClosed | test/circuit_topology_test.cpp:20-31 | a walk starting in a set of sites closed under links never leaves it (the argument for disconnection) |
| Topology.TreeOfFiveIsConnected | test/circuit_topology_test.cpp:6-18 | the links 0-1, 0-2, 2-3, 3-4 connect all five sites |
| Topology.ForestOfFiveIsNotConnected | test/circuit_topology_test.cpp:20-31 | with 0-1, 0-2, 3-4 site 3 is unreachable from 0, so the graph is not connected |
| Circuits.InsertLinks | include/circuits.hpp:15-87 | inserting a list of in-range links one by one appends exactly that list to the topology's links |
| Circuits.IbmqShape | include/circuits.hpp:12-87 | the 53-site layout has 58 links, link 0 is (0, 1), and every endpoint is below 53 |
| Circuits.IbmqSimple | include/circuits.hpp:12-87 | the 53-site layout has no self-link and no repeated link, and links 0 and 1 |
| Circuits.MakeIbmq | include/circuits.hpp:11-90 | the result is a fresh valid topology of 53 sites whose links are the layout's table, in order |
| Circuits.MakeChain | include/circuits.hpp:92-104 | link i joins i and i+1 for every i < n-1. A periodic chain adds link n-1 joining n-1 and 0, so it has n links and an open chain n-1 |
| Circuits.OpenChainNeighbors | include/circuits.hpp:95-97 | in an open chain, site s lists (s-1, id s-1) if s > 0, then (s+1, id s) if s+1 < n |
| Circuits.ChainNeighbors | include/circuits.hpp:92-104 | the neighbour list of every site of a chain of at least 3 sites, periodic or not, with its link ids and their order |
| Circuits.ChainOfOneIsSelfLink | include/circuits.hpp:99-101 | the periodic chain of one site is the self-link 0-0, which lists site 0 twice in its own list |
| Circuits.ChainOfTwoDuplicates | include/circuits.hpp:95-101 | the periodic chain of two sites links 0 and 1 twice, under ids 0 and 1 |
| Circuits.ChainSimple | include/circuits.hpp:95-101 | a chain of three or more sites, open or periodic, has no self-link and no repeated link, and links 0 and 1 |
| Circuits.MakeAllToAll | include/circuits.hpp:106-114 | the result is a fresh valid topology of n sites whose links are the all-to-all table |
| Circuits.RowsLength | include/circuits.hpp:108-112 | the first m rows of the all-to-all loop produce m(2n-m-1)/2 links |
| Circuits.AllToAllCount | include/circuits.hpp:106-114 | the all-to-all topology has n(n-1)/2 links |
| Circuits.RowsMembers | include/circuits.hpp:108-112 | a link is produced by the first m rows iff it is (i, j) with i < j < n and i < m |
| Circuits.RowsOrdered | include/circuits.hpp:108-112 | the rows produce links in strictly increasing lexicographic (i, j) order |
| Circuits.AllToAllPairs | include/circuits.hpp:106-114 | the links are exactly the pairs i < j < n, each once, in lexicographic order |
| Circuits.AllToAllSimple | include/circuits.hpp:106-114 | the all-to-all graph on two or more sites has no self-link and no repeated link, and links 0 and 1 |
| Labels.Svd | include/qcircuit.hpp:135-136 | U gets the new bond u, V the new bond v, S holds both. Psi's labels are split between U and V by the side given: they partition Psi's labels, with none in both |
| Labels.SvdRecombines | include/qcircuit.hpp:135-139 | contracting U, S and V gives back Psi's labels, and S*V holds V's labels with v replaced by u |
| Labels.PrimeSetMember | include/qcircuit.hpp:310-324 | a label is in a primed tensor iff its prime level is at least 1 and the label one level lower is in the tensor |
| Labels.PrimeContract | include/qcircuit.hpp:310-324 | priming commutes with contraction |
| NeighborLists.LastLinkTo | include/qcircuit.hpp:173-178 | the last scan's result names an entry for the site when one exists, and is 0 otherwise |
| NeighborLists.FirstLinkTo | include/qcircuit.hpp:111-113 | the first scan's result names an entry for the site |
| NeighborLists.Without | include/qcircuit.hpp:116-120 | `remove_if` keeps exactly the entries not naming the site, and is shorter when one is removed |
| NeighborLists.MentionsIffLinked | include/qcircuit.hpp:151-163 | the flag scan finds `ind` in a site's list iff a link joins the two |
| NeighborLists.LinkIdsIncident | include/circuit_topology.hpp:36-37 | the link ids in a site's list are exactly the links touching the site |
| NeighborLists.ScansAgree | include/qcircuit.hpp:111-113 | without repeated links, the first scan and the last scan both give the one link joining the two sites |
| NeighborLists.LinkIdsWithout | include/qcircuit.hpp:116-120 | removing the other cursor site from the list removes exactly the cursor link's id |
| NeighborLists.FirstLinkAt | include/qcircuit.hpp:111-113 | the first scan stops at the first entry naming the site |
| NeighborLists.Mentioned | include/qcircuit.hpp:151-156 | the loop reports whether the list names the site |
| NeighborLists.ScanLastLink | include/qcircuit.hpp:173-178 | the loop without `break` returns the last matching link id, or 0 |
| NeighborLists.FindFirstLink | include/qcircuit.hpp:111-113 | `find_if` returns the first matching link id |
| NeighborLists.RemoveSite | include/qcircuit.hpp:116-120 | the copied list is the input without the entries naming the site |
| QCircuitState.Flag | include/qcircuit.hpp:148-163 | the direction flag is 0, 1 or 2 |
| QCircuitState.MentionedInRange | include/qcircuit.hpp:111-113 | a site named in a list of a well-formed graph is a site of it, and the list's link ids index the bond vector |
| QCircuitState.BuiltFromWellFormed | include/circuit_topology.hpp:36-38 | inserting in-range links gives lists that name only sites and link ids in range |
| QCircuitState.Shifted | include/qcircuit.hpp:143-254 | a shift keeps the state's vectors sized to the graph and the cursor on two different sites |
| QCircuitState.Moved | include/qcircuit.hpp:257-263 | a route of shifts keeps the state sized to the graph |
| QCircuitState.Decomposed | include/qcircuit.hpp:102-140 | decomposition keeps the state sized to the graph |
| QCircuitState.FreshIndices | include/qcircuit.hpp:52-61 | the constructor's new indices are as many as asked for |
| QCircuitState.PrimeEach | include/qcircuit.hpp:311-317 | priming every index keeps the vector's length |
| QCircuitState.PrimeEachTensor | include/qcircuit.hpp:319-321 | priming every tensor keeps the vector's length |
| QCircuitState.InitialState | include/qcircuit.hpp:45-94 | the constructed state is sized to the graph, with the cursor on (0, 1) |
| QCircuitState.SiteTensorTouching | include/qcircuit.hpp:65-88 | a site tensor holds its physical index and the bond of every link touching the site, and nothing else |
| QCircuitState.SharedBond | include/qcircuit.hpp:93 | without repeated links, the tensors of two linked sites share exactly the bond of their link |
| QCircuitState.DepartingSpec | include/qcircuit.hpp:116-133 | the factor shape (physical index plus the bonds of the remaining list) is the departing site's tensor less the cursor bond |
| QCircuitState.Rebond | include/qcircuit.hpp:136 | replacing the bond of link L changes exactly the tensors of the sites L touches, where the old bond is swapped for the new one |
| QCircuitState.CursorLink | include/qcircuit.hpp:111-113 | an adjacent cursor lies on a link joining its two sites |
| QCircuitState.ShiftedIds | include/qcircuit.hpp:199-201 | a shift keeps all ids distinct and below the id counter |
| QCircuitState.ShiftedAdjacent | include/qcircuit.hpp:206-207 | after a shift toward a neighbour, the new cursor's first site lists the second |
| QCircuitState.SplitAtBond | include/qcircuit.hpp:199-201 | an SVD of two tensors sharing one bond, split along the first, gives back each side with the shared bond replaced by a fresh one |
| QCircuitState.ShiftAlgebra | include/qcircuit.hpp:199-204 | after the SVD of a shift, the kept factor is the departing tensor with a fresh bond, and the new Psi is the target tensor contracted with the staying side |
| QCircuitState.ShiftedUnfold | include/qcircuit.hpp:165-248 | in either branch, the shift rewrites the link's bond, the departing site's tensor, Psi and the cursor. It draws two fresh ids and keeps the physical indices |
| QCircuitState.ShiftedParts | include/qcircuit.hpp:199-248 | under the invariant, the shift's new tensor, bond and Psi are the old site tensors with the cursor bond renewed. The cursor becomes (ind, staying site) in one order or the other |
| QCircuitState.ShiftLink | include/qcircuit.hpp:171-184 | the link the shift rewrites joins the departing and staying sites. Its bond is the only index the two tensors share |
| QCircuitState.RebondCursor | include/qcircuit.hpp:201 | a renewed cursor bond changes only the two cursor sites' tensors |
| QCircuitState.ConsistentAfterShift | include/qcircuit.hpp:199-207 | with those parts, the shifted state's bookkeeping is consistent again |
| QCircuitState.ShiftedConsistent | include/qcircuit.hpp:143-254 | a shift from an adjacent cursor keeps the index bookkeeping consistent |
| QCircuitState.ShiftKeepsInvariant | include/qcircuit.hpp:143-254 | a shift keeps the invariant: distinct ids, consistent bookkeeping, and the cursor on a link |
| QCircuitState.ShapeFromAdjacent | include/qcircuit.hpp:185-197 | on a graph of degree 1 to 3 with the cursor on a link, the factor switch's case (0, 1 or 2 remaining entries) always exists |
| QCircuitState.ShiftFrame | include/qcircuit.hpp:201-204 | a shift changes only the departing site's tensor and the cursor link's bond, and keeps the physical indices. Without a neighbour it changes nothing |
| QCircuitState.MovedKeepsInvariant | include/qcircuit.hpp:257-263 | every route of shifts keeps the invariant |
| QCircuitState.RouteShapesFromInvariant | include/qcircuit.hpp:257-263 | under the invariant, every shift of a route meets the factor switch's shape requirement |
| QCircuitState.DecomposedUnfold | include/qcircuit.hpp:102-140 | decomposition replaces the cursor link's bond by U's new bond, M[first] by U and M[second] by S*V. It keeps Psi, the physical indices and the cursor |
| QCircuitState.DecomposeAlgebra | include/qcircuit.hpp:135-139 | the SVD of the two cursor tensors gives U = first tensor, S*V = second tensor, both with the shared bond renewed, and they contract back to Psi |
| QCircuitState.DecomposedParts | include/qcircuit.hpp:102-140 | under the invariant, decomposition renews exactly the cursor link's bond in the two cursor tensors |
| QCircuitState.DecomposedSettled | include/qcircuit.hpp:102-140 | decomposition keeps the invariant and leaves EVERY site tensor, the cursor's included, equal to its site's indices |
| QCircuitState.RebondSettled | include/qcircuit.hpp:136-139 | a renewed cursor bond written into both cursor tensors keeps the invariant and settles every site tensor |
| QCircuitState.InitialInvariant | include/qcircuit.hpp:45-94 | the constructed bookkeeping is consistent; ids are distinct when the supplied physical ids are distinct and below the id source; the cursor is on a link iff 0-1 is linked; with no repeated links the invariant holds |
| QCircuitState.FourIndicesAtCursor | include/qcircuit.hpp:267-271 | four indices, each a cursor site's physical index or its primed copy, are all four of them |
| QCircuitState.AppliedPsi | include/qcircuit.hpp:273 | the cursor sites' physical indices of Psi are primed before `op` meets them, so a primed copy is left iff `op` lacks it; every other index of Psi is left iff `op` does not carry it |
| QCircuitState.AppliedKeepsIndices | include/qcircuit.hpp:273 | applying such an operator to the primed Psi gives back Psi's labels |
| QCircuitState.Primed | include/qcircuit.hpp:310-324 | every physical index, bond and site tensor goes one prime level up, Psi holds only primed indices, and the cursor and id counter stay |
| QCircuitState.PrimedSiteTensor | include/qcircuit.hpp:310-324 | priming all indices primes every site tensor |
| QCircuitState.PrimedKeepsInvariant | include/qcircuit.hpp:310-324 | priming everything keeps the invariant |
| QCircuits.FactorIndices | include/qcircuit.hpp:121-133 | the factor built by the switch holds the physical index and the bonds of the remaining entries |
| QCircuits.NewIndices | include/qcircuit.hpp:52-61 | the loop creates consecutive fresh indices, as many as asked |
| QCircuits.BuildSiteTensors | include/qcircuit.hpp:64-88 | the loop builds one tensor per site, each over the site's physical index and the bonds of its list |
| QCircuits.OneSiteGatesAtCursor | include/qcircuit.hpp:284-286 | two one-site gates on the two cursor sites form a four-index operator on the cursor |
| QCircuits.TwoSiteGateAtCursor | include/qcircuit.hpp:296-298 | a two-site gate on the two cursor sites is a four-index operator on the cursor |
| QCircuits.TwoSiteGateOnOneSite | include/quantum_gate.hpp:194-197 | a two-site gate on one site is a scalar: applying it only primes Psi's cursor physical indices |
| QCircuits.FactoryCircuitsSettled | include/qcircuit.hpp:45-94 | a circuit built on the 53-site layout, a chain of three or more sites or the all-to-all graph on two or more starts with the invariant, given unique supplied physical indices |
| QCircuits.QCircuit.constructor | include/qcircuit.hpp:45-94 | the circuit is the initial state on the topology's graph, with the cursor on (0, 1) and Psi = M[0]*M[1]. The invariant holds when 0-1 is a link, no link repeats and the supplied indices are distinct |
| QCircuits.QCircuit.Copy | include/qcircuit.hpp:366-373 | a by-value copy has the same topology and state |
| QCircuits.QCircuit.Size | include/qcircuit.hpp:97-99 | the size is the number of sites: the length of `s` and of `M`, at least 2 |
| QCircuits.QCircuit.DecomposePsi | include/qcircuit.hpp:102-140 | the new state is `Decomposed` of the old, and the invariant is kept with every site tensor settled |
| QCircuits.QCircuit.SplitPsi | include/qcircuit.hpp:103-139 | computes the link index, the new bond and the two factors that `Decomposed` writes |
| QCircuits.QCircuit.DecomposeSettledHere | include/qcircuit.hpp:102-140 | a circuit holding `Decomposed` of a state with the invariant is settled |
| QCircuits.QCircuit.ShiftCursorTo | include/qcircuit.hpp:143-254 | the new state is `Shifted` of the old, and the shift happens iff `ind` neighbours a cursor site. The invariant is kept |
| QCircuits.QCircuit.ShiftDirection | include/qcircuit.hpp:147-163 | the two scans set the flag: 2 if `ind` neighbours the second site, else 1 if it neighbours the first, else 0 |
| QCircuits.QCircuit.ShiftTowards | include/qcircuit.hpp:165-248 | either branch body leaves the state `Shifted` of the old |
| QCircuits.QCircuit.MoveCursorTo | include/qcircuit.hpp:257-263 | the state after the route is `Moved`, one shift per route site in order, and the invariant is kept |
| QCircuits.QCircuit.ApplyAtCursor | include/qcircuit.hpp:266-274 | only Psi changes, to the operator contracted with the primed Psi. The cursor does not move, and under the invariant Psi's labels are unchanged |
| QCircuits.QCircuit.ApplyOneSiteGates | include/qcircuit.hpp:281-287 | the cursor moves along the route, then Psi is contracted with both gates' operators. When the route ends on the gates' sites, the invariant and Psi's labels are kept |
| QCircuits.QCircuit.ApplyTwoSiteGate | include/qcircuit.hpp:294-299 | the same for a two-site gate, whose operator is a scalar when its two sites coincide |
| QCircuits.QCircuit.PrimeAll | include/qcircuit.hpp:310-324 | every physical index, bond index, tensor and Psi is primed, and the invariant is kept |
| QCircuitOverlap.OverlapFold | include/qcircuit.hpp:375-379 | every index left after reducing sites 0..i belongs to one of those sites' tensors |
| QCircuitOverlap.FoldParity | include/qcircuit.hpp:375-379 | a label is left after reducing sites 0..i iff it occurs an odd number of times among their tensors |
| QCircuitOverlap.InitialUnprimed | include/qcircuit.hpp:51-54 | a new circuit's bonds have prime level 0 |
| QCircuitOverlap.ShiftedUnprimed | include/qcircuit.hpp:199-204 | a shift keeps the bonds at prime level 0 |
| QCircuitOverlap.MovedUnprimed | include/qcircuit.hpp:257-263 | a route keeps the bonds at prime level 0 |
| QCircuitOverlap.DecomposedUnprimed | include/qcircuit.hpp:136 | decomposition keeps the bonds at prime level 0 |
| QCircuitOverlap.MatchedEven | include/qcircuit.hpp:375-379 | when both circuits share the graph and physical indices and each site's operator is its physical index and primed copy, every label occurs 0 or 2 times in the network |
| QCircuitOverlap.EvenFoldIsScalar | include/qcircuit.hpp:375-381 | if every label occurs an even number of times, the reduction ends with no index |
| QCircuitOverlap.MatchedOverlapIsScalar | include/qcircuit.hpp:375-381 | matched settled circuits reduce to no index |
| QCircuitOverlap.OverlapIsScalar | include/qcircuit.hpp:366-381 | two circuits on one graph with the invariant, decomposed and the second primed, reduce to a scalar |
| QCircuitOverlap.ReadyOverlapIsScalar | include/qcircuit.hpp:366-381 | the same for circuits meeting the overlap's preconditions |
| QCircuitOverlap.Reduce | include/qcircuit.hpp:375-379 | the loop computes the left-to-right reduction `dag(M1[i])*op[i]*ret*M2[i]` |
| QCircuitOverlap.DecomposedCopy | include/qcircuit.hpp:370-373 | the tensors of a copy after `decomposePsi` (and `primeAll`), without touching the caller's circuit |
| QCircuitOverlap.Overlap | include/qcircuit.hpp:366-382 | the result is the reduction of the decomposed copies, and it has no index when the circuits are ready |
| QuantumGates.Matrix | include/quantum_gate.hpp:35-167 | only H carries the 1/√2 factor, and the coded H has entries [[1,-1],[1,1]] in (output, input) order |
| QuantumGates.OneSiteIndices | include/quantum_gate.hpp:39-45 | a one-site gate's operator carries exactly the gate site's physical index and its primed copy |
| QuantumGates.PauliActions | include/quantum_gate.hpp:51-93 | X swaps ket0 and ket1, Z keeps ket0 and negates ket1, Y takes ket0 to i·ket1 and ket1 to -i·ket0 |
| QuantumGates.PauliSquares | include/quantum_gate.hpp:35-94 | Id, X, Y and Z each square to the identity |
| QuantumGates.IdSquare | include/quantum_gate.hpp:39-45 | Id·Id is the identity |
| QuantumGates.XSquare | include/quantum_gate.hpp:55-61 | X·X is the identity |
| QuantumGates.YSquare | include/quantum_gate.hpp:71-77 | Y·Y is the identity |
| QuantumGates.ZSquare | include/quantum_gate.hpp:87-93 | Z·Z is the identity |
| QuantumGates.Projectors | include/quantum_gate.hpp:99-124 | Proj_0 + Proj_1 = Id; each projector is idempotent; their products are zero |
| QuantumGates.Transitions | include/quantum_gate.hpp:129-154 | Proj_0_to_1 maps ket0 to ket1 and ket1 to 0, Proj_1_to_0 the reverse, and their products are the two projectors |
| QuantumGates.CodedHadamardNotSelfInverse | include/quantum_gate.hpp:163-166 | the coded H is (1/√2)[[1,-1],[1,1]], the textbook Hadamard times Z. H·H is not the identity, and H ket1 = -(ket-) |
| QuantumGates.HadamardSelfInverse | include/quantum_gate.hpp:159-167 | the textbook Hadamard is its own inverse and maps ket0 to ket+ and ket1 to ket- |
| QuantumGates.CorrectedReflections | include/quantum_gate.hpp:35-167 | with H corrected, Id, X, Y, Z and H are each their own inverse |
| QuantumGates.TwoSiteIndices | include/quantum_gate.hpp:194-197 | a two-site gate's operator is a site1 operator times a site2 operator. It carries only the two sites' physical indices and their primed copies: all four when the two sites' indices differ, none (a scalar) when site1 is site2 |
| QuantumGates.Matrix4 | include/quantum_gate.hpp:190-224 | the controlled gates never flip site1 (zero off-diagonal blocks) and act as the identity on site2 while site1 is ket0 |
| QuantumGates.ControlledBlocks | include/quantum_gate.hpp:190-224 | CNOT, CY and CZ are block-diagonal in the control: Id when site1 is ket0, the target gate when it is ket1 |
| QuantumGates.ControlledSelfInverse | include/quantum_gate.hpp:190-224 | the controlled gates have zero off-diagonal blocks and both diagonal blocks square to the identity |
| Bitfield.BitIsBinary | qcircuit/qasm/registers.py:93 | `(d >> j) & 1` is 0 or 1 |
| Bitfield.BitOfPow2 | qcircuit/qasm/registers.py:98-100 | `1 << i` has bit i set and no other |
| Bitfield.BitOfOr | qcircuit/qasm/registers.py:100 | a bit of `a OR b` (Python bitwise or) is set iff it is set in a or in b |
| Bitfield.BitOfAndNot | qcircuit/qasm/registers.py:98 | a bit of `a & ~b` is set iff it is set in a and not in b |
| Registers.Allocate | qcircuit/qasm/registers.py:8-16 | `add` records the name (overwriting any earlier entry), and every other name keeps its entry |
| Registers.BuiltTop | qcircuit/qasm/registers.py:15-16 | after a sequence of adds, `_top` is the sum of all sizes requested, repeated names included |
| Registers.BuiltNames | qcircuit/qasm/registers.py:8-16 | a name has an entry iff it was added |
| Registers.BuiltLatest | qcircuit/qasm/registers.py:9-16 | a name's entry is its LAST add, starting at the sum of the sizes added before it |
| Registers.AllocatePacked | qcircuit/qasm/registers.py:15-16 | an add with a non-negative size keeps the ranges inside [0, top) and pairwise disjoint |
| Registers.BuiltPacked | qcircuit/qasm/registers.py:8-16 | adds with non-negative sizes leave the ranges disjoint and inside [0, top) |
| Registers.Locate | qcircuit/qasm/registers.py:19-23 | the lookup succeeds iff the name has an entry, and raises KeyError otherwise |
| Registers.SizeOf | qcircuit/qasm/registers.py:26-27 | the size lookup succeeds iff the name has an entry, and raises KeyError otherwise |
| Registers.LocateInRange | qcircuit/qasm/registers.py:19-23 | an index inside its register maps below `_top` |
| Registers.LocateInjective | qcircuit/qasm/registers.py:19-23 | distinct (register, index) pairs inside their registers map to distinct hardware indices |
| Registers.QuantumRegisters.constructor | qcircuit/qasm/registers.py:2-5 | top 0, no register |
| Registers.QuantumRegisters.Add | qcircuit/qasm/registers.py:8-16 | the state becomes `Allocate` of the old one and the request is recorded. Neither the duplicate check nor the overflow check has any effect |
| Registers.QuantumRegisters.GetHardwareIndex | qcircuit/qasm/registers.py:19-23 | succeeds iff the id was added, giving start + index. The bound check has no effect |
| Registers.QuantumRegisters.GetSize | qcircuit/qasm/registers.py:26-27 | succeeds iff the id was added, giving its size |
| Registers.QuantumRegisters.Contains | qcircuit/qasm/registers.py:30-31 | true iff the id was added |
| Registers.ReadBit | qcircuit/qasm/registers.py:89-93 | raises ValueError iff the index is still negative after adding the size, and otherwise gives a bit, 0 or 1 |
| Registers.Assign | qcircuit/qasm/registers.py:96-102 | raises ValueError (negative shift count) iff the index is negative and the value is 0 or 1 |
| Registers.AssignBits | qcircuit/qasm/registers.py:96-102 | value 0 clears bit i, value 1 sets it, any other value changes nothing, and no other bit changes |
| Registers.AssignIdempotent | qcircuit/qasm/registers.py:96-102 | setting the same bit to the same value twice is the same as once |
| Registers.ReadAfterAssign | qcircuit/qasm/registers.py:89-102 | after setting bit i to v, reading i gives v, and reading any position other than i gives what it gave before |
| Registers.ReadFromEnd | qcircuit/qasm/registers.py:89-93 | index j - size reads the same bit as index j |
| Registers.ClassicalRegister.constructor | qcircuit/qasm/registers.py:80-82 | a new register has data 0 and the given size |
| Registers.ClassicalRegister.Get | qcircuit/qasm/registers.py:89-93 | a non-negative index reads its bit; an index in [-size, 0) reads bit size + index; below that it raises ValueError |
| Registers.ClassicalRegister.Set | qcircuit/qasm/registers.py:96-102 | the data becomes `Assign` of the old data, or is unchanged on ValueError. Only bit i can change |
| Registers.ClassicalRegisters.constructor | qcircuit/qasm/registers.py:51-52 | no register |
| Registers.ClassicalRegisters.Add | qcircuit/qasm/registers.py:54-58 | the id maps to a new register with data 0, replacing any earlier one, and the other ids keep theirs |
| Registers.ClassicalRegisters.Get | qcircuit/qasm/registers.py:60-61 | KeyError for an id never added, otherwise the register's `get` |
| Registers.ClassicalRegisters.Set | qcircuit/qasm/registers.py:64-65 | KeyError for an id never added, otherwise the register's `set`. The other registers' data is unchanged |
| Registers.ClassicalRegisters.GetData | qcircuit/qasm/registers.py:67-68 | succeeds iff the id was added, giving that register's bitfield, and raises KeyError otherwise |
| Registers.ClassicalRegisters.GetSize | qcircuit/qasm/registers.py:71-72 | succeeds iff the id was added, giving that register's size, and raises KeyError otherwise |
| Registers.ClassicalRegisters.Contains | qcircuit/qasm/registers.py:75-76 | true iff the id was added |
| QasmInterpreter.Initial | qcircuit/qasm/qasm_interpreter.py:10-15 | `_creg` is `max_qubit` zeros, and both register tables are empty with top 0 |
| QasmInterpreter.Store | qcircuit/qasm/qasm_interpreter.py:99 | the list store succeeds iff the index is in [-len, len), and raises IndexError otherwise |
| QasmInterpreter.StoreOneSlot | qcircuit/qasm/qasm_interpreter.py:99 | a store writes exactly one slot (a negative index counts from the end) and keeps the length |
| QasmInterpreter.Measured | qcircuit/qasm/qasm_interpreter.py:94-99 | an indexed measure raises only KeyError or IndexError, and otherwise keeps both register tables and the length of `_creg` |
| QasmInterpreter.MeasureWritesOneSlot | qcircuit/qasm/qasm_interpreter.py:94-99 | an indexed measure succeeds iff both registers exist and the classical position is a valid list index. It writes the outcome into exactly that slot and changes nothing else |
| QasmInterpreter.Step | qcircuit/qasm/qasm_interpreter.py:24-50 | only a measure, a universal unitary, a CNOT or an unknown statement can raise. Only an indexed measure writes `_creg`, and never changes its length. Only a qreg (creg) declaration changes the quantum (classical) table |
| QasmInterpreter.NoOpStatements | qcircuit/qasm/qasm_interpreter.py:24-50 | Format, Barrier, gate definitions, Reset, custom unitaries and a mixed measure change nothing |
| QasmInterpreter.FailingStatements | qcircuit/qasm/qasm_interpreter.py:45-50 | 'Unimplemented operation' is raised exactly for unknown statements, and every CNOT raises NameError |
| QasmInterpreter.StepKeepsLength | qcircuit/qasm/qasm_interpreter.py:24-50 | no statement changes the length of `_creg` |
| QasmInterpreter.StepKeepsPacked | qcircuit/qasm/qasm_interpreter.py:53-75 | declarations with non-negative sizes keep both register tables disjoint and inside their tops |
| QasmInterpreter.Run | qcircuit/qasm/qasm_interpreter.py:18-21 | a program keeps the length of `_creg`; one without qreg (creg) declarations keeps the quantum (classical) table |
| QasmInterpreter.RunInvariant | qcircuit/qasm/qasm_interpreter.py:18-21 | a whole program keeps the length of `_creg`, and keeps the register tables packed when every declared size is non-negative |
| QasmInterpreter.RunAppend | qcircuit/qasm/qasm_interpreter.py:18-21 | running a + b is running a, then b from where a stopped, unless a raised |
| QasmInterpreter.Interpreter.constructor | qcircuit/qasm/qasm_interpreter.py:6-15 | builds the 53-site topology and starts in `Initial(53)` |
| QasmInterpreter.Interpreter.AddQreg | qcircuit/qasm/qasm_interpreter.py:53-58 | the quantum table becomes `Allocate` of the old one, with the overflow check a no-op, and nothing else changes |
| QasmInterpreter.Interpreter.GetQregIndex | qcircuit/qasm/qasm_interpreter.py:61-66 | succeeds iff the name is declared, giving start + index. The inverted guard has no effect |
| QasmInterpreter.Interpreter.GetQregSize | qcircuit/qasm/qasm_interpreter.py:69-70 | succeeds iff the name is declared, giving its size |
| QasmInterpreter.Interpreter.AddCreg | qcircuit/qasm/qasm_interpreter.py:73-75 | the classical table becomes `Allocate` of the old one, and nothing else changes |
| QasmInterpreter.Interpreter.GetCregIndex | qcircuit/qasm/qasm_interpreter.py:78-83 | succeeds iff the name is declared, giving start + index |
| QasmInterpreter.Interpreter.GetCregSize | qcircuit/qasm/qasm_interpreter.py:86-87 | succeeds iff the name is declared, giving its size |
| QasmInterpreter.Interpreter.Measure | qcircuit/qasm/qasm_interpreter.py:94-99 | the state becomes `Measured` of the old, or is unchanged when a lookup or the store raises |
| QasmInterpreter.Interpreter.ExecuteStatement | qcircuit/qasm/qasm_interpreter.py:24-50 | the state becomes `Step` of the old, or is unchanged when the statement raises |
| QasmInterpreter.Interpreter.Execute | qcircuit/qasm/qasm_interpreter.py:18-21 | the final state and status are `Run` of the program: statements in order, stopping at the first exception |

## Left out

- Numerics: tensor entries, the singular values, `norm`, `normalize`, `Spectrum` and truncation arguments (include/qcircuit.hpp:135-137, 199-202, 306-308) are floating-point work inside ITensor. The model keeps only index labels.
- QCircuitOverlap.Overlap: returns the label set of the contracted network, not the complex number `overlap` returns. What is proved is that no index is left, i.e. the result is a scalar.
- `dag` in `overlap` is complex conjugation and leaves the labels unchanged; it is not modelled separately.
- `getRoute` (include/qcircuit.hpp:258) is not part of this model. `MoveCursorTo`, `ApplyOneSiteGates` and `ApplyTwoSiteGate` take the route as a parameter. They require it to be a sequence of legal shifts.
- `generateTensorOp` (include/qcircuit.hpp:302-304) is modelled only through the indices of `op` (`OneSiteIndices`, `TwoSiteIndices`). The entries are in `QuantumGates.Matrix` and `QuantumGates.Matrix4`.
- QuantumGates.Matrix4: gives a controlled gate's entries for two distinct sites. When site1 is site2 the operator is a scalar; the model records only that it carries no index (`TwoSiteIndices`), not its value.
- Gate entries: every entry is one of 0, ±1, ±i. H's factor 1/√2 is kept as a power of 1/√2, and products of two matrices keep their two terms unsummed.
- Fresh ITensor ids are random in the source. The model draws them from a per-circuit counter `nextId`. Supplied physical indices must have distinct ids below the counter for the invariant. The overlap of two circuits therefore also requires the first circuit's bonds at prime level 0.
- QCircuits.QCircuit.Settled: the invariant is proved for graphs without self-links or repeated links. The 53-site layout, every chain of three or more sites and every all-to-all graph of two or more qualify (`QCircuits.FactoryCircuitsSettled`). The periodic chains of one and two sites have such links (`Circuits.ChainOfOneIsSelfLink`, `Circuits.ChainOfTwoDuplicates`), and for them only the sizes are tracked.
- QCircuits.QCircuit.constructor: requires one to three neighbours per site (the source asserts it) and at least two sites, since the cursor is (0, 1). Physical indices are either none or one per site.
- Circuits.MakeChain: requires at least one site, because `size-1` wraps around on `size_t` for an empty chain.
- Circuits.MakeIbmq: the model proves the layout has 53 sites and 58 in-range links, but not that every site has one to three neighbours. That is a fact about the literal table that would have to be evaluated site by site. The circuit constructor states it as its precondition instead.
- `Swap`, `UniversalUnitary`, `probabilityOfZero` and `observeQubit` are named only by the Python bindings (src/quantum_gate_pybind.cpp:24, src/qcircuit_pybind.cpp:19-21), runner.py and the interpreter (qcircuit/qasm/qasm_interpreter.py:99, 132). include/quantum_gate.hpp and include/qcircuit.hpp define none of them, so they are not part of this model. A measurement's outcome is a parameter of `Measure`, `Step` and `Run`.
- QasmInterpreter.Step: for a universal unitary only the register lookup (KeyError) is modelled. The engine call and the parameter evaluation are left out.
- The whole-register measure (qcircuit/qasm/qasm_interpreter.py:100-109) reads fields of the parser's nodes, which are not part of this model. It has no statement kind here. A measure with one indexed and one whole operand is the no-op of line 110-111.
- qiskit parsing (qcircuit/qasm/qasm_interpreter.py:19) is not part of this model: statements arrive as a sequence of kinds.
- Printing (`PrintMat`, `PrintCursor`), the reference accessors (`Mref`, `Psiref`, `site`, `getCursor`) and the `__repr__` methods of the register records are left out: they only expose state.
- `isConnectedGraph` and `exportDotString` are not part of this model; connectivity is stated only for the two graphs of test/circuit_topology_test.cpp.
- Python bindings and the demo drivers are left out.

## Findings

| source | as written | input that shows it | evidently intended | confidence | as-written member | corrected member |
|---|---|---|---|---|---|---|
| include/quantum_gate.hpp:163-166 | H = (1/√2)(Proj_0 + Proj_0_to_1 + Proj_1 − Proj_1_to_0), i.e. (1/√2)[[1,−1],[1,1]] in (output, input) order, the Hadamard gate times Z | applying H twice to ket0 gives ket1, not ket0; H ket1 = −(ket−) | the Hadamard gate (1/√2)[[1,1],[1,−1]], which is its own inverse | not executed | QuantumGates.CodedHadamardNotSelfInverse | QuantumGates.HadamardSelfInverse |

# Grover exactly-one 3-SAT circuits and the qibo backend registry

This project is a Dafny model of two parts of qibo.

**The Grover 3-SAT example.** This is `examples/grover3sat/grover_3SAT_functions.py`. It reads a problem instance:
- a header line `[qubits, clauses, ones]`;
- a solution line;
- one line of three 1-indexed variable numbers per clause.

From the instance it builds a Grover-search circuit of `qubits + clauses + 1` qubits:
- `start_grover`;
- `steps` rounds of `oracle` followed by `diffuser`;
- a final measurement into register `result`.

Each generator becomes a function that returns the ordered list of gates it yields. Python's behaviour is modelled as written:
- an index error becomes `Err(IndexError)`;
- a negative list index counts from the end;
- `range` of a negative number is empty.

`circuit.add` becomes an append to the circuit's gate queue, and `grover` is a method with a loop over the rounds.

Beside the construction, `OracleSemantics` gives the oracle its meaning. X, CNOT and multi-controlled X are permutations of basis states, so their action on a basis state is an exact Boolean function. Under that function, clause register `c[k]` records that exactly one of the clause's three variables is true. The ancilla is flipped exactly when every one of the `c` qubits is then on. The second half of the oracle returns every clause qubit to its input value, because each block writes only its own `c[k]`, from `q` qubits that no block changes. As a result, the oracle maps `x + [a] + zeros` to `x + [a xor (m == |clauses| and x satisfies every clause exactly once)] + zeros`, where `m` is the `clause_num` given to `create_qc`. With fewer clauses than `m`, the spare `c` qubits stay 0 and no state is marked. The oracle is also its own inverse.

**The backend registry `Backend`.** This is `src/qibo/backends/__init__.py`. It covers:
- the constructor, which checks for numpy, tensorflow and qibotf;
- the TensorFlow version check;
- the numpy backend, which is always constructed;
- the `QIBO_BACKEND` override and the default backend;
- `construct_backend`, which caches backends and makes a new one inherit the active backend's precision and device;
- the `active_backend` setter;
- the module-level `set_precision` and `set_device`, which update every constructed backend.

Installed packages, the TensorFlow version string and the `QIBO_BACKEND` variable are parameters (`Environment`). A backend object is abstracted to its name, precision and default device (`Engine`). The active backend is held as the key of a constructed backend. So updating a constructed backend also updates the active one, as the shared Python object does.

Files:
- `wrappers.dfy`: Option and Result.
- `gates.dfy`: gates and their Boolean action on basis states.
- `grover.dfy`: the example's functions.
- `oracle_semantics.dfy`: what the oracle computes.
- `backends.dfy`: the registry.

## Model

| member | source | states |
|---|---|---|
| Grover.BitstringAt | examples/grover3sat/grover_3SAT_functions.py:5-6 | `bitstring` keeps the length and writes '1' exactly where the bit is true |
| Grover.BitstringRoundTrip | examples/grover3sat/grover_3SAT_functions.py:5-6 | reading back a bitstring gives the original bits |
| Grover.ParseBitsRoundTrip | examples/grover3sat/grover_3SAT_functions.py:5-6 | a string is a bitstring iff every character is '0' or '1', and then it is the bitstring of its parse |
| Grover.ReadFile | examples/grover3sat/grover_3SAT_functions.py:8-26 | `control[1]` is read only when the header line has at least two numbers, otherwise IndexError; control and solution are the first two lines; there are `control[1]` clauses (none if negative); clause i is line i+2, or empty past the end of the file |
| Grover.WriteParseRoundTrip | examples/grover3sat/grover_3SAT_functions.py:20-26 | an instance whose header names its clause count reads back unchanged from its file |
| Grover.ParseWriteRoundTrip | examples/grover3sat/grover_3SAT_functions.py:20-26 | a file with exactly `control[1]` clause lines is what its parsed instance writes |
| Grover.Layout | examples/grover3sat/grover_3SAT_functions.py:35-38 | q is 0..qubits-1, the ancilla is `qubits`, c[k] is qubits+1+k, the width is qubits+clauses+1 |
| Grover.LayoutPartition | examples/grover3sat/grover_3SAT_functions.py:35-38 | q, the ancilla and c are disjoint and together cover exactly the circuit's qubits |
| Grover.CreateQc | examples/grover3sat/grover_3SAT_functions.py:28-39 | returns that layout and a fresh empty circuit of that width |
| Grover.Circuit.Add | examples/grover3sat/grover_3SAT_functions.py:111-115 | adding gates appends them, in order, to the circuit's queue |
| Grover.HAllAt | examples/grover3sat/grover_3SAT_functions.py:50-51 | one H per q qubit, in order |
| Grover.StartGroverShape | examples/grover3sat/grover_3SAT_functions.py:41-51 | X and then H on the ancilla, then H on each q qubit: \|q\|+2 gates |
| Grover.PyAt | examples/grover3sat/grover_3SAT_functions.py:66-69 | Python indexing (negative counts from the end) always picks an element of the list |
| Grover.ClauseQubits | examples/grover3sat/grover_3SAT_functions.py:66-69 | a clause names three qubits of q |
| Grover.Blocks | examples/grover3sat/grover_3SAT_functions.py:65-70 | each clause from k on contributes four gates |
| Grover.Oracle | examples/grover3sat/grover_3SAT_functions.py:53-78 | the oracle is defined exactly when every clause has three entries that index q and c has a qubit per clause; otherwise IndexError |
| Grover.BlocksAt | examples/grover3sat/grover_3SAT_functions.py:65-70 | gates 4(j-k)..4(j-k)+4 are clause j's CNOT, CNOT, CNOT, MCX block |
| Grover.OracleShape | examples/grover3sat/grover_3SAT_functions.py:53-78 | 8m+1 gates: clause k's block at 4k, the ancilla's MCX controlled by all of c in the middle, then the first half repeated |
| Grover.OneIndexedClauses | examples/grover3sat/grover_3SAT_functions.py:66-69 | with entries in 1..\|q\| and enough c qubits, the oracle is defined and entry j names q[j-1] |
| Grover.ZeroEntryNamesLastQubit | examples/grover3sat/grover_3SAT_functions.py:66-69 | a clause entry 0 silently names the last qubit of q (q[-1]) |
| Grover.ShortClauseBreaksOracle | examples/grover3sat/grover_3SAT_functions.py:66-68 | a clause with fewer than three entries makes the oracle raise IndexError |
| Grover.TruncatedFileBreaksOracle | examples/grover3sat/grover_3SAT_functions.py:24-25 | a file with fewer clause lines than `control[1]` parses, and the empty clauses it yields make the oracle raise IndexError |
| Grover.HXAt | examples/grover3sat/grover_3SAT_functions.py:86-88 | H then X on each q qubit, in order |
| Grover.XHAt | examples/grover3sat/grover_3SAT_functions.py:92-94 | X then H on each q qubit, in order |
| Grover.Diffuser | examples/grover3sat/grover_3SAT_functions.py:80-94 | the diffuser raises IndexError exactly when q is empty |
| Grover.DiffuserShape | examples/grover3sat/grover_3SAT_functions.py:80-94 | 4\|q\|+3 gates: H,X per qubit; H(q[0]), X on q[0] controlled by q[1:], H(q[0]); X,H per qubit |
| Grover.RepeatLength | examples/grover3sat/grover_3SAT_functions.py:112-114 | n rounds of a block have n times its length |
| Grover.RepeatAt | examples/grover3sat/grover_3SAT_functions.py:112-114 | round j occupies positions j·\|b\| to (j+1)·\|b\| |
| Grover.Grover | examples/grover3sat/grover_3SAT_functions.py:96-116 | on success the circuit gains exactly start_grover, `steps` rounds of oracle + diffuser and the measurement, and is returned; on an index error the circuit keeps what was added before the failing generator |
| Grover.GroverLength | examples/grover3sat/grover_3SAT_functions.py:111-115 | the whole circuit has (n+2) + steps·((8m+1)+(4n+3)) + 1 gates (no rounds when steps ≤ 0) |
| Grover.GroverRound | examples/grover3sat/grover_3SAT_functions.py:112-114 | round j, at offset n+2+j·\|round\|, is the oracle followed by the diffuser |
| Grover.GroverEnds | examples/grover3sat/grover_3SAT_functions.py:111-115 | the circuit starts with start_grover and ends with the measurement of q into 'result' |
| Grover.RepeatInRange | examples/grover3sat/grover_3SAT_functions.py:112-114 | repeating gates on in-range qubits stays in range |
| Grover.PairsInRange | examples/grover3sat/grover_3SAT_functions.py:50-51 | H, H X and X H layers on in-range qubits stay in range |
| Grover.BlocksInRange | examples/grover3sat/grover_3SAT_functions.py:65-70 | the clause blocks act only on circuit qubits |
| Grover.GroverInRange | examples/grover3sat/grover_3SAT_functions.py:28-39 | every gate of the Grover circuit acts on qubits of create_qc's n+m+1-qubit circuit |
| OracleSemantics.ParityIsExactlyOne | examples/grover3sat/grover_3SAT_functions.py:66-69 | three CNOTs then the Toffoli-like MCX set c[k] to "exactly one of three": the parity xor the conjunction |
| OracleSemantics.ClauseQubitsInQ | examples/grover3sat/grover_3SAT_functions.py:66-69 | a clause's qubits lie in the q register |
| OracleSemantics.BlockRun | examples/grover3sat/grover_3SAT_functions.py:66-69 | running one clause block: three CNOTs onto c[k], then X on c[k] controlled by the three qubits |
| OracleSemantics.BlockVal | examples/grover3sat/grover_3SAT_functions.py:66-69 | that value is c[k] xor "exactly one of the three is true" |
| OracleSemantics.BlockEffect | examples/grover3sat/grover_3SAT_functions.py:66-69 | a clause block flips c[k] exactly when exactly one of its qubits is true, and changes nothing else |
| OracleSemantics.ClauseHoldsFrame | examples/grover3sat/grover_3SAT_functions.py:66-69 | whether a clause holds depends only on the q register |
| OracleSemantics.BlocksUnfold | examples/grover3sat/grover_3SAT_functions.py:65-70 | the blocks from k are clause k's block, then the blocks from k+1 |
| OracleSemantics.AfterStep | examples/grover3sat/grover_3SAT_functions.py:65-70 | after clause k's block, the remaining blocks leave what all blocks from k leave |
| OracleSemantics.BlocksEffect | examples/grover3sat/grover_3SAT_functions.py:64-70 | the first loop xors each c[k] (k from the start clause) with "clause k holds exactly once" and leaves every other qubit unchanged |
| OracleSemantics.AllOnIsMarked | examples/grover3sat/grover_3SAT_functions.py:71 | when every c[k] holds clause k's value, all of c is on exactly when the state is marked |
| OracleSemantics.FirstHalfMarks | examples/grover3sat/grover_3SAT_functions.py:64-70 | from a state, the first loop writes into c[k] the value the marking needs for clause k |
| OracleSemantics.MiddleEffect | examples/grover3sat/grover_3SAT_functions.py:71 | the middle gate flips the ancilla exactly when all of c is on |
| OracleSemantics.SecondHalfRestores | examples/grover3sat/grover_3SAT_functions.py:72-78 | the second loop returns every qubit other than the ancilla to its value before the first loop; the ancilla keeps the value `a` it holds after the middle gate |
| OracleSemantics.SecondHalf | examples/grover3sat/grover_3SAT_functions.py:72-78 | the second loop undoes the first, whatever the ancilla now holds |
| OracleSemantics.OracleEffect | examples/grover3sat/grover_3SAT_functions.py:53-78 | the ancilla is xored with whether, for every k < m, c[k] xor (clause k exists and has exactly one true variable) is on; with c starting at 0 that means every clause holds and \|clauses\| = m. Every other qubit is restored |
| OracleSemantics.MarkedIgnoresAncilla | examples/grover3sat/grover_3SAT_functions.py:53-78 | whether a state is marked does not depend on the ancilla |
| OracleSemantics.OracleSelfInverse | examples/grover3sat/grover_3SAT_functions.py:53-78 | applying the oracle twice gives back the input state |
| OracleSemantics.ClauseHoldsOnAssignment | examples/grover3sat/grover_3SAT_functions.py:66-69 | on x + [a] + zeros, clause k holds exactly when exactly one of x's entries at its three 1-indexed positions is true |
| OracleSemantics.MarkedOnAssignment | examples/grover3sat/grover_3SAT_functions.py:53-55 | x + [a] + zeros is marked exactly when every one of the m clause registers has a clause and x satisfies each clause exactly once |
| OracleSemantics.OracleSets | examples/grover3sat/grover_3SAT_functions.py:53-78 | the oracle sets the ancilla to its xor with the marking and leaves everything else |
| OracleSemantics.OracleMarksSolutions | examples/grover3sat/grover_3SAT_functions.py:53-55 | for clause entries in 1..\|x\|, the oracle maps x + [a] + zeros to x + [a xor (\|clauses\| = m and x solves every clause exactly once)] + zeros |
| OracleSemantics.OracleOnAssignment | examples/grover3sat/grover_3SAT_functions.py:53-78 | on x + [a] + zeros, the oracle output is x + [a xor marked] + zeros |
| Backends.ActiveEngine | src/qibo/backends/__init__.py:60-62 | there is an active backend object exactly when an active name is set |
| Backends.Construct | src/qibo/backends/__init__.py:68-95 | construct_backend succeeds exactly when the name is already constructed or available, and keeps the registry well formed |
| Backends.ConstructCached | src/qibo/backends/__init__.py:81-95 | a constructed name returns the same backend and changes nothing |
| Backends.ConstructUnknown | src/qibo/backends/__init__.py:81-88 | the unknown-backend error is raised exactly for names that are not available, and then nothing changes |
| Backends.ConstructNew | src/qibo/backends/__init__.py:89-94 | a new backend takes the active backend's precision, and its device when that is truthy, and is cached under its name |
| Backends.ConstructKeepsEntries | src/qibo/backends/__init__.py:68-95 | construction never drops a constructed backend and never changes the available or active backends |
| Backends.SetActive | src/qibo/backends/__init__.py:64-66 | the setter keeps the registry well formed |
| Backends.SetActiveOutcome | src/qibo/backends/__init__.py:64-66 | on success the active backend is the named one; on failure nothing changes |
| Backends.SwitchBackReuses | src/qibo/backends/__init__.py:64-66 | switching to b and back to a reuses the same backend object for a |
| Backends.PyStrLessIrreflexive | src/qibo/backends/__init__.py:28 | Python's string `<` is irreflexive |
| Backends.PyStrLessTrichotomy | src/qibo/backends/__init__.py:28 | Python's string `<` is a strict total order |
| Backends.PyStrLessTransitive | src/qibo/backends/__init__.py:28 | Python's string `<` is transitive |
| Backends.TfVersionIsLexicographic | src/qibo/backends/__init__.py:28 | the version check compares strings: "2.10.0" is rejected as below "2.2.0", while "2.2.0" and "2.3.1" pass |
| Backends.AvailableNames | src/qibo/backends/__init__.py:15-50 | numpy is available, tensorflow when installed, qibotf when both are installed; the default choice is available |
| Backends.InitErrors | src/qibo/backends/__init__.py:11-58 | the constructor raises ModuleNotFoundError exactly without numpy, RuntimeError exactly for an old TensorFlow, and otherwise fails only for an unknown QIBO_BACKEND |
| Backends.InitActiveIsDefault | src/qibo/backends/__init__.py:52-58 | after the constructor, numpy and the default backend are constructed and the default (qibotf, tensorflow or numpy) is active, whatever QIBO_BACKEND named |
| Backends.InitNumpyOnly | src/qibo/backends/__init__.py:11-58 | with only numpy installed and no QIBO_BACKEND, the registry holds and activates numpy alone |
| Backends.SetAllPrecisionSpec | src/qibo/backends/__init__.py:160-162 | every constructed backend gets the new precision, with its name and device unchanged |
| Backends.SetAllDeviceSpec | src/qibo/backends/__init__.py:185-188 | every constructed backend gets the new device, with its name and precision unchanged |
| Backends.ConstructAfterSetPrecision | src/qibo/backends/__init__.py:89-94 | a backend constructed after set_precision gets the new precision |
| Backends.ConstructAfterSetDevice | src/qibo/backends/__init__.py:89-94 | a backend constructed after set_device with a truthy device gets that device |
| Backends.Backend.Empty | src/qibo/backends/__init__.py:52-53 | the registry starts with no constructed backend and no active one |
| Backends.Backend.ConstructBackend | src/qibo/backends/__init__.py:68-95 | the method updates the object's dictionaries and returns as `Construct` specifies |
| Backends.Backend.SetActiveBackend | src/qibo/backends/__init__.py:64-66 | the setter updates the object as `SetActive` specifies |
| Backends.NewBackend | src/qibo/backends/__init__.py:11-58 | the constructor returns a fresh registry in `Init`'s state, or raises `Init`'s error |
| Backends.SetPrecision | src/qibo/backends/__init__.py:150-162 | warns exactly when switchers are disallowed and the precision differs from the active backend's; every constructed backend (the active one included) gets the new precision |
| Backends.SetDevice | src/qibo/backends/__init__.py:174-188 | warns exactly when switchers are disallowed and the device differs from the active backend's; every constructed backend gets the new device |

## Left out

- File access and `int()` parsing in `read_file` are left out: the file is given as its lines, already split into integers and strings. A line that is not integers is not modelled.
- `bitstring` is modelled for booleans only. `str(int(b))` of other values (for example 2) is not modelled.
- H and M gates have no state semantics: amplitudes, phases and measurement outcomes are outside a classical model. The oracle and diffuser are proved about their gate lists, and the oracle about its action on basis states.
- Generators that raise after yielding some gates: `circuit.add` of a generator that fails part-way is modelled as adding nothing from that generator. Grover.Grover keeps what earlier `add` calls appended.
- `Circuit` internals: only the qubit count and the queue of added gates are modelled. Gate validation inside qibo's `Circuit` is not part of this model.
- Negative `qubits` or `clause_num` for `create_qc` are not modelled: counts are `nat`.
- `grover`'s `steps` of type other than int is not modelled.
- `check_availability`, the imports, the write to `os.environ["TF_CPP_MIN_LOG_LEVEL"]`, log messages and warning text are left out. Package presence, the TensorFlow version and `QIBO_BACKEND` are parameters. A warning is returned as a boolean.
- Backend objects are not modelled: their precision and device setters become field updates, and `allocate_matrices` and the `device` context manager are left out. The backend classes are not part of this model.
- `Backend.__getattr__`, `__str__`, `__repr__`, and the module functions `set_backend`, `get_backend`, `get_precision` and `get_device` are not modelled.
- Backends.SetPrecision: requires an active backend. The module's `K` always has one, because its constructor ends by setting it (src/qibo/backends/__init__.py:58, 120). With switchers allowed, the source's loop would also run without one; that case is not modelled.
- Backends.SetDevice: requires an active backend, for the same reason.
- Backends.SetPrecision: `set_precision`'s default argument `dtype='double'` is not modelled; the precision is always passed explicitly.
- Backends.SetDevice: a device is a string, and `''` stands for Python's falsy device. The model does not tell a `None` device from `''`, although the warning test `name != K.default_device` does.
- The TensorFlow minimum-version check is modelled as written, as a string comparison (see Backends.TfVersionIsLexicographic).
- The test files are not modelled.

# random-QC analysis helpers, modelled in Dafny

This project models the analysis layer of random-QC. That layer reduces repeated randomized-basis
measurements of quantum circuits to two statistics: Shannon entropy and Hellinger fidelity. It also
edits circuits by inserting one gate at a chosen depth. The model covers the two core files:

- `utils.py`
  - `get_fidelity_data`: the cumulative "C2C" series (a circuit against itself) and the cumulative
    "C2N" series (a circuit against its noisy variant).
  - `modify_circuit`: the qubit range check, the scan that finds the insertion index, and the
    splice into a copy of the circuit.
- `entropy.py`
  - `_calculate_entropy`: total shots, probabilities, zero-probability terms, and normalisation by
    the length of the first bitstring.
  - `get_entropy_list`: entropies summed per basis label.
  - `get_average_entropy`: the mean entropy of a campaign.
  - `get_extreme_entropy_data`: the rows of highest and lowest entropy at one depth.

Modules:

- `Results`: the exceptions raised (`ValueError`, `ZeroDivisionError`, `IndexError`) and a `Result` type.
- `Measurements`: an outcome-count dictionary is a sequence of `Outcome(bits, count)` in insertion
  order. A campaign is a sequence of `Run(basis, counts)`, the `(meas[i][0], meas[i][1])` pairs.
- `Series`: left-to-right sums, running totals and means of real sequences, with their lemmas.
- `Utils`: utils.py. `Circuit` is a class. Its `data` operation list is reassigned on a copy.
- `Entropy`: entropy.py.

Foreign numerics are parameters:

- qiskit's `hellinger_fidelity` is a parameter `fidelity: (Counts, Counts) -> real`. The lemmas
  that need qiskit's promise that fidelities lie in [0, 1] take it as a precondition.
- numpy's `log2` is a parameter `log2: real -> real`. Lemmas that need a value of it take that
  value as a precondition, for example log2(1) = 0.

Behaviour that follows the code:

- The range check rejects only indices greater than the qubit count (`q > numQ`). So
  `q == numQ` and negative indices pass it.
- With `depth = 1`, the gate lands immediately before the FIRST operation touching the qubits,
  because the scan breaks before advancing `ci_pos` (utils.py:63-66).
- Depth 0 and negative depths are modelled as the code treats them (see `InsertPosZeroDepth`).
- Entropy is normalised by the length of the first key of the counts dictionary
  (entropy.py:5, 13).

## Model

| member | source | states |
|---|---|---|
| `Utils.ValidateQubits` | utils.py:49-53 | the check fails exactly when some index in `qbits` exceeds the qubit count; `q == numQ` and negative indices pass |
| `Utils.InsertionIndex` | utils.py:57-66 | the scan with counters `qpos`/`ci_pos` and an early break stops at the position `InsertPos` gives |
| `Utils.InsertPos` | utils.py:57-66 | the insertion position never lies past the end of the operation list |
| `Utils.InsertPosIsDepthTh` | utils.py:57-66 | for depth >= 1: the position is inside the list iff at least `depth` operations touch `qbits`; then that operation touches `qbits` and exactly `depth - 1` touching operations precede it; otherwise the gate is appended at the end |
| `Utils.InsertPosNegativeDepth` | utils.py:57-66 | a negative depth is never reached, so the gate is appended at the end |
| `Utils.InsertPosZeroDepth` | utils.py:57-66 | depth 0 puts the gate first when the first operation does not touch `qbits`, and at the end otherwise |
| `Utils.Splice` | utils.py:67 | the result has one more operation; the new instruction sits at the insertion index; the operations before and after it keep their order; the multiset of operations grows by the new one only |
| `Utils.Circuit.Copy` | utils.py:48 | the copy is a new object with the same qubit count and operations |
| `Utils.ModifyCircuit` | utils.py:36-68 | ValueError("Qubits mismatch for given ciruit.") exactly when some index exceeds the qubit count; otherwise a fresh circuit whose operations are the original ones with the new instruction spliced in at `InsertPos`; the input circuit is unchanged |
| `Utils.SeriesStep` | utils.py:26-30 | one loop iteration adds the run's fidelity to the running sum and appends that sum to the series |
| `Utils.GetFidelityData` | utils.py:5-33 | IndexError exactly when `meas2` or `noisyMeas` has fewer runs than `meas1`; otherwise a map with exactly the keys "C2C" and "C2N", whose entry `i` is the sum over runs `j <= i` of the fidelity of `meas1[j]` against `meas2[j]` or `noisyMeas[j]` |
| `Utils.FidelitySeriesBounds` | utils.py:24-30 | with fidelities in [0, 1], each series has one entry per run of `meas1`, never decreases, and its entry `i` lies in [0, i + 1] |
| `Utils.FidelitySeriesIgnoresBases` | utils.py:27-29 | the series read only the counts `[1]` of each run: changing the basis labels `[0]` changes nothing |
| `Entropy.CalculateEntropy` | entropy.py:4-14 | IndexError on empty counts (the first-key lookup); ZeroDivisionError exactly when no shot was counted (the integer division at entropy.py:7) or, deviating from numpy, when the first key is empty (see "Left out") |
| `Entropy.ProbabilitiesSumToOne` | entropy.py:6-7 | with at least one shot, the probabilities `count / total_shots` sum to 1 |
| `Entropy.ProbabilitiesInUnitRange` | entropy.py:6-7 | every probability lies in [0, 1] |
| `Entropy.CountAtMostTotal` | entropy.py:6 | no count exceeds `total_shots` |
| `Entropy.ZeroCountIgnored` | entropy.py:10-12 | an outcome counted zero times contributes nothing: adding one leaves the entropy unchanged |
| `Entropy.DeterministicOutcome` | entropy.py:4-14 | a run whose shots all gave one outcome has entropy 0 |
| `Entropy.TwoEqualOutcomes` | entropy.py:4-14 | two equally frequent outcomes give 1 bit, divided by the key length |
| `Entropy.Entropies` | entropy.py:28-29 | a campaign's per-run entropies, one per run |
| `Entropy.EntropiesAt` | entropy.py:28-29 | the per-run entropies exist iff every run's entropy does, and entry `i` is run `i`'s entropy |
| `Entropy.EntropiesFirstError` | entropy.py:28-29 | when run `k` is the first to fail, the campaign fails with run `k`'s error |
| `Entropy.EntropiesErrorPersists` | entropy.py:28-29 | a failure among the first runs is the failure of the whole campaign |
| `Entropy.KeysStep` | entropy.py:31-34 | the dictionary's key order gains the run's label exactly when the label is not yet a key, which is the `else` branch |
| `Entropy.GroupStep` | entropy.py:30-34 | the dictionary update (add to an existing label, or create it) keeps each value equal to its label's total |
| `Entropy.GetEntropyList` | entropy.py:17-36 | the error of the first failing run; otherwise the keys are exactly the labels `meas[i][0]` occurring in the campaign (none for an empty campaign), and each value is the sum of the entropies of the runs with that label; the keys, in the order the loop inserts them, are `DistinctLabels` of the campaign |
| `Entropy.DistinctLabelsOrder` | entropy.py:31-34 | the dictionary's keys in insertion order: exactly the labels of the campaign, each once, ordered by the position of each label's first run (`FirstIndex`: a run with that label, and no earlier one) |
| `Entropy.GroupTotalCovers` | entropy.py:26-36 | summed over any duplicate-free list of labels covering the campaign, the per-label totals give the total entropy |
| `Entropy.EntropyListTotal` | entropy.py:26-36 | the dictionary's values, taken in key order, total the sum of all per-run entropies |
| `Entropy.GetAverageEntropy` | entropy.py:39-54 | the error of the first failing run; ZeroDivisionError for an empty campaign; otherwise the sum of the per-run entropies divided by the number of runs |
| `Entropy.AverageOfEqualRuns` | entropy.py:48-54 | n runs of equal entropy e average to e |
| `Entropy.FilterDepth` | entropy.py:59 | the filtered rows are exactly the rows at the given depth |
| `Entropy.FilterDepthAppend` | entropy.py:59 | filtering keeps the table order |
| `Entropy.ArgMax` | entropy.py:64 | `idxmax`: a row of greatest entropy, and every earlier row has strictly less |
| `Entropy.ArgMin` | entropy.py:65 | `idxmin`: a row of least entropy, and every earlier row has strictly more |
| `Entropy.ExtremeEntropyData` | entropy.py:57-66 | ValueError("No circuits found for this depth.") exactly when no row has the depth; otherwise both returned rows are table rows at that depth, bound the entropies of all such rows from above and below, and are the first such rows in table order |

## Left out

- measure_circuit.py is not part of this model. It is qiskit plumbing: transpiling, running on a backend, and appending basis-rotation gates and measurements.
- qiskit's `hellinger_fidelity` and numpy's `log2` are not modelled. They are floating-point library routines and appear only as parameters.
- `Entropy.CalculateEntropy` returns ZeroDivisionError when the first key is empty and at least one shot was counted. There the source divides a numpy float by 0 (entropy.py:13), which yields inf, or nan when the entropy is 0, with a RuntimeWarning and no exception. The model has no non-finite values, so it reports that case as a division by zero.
- Floating point is modelled by exact reals. Rounding, NaN and infinities are not captured. So `idxmax`/`idxmin` skipping NaN entries is not modelled.
- Counts are natural numbers. The model does not enforce that the keys of a counts dictionary are distinct, and no result depends on that.
- `Utils.ModifyCircuit` does not model qiskit's own checks in `QuantumCircuit.append`: an index equal to the qubit count or below `-numQ`, a gate whose arity differs from `len(qbits)`, or repeated qubits. qiskit raises there; the model returns the spliced circuit.
- `Utils.ModifyCircuit` keeps a negative index as written in the inserted instruction. qiskit resolves `-k` through list indexing to qubit `numQ - k`, so for `qbits = [-1]` the source puts the gate on qubit `numQ - 1`. The insertion position is the same either way, because the scan compares the raw `qbits` with the circuit's qubit indices.
- `Utils.Instruction` keeps only the gate and the qubit indices. Classical arguments (`cargs`) and gate parameters are not modelled, because the scan never reads them.
- `Entropy.GetEntropyList` returns a Dafny `map`, which has no key order. The insertion order of the Python dictionary is returned beside it as the sequence `keys`, which the method proves equal to `DistinctLabels` of the campaign.
- `Entropy.ExtremeEntropyData` models the table as a sequence of rows with `depth`, `entropy` and an opaque rest. It assumes unique index labels (pandas' default range index), because `.loc` with duplicated labels would return several rows.

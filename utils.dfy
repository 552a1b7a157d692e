/**
 * The two helpers of utils.py: the cumulative fidelity series of a pair of measurement
 * campaigns (get_fidelity_data) and the insertion of one gate into a copy of a circuit
 * before its depth-th operation on a given set of qubits (modify_circuit).
 */
module Utils {
  import opened Results
  import opened Series
  import opened Measurements

  // ---------------------------------------------------------------------------------------
  // Circuits
  // ---------------------------------------------------------------------------------------

  /** A gate, kept opaque: the model only moves instructions around, it never looks inside a gate. */
  type Gate = string

  /** One entry of a circuit's operation list: a gate and the indices of the qubits it acts on. */
  datatype Instruction = Instruction(gate: Gate, qubits: seq<int>)

  /** A quantum circuit: its qubit count and its operation list, which `ModifyCircuit` reassigns on a copy. */
  class Circuit {
    const numQubits: nat
    var data: seq<Instruction>

    constructor (numQubits: nat, data: seq<Instruction>)
      ensures this.numQubits == numQubits && this.data == data
    {
      this.numQubits := numQubits;
      this.data := data;
    }

    /** A new circuit with the same qubits and operations. */
    method Copy() returns (c: Circuit)
      ensures fresh(c)
      ensures c.numQubits == numQubits && c.data == data
    {
      c := new Circuit(numQubits, data);
    }
  }

  /** Python's `set(qbits)`: the distinct qubit indices of a list. */
  function ToSet(qbits: seq<int>): set<int>
  {
    set q | q in qbits
  }

  /** An instruction touches `lst` when it acts on at least one qubit of `lst`. */
  predicate Touches(inst: Instruction, lst: set<int>)
  {
    lst * ToSet(inst.qubits) != {}
  }

  /** The number of operations of `ops` that touch `lst`. */
  function CountTouching(ops: seq<Instruction>, lst: set<int>): nat
  {
    if ops == [] then 0
    else (if Touches(ops[0], lst) then 1 else 0) + CountTouching(ops[1..], lst)
  }

  /**
   * Where the scan of modify_circuit stops: walking `ops` with `remaining` set to `depth`
   * minus the touching operations seen so far (counting the current one), the index at
   * which `remaining` becomes 0, or `|ops|` when it never does.
   */
  function InsertPos(ops: seq<Instruction>, lst: set<int>, depth: int): (p: nat)
    ensures p <= |ops|
  {
    if ops == [] then 0
    else
      var remaining := if Touches(ops[0], lst) then depth - 1 else depth;
      if remaining == 0 then 0 else 1 + InsertPos(ops[1..], lst, remaining)
  }

  /** For depth >= 1 the insertion point is the depth-th operation touching `lst`, or the end when there are fewer. */
  lemma {:induction false} InsertPosIsDepthTh(ops: seq<Instruction>, lst: set<int>, depth: int)
    requires depth >= 1
    ensures InsertPos(ops, lst, depth) < |ops| <==> CountTouching(ops, lst) >= depth
    ensures InsertPos(ops, lst, depth) == |ops| <==> CountTouching(ops, lst) < depth
    ensures var p := InsertPos(ops, lst, depth);
            p < |ops| ==> Touches(ops[p], lst) && CountTouching(ops[..p], lst) == depth - 1
  {
    if ops != [] {
      var remaining := if Touches(ops[0], lst) then depth - 1 else depth;
      if remaining != 0 {
        InsertPosIsDepthTh(ops[1..], lst, remaining);
        var p' := InsertPos(ops[1..], lst, remaining);
        if p' < |ops| - 1 {
          assert ops[..1 + p'][0] == ops[0] && ops[..1 + p'][1..] == ops[1..][..p'];
        }
      } else {
        assert ops[..0] == [];
      }
    }
  }

  /** A negative depth is never reached: the gate goes at the end. */
  lemma {:induction false} InsertPosNegativeDepth(ops: seq<Instruction>, lst: set<int>, depth: int)
    requires depth < 0
    ensures InsertPos(ops, lst, depth) == |ops|
  {
    if ops != [] {
      var remaining := if Touches(ops[0], lst) then depth - 1 else depth;
      InsertPosNegativeDepth(ops[1..], lst, remaining);
    }
  }

  /**
   * Depth 0 is met before any operation has been counted: the gate goes first when the first
   * operation does not touch `lst`, and otherwise the count passes 0 and the gate goes at the end.
   */
  lemma InsertPosZeroDepth(ops: seq<Instruction>, lst: set<int>)
    ensures InsertPos(ops, lst, 0) == if ops != [] && !Touches(ops[0], lst) then 0 else |ops|
  {
    if ops != [] && Touches(ops[0], lst) {
      InsertPosNegativeDepth(ops[1..], lst, -1);
    }
  }

  /** `ops` with `inst` inserted at position `pos`: everything before it and after it keeps its order. */
  function Splice(ops: seq<Instruction>, inst: Instruction, pos: nat): (r: seq<Instruction>)
    requires pos <= |ops|
    ensures |r| == |ops| + 1
    ensures r[pos] == inst
    ensures forall i :: 0 <= i < pos ==> r[i] == ops[i]
    ensures forall i :: pos <= i < |ops| ==> r[i + 1] == ops[i]
    ensures multiset(r) == multiset(ops) + multiset{inst}
  {
    assert ops == ops[..pos] + ops[pos..];
    ops[..pos] + [inst] + ops[pos..]
  }

  /** The range check of modify_circuit: it rejects exactly the qubit indices above `numQ`. */
  method ValidateQubits(qbits: seq<int>, numQ: nat) returns (ok: bool)
    ensures ok <==> forall q :: q in qbits ==> q <= numQ
  {
    for i := 0 to |qbits|
      invariant forall k :: 0 <= k < i ==> qbits[k] <= numQ
    {
      if qbits[i] > numQ {
        assert qbits[i] in qbits;
        return false;
      }
    }
    return true;
  }

  /** The scan of modify_circuit: count touching operations, stop where the count reaches `depth`. */
  method InsertionIndex(ops: seq<Instruction>, qbits: seq<int>, depth: int) returns (ciPos: nat)
    ensures ciPos == InsertPos(ops, ToSet(qbits), depth)
  {
    var lst := ToSet(qbits);
    ciPos := 0;
    var qpos := 0;
    for k := 0 to |ops|
      invariant ciPos == k
      invariant InsertPos(ops, lst, depth) == k + InsertPos(ops[k..], lst, depth - qpos)
    {
      assert ops[k..][0] == ops[k] && ops[k..][1..] == ops[k + 1..];
      if Touches(ops[k], lst) {
        qpos := qpos + 1;
      }
      if qpos == depth {
        break;
      }
      ciPos := ciPos + 1;
    }
  }

  /**
   * modify_circuit: a copy of `circuit` with `gate` on `qbits` inserted before the depth-th
   * operation that touches `qbits`; ValueError when a qubit index exceeds the qubit count.
   */
  method ModifyCircuit(qbits: seq<int>, gate: Gate, depth: int, circuit: Circuit) returns (r: Result<Circuit>)
    ensures unchanged(circuit)
    ensures r.Err? <==> exists q :: q in qbits && q > circuit.numQubits
    ensures r.Err? ==> r.error == ValueError("Qubits mismatch for given ciruit.")
    ensures r.Ok? ==> fresh(r.value) && r.value.numQubits == circuit.numQubits
    ensures r.Ok? ==>
      r.value.data == Splice(circuit.data, Instruction(gate, qbits), InsertPos(circuit.data, ToSet(qbits), depth))
  {
    var newCirc := circuit.Copy();
    var numQ := circuit.numQubits;
    var ok := ValidateQubits(qbits, numQ);
    if !ok {
      return Err(ValueError("Qubits mismatch for given ciruit."));
    }
    var inserted := Instruction(gate, qbits);
    var ciPos := InsertionIndex(circuit.data, qbits, depth);
    newCirc.data := Splice(circuit.data, inserted, ciPos);
    r := Ok(newCirc);
  }

  // ---------------------------------------------------------------------------------------
  // Fidelity series
  // ---------------------------------------------------------------------------------------

  /** Per-run fidelities between the counts of run `i` of `a` and run `i` of `b`, for every run of `a`. */
  function Fidelities(a: seq<Run>, b: seq<Run>, fidelity: (Counts, Counts) -> real): seq<real>
    requires |a| <= |b|
  {
    seq(|a|, i requires 0 <= i < |a| => fidelity(a[i].counts, b[i].counts))
  }

  /** One more run extends the sum and the running totals of a fidelity series by that run's fidelity. */
  lemma SeriesStep(a: seq<Run>, b: seq<Run>, i: nat, fidelity: (Counts, Counts) -> real)
    requires i < |a| && i < |b|
    ensures Sum(Fidelities(a[..i + 1], b, fidelity))
         == Sum(Fidelities(a[..i], b, fidelity)) + fidelity(a[i].counts, b[i].counts)
    ensures PrefixSums(Fidelities(a[..i + 1], b, fidelity))
         == PrefixSums(Fidelities(a[..i], b, fidelity)) + [Sum(Fidelities(a[..i + 1], b, fidelity))]
  {
    var fs := Fidelities(a[..i], b, fidelity);
    var x := fidelity(a[i].counts, b[i].counts);
    assert Fidelities(a[..i + 1], b, fidelity) == fs + [x];
    SumSnoc(fs, x);
    PrefixSumsSnoc(fs, x);
  }

  /**
   * get_fidelity_data: the running totals of the fidelities of `meas1` against `meas2` ("C2C")
   * and against `noisyMeas` ("C2N"); IndexError when either has fewer runs than `meas1`.
   */
  method GetFidelityData(meas1: seq<Run>, meas2: seq<Run>, noisyMeas: seq<Run>, fidelity: (Counts, Counts) -> real)
    returns (r: Result<map<string, seq<real>>>)
    ensures r.Err? <==> |meas2| < |meas1| || |noisyMeas| < |meas1|
    ensures r.Err? ==> r.error == IndexError
    ensures r.Ok? ==> r.value.Keys == {"C2C", "C2N"}
    ensures r.Ok? ==> r.value["C2C"] == PrefixSums(Fidelities(meas1, meas2, fidelity))
    ensures r.Ok? ==> r.value["C2N"] == PrefixSums(Fidelities(meas1, noisyMeas, fidelity))
  {
    var data: map<string, seq<real>> := map[];
    var sumC := 0.0;
    var sumN := 0.0;
    var fidCC: seq<real> := [];
    var fidCN: seq<real> := [];
    var runs := |meas1|;
    for i := 0 to runs
      invariant i <= |meas2| && i <= |noisyMeas|
      invariant sumC == Sum(Fidelities(meas1[..i], meas2, fidelity))
      invariant fidCC == PrefixSums(Fidelities(meas1[..i], meas2, fidelity))
      invariant sumN == Sum(Fidelities(meas1[..i], noisyMeas, fidelity))
      invariant fidCN == PrefixSums(Fidelities(meas1[..i], noisyMeas, fidelity))
    {
      if i >= |meas2| {
        return Err(IndexError);
      }
      SeriesStep(meas1, meas2, i, fidelity);
      sumC := sumC + fidelity(meas1[i].counts, meas2[i].counts);
      fidCC := fidCC + [sumC];
      if i >= |noisyMeas| {
        return Err(IndexError);
      }
      SeriesStep(meas1, noisyMeas, i, fidelity);
      sumN := sumN + fidelity(meas1[i].counts, noisyMeas[i].counts);
      fidCN := fidCN + [sumN];
    }
    assert meas1[..runs] == meas1;
    data := data["C2C" := fidCC];
    data := data["C2N" := fidCN];
    r := Ok(data);
  }

  /**
   * With every fidelity in [0, 1], a fidelity series (C2C or C2N) is non-decreasing and its
   * entry `i` lies in [0, i + 1].
   */
  lemma FidelitySeriesBounds(a: seq<Run>, b: seq<Run>, fidelity: (Counts, Counts) -> real)
    requires |a| <= |b|
    requires forall x, y :: 0.0 <= fidelity(x, y) <= 1.0
    ensures |PrefixSums(Fidelities(a, b, fidelity))| == |a|
    ensures forall i, j :: 0 <= i <= j < |a| ==>
      PrefixSums(Fidelities(a, b, fidelity))[i] <= PrefixSums(Fidelities(a, b, fidelity))[j]
    ensures forall i :: 0 <= i < |a| ==> 0.0 <= PrefixSums(Fidelities(a, b, fidelity))[i] <= (i + 1) as real
  {
    var fs := Fidelities(a, b, fidelity);
    assert forall k :: 0 <= k < |fs| ==> fs[k] == fidelity(a[k].counts, b[k].counts);
    PrefixSumsNondecreasing(fs);
    PrefixSumsUnitBounds(fs);
  }

  /** A fidelity series reads only the counts of each run: the basis labels never affect it. */
  lemma FidelitySeriesIgnoresBases(a: seq<Run>, b: seq<Run>, a': seq<Run>, b': seq<Run>, fidelity: (Counts, Counts) -> real)
    requires |a| <= |b| && |a'| == |a| && |b'| == |b|
    requires forall i :: 0 <= i < |a| ==> a'[i].counts == a[i].counts
    requires forall i :: 0 <= i < |b| ==> b'[i].counts == b[i].counts
    ensures PrefixSums(Fidelities(a', b', fidelity)) == PrefixSums(Fidelities(a, b, fidelity))
  {
    assert Fidelities(a', b', fidelity) == Fidelities(a, b, fidelity);
  }
}

/**
 * entropy.py: the normalised Shannon entropy of one outcome-count dictionary, its per-basis
 * totals and its average over a measurement campaign, and the selection of the rows of
 * highest and lowest entropy at one circuit depth. The base-2 logarithm is a parameter.
 */
module Entropy {
  import opened Results
  import opened Series
  import opened Measurements

  // ---------------------------------------------------------------------------------------
  // Entropy of one run
  // ---------------------------------------------------------------------------------------

  /** `sum(counts.values())`: the number of shots. */
  function TotalShots(counts: Counts): nat
  {
    if counts == [] then 0 else TotalShots(counts[..|counts| - 1]) + counts[|counts| - 1].count
  }

  /** `[count / total_shots for count in counts.values()]`. */
  function Probabilities(counts: Counts): seq<real>
    requires TotalShots(counts) > 0
  {
    seq(|counts|, i requires 0 <= i < |counts| => counts[i].count as real / TotalShots(counts) as real)
  }

  /** The terms `p * log2(p)` of the entropy sum, with 0 in place of the terms whose probability is 0. */
  function Terms(ps: seq<real>, log2: real -> real): seq<real>
  {
    seq(|ps|, i requires 0 <= i < |ps| => if ps[i] > 0.0 then ps[i] * log2(ps[i]) else 0.0)
  }

  /** The Shannon entropy, in bits, of the distribution `ps`. */
  function RawEntropy(ps: seq<real>, log2: real -> real): real
  {
    -Sum(Terms(ps, log2))
  }

  /**
   * _calculate_entropy: the Shannon entropy of the counts divided by the length of the first
   * bitstring. IndexError on empty counts (the first-key lookup); ZeroDivisionError when no shot
   * was counted (the integer division `count / total_shots`). An empty first bitstring with at
   * least one shot divides a numpy float by 0, which yields inf or nan rather than an exception;
   * the model reports ZeroDivisionError there too.
   */
  function CalculateEntropy(counts: Counts, log2: real -> real): (r: Result<real>)
    ensures counts == [] ==> r == Err(IndexError)
    ensures counts != [] ==> (r == Err(ZeroDivisionError) <==> TotalShots(counts) == 0 || |counts[0].bits| == 0)
  {
    if counts == [] then Err(IndexError)
    else
      var numQ := |counts[0].bits|;
      var totalShots := TotalShots(counts);
      if totalShots == 0 then Err(ZeroDivisionError)
      else
        var entropy := RawEntropy(Probabilities(counts), log2);
        if numQ == 0 then Err(ZeroDivisionError) else Ok(entropy / numQ as real)
  }

  /** Dividing two addends by the same positive divisor. */
  lemma DivAdd(a: real, b: real, t: real)
    requires t > 0.0
    ensures a / t + b / t == (a + b) / t
  {
  }

  /** A positive number divided by itself. */
  lemma DivSelf(t: real)
    requires t > 0.0
    ensures t / t == 1.0
  {
  }

  /** A part of a positive whole, divided by the whole, lies in [0, 1]. */
  lemma DivUnit(c: real, t: real)
    requires 0.0 <= c <= t && t > 0.0
    ensures 0.0 <= c / t <= 1.0
  {
  }

  /** The scaled counts sum to the scaled total. */
  lemma {:induction false} SumOfShares(counts: Counts, t: real)
    requires t > 0.0
    ensures Sum(seq(|counts|, i requires 0 <= i < |counts| => counts[i].count as real / t)) == TotalShots(counts) as real / t
  {
    var s := seq(|counts|, i requires 0 <= i < |counts| => counts[i].count as real / t);
    if counts != [] {
      var n := |counts|;
      var init := counts[..n - 1];
      SumOfShares(init, t);
      assert s[..n - 1] == seq(|init|, i requires 0 <= i < |init| => init[i].count as real / t);
      DivAdd(TotalShots(init) as real, counts[n - 1].count as real, t);
    }
  }

  /** The probabilities of a run with at least one shot sum to 1. */
  lemma ProbabilitiesSumToOne(counts: Counts)
    requires TotalShots(counts) > 0
    ensures Sum(Probabilities(counts)) == 1.0
  {
    var t := TotalShots(counts) as real;
    assert Probabilities(counts) == seq(|counts|, i requires 0 <= i < |counts| => counts[i].count as real / t);
    SumOfShares(counts, t);
    DivSelf(t);
  }

  /** No single count exceeds the total. */
  lemma {:induction false} CountAtMostTotal(counts: Counts, i: nat)
    requires i < |counts|
    ensures counts[i].count <= TotalShots(counts)
  {
    if i < |counts| - 1 {
      CountAtMostTotal(counts[..|counts| - 1], i);
    }
  }

  /** Every probability lies in [0, 1]. */
  lemma ProbabilitiesInUnitRange(counts: Counts)
    requires TotalShots(counts) > 0
    ensures forall i :: 0 <= i < |counts| ==> 0.0 <= Probabilities(counts)[i] <= 1.0
  {
    forall i | 0 <= i < |counts|
      ensures 0.0 <= Probabilities(counts)[i] <= 1.0
    {
      CountAtMostTotal(counts, i);
      DivUnit(counts[i].count as real, TotalShots(counts) as real);
    }
  }

  /** An outcome counted zero times, added after the first entry, leaves the entropy unchanged. */
  lemma ZeroCountIgnored(counts: Counts, bits: string, log2: real -> real)
    requires counts != []
    ensures CalculateEntropy(counts + [Outcome(bits, 0)], log2) == CalculateEntropy(counts, log2)
  {
    var counts' := counts + [Outcome(bits, 0)];
    assert counts'[..|counts'| - 1] == counts;
    if TotalShots(counts) > 0 {
      var ps, ps' := Probabilities(counts), Probabilities(counts');
      assert ps' == ps + [0.0];
      var ts, ts' := Terms(ps, log2), Terms(ps', log2);
      forall i | 0 <= i < |ts'|
        ensures ts'[i] == (ts + [0.0])[i]
      {
        if i < |ts| { assert ps'[i] == ps[i]; }
      }
      assert ts' == ts + [0.0];
      assert ts'[..|ts'| - 1] == ts;
    }
  }

  /** A run whose shots all gave one outcome has entropy 0, when log2(1) = 0. */
  lemma DeterministicOutcome(bits: string, shots: nat, log2: real -> real)
    requires shots > 0 && |bits| > 0
    requires log2(1.0) == 0.0
    ensures CalculateEntropy([Outcome(bits, shots)], log2) == Ok(0.0)
  {
    var counts := [Outcome(bits, shots)];
    assert counts[..0] == [];
    assert TotalShots(counts) == shots;
    assert shots as real / shots as real == 1.0;
    var ps := Probabilities(counts);
    assert ps == [1.0];
    var ts := Terms(ps, log2);
    assert ts == [0.0] && ts[..0] == [];
    assert Sum(ts) == 0.0;
    assert RawEntropy(ps, log2) == 0.0;
    assert CalculateEntropy(counts, log2) == Ok(RawEntropy(ps, log2) / |bits| as real);
  }

  /** Two equally frequent outcomes carry one bit, divided by the bitstring length (log2(1/2) = -1). */
  lemma TwoEqualOutcomes(bits0: string, bits1: string, shots: nat, log2: real -> real)
    requires shots > 0 && |bits0| > 0
    requires log2(0.5) == -1.0
    ensures CalculateEntropy([Outcome(bits0, shots), Outcome(bits1, shots)], log2) == Ok(1.0 / |bits0| as real)
  {
    var counts := [Outcome(bits0, shots), Outcome(bits1, shots)];
    assert counts[..1] == [Outcome(bits0, shots)] && counts[..1][..0] == [];
    assert TotalShots(counts[..1]) == shots;
    assert TotalShots(counts) == 2 * shots;
    var ps := Probabilities(counts);
    assert shots as real / (2 * shots) as real == 0.5;
    assert ps == [0.5, 0.5];
    var ts := Terms(ps, log2);
    assert ts == [-0.5, -0.5] && ts[..1] == [-0.5] && ts[..1][..0] == [];
    assert Sum(ts[..1]) == -0.5;
    assert Sum(ts) == -1.0;
    assert RawEntropy(ps, log2) == 1.0;
    assert CalculateEntropy(counts, log2) == Ok(RawEntropy(ps, log2) / |bits0| as real);
  }

  // ---------------------------------------------------------------------------------------
  // Entropy of a campaign
  // ---------------------------------------------------------------------------------------

  /** The per-run entropies of a campaign, in run order, or the error of the first run that fails. */
  function Entropies(meas: seq<Run>, log2: real -> real): (r: Result<seq<real>>)
    ensures r.Ok? ==> |r.value| == |meas|
  {
    if meas == [] then Ok([])
    else
      match Entropies(meas[..|meas| - 1], log2)
      case Err(e) => Err(e)
      case Ok(es) =>
        match CalculateEntropy(meas[|meas| - 1].counts, log2)
        case Err(e) => Err(e)
        case Ok(h) => Ok(es + [h])
  }

  /** The campaign's entropies exist exactly when every run's does, and then entry `i` is run `i`'s. */
  lemma {:induction false} EntropiesAt(meas: seq<Run>, log2: real -> real)
    ensures Entropies(meas, log2).Ok? <==> forall i :: 0 <= i < |meas| ==> CalculateEntropy(meas[i].counts, log2).Ok?
    ensures Entropies(meas, log2).Ok? ==>
      forall i :: 0 <= i < |meas| ==> Entropies(meas, log2).value[i] == CalculateEntropy(meas[i].counts, log2).value
  {
    if meas != [] {
      var init := meas[..|meas| - 1];
      EntropiesAt(init, log2);
      assert forall i :: 0 <= i < |init| ==> init[i] == meas[i];
    }
  }

  /** When a run fails, its error is the campaign's error as soon as every earlier run succeeded. */
  lemma {:induction false} EntropiesFirstError(meas: seq<Run>, k: nat, log2: real -> real)
    requires k < |meas|
    requires forall j :: 0 <= j < k ==> CalculateEntropy(meas[j].counts, log2).Ok?
    requires CalculateEntropy(meas[k].counts, log2).Err?
    ensures Entropies(meas, log2) == Err(CalculateEntropy(meas[k].counts, log2).error)
  {
    var init := meas[..|meas| - 1];
    if k < |meas| - 1 {
      EntropiesFirstError(init, k, log2);
    } else {
      EntropiesAt(init, log2);
    }
  }

  /** An error in a prefix of the campaign is the error of the whole campaign. */
  lemma {:induction false} EntropiesErrorPersists(meas: seq<Run>, k: nat, log2: real -> real)
    requires k <= |meas|
    requires Entropies(meas[..k], log2).Err?
    ensures Entropies(meas, log2) == Entropies(meas[..k], log2)
    decreases |meas| - k
  {
    if k < |meas| {
      var init := meas[..|meas| - 1];
      assert init[..k] == meas[..k];
      EntropiesErrorPersists(init, k, log2);
    } else {
      assert meas[..k] == meas;
    }
  }

  /** The labels that occur in a campaign. */
  function Labels(meas: seq<Run>): set<string>
  {
    set run | run in meas :: run.basis
  }

  /** The sum of the entropies `es` of the runs of `meas` labelled `basis`, in run order. */
  function LabelSum(meas: seq<Run>, es: seq<real>, basis: string): real
    requires |es| == |meas|
  {
    if meas == [] then 0.0
    else
      var n := |meas|;
      LabelSum(meas[..n - 1], es[..n - 1], basis) + (if meas[n - 1].basis == basis then es[n - 1] else 0.0)
  }

  /** A label that occurs in no run sums to 0. */
  lemma {:induction false} LabelSumAbsent(meas: seq<Run>, es: seq<real>, basis: string)
    requires |es| == |meas|
    requires basis !in Labels(meas)
    ensures LabelSum(meas, es, basis) == 0.0
  {
    if meas != [] {
      var n := |meas|;
      assert Labels(meas[..n - 1]) <= Labels(meas) by {
        forall run | run in meas[..n - 1] ensures run in meas { }
      }
      assert meas[n - 1] in meas;
      LabelSumAbsent(meas[..n - 1], es[..n - 1], basis);
    }
  }

  /** The labels of a campaign with one more run. */
  lemma LabelsSnoc(meas: seq<Run>, run: Run)
    ensures Labels(meas + [run]) == Labels(meas) + {run.basis}
  {
    forall r | r in meas + [run] ensures r in meas || r == run { }
  }

  /** One more run adds its entropy to the total of its own label and leaves the other labels' totals alone. */
  lemma LabelSumSnoc(meas: seq<Run>, es: seq<real>, run: Run, e: real, basis: string)
    requires |es| == |meas|
    ensures LabelSum(meas + [run], es + [e], basis) == LabelSum(meas, es, basis) + (if run.basis == basis then e else 0.0)
  {
    assert (meas + [run])[..|meas|] == meas && (es + [e])[..|es|] == es;
  }

  /** One more successful run appends its entropy to the campaign's entropies. */
  lemma EntropiesSnoc(meas: seq<Run>, k: nat, es: seq<real>, e: real, log2: real -> real)
    requires k < |meas|
    requires Entropies(meas[..k], log2) == Ok(es)
    requires CalculateEntropy(meas[k].counts, log2) == Ok(e)
    ensures Entropies(meas[..k + 1], log2) == Ok(es + [e])
  {
    assert meas[..k + 1][..k] == meas[..k];
  }

  /** A run that fails after successful runs makes the whole campaign fail with its error. */
  lemma EntropiesStopAt(meas: seq<Run>, k: nat, es: seq<real>, log2: real -> real)
    requires k < |meas|
    requires Entropies(meas[..k], log2) == Ok(es)
    requires CalculateEntropy(meas[k].counts, log2).Err?
    ensures Entropies(meas, log2) == Err(CalculateEntropy(meas[k].counts, log2).error)
  {
    assert meas[..k + 1][..k] == meas[..k];
    EntropiesErrorPersists(meas, k + 1, log2);
  }

  /** get_entropy_list's dictionary update keeps it equal to the per-label totals of the runs seen so far. */
  lemma GroupStep(meas: seq<Run>, i: nat, es: seq<real>, e: real, m: map<string, real>, m': map<string, real>)
    requires i < |meas| && |es| == i
    requires m.Keys == Labels(meas[..i])
    requires forall b :: b in m ==> m[b] == LabelSum(meas[..i], es, b)
    requires m' == if meas[i].basis in m then m[meas[i].basis := m[meas[i].basis] + e] else m[meas[i].basis := e]
    ensures m'.Keys == Labels(meas[..i + 1])
    ensures forall b :: b in m' ==> m'[b] == LabelSum(meas[..i + 1], es + [e], b)
  {
    var done, run := meas[..i], meas[i];
    assert meas[..i + 1] == done + [run];
    LabelsSnoc(done, run);
    if run.basis !in m {
      LabelSumAbsent(done, es, run.basis);
    }
    forall b | b in m'
      ensures m'[b] == LabelSum(done + [run], es + [e], b)
    {
      LabelSumSnoc(done, es, run, e, b);
    }
  }

  /** The key order grows by the next run's label exactly when that label has not occurred yet. */
  lemma KeysStep(meas: seq<Run>, i: nat, keys: seq<string>, m: map<string, real>)
    requires i < |meas|
    requires keys == DistinctLabels(meas[..i]) && m.Keys == Labels(meas[..i])
    ensures DistinctLabels(meas[..i + 1]) == if meas[i].basis in m then keys else keys + [meas[i].basis]
  {
    DistinctLabelsOrder(meas[..i]);
    assert meas[..i + 1][..i] == meas[..i];
  }

  /**
   * get_entropy_list: a dictionary from each basis label of the campaign to the sum of the
   * entropies of its runs; the error of the first run whose entropy fails. `keys` is the
   * dictionary's insertion order: a label is appended when it is first added to the dictionary.
   */
  method GetEntropyList(meas: seq<Run>, log2: real -> real) returns (r: Result<map<string, real>>, keys: seq<string>)
    ensures r.Ok? <==> Entropies(meas, log2).Ok?
    ensures r.Err? ==> r.error == Entropies(meas, log2).error
    ensures r.Ok? ==> r.value.Keys == Labels(meas)
    ensures r.Ok? ==> forall b :: b in r.value ==> r.value[b] == LabelSum(meas, Entropies(meas, log2).value, b)
    ensures r.Ok? ==> keys == DistinctLabels(meas)
  {
    var entropyList: map<string, real> := map[];
    keys := [];
    ghost var es: seq<real> := [];
    var runs := |meas|;
    for i := 0 to runs
      invariant Entropies(meas[..i], log2) == Ok(es)
      invariant entropyList.Keys == Labels(meas[..i])
      invariant forall b :: b in entropyList ==> entropyList[b] == LabelSum(meas[..i], es, b)
      invariant keys == DistinctLabels(meas[..i])
    {
      var entropy := CalculateEntropy(meas[i].counts, log2);
      if entropy.Err? {
        EntropiesStopAt(meas, i, es, log2);
        return Err(entropy.error), keys;
      }
      var basis := meas[i].basis;
      ghost var before := entropyList;
      KeysStep(meas, i, keys, entropyList);
      if basis in entropyList {
        entropyList := entropyList[basis := entropyList[basis] + entropy.value];
        GroupStep(meas, i, es, entropy.value, before, entropyList);
      } else {
        entropyList := entropyList[basis := entropy.value];
        GroupStep(meas, i, es, entropy.value, before, entropyList);
        keys := keys + [basis];
      }
      EntropiesSnoc(meas, i, es, entropy.value, log2);
      es := es + [entropy.value];
    }
    assert meas[..runs] == meas;
    r := Ok(entropyList);
  }

  /** The position of the first run labelled `basis`. */
  function FirstIndex(meas: seq<Run>, basis: string): (k: nat)
    requires basis in Labels(meas)
    ensures k < |meas| && meas[k].basis == basis
    ensures forall k' :: 0 <= k' < k ==> meas[k'].basis != basis
  {
    var n := |meas|;
    var init := meas[..n - 1];
    LabelsSnoc(init, meas[n - 1]);
    assert init + [meas[n - 1]] == meas;
    if basis in Labels(init) then FirstIndex(init, basis)
    else
      assert forall k' :: 0 <= k' < n - 1 ==> meas[k'].basis != basis by {
        forall k' | 0 <= k' < n - 1 ensures meas[k'].basis != basis {
          assert meas[k'] in init;
        }
      }
      n - 1
  }

  /**
   * The distinct labels of a campaign in order of first occurrence: the key order of
   * get_entropy_list's dictionary, which inserts a label when its first run is met.
   */
  function DistinctLabels(meas: seq<Run>): seq<string>
  {
    if meas == [] then []
    else
      var ls := DistinctLabels(meas[..|meas| - 1]);
      if meas[|meas| - 1].basis in ls then ls else ls + [meas[|meas| - 1].basis]
  }

  /** The distinct labels are exactly the campaign's labels, each once, listed in order of their first runs. */
  lemma {:induction false} DistinctLabelsOrder(meas: seq<Run>)
    ensures forall b :: b in DistinctLabels(meas) <==> b in Labels(meas)
    ensures forall i, j :: 0 <= i < j < |DistinctLabels(meas)| ==> DistinctLabels(meas)[i] != DistinctLabels(meas)[j]
    ensures forall i, j :: 0 <= i < j < |DistinctLabels(meas)| ==>
      FirstIndex(meas, DistinctLabels(meas)[i]) < FirstIndex(meas, DistinctLabels(meas)[j])
  {
    if meas != [] {
      var n := |meas|;
      var init := meas[..n - 1];
      DistinctLabelsOrder(init);
      LabelsSnoc(init, meas[n - 1]);
      assert init + [meas[n - 1]] == meas;
      var ls := DistinctLabels(init);
      forall i | 0 <= i < |ls| ensures FirstIndex(meas, ls[i]) == FirstIndex(init, ls[i]) { }
    }
  }

  /** The sum, over the labels `ls`, of the per-label totals. */
  function GroupTotal(ls: seq<string>, meas: seq<Run>, es: seq<real>): real
    requires |es| == |meas|
  {
    if ls == [] then 0.0 else LabelSum(meas, es, ls[0]) + GroupTotal(ls[1..], meas, es)
  }

  /** Over an empty campaign every label totals 0. */
  lemma {:induction false} GroupTotalEmpty(ls: seq<string>)
    ensures GroupTotal(ls, [], []) == 0.0
  {
    if ls != [] {
      GroupTotalEmpty(ls[1..]);
    }
  }

  /** One more run adds its entropy to the group total of distinct labels that include its label. */
  lemma {:induction false} GroupTotalSnoc(ls: seq<string>, meas: seq<Run>, es: seq<real>, run: Run, e: real)
    requires |es| == |meas|
    requires forall i, j :: 0 <= i < j < |ls| ==> ls[i] != ls[j]
    ensures GroupTotal(ls, meas + [run], es + [e]) == GroupTotal(ls, meas, es) + (if run.basis in ls then e else 0.0)
  {
    var meas', es' := meas + [run], es + [e];
    assert meas'[..|meas'| - 1] == meas && es'[..|es'| - 1] == es;
    if ls != [] {
      GroupTotalSnoc(ls[1..], meas, es, run, e);
      assert run.basis in ls <==> run.basis == ls[0] || run.basis in ls[1..];
    }
  }

  /** Summed over distinct labels covering the campaign, the per-label totals give the total entropy. */
  lemma {:induction false} GroupTotalCovers(ls: seq<string>, meas: seq<Run>, es: seq<real>)
    requires |es| == |meas|
    requires forall i, j :: 0 <= i < j < |ls| ==> ls[i] != ls[j]
    requires forall b :: b in Labels(meas) ==> b in ls
    ensures GroupTotal(ls, meas, es) == Sum(es)
  {
    if meas == [] {
      GroupTotalEmpty(ls);
    } else {
      var n := |meas|;
      LabelsSnoc(meas[..n - 1], meas[n - 1]);
      assert meas[..n - 1] + [meas[n - 1]] == meas && es[..n - 1] + [es[n - 1]] == es;
      GroupTotalCovers(ls, meas[..n - 1], es[..n - 1]);
      GroupTotalSnoc(ls, meas[..n - 1], es[..n - 1], meas[n - 1], es[n - 1]);
    }
  }

  /** The values of get_entropy_list's dictionary, in its key order, total the sum of all per-run entropies. */
  lemma EntropyListTotal(meas: seq<Run>, es: seq<real>)
    requires |es| == |meas|
    ensures GroupTotal(DistinctLabels(meas), meas, es) == Sum(es)
  {
    DistinctLabelsOrder(meas);
    GroupTotalCovers(DistinctLabels(meas), meas, es);
  }

  /**
   * get_average_entropy: the mean of the per-run entropies; the error of the first failing run,
   * or ZeroDivisionError on an empty campaign.
   */
  method GetAverageEntropy(meas: seq<Run>, log2: real -> real) returns (r: Result<real>)
    ensures Entropies(meas, log2).Err? ==> r == Err(Entropies(meas, log2).error)
    ensures Entropies(meas, log2).Ok? && |meas| == 0 ==> r == Err(ZeroDivisionError)
    ensures Entropies(meas, log2).Ok? && |meas| > 0 ==> r == Ok(Mean(Entropies(meas, log2).value))
  {
    var avgEntropy := 0.0;
    ghost var es: seq<real> := [];
    var runs := |meas|;
    for i := 0 to runs
      invariant Entropies(meas[..i], log2) == Ok(es)
      invariant avgEntropy == Sum(es)
    {
      var entropy := CalculateEntropy(meas[i].counts, log2);
      if entropy.Err? {
        EntropiesStopAt(meas, i, es, log2);
        return Err(entropy.error);
      }
      EntropiesSnoc(meas, i, es, entropy.value, log2);
      SumSnoc(es, entropy.value);
      avgEntropy := avgEntropy + entropy.value;
      es := es + [entropy.value];
    }
    assert meas[..runs] == meas;
    if runs == 0 {
      return Err(ZeroDivisionError);
    }
    r := Ok(avgEntropy / runs as real);
  }

  /** When every run has entropy e, so does every entry of the campaign's entropies. */
  lemma {:induction false} EntropiesOfEqualRuns(meas: seq<Run>, e: real, log2: real -> real)
    requires forall i :: 0 <= i < |meas| ==> CalculateEntropy(meas[i].counts, log2) == Ok(e)
    ensures Entropies(meas, log2).Ok?
    ensures forall k :: 0 <= k < |meas| ==> Entropies(meas, log2).value[k] == e
  {
    EntropiesAt(meas, log2);
  }

  /** n runs of equal entropy e average to e. */
  lemma {:induction false} AverageOfEqualRuns(meas: seq<Run>, e: real, log2: real -> real)
    requires |meas| > 0
    requires forall i :: 0 <= i < |meas| ==> CalculateEntropy(meas[i].counts, log2) == Ok(e)
    ensures Entropies(meas, log2).Ok? && Mean(Entropies(meas, log2).value) == e
  {
    EntropiesOfEqualRuns(meas, e, log2);
    MeanOfConstant(Entropies(meas, log2).value, e);
  }

  // ---------------------------------------------------------------------------------------
  // Extreme entropies at one depth
  // ---------------------------------------------------------------------------------------

  /** A row of the results table: the circuit depth, its entropy, and the remaining columns, kept opaque. */
  datatype Row = Row(depth: int, entropy: real, others: string)

  /** `data[data["depth"] == depth]`: the rows at `depth`, in table order. */
  function FilterDepth(data: seq<Row>, depth: int): (f: seq<Row>)
    ensures |f| <= |data|
    ensures forall row :: row in f <==> row in data && row.depth == depth
  {
    if data == [] then []
    else
      var init := data[..|data| - 1];
      var last := data[|data| - 1];
      assert data == init + [last];
      FilterDepth(init, depth) + (if last.depth == depth then [last] else [])
  }

  /** Filtering keeps the table order: the rows of a concatenation are the rows of each part, in turn. */
  lemma {:induction false} FilterDepthAppend(a: seq<Row>, b: seq<Row>, depth: int)
    ensures FilterDepth(a + b, depth) == FilterDepth(a, depth) + FilterDepth(b, depth)
  {
    if b != [] {
      var n := |b|;
      assert (a + b)[..|a + b| - 1] == a + b[..n - 1];
      FilterDepthAppend(a, b[..n - 1], depth);
    } else {
      assert a + b == a;
    }
  }

  /** `idxmax`: the position of the first row of greatest entropy. */
  function ArgMax(rows: seq<Row>): (k: nat)
    requires rows != []
    ensures k < |rows|
    ensures forall j :: 0 <= j < |rows| ==> rows[j].entropy <= rows[k].entropy
    ensures forall j :: 0 <= j < k ==> rows[j].entropy < rows[k].entropy
  {
    if |rows| == 1 then 0
    else
      var m := ArgMax(rows[..|rows| - 1]);
      if rows[|rows| - 1].entropy > rows[m].entropy then |rows| - 1 else m
  }

  /** `idxmin`: the position of the first row of least entropy. */
  function ArgMin(rows: seq<Row>): (k: nat)
    requires rows != []
    ensures k < |rows|
    ensures forall j :: 0 <= j < |rows| ==> rows[k].entropy <= rows[j].entropy
    ensures forall j :: 0 <= j < k ==> rows[k].entropy < rows[j].entropy
  {
    if |rows| == 1 then 0
    else
      var m := ArgMin(rows[..|rows| - 1]);
      if rows[|rows| - 1].entropy < rows[m].entropy then |rows| - 1 else m
  }

  /**
   * get_extreme_entropy_data: the first row of highest and the first row of lowest entropy among
   * the rows at `depth`; ValueError when there is none.
   */
  function ExtremeEntropyData(data: seq<Row>, depth: int): (r: Result<(Row, Row)>)
    ensures r.Err? <==> forall row :: row in data ==> row.depth != depth
    ensures r.Err? ==> r.error == ValueError("No circuits found for this depth.")
    ensures r.Ok? ==> r.value.0 in data && r.value.0.depth == depth && r.value.1 in data && r.value.1.depth == depth
    ensures r.Ok? ==> forall row :: row in data && row.depth == depth ==>
      r.value.1.entropy <= row.entropy <= r.value.0.entropy
    ensures r.Ok? ==>
      exists k :: 0 <= k < |FilterDepth(data, depth)| && FilterDepth(data, depth)[k] == r.value.0 &&
        forall j :: 0 <= j < k ==> FilterDepth(data, depth)[j].entropy < r.value.0.entropy
    ensures r.Ok? ==>
      exists k :: 0 <= k < |FilterDepth(data, depth)| && FilterDepth(data, depth)[k] == r.value.1 &&
        forall j :: 0 <= j < k ==> r.value.1.entropy < FilterDepth(data, depth)[j].entropy
  {
    var filtered := FilterDepth(data, depth);
    if filtered == [] then
      Err(ValueError("No circuits found for this depth."))
    else
      var hi := ArgMax(filtered);
      var lo := ArgMin(filtered);
      assert filtered[hi] in filtered && filtered[lo] in filtered;
      assert forall row :: row in data && row.depth == depth ==> exists j :: 0 <= j < |filtered| && filtered[j] == row;
      Ok((filtered[hi], filtered[lo]))
  }
}

/**
 * Chamber success probability with correlated error (voter_power.py,
 * chamber_success_prob).
 *
 * Every source of correlated error contributes a list of quadrature nodes
 * (a shift and its weight, the t density at that shift).  All combinations
 * of one node per source are enumerated; each shifts every race's margin by
 * the race's sensitivities, and the independent-race success probability
 * at those margins is averaged with the product of the node weights.
 */
module CorrelatedError {
  import opened Wrappers
  import opened Errors
  import opened RealArith
  import opened WinProbability
  import opened SeatDistribution
  import opened ChamberOutcome

  /** One quadrature node of a source of correlated error. */
  datatype Node = Node(point: real, weight: real)

  /** Everything chamber_success_prob receives besides the error sources:
      one row per race holding its margin followed by its sensitivity to
      each source, the first row of chamber 2, and per-chamber thresholds
      and ties. */
  datatype StateParams = StateParams(
    rows: seq<seq<real>>,
    chamber2: nat,
    threshold1: Threshold, threshold2: Threshold,
    tie1: real, tie2: real,
    bothBad: bool, neitherBad: bool)

  predicate PositiveWeights(sources: seq<seq<Node>>) {
    forall j, k :: 0 <= j < |sources| && 0 <= k < |sources[j]| ==> sources[j][k].weight > 0.0
  }

  /** Every node of a combination has a positive weight. */
  predicate PositiveCombo(c: seq<Node>) {
    forall k :: 0 <= k < |c| ==> c[k].weight > 0.0
  }

  function Prepend(n: Node, rests: seq<seq<Node>>): (r: seq<seq<Node>>)
    ensures |r| == |rests|
  {
    seq(|rests|, i requires 0 <= i < |rests| => [n] + rests[i])
  }

  function ProductWith(ns: seq<Node>, rests: seq<seq<Node>>): (r: seq<seq<Node>>)
  {
    if ns == [] then [] else Prepend(ns[0], rests) + ProductWith(ns[1..], rests)
  }

  /** itertools.product over the sources' node lists, in its lexicographic order. */
  function Combos(sources: seq<seq<Node>>): (cs: seq<seq<Node>>)
    ensures |cs| == NodeCountProduct(sources)
    ensures forall i :: 0 <= i < |cs| ==> |cs[i]| == |sources|
  {
    if sources == [] then [[]]
    else
      ProductWithShape(sources[0], Combos(sources[1..]), |sources| - 1);
      ProductWith(sources[0], Combos(sources[1..]))
  }

  /** np.prod of the weights of a combination. */
  function ComboWeight(c: seq<Node>): real {
    if c == [] then 1.0 else c[0].weight * ComboWeight(c[1..])
  }

  /** The shift vector of a combination. */
  function Points(c: seq<Node>): (v: seq<real>)
    ensures |v| == |c|
  {
    seq(|c|, k requires 0 <= k < |c| => c[k].point)
  }

  function Weights(cs: seq<seq<Node>>): seq<real> {
    seq(|cs|, i requires 0 <= i < |cs| => ComboWeight(cs[i]))
  }

  function TotalWeight(cs: seq<seq<Node>>): real {
    Sum(Weights(cs))
  }

  function WeightSum(ns: seq<Node>): real {
    if ns == [] then 0.0 else ns[0].weight + WeightSum(ns[1..])
  }

  /** Product over the sources of the sum of their node weights. */
  function WeightProduct(sources: seq<seq<Node>>): real {
    if sources == [] then 1.0 else WeightSum(sources[0]) * WeightProduct(sources[1..])
  }

  /** Row times vector. */
  function Dot(row: seq<real>, v: seq<real>): real
    requires |row| == |v|
  {
    if row == [] then 0.0 else row[0] * v[0] + Dot(row[1..], v[1..])
  }

  /** The race margins after shifting by `shift`: parameter_weights.dot([1] + shift). */
  function ShiftedMargins(rows: seq<seq<real>>, shift: seq<real>): (m: seq<real>)
    requires forall i :: 0 <= i < |rows| ==> |rows[i]| == |shift| + 1
    ensures |m| == |rows|
  {
    seq(|rows|, i requires 0 <= i < |rows| => Dot(rows[i], [1.0] + shift))
  }

  /** Python slicing clamps the chamber boundary to the number of races. */
  function Boundary(c2: nat, len: nat): (b: nat)
    ensures b <= len
    ensures c2 <= len ==> b == c2
  {
    if c2 <= len then c2 else len
  }

  /** The independent success probability at one combination of shifts;
      ValueError when a row does not have one entry per source plus the margin. */
  function SuccessAt(s: StateParams, model: RaceModel, combo: seq<Node>): (r: Result<real, Error>)
    requires Usable(model)
    ensures r == Err(ShapeMismatch) <==> exists i :: 0 <= i < |s.rows| && |s.rows[i]| != |combo| + 1
    ensures r.Err? ==> r.error == ShapeMismatch || r.error == ThresholdNotBelowSeats
    ensures r.Ok? && Calibrated(model) && 0.0 <= s.tie1 <= 1.0 && 0.0 <= s.tie2 <= 1.0 ==> 0.0 <= r.value <= 1.0
  {
    if exists i :: 0 <= i < |s.rows| && |s.rows[i]| != |combo| + 1 then Err(ShapeMismatch)
    else
      var m := ShiftedMargins(s.rows, Points(combo));
      var c := Boundary(s.chamber2, |m|);
      var r := SuccessIndependence(ChamberParams(m[..c], s.threshold1, s.tie1),
                                   ChamberParams(m[c..], s.threshold2, s.tie2),
                                   model, s.bothBad, s.neitherBad);
      assert r.Err? ==> r.error == ThresholdNotBelowSeats;
      r
  }

  /** The success at every combination, in order. */
  function Successes(s: StateParams, model: RaceModel, combos: seq<seq<Node>>): (rs: seq<Result<real, Error>>)
    requires Usable(model)
    ensures |rs| == |combos|
  {
    seq(|combos|, i requires 0 <= i < |combos| => SuccessAt(s, model, combos[i]))
  }

  /** The sum of the results weighted by `ws`, or the first error: it
      succeeds exactly when every result does, and otherwise fails with the
      error of the first failing result. */
  function Accumulate(results: seq<Result<real, Error>>, ws: seq<real>): (r: Result<real, Error>)
    requires |ws| == |results|
    ensures r.Ok? <==> forall i :: 0 <= i < |results| ==> results[i].Ok?
    ensures r.Err? ==> exists k ::
      (0 <= k < |results| && results[k] == Err(r.error) && forall m :: 0 <= m < k ==> results[m].Ok?)
    decreases |results|
  {
    if results == [] then Ok(0.0)
    else
      var n := |results| - 1;
      assert forall i :: 0 <= i < n ==> results[..n][i] == results[i];
      match Accumulate(results[..n], ws[..n])
      case Err(e) =>
        (ghost var k :| 0 <= k < n && results[..n][k] == Err(e) && forall m :: 0 <= m < k ==> results[..n][m].Ok?;
         assert results[k] == Err(e);
         Err(e))
      case Ok(w) =>
        match results[n]
        case Err(e) => Err(e)
        case Ok(p) => Ok(w + Weigh(ws[n], p))
  }

  /** One combination's weighted contribution. */
  function Weigh(weight: real, p: real): real {
    weight * p
  }

  /** chamber_success_prob: AssertionError without a source of correlated
      error, the first error met while integrating, ZeroTotalWeight where
      the source divides 0 by 0 (its NaN), and otherwise the weighted
      average. */
  function ChamberSuccessProbability(s: StateParams, sources: seq<seq<Node>>, model: RaceModel): (r: Result<real, Error>)
    requires Usable(model)
    ensures |sources| == 0 <==> r == Err(NoCorrelatedError)
  {
    if |sources| == 0 then Err(NoCorrelatedError)
    else
      var combos := Combos(sources);
      var ws := Weights(combos);
      var results := Successes(s, model, combos);
      IntegrationErrorKinds(s, model, combos, ws);
      match Accumulate(results, ws)
      case Err(e) => Err(e)
      case Ok(w) =>
        var total := Sum(ws);
        if total == 0.0 then Err(ZeroTotalWeight) else Ok(w / total)
  }

  /** Integration fails only with an error of a combination, never with the
      missing-source error. */
  lemma IntegrationErrorKinds(s: StateParams, model: RaceModel, combos: seq<seq<Node>>, ws: seq<real>)
    requires Usable(model) && |ws| == |combos|
    ensures var r := Accumulate(Successes(s, model, combos), ws);
      r.Err? ==> r.error != NoCorrelatedError
  {
    var results := Successes(s, model, combos);
    var r := Accumulate(results, ws);
    if r.Err? {
      var k :| 0 <= k < |results| && results[k] == Err(r.error);
      assert results[k] == SuccessAt(s, model, combos[k]);
    }
  }

  /** One more step of the accumulation. */
  lemma AccumulateStep(results: seq<Result<real, Error>>, ws: seq<real>, k: nat)
    requires |ws| == |results| && k < |results|
    ensures var before := Accumulate(results[..k], ws[..k]);
      var after := Accumulate(results[..k + 1], ws[..k + 1]);
      && (before.Err? ==> after == before)
      && (before.Ok? && results[k].Err? ==> after == results[k])
      && (before.Ok? && results[k].Ok? ==> after == Ok(before.value + Weigh(ws[k], results[k].value)))
  {
    assert results[..k + 1][..k] == results[..k];
    assert ws[..k + 1][..k] == ws[..k];
  }

  /** Once the integration has failed, later combinations do not change the error. */
  lemma {:induction false} ErrorPersists(results: seq<Result<real, Error>>, ws: seq<real>, k: nat)
    requires |ws| == |results| && k <= |results|
    requires Accumulate(results[..k], ws[..k]).Err?
    ensures Accumulate(results, ws) == Accumulate(results[..k], ws[..k])
    decreases |results| - k
  {
    if k < |results| {
      assert results[..k + 1][..k] == results[..k];
      assert ws[..k + 1][..k] == ws[..k];
      ErrorPersists(results, ws, k + 1);
    } else {
      assert results[..k] == results;
      assert ws[..k] == ws;
    }
  }

  /** chamber_success_prob, accumulating over the combinations of shifts. */
  method ChamberSuccessProb(s: StateParams, sources: seq<seq<Node>>, model: RaceModel) returns (r: Result<real, Error>)
    requires Usable(model)
    ensures r == ChamberSuccessProbability(s, sources, model)
  {
    var n := |sources|;
    if n == 0 {
      return Err(NoCorrelatedError);
    }
    var allShifts := Combos(sources);
    var allWeights := Weights(allShifts);
    var totalWeight := Sum(allWeights);
    var successWeight := WeightedSuccess(s, model, allShifts, allWeights);
    if successWeight.Err? {
      return Err(successWeight.error);
    }
    if totalWeight == 0.0 {
      return Err(ZeroTotalWeight);
    }
    return Ok(successWeight.value / totalWeight);
  }

  /** The loop of chamber_success_prob: the weighted sum of the successes
      over the combinations, stopping at the first error. */
  method WeightedSuccess(s: StateParams, model: RaceModel, allShifts: seq<seq<Node>>, allWeights: seq<real>)
    returns (r: Result<real, Error>)
    requires Usable(model) && |allWeights| == |allShifts|
    ensures r == Accumulate(Successes(s, model, allShifts), allWeights)
  {
    ghost var results := Successes(s, model, allShifts);
    var successWeight := 0.0;
    for ix := 0 to |allShifts|
      invariant Accumulate(results[..ix], allWeights[..ix]).Ok?
      invariant Accumulate(results[..ix], allWeights[..ix]).value == successWeight
    {
      AccumulateStep(results, allWeights, ix);
      var success := SuccessAtShift(s, model, allShifts[ix]);
      assert success == results[ix];
      if success.Err? {
        ErrorPersists(results, allWeights, ix + 1);
        return Err(success.error);
      }
      successWeight := successWeight + Weigh(allWeights[ix], success.value);
    }
    assert results[..|results|] == results;
    assert allWeights[..|allWeights|] == allWeights;
    return Ok(successWeight);
  }

  /** One pass of the loop: the margins shifted by one combination of
      nodes (ValueError when the shapes disagree) and the independent
      success probability at them. */
  method SuccessAtShift(s: StateParams, model: RaceModel, shift: seq<Node>) returns (success: Result<real, Error>)
    requires Usable(model)
    ensures success == SuccessAt(s, model, shift)
  {
    if exists i :: 0 <= i < |s.rows| && |s.rows[i]| != |shift| + 1 {
      return Err(ShapeMismatch);
    }
    var margins := ShiftedMargins(s.rows, Points(shift));
    var c := Boundary(s.chamber2, |margins|);
    success := SuccessProbIndependence(ChamberParams(margins[..c], s.threshold1, s.tie1),
                                       ChamberParams(margins[c..], s.threshold2, s.tie2),
                                       model, s.bothBad, s.neitherBad);
  }

  // ---------------------------------------------------------------------
  // When the integration fails

  /** Every row has one sensitivity per source besides its margin, and each
      chamber's seat threshold is within its number of races. */
  predicate Fits(s: StateParams, width: nat) {
    && (forall i :: 0 <= i < |s.rows| ==> |s.rows[i]| == width + 1)
    && (s.threshold1.Seats? ==> s.threshold1.n <= Boundary(s.chamber2, |s.rows|))
    && (s.threshold2.Seats? ==> s.threshold2.n <= |s.rows| - Boundary(s.chamber2, |s.rows|))
  }

  /** A source list the integration can average over: at least one source
      and a non-zero total weight. */
  predicate Integrable(sources: seq<seq<Node>>) {
    |sources| > 0 && TotalWeight(Combos(sources)) != 0.0
  }

  lemma FittingSuccessAt(s: StateParams, model: RaceModel, combo: seq<Node>)
    requires Usable(model) && Fits(s, |combo|)
    ensures SuccessAt(s, model, combo).Ok?
  {
  }

  /** With rows and thresholds that fit, the integration fails only for
      want of a source or of weight, whatever the margins are. */
  lemma IntegrationOutcome(s: StateParams, sources: seq<seq<Node>>, model: RaceModel)
    requires Usable(model) && Fits(s, |sources|)
    ensures ChamberSuccessProbability(s, sources, model).Ok? <==> Integrable(sources)
    ensures |sources| > 0 && !Integrable(sources) ==> ChamberSuccessProbability(s, sources, model) == Err(ZeroTotalWeight)
  {
    if |sources| > 0 {
      var combos := Combos(sources);
      var results := Successes(s, model, combos);
      forall i | 0 <= i < |combos| ensures results[i].Ok? {
        FittingSuccessAt(s, model, combos[i]);
      }
    }
  }

  // ---------------------------------------------------------------------
  // The enumeration of combinations

  lemma {:induction false} ProductWithShape(ns: seq<Node>, rests: seq<seq<Node>>, len: nat)
    requires forall i :: 0 <= i < |rests| ==> |rests[i]| == len
    ensures |ProductWith(ns, rests)| == |ns| * |rests|
    ensures forall i :: 0 <= i < |ProductWith(ns, rests)| ==> |ProductWith(ns, rests)[i]| == len + 1
  {
    if ns != [] {
      var head, tail := Prepend(ns[0], rests), ProductWith(ns[1..], rests);
      ProductWithShape(ns[1..], rests, len);
      assert ProductWith(ns, rests) == head + tail;
      assert |ns| * |rests| == |rests| + |ns[1..]| * |rests| by {
        assert |ns| == |ns[1..]| + 1;
      }
      forall i | 0 <= i < |head + tail| ensures |(head + tail)[i]| == len + 1 {
        if i < |head| {
          assert (head + tail)[i] == [ns[0]] + rests[i];
        } else {
          assert (head + tail)[i] == tail[i - |head|];
        }
      }
    }
  }

  function NodeCountProduct(sources: seq<seq<Node>>): nat {
    if sources == [] then 1 else |sources[0]| * NodeCountProduct(sources[1..])
  }

  lemma {:induction false} NodeCountZero(sources: seq<seq<Node>>)
    ensures NodeCountProduct(sources) == 0 <==> exists j :: 0 <= j < |sources| && sources[j] == []
  {
    if sources != [] {
      NodeCountZero(sources[1..]);
      if NodeCountProduct(sources[1..]) == 0 {
        var j :| 0 <= j < |sources[1..]| && sources[1..][j] == [];
        assert sources[j + 1] == [];
      }
      if exists j :: 0 <= j < |sources| && sources[j] == [] {
        var j :| 0 <= j < |sources| && sources[j] == [];
        if j > 0 {
          assert sources[1..][j - 1] == [];
        }
      }
    }
  }

  lemma {:induction false} ProductWithPositive(ns: seq<Node>, rests: seq<seq<Node>>)
    requires forall k :: 0 <= k < |ns| ==> ns[k].weight > 0.0
    requires forall i :: 0 <= i < |rests| ==> PositiveCombo(rests[i])
    ensures forall i :: 0 <= i < |ProductWith(ns, rests)| ==> PositiveCombo(ProductWith(ns, rests)[i])
  {
    if ns != [] {
      ProductWithPositive(ns[1..], rests);
      var p: seq<seq<Node>> := Prepend(ns[0], rests);
      forall i | 0 <= i < |p| ensures PositiveCombo(p[i]) {
        assert p[i] == [ns[0]] + rests[i];
      }
    }
  }

  /** With positive node weights every combination has positive weights. */
  lemma {:induction false} CombosPositive(sources: seq<seq<Node>>)
    requires PositiveWeights(sources)
    ensures forall i :: 0 <= i < |Combos(sources)| ==> PositiveCombo(Combos(sources)[i])
  {
    if sources != [] {
      CombosPositive(sources[1..]);
      ProductWithPositive(sources[0], Combos(sources[1..]));
    }
  }

  lemma {:induction false} ComboWeightPositive(c: seq<Node>)
    requires PositiveCombo(c)
    ensures ComboWeight(c) > 0.0
  {
    if c != [] {
      ComboWeightPositive(c[1..]);
      MulPositive(c[0].weight, ComboWeight(c[1..]));
    }
  }

  lemma MulPositive(a: real, b: real)
    requires a > 0.0 && b > 0.0
    ensures a * b > 0.0
  {
  }

  lemma WeightsAppend(a: seq<seq<Node>>, b: seq<seq<Node>>)
    ensures Weights(a + b) == Weights(a) + Weights(b)
  {
  }

  lemma WeightsPrepend(n: Node, rests: seq<seq<Node>>)
    ensures Weights(Prepend(n, rests)) == Scale(Weights(rests), n.weight)
  {
    var l, r := Weights(Prepend(n, rests)), Scale(Weights(rests), n.weight);
    forall i | 0 <= i < |l| ensures l[i] == r[i] {
      assert Prepend(n, rests)[i][1..] == rests[i];
    }
  }

  lemma TotalWeightProductWith(ns: seq<Node>, rests: seq<seq<Node>>)
    ensures TotalWeight(ProductWith(ns, rests)) == WeightSum(ns) * TotalWeight(rests)
  {
    TotalWeightScaled(ns, rests);
    ScaledSumIsProduct(ns, TotalWeight(rests));
  }

  /** Each node's weight times x, summed over the nodes. */
  function ScaledSum(ns: seq<Node>, x: real): real {
    if ns == [] then 0.0 else ns[0].weight * x + ScaledSum(ns[1..], x)
  }

  lemma {:induction false} TotalWeightScaled(ns: seq<Node>, rests: seq<seq<Node>>)
    ensures TotalWeight(ProductWith(ns, rests)) == ScaledSum(ns, TotalWeight(rests))
  {
    if ns == [] {
      assert Weights([]) == [];
    } else {
      TotalWeightScaled(ns[1..], rests);
      TotalWeightSplit(ns, rests);
      TotalWeightPrepend(ns[0], rests);
    }
  }

  lemma {:induction false} ScaledSumIsProduct(ns: seq<Node>, x: real)
    ensures ScaledSum(ns, x) == WeightSum(ns) * x
  {
    if ns != [] {
      ScaledSumIsProduct(ns[1..], x);
      DistributeRight(ScaledSum(ns, x), ns[0].weight * x, ScaledSum(ns[1..], x), ns[0].weight, WeightSum(ns[1..]), x, WeightSum(ns));
    }
  }

  lemma TotalWeightSplit(ns: seq<Node>, rests: seq<seq<Node>>)
    requires ns != []
    ensures TotalWeight(ProductWith(ns, rests))
         == TotalWeight(Prepend(ns[0], rests)) + TotalWeight(ProductWith(ns[1..], rests))
  {
    var head, tail := Prepend(ns[0], rests), ProductWith(ns[1..], rests);
    WeightsAppend(head, tail);
    SumAppend(Weights(head), Weights(tail));
  }

  lemma TotalWeightPrepend(n: Node, rests: seq<seq<Node>>)
    ensures TotalWeight(Prepend(n, rests)) == n.weight * TotalWeight(rests)
  {
    WeightsPrepend(n, rests);
    SumScale(Weights(rests), n.weight);
  }

  lemma DistributeRight(t: real, x: real, y: real, w: real, b: real, a: real, ws: real)
    requires t == x + y && x == w * a && y == b * a && ws == w + b
    ensures t == ws * a
  {
  }


  /** The total weight of the product grid factorises over the sources. */
  lemma {:induction false} TotalWeightFactorises(sources: seq<seq<Node>>)
    ensures TotalWeight(Combos(sources)) == WeightProduct(sources)
  {
    if sources == [] {
      assert Weights([[]]) == [1.0];
      assert Sum([1.0]) == 1.0 + Sum([]);
    } else {
      var rest := Combos(sources[1..]);
      TotalWeightFactorises(sources[1..]);
      TotalWeightProductWith(sources[0], rest);
      assert Combos(sources) == ProductWith(sources[0], rest);
      assert TotalWeight(rest) == WeightProduct(sources[1..]);
    }
  }

  lemma {:induction false} WeightSumPositive(ns: seq<Node>)
    requires ns != [] && forall k :: 0 <= k < |ns| ==> ns[k].weight > 0.0
    ensures WeightSum(ns) > 0.0
  {
    if |ns| > 1 {
      WeightSumPositive(ns[1..]);
    }
  }

  /** With positive weights, the total weight is zero exactly when some
      source has no nodes. */
  lemma {:induction false} TotalWeightZeroIff(sources: seq<seq<Node>>)
    requires PositiveWeights(sources)
    ensures TotalWeight(Combos(sources)) == 0.0 <==> exists j :: 0 <= j < |sources| && sources[j] == []
    ensures TotalWeight(Combos(sources)) >= 0.0
  {
    TotalWeightFactorises(sources);
    WeightProductSign(sources);
  }

  lemma {:induction false} WeightProductSign(sources: seq<seq<Node>>)
    requires PositiveWeights(sources)
    ensures WeightProduct(sources) >= 0.0
    ensures WeightProduct(sources) == 0.0 <==> exists j :: 0 <= j < |sources| && sources[j] == []
  {
    if sources != [] {
      WeightProductSign(sources[1..]);
      var rest := WeightProduct(sources[1..]);
      if sources[0] == [] {
        assert WeightProduct(sources) == 0.0 * rest;
      } else {
        WeightSumPositive(sources[0]);
        MulNonneg(WeightSum(sources[0]), rest);
        if rest > 0.0 {
          MulPositive(WeightSum(sources[0]), rest);
        }
      }
      if exists j :: 0 <= j < |sources[1..]| && sources[1..][j] == [] {
        var j :| 0 <= j < |sources[1..]| && sources[1..][j] == [];
        assert sources[j + 1] == [];
      }
      if exists j :: 0 <= j < |sources| && sources[j] == [] {
        var j :| 0 <= j < |sources| && sources[j] == [];
        if j > 0 {
          assert sources[1..][j - 1] == [];
        }
      }
    }
  }

  // ---------------------------------------------------------------------
  // The weighted average

  lemma SumSnoc(ws: seq<real>)
    requires ws != []
    ensures Sum(ws) == Sum(ws[..|ws| - 1]) + ws[|ws| - 1]
  {
    SumSplit(ws, |ws| - 1);
    assert ws[|ws| - 1..] == [ws[|ws| - 1]];
    assert Sum([ws[|ws| - 1]]) == ws[|ws| - 1] + Sum([]);
  }

  lemma WeighMonotone(weight: real, p: real, q: real)
    requires weight >= 0.0 && p <= q
    ensures Weigh(weight, p) <= Weigh(weight, q)
  {
    MulNonneg(weight, q - p);
  }

  /** Every successful result lies in [lo, hi]. */
  predicate ResultsWithin(results: seq<Result<real, Error>>, lo: real, hi: real) {
    forall i :: 0 <= i < |results| && results[i].Ok? ==> lo <= results[i].value <= hi
  }

  /** Pointwise smaller results give a smaller weighted sum when both succeed. */
  lemma {:induction false} AccumulateMonotone(rs: seq<Result<real, Error>>, qs: seq<Result<real, Error>>, ws: seq<real>)
    requires |ws| == |rs| == |qs| && NonNegative(ws)
    requires forall i :: 0 <= i < |rs| && rs[i].Ok? && qs[i].Ok? ==> rs[i].value <= qs[i].value
    ensures Accumulate(rs, ws).Ok? && Accumulate(qs, ws).Ok? ==> Accumulate(rs, ws).value <= Accumulate(qs, ws).value
    decreases |rs|
  {
    if rs != [] {
      var n := |rs| - 1;
      NonNegativeSlice(ws, 0, n);
      assert ws[0..n] == ws[..n];
      assert forall i :: 0 <= i < n ==> rs[..n][i] == rs[i] && qs[..n][i] == qs[i];
      AccumulateMonotone(rs[..n], qs[..n], ws[..n]);
      if rs[n].Ok? && qs[n].Ok? {
        WeighMonotone(ws[n], rs[n].value, qs[n].value);
      }
    }
  }

  /** With every successful result in [lo, hi] and non-negative weights,
      the weighted sum lies between lo and hi times the total weight. */
  lemma AccumulateBounds(results: seq<Result<real, Error>>, ws: seq<real>, lo: real, hi: real)
    requires |ws| == |results| && NonNegative(ws) && ResultsWithin(results, lo, hi)
    ensures Accumulate(results, ws).Ok? ==>
      Weigh(Sum(ws), lo) <= Accumulate(results, ws).value <= Weigh(Sum(ws), hi)
  {
    var los := seq(|results|, i requires 0 <= i < |results| => Ok(lo));
    var his := seq(|results|, i requires 0 <= i < |results| => Ok(hi));
    ConstantSuccess(los, ws, lo);
    ConstantSuccess(his, ws, hi);
    AccumulateMonotone(los, results, ws);
    AccumulateMonotone(results, his, ws);
  }

  /** The integrated success probability lies between the smallest and the
      largest success over the combinations of nodes. */
  lemma ChamberSuccessBetween(s: StateParams, sources: seq<seq<Node>>, model: RaceModel, lo: real, hi: real)
    requires Usable(model) && PositiveWeights(sources)
    requires forall i :: 0 <= i < |Combos(sources)| && SuccessAt(s, model, Combos(sources)[i]).Ok? ==>
      lo <= SuccessAt(s, model, Combos(sources)[i]).value <= hi
    ensures ChamberSuccessProbability(s, sources, model).Ok? ==>
      lo <= ChamberSuccessProbability(s, sources, model).value <= hi
  {
    if |sources| > 0 {
      var combos := Combos(sources);
      var ws := Weights(combos);
      CombosPositive(sources);
      forall i | 0 <= i < |ws| ensures ws[i] >= 0.0 {
        ComboWeightPositive(combos[i]);
      }
      var results := Successes(s, model, combos);
      AccumulateBounds(results, ws, lo, hi);
      TotalWeightZeroIff(sources);
      var r := Accumulate(results, ws);
      var total := Sum(ws);
      if r.Ok? && total != 0.0 {
        QuotientBetween(r.value, total, lo, hi);
      }
    }
  }

  /** The integrated success probability is a probability. */
  lemma ChamberSuccessInUnit(s: StateParams, sources: seq<seq<Node>>, model: RaceModel)
    requires Usable(model) && Calibrated(model) && 0.0 <= s.tie1 <= 1.0 && 0.0 <= s.tie2 <= 1.0
    requires PositiveWeights(sources)
    ensures ChamberSuccessProbability(s, sources, model).Ok? ==>
      0.0 <= ChamberSuccessProbability(s, sources, model).value <= 1.0
  {
    ChamberSuccessBetween(s, sources, model, 0.0, 1.0);
  }

  lemma QuotientBetween(w: real, total: real, lo: real, hi: real)
    requires Weigh(total, lo) <= w <= Weigh(total, hi) && total > 0.0
    ensures lo <= w / total <= hi
  {
    var q := w / total;
    assert q * total == w;
    assert (q - lo) * total >= 0.0;
    assert (hi - q) * total >= 0.0;
  }

  lemma WeighDistributes(a: real, b: real, total: real, p: real)
    requires total == a + b
    ensures Weigh(a, p) + Weigh(b, p) == Weigh(total, p)
  {
  }

  /** When every result is the same probability p, the weighted sum is
      the total weight times p. */
  lemma {:induction false} ConstantSuccess(results: seq<Result<real, Error>>, ws: seq<real>, p: real)
    requires |ws| == |results|
    requires forall i :: 0 <= i < |results| ==> results[i] == Ok(p)
    ensures Accumulate(results, ws) == Ok(Weigh(Sum(ws), p))
    decreases |results|
  {
    if results != [] {
      var n := |results| - 1;
      assert forall i :: 0 <= i < n ==> results[..n][i] == results[i];
      ConstantSuccess(results[..n], ws[..n], p);
      AccumulateStep(results, ws, n);
      assert results[..n + 1] == results && ws[..n + 1] == ws;
      SumSnoc(ws);
      WeighDistributes(Sum(ws[..n]), ws[n], Sum(ws), p);
      assert results[n] == Ok(p);
    }
  }

  /** A zero shift leaves every margin at its first column. */
  lemma {:induction false} DotUnitVector(row: seq<real>, zeros: seq<real>)
    requires |row| == |zeros| + 1 && forall k :: 0 <= k < |zeros| ==> zeros[k] == 0.0
    ensures Dot(row, [1.0] + zeros) == row[0]
  {
    DotZeros(row[1..], zeros);
    assert ([1.0] + zeros)[1..] == zeros;
  }

  lemma {:induction false} DotZeros(row: seq<real>, zeros: seq<real>)
    requires |row| == |zeros| && forall k :: 0 <= k < |zeros| ==> zeros[k] == 0.0
    ensures Dot(row, zeros) == 0.0
  {
    if row != [] {
      DotZeros(row[1..], zeros[1..]);
    }
  }

  /** The first column of the parameter rows: the margins without correlated error. */
  function BaseMargins(rows: seq<seq<real>>): (m: seq<real>)
    requires forall i :: 0 <= i < |rows| ==> |rows[i]| > 0
    ensures |m| == |rows|
  {
    seq(|rows|, i requires 0 <= i < |rows| => rows[i][0])
  }

  /** The independent-race success probability at the base margins. */
  function BaseSuccess(s: StateParams, model: RaceModel): Result<real, Error>
    requires Usable(model) && forall i :: 0 <= i < |s.rows| ==> |s.rows[i]| > 0
  {
    var base := BaseMargins(s.rows);
    var c := Boundary(s.chamber2, |base|);
    SuccessIndependence(ChamberParams(base[..c], s.threshold1, s.tie1),
                        ChamberParams(base[c..], s.threshold2, s.tie2),
                        model, s.bothBad, s.neitherBad)
  }

  /** A combination of zero shifts leaves the success at its base value. */
  lemma ZeroShiftSuccess(s: StateParams, model: RaceModel, combo: seq<Node>)
    requires Usable(model)
    requires forall k :: 0 <= k < |combo| ==> combo[k].point == 0.0
    requires forall i :: 0 <= i < |s.rows| ==> |s.rows[i]| == |combo| + 1
    ensures SuccessAt(s, model, combo) == BaseSuccess(s, model)
  {
    var v := Points(combo);
    forall r | 0 <= r < |s.rows| ensures Dot(s.rows[r], [1.0] + v) == BaseMargins(s.rows)[r] {
      DotUnitVector(s.rows[r], v);
    }
    assert ShiftedMargins(s.rows, v) == BaseMargins(s.rows);
  }

  lemma AverageOfConstant(total: real, p: real)
    requires total != 0.0
    ensures Weigh(total, p) / total == p
  {
  }

  /** If every node sits at shift 0 the integration reduces to the
      independent-race probability at the base margins. */
  lemma NoShiftIsIndependence(s: StateParams, sources: seq<seq<Node>>, model: RaceModel)
    requires Usable(model) && |sources| > 0 && PositiveWeights(sources)
    requires forall j, k :: 0 <= j < |sources| && 0 <= k < |sources[j]| ==> sources[j][k].point == 0.0
    requires forall j :: 0 <= j < |sources| ==> sources[j] != []
    requires forall i :: 0 <= i < |s.rows| ==> |s.rows[i]| == |sources| + 1
    ensures ChamberSuccessProbability(s, sources, model) == BaseSuccess(s, model)
  {
    var combos := Combos(sources);
    var indep := BaseSuccess(s, model);
    ZeroCombos(sources);
    var results := Successes(s, model, combos);
    forall i | 0 <= i < |combos| ensures results[i] == indep {
      ZeroShiftSuccess(s, model, combos[i]);
    }
    TotalWeightZeroIff(sources);
    var ws := Weights(combos);
    var total := Sum(ws);
    assert total != 0.0;
    if indep.Ok? {
      ConstantSuccess(results, ws, indep.value);
      AverageOfConstant(total, indep.value);
    } else {
      assert combos != [] by {
        NodeCountZero(sources);
      }
      assert results[0] == Err(indep.error);
    }
  }

  /** Every combination of zero shifts is a zero shift vector. */
  lemma {:induction false} ZeroCombos(sources: seq<seq<Node>>)
    requires forall j, k :: 0 <= j < |sources| && 0 <= k < |sources[j]| ==> sources[j][k].point == 0.0
    ensures forall i, k :: 0 <= i < |Combos(sources)| && 0 <= k < |Combos(sources)[i]| ==> Combos(sources)[i][k].point == 0.0
  {
    if sources != [] {
      ZeroCombos(sources[1..]);
      ZeroProductWith(sources[0], Combos(sources[1..]));
    }
  }

  lemma {:induction false} ZeroProductWith(ns: seq<Node>, rests: seq<seq<Node>>)
    requires forall k :: 0 <= k < |ns| ==> ns[k].point == 0.0
    requires forall i, k :: 0 <= i < |rests| && 0 <= k < |rests[i]| ==> rests[i][k].point == 0.0
    ensures forall i, k :: 0 <= i < |ProductWith(ns, rests)| && 0 <= k < |ProductWith(ns, rests)[i]| ==> ProductWith(ns, rests)[i][k].point == 0.0
  {
    if ns != [] {
      ZeroProductWith(ns[1..], rests);
      var p: seq<seq<Node>> := Prepend(ns[0], rests);
      forall i, k | 0 <= i < |p| && 0 <= k < |p[i]| ensures p[i][k].point == 0.0 {
        assert p[i] == [ns[0]] + rests[i];
      }
    }
  }
}

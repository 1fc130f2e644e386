/**
 * Probability that the Democrats reach a chamber's threshold, and the
 * probability of a "good" (split) outcome over two chambers, assuming
 * independent races (voter_power.py, dem_chamber_power and
 * success_prob_independence).
 */
module ChamberOutcome {
  import opened Wrappers
  import opened Errors
  import opened WinProbability
  import opened SeatDistribution
  import opened RealArith

  /** A chamber's Democratic threshold: already decided for the Democrats
      ('D'), already decided against them ('R'), or a number of seats. */
  datatype Threshold = ForcedD | ForcedR | Seats(n: nat)

  /** The (margins, threshold, tie) triple passed for one chamber. */
  datatype ChamberParams = ChamberParams(margins: seq<real>, threshold: Threshold, tie: real)

  /** Win probability of every race, in order. */
  function WinProbs(margins: seq<real>, model: RaceModel): (probs: seq<real>)
    requires Usable(model)
    ensures |probs| == |margins|
    ensures forall k :: 0 <= k < |margins| ==> probs[k] == WinProb(model, margins[k])
    ensures Calibrated(model) ==> Probabilities(probs)
  {
    seq(|margins|, k requires 0 <= k < |margins| => WinProb(model, margins[k]))
  }

  /** Probability of at least t seats, where landing exactly on t only
      counts with probability `tie`. */
  function ChamberPower(d: seq<real>, t: nat, tie: real): (r: real)
    requires t < |d|
    ensures r == Sum(d[t + 1..]) + tie * d[t]
  {
    assert d[t..][1..] == d[t + 1..];
    Sum(d[t..]) - (1.0 - tie) * d[t]
  }

  /** tie = 1 counts reaching t as power, tie = 0 requires exceeding it. */
  lemma ChamberPowerTieExtremes(d: seq<real>, t: nat)
    requires t < |d|
    ensures ChamberPower(d, t, 1.0) == Sum(d[t..])
    ensures ChamberPower(d, t, 0.0) == Sum(d[t + 1..])
  {
  }

  /** On a probability distribution with a tie probability in [0, 1] the
      chamber power is a probability. */
  lemma ChamberPowerInUnit(d: seq<real>, t: nat, tie: real)
    requires t < |d| && IsDistribution(d) && 0.0 <= tie <= 1.0
    ensures 0.0 <= ChamberPower(d, t, tie) <= 1.0
  {
    var below, above := Sum(d[..t]), Sum(d[t + 1..]);
    SumAround(d, t);
    MassAroundNonNegative(d, t);
    PartialMassBound(ChamberPower(d, t, tie), below, d[t], above, tie);
  }

  lemma MassAroundNonNegative(d: seq<real>, t: nat)
    requires t < |d| && NonNegative(d)
    ensures Sum(d[..t]) >= 0.0 && Sum(d[t + 1..]) >= 0.0
  {
    NonNegativeSlice(d, 0, t);
    NonNegativeSlice(d, t + 1, |d|);
    assert d[0..t] == d[..t] && d[t + 1..|d|] == d[t + 1..];
    SumNonNegative(d[..t]);
    SumNonNegative(d[t + 1..]);
  }

  lemma PartialMassBound(power: real, below: real, at: real, above: real, tie: real)
    requires below >= 0.0 && at >= 0.0 && above >= 0.0 && below + at + above == 1.0
    requires 0.0 <= tie <= 1.0 && power == above + tie * at
    ensures 0.0 <= power <= 1.0
  {
    FractionBound(at, tie);
  }

  lemma CalibratedChamberPower(margins: seq<real>, threshold: nat, tie: real, model: RaceModel)
    requires Usable(model) && threshold <= |margins|
    ensures Calibrated(model) && 0.0 <= tie <= 1.0 ==>
      0.0 <= ChamberPower(SeatDist(WinProbs(margins, model)), threshold, tie) <= 1.0
  {
    if Calibrated(model) && 0.0 <= tie <= 1.0 {
      SeatDistIsDistribution(WinProbs(margins, model));
      ChamberPowerInUnit(SeatDist(WinProbs(margins, model)), threshold, tie);
    }
  }

  /** dem_chamber_power: AssertionError unless the threshold is below the
      number of possible seat counts. */
  function DemChamberProbability(margins: seq<real>, threshold: nat, tie: real, model: RaceModel): (r: Result<real, Error>)
    requires Usable(model)
    ensures r.Err? <==> threshold > |margins|
    ensures r.Err? ==> r.error == ThresholdNotBelowSeats
    ensures r.Ok? && Calibrated(model) && 0.0 <= tie <= 1.0 ==> 0.0 <= r.value <= 1.0
  {
    var d := SeatDist(WinProbs(margins, model));
    if threshold < |d| then
      CalibratedChamberPower(margins, threshold, tie, model);
      Ok(ChamberPower(d, threshold, tie))
    else
      Err(ThresholdNotBelowSeats)
  }

  /** dem_chamber_power: the seat distribution is built by convolving one
      race at a time. */
  method DemChamberPower(margins: seq<real>, threshold: nat, tie: real, model: RaceModel) returns (r: Result<real, Error>)
    requires Usable(model)
    ensures r == DemChamberProbability(margins, threshold, tie, model)
  {
    var probs := WinProbs(margins, model);
    var seatProbs := [1.0];
    for i := 0 to |probs|
      invariant seatProbs == SeatDist(probs[..i])
    {
      assert probs[..i + 1][..i] == probs[..i];
      seatProbs := ConvolveRace(seatProbs, probs[i]);
    }
    assert probs[..|probs|] == probs;
    if threshold >= |seatProbs| {
      return Err(ThresholdNotBelowSeats);
    }
    return Ok(ChamberPower(seatProbs, threshold, tie));
  }

  /** Democratic control probability of one chamber: fixed for a decided
      chamber, otherwise dem_chamber_power. */
  function ChamberSuccess(c: ChamberParams, model: RaceModel): (r: Result<real, Error>)
    requires Usable(model)
    ensures c.threshold.ForcedD? ==> r == Ok(1.0)
    ensures c.threshold.ForcedR? ==> r == Ok(0.0)
    ensures r.Ok? && Calibrated(model) && 0.0 <= c.tie <= 1.0 ==> 0.0 <= r.value <= 1.0
  {
    match c.threshold
    case ForcedD => Ok(1.0)
    case ForcedR => Ok(0.0)
    case Seats(n) => DemChamberProbability(c.margins, n, c.tie, model)
  }

  /** Probability of a good outcome given each chamber's control probability:
      Democratic control of both chambers is bad when `bothBad`, Republican
      control of both when `neitherBad`. */
  function GoodOutcome(p1: real, p2: real, bothBad: bool, neitherBad: bool): (r: real)
    ensures r == GoodOutcomeByCases(p1, p2, bothBad, neitherBad)
  {
    FourOutcomes(p1, p2);
    1.0 - (if bothBad then p1 * p2 else 0.0)
        - (if neitherBad then 1.0 - (p1 + p2) + p1 * p2 else 0.0)
  }

  /** Probability of the given control outcome of one chamber. */
  function OutcomeProb(p: real, won: bool): real {
    if won then p else 1.0 - p
  }

  /** Whether a pair of control outcomes is good. */
  predicate GoodControl(won1: bool, won2: bool, bothBad: bool, neitherBad: bool) {
    !(won1 && won2 && bothBad) && !(!won1 && !won2 && neitherBad)
  }

  function Indicator(b: bool): real {
    if b then 1.0 else 0.0
  }

  /** Reference definition: sum over the four joint outcomes of their
      probability times whether they are good. */
  function GoodOutcomeByCases(p1: real, p2: real, bothBad: bool, neitherBad: bool): real {
    OutcomeProb(p1, true) * OutcomeProb(p2, true) * Indicator(GoodControl(true, true, bothBad, neitherBad))
    + OutcomeProb(p1, true) * OutcomeProb(p2, false) * Indicator(GoodControl(true, false, bothBad, neitherBad))
    + OutcomeProb(p1, false) * OutcomeProb(p2, true) * Indicator(GoodControl(false, true, bothBad, neitherBad))
    + OutcomeProb(p1, false) * OutcomeProb(p2, false) * Indicator(GoodControl(false, false, bothBad, neitherBad))
  }

  lemma FourOutcomes(p1: real, p2: real)
    ensures p1 * p2 + p1 * (1.0 - p2) + (1.0 - p1) * p2 + (1.0 - p1) * (1.0 - p2) == 1.0
    ensures 1.0 - (p1 + p2) + p1 * p2 == (1.0 - p1) * (1.0 - p2)
  {
  }

  /** With control probabilities in [0, 1] the good-outcome probability is a probability. */
  lemma GoodOutcomeInUnit(p1: real, p2: real, bothBad: bool, neitherBad: bool)
    ensures 0.0 <= p1 <= 1.0 && 0.0 <= p2 <= 1.0 ==> 0.0 <= GoodOutcome(p1, p2, bothBad, neitherBad) <= 1.0
  {
    if 0.0 <= p1 <= 1.0 && 0.0 <= p2 <= 1.0 {
      var both, first, second, neither := p1 * p2, p1 * (1.0 - p2), (1.0 - p1) * p2, (1.0 - p1) * (1.0 - p2);
      assert both + first + second + neither == 1.0 && 1.0 - (p1 + p2) + p1 * p2 == neither by {
        FourOutcomes(p1, p2);
      }
      assert both >= 0.0 && first >= 0.0 && second >= 0.0 && neither >= 0.0 by {
        MulNonneg(p1, p2);
        MulNonneg(1.0 - p1, 1.0 - p2);
        MulNonneg(p1, 1.0 - p2);
        MulNonneg(1.0 - p1, p2);
      }
      var g := GoodOutcome(p1, p2, bothBad, neitherBad);
      assert g == 1.0 - (if bothBad then both else 0.0) - (if neitherBad then neither else 0.0);
    }
  }

  /** success_prob_independence: the first chamber's error, else the second's,
      else the good-outcome probability. */
  function SuccessIndependence(c1: ChamberParams, c2: ChamberParams, model: RaceModel,
                               bothBad: bool, neitherBad: bool): (r: Result<real, Error>)
    requires Usable(model)
    ensures r.Ok? && Calibrated(model) && 0.0 <= c1.tie <= 1.0 && 0.0 <= c2.tie <= 1.0
      ==> 0.0 <= r.value <= 1.0
    ensures r.Err? <==> ChamberSuccess(c1, model).Err? || ChamberSuccess(c2, model).Err?
  {
    match ChamberSuccess(c1, model)
    case Err(e) => Err(e)
    case Ok(p1) =>
      match ChamberSuccess(c2, model)
      case Err(e) => Err(e)
      case Ok(p2) =>
        GoodOutcomeInUnit(p1, p2, bothBad, neitherBad);
        Ok(GoodOutcome(p1, p2, bothBad, neitherBad))
  }

  /** The outcome depends on the chambers only through their control
      probabilities. */
  lemma SuccessIndependenceCongruent(c1: ChamberParams, c2: ChamberParams, d1: ChamberParams, d2: ChamberParams,
                                     model: RaceModel, bothBad: bool, neitherBad: bool)
    requires Usable(model)
    requires ChamberSuccess(c1, model) == ChamberSuccess(d1, model)
    requires ChamberSuccess(c2, model) == ChamberSuccess(d2, model)
    ensures SuccessIndependence(c1, c2, model, bothBad, neitherBad) == SuccessIndependence(d1, d2, model, bothBad, neitherBad)
  {
  }

  /** success_prob_independence, looping over the two chambers. */
  method SuccessProbIndependence(c1: ChamberParams, c2: ChamberParams, model: RaceModel,
                                 bothBad: bool, neitherBad: bool) returns (r: Result<real, Error>)
    requires Usable(model)
    ensures r == SuccessIndependence(c1, c2, model, bothBad, neitherBad)
  {
    var chambers := [c1, c2];
    var demProbs: seq<real> := [];
    for i := 0 to 2
      invariant |demProbs| == i
      invariant forall k :: 0 <= k < i ==> ChamberSuccess(chambers[k], model) == Ok(demProbs[k])
    {
      var p := ChamberProb(chambers[i], model);
      if p.Err? {
        assert i == 1 ==> ChamberSuccess(c1, model) == Ok(demProbs[0]);
        return Err(p.error);
      }
      demProbs := demProbs + [p.value];
    }
    var p1, p2 := demProbs[0], demProbs[1];
    var good := 1.0;
    if bothBad {
      good := good - p1 * p2;
    }
    if neitherBad {
      good := good - (1.0 - (p1 + p2) + p1 * p2);
    }
    GoodOutcomeStepwise(p1, p2, bothBad, neitherBad);
    BothChambersOk(c1, c2, model, bothBad, neitherBad, p1, p2);
    return Ok(good);
  }

  /** One chamber's Democratic control probability: a decided chamber
      without computing anything, otherwise dem_chamber_power. */
  method ChamberProb(params: ChamberParams, model: RaceModel) returns (r: Result<real, Error>)
    requires Usable(model)
    ensures r == ChamberSuccess(params, model)
  {
    match params.threshold
    case ForcedD =>
      r := Ok(1.0);
    case ForcedR =>
      r := Ok(0.0);
    case Seats(n) =>
      r := DemChamberPower(params.margins, n, params.tie, model);
  }

  /** The two subtractions of the loop's epilogue give GoodOutcome. */
  lemma GoodOutcomeStepwise(p1: real, p2: real, bothBad: bool, neitherBad: bool)
    ensures var afterBoth := if bothBad then 1.0 - p1 * p2 else 1.0;
      (if neitherBad then afterBoth - (1.0 - (p1 + p2) + p1 * p2) else afterBoth)
        == GoodOutcome(p1, p2, bothBad, neitherBad)
  {
  }

  lemma BothChambersOk(c1: ChamberParams, c2: ChamberParams, model: RaceModel,
                       bothBad: bool, neitherBad: bool, p1: real, p2: real)
    requires Usable(model)
    requires ChamberSuccess(c1, model) == Ok(p1) && ChamberSuccess(c2, model) == Ok(p2)
    ensures SuccessIndependence(c1, c2, model, bothBad, neitherBad) == Ok(GoodOutcome(p1, p2, bothBad, neitherBad))
  {
  }

  /** Three toss-up races and a threshold of two seats with tie 1: the
      chances of at least two wins are one half. */
  lemma ThreeTossUps()
    ensures SeatDist([0.5, 0.5, 0.5]) == [0.125, 0.375, 0.375, 0.125]
    ensures ChamberPower(SeatDist([0.5, 0.5, 0.5]), 2, 1.0) == 0.5
  {
    SingleRace(0.5);
    assert [0.5, 0.5][..1] == [0.5];
    assert [0.5, 0.5, 0.5][..2] == [0.5, 0.5];
    var d2 := ConvolveRace([0.5, 0.5], 0.5);
    assert d2 == [0.25, 0.5, 0.25];
    var d3 := ConvolveRace(d2, 0.5);
    assert d3 == [0.125, 0.375, 0.375, 0.125];
    assert d3[2..] == [0.375, 0.125];
    assert Sum([0.375, 0.125]) == 0.375 + Sum([0.125]);
    assert Sum([0.125]) == 0.125 + Sum([]);
  }
}

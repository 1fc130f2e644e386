/**
 * The 2020 foundations prediction (foundations_prediction_2020.py): the
 * 2018 results as a Democratic two-party share, the gap between those
 * results and the no-incumbent prediction, and the district vote share
 * from the statewide forecast, the presidential residual and the
 * incumbency advantage.
 */
module Prediction2020 {
  import opened Wrappers
  import opened RealArith

  /* ---------------- results_to_dem_voteshare (lines 93-116) ---------------- */

  /** A 2018 (or, in Kansas and Minnesota, 2016) legislative race: votes
      for each party and their shares of the three-party total. */
  datatype Race = Race(state: string, districtNum: string, d: real, r: real, i: real,
                       demThree: real, repThree: real, indThree: real)

  datatype Voteshare = Voteshare(winParty: string, iTopTwo: bool, uncontested: bool, demElec: Option<real>)

  /** idxmax over the columns D, R, I: the first of the largest. */
  function IdxMax(d: real, r: real, i: real): (party: string)
    ensures party == "D" <==> d >= r && d >= i
    ensures party == "R" <==> !(d >= r && d >= i) && r >= i
    ensures party == "I" <==> !(d >= r && d >= i) && r < i
  {
    if d >= r && d >= i then "D" else if r >= i then "R" else "I"
  }

  /** idxmin over the columns D, R, I: the first of the smallest. */
  function IdxMin(d: real, r: real, i: real): (party: string)
    ensures party == "I" <==> i < d && i < r
    ensures party == "D" <==> d <= r && d <= i
  {
    if d <= r && d <= i then "D" else if r <= i then "R" else "I"
  }

  function Max3(a: real, b: real, c: real): (m: real)
    ensures m >= a && m >= b && m >= c
    ensures m == a || m == b || m == c
  {
    if a >= b && a >= c then a else if b >= c then b else c
  }

  predicate NonNegativeVotes(x: Race) {
    x.d >= 0.0 && x.r >= 0.0 && x.i >= 0.0
  }

  /** The column updates for one race: Alaska's tied district 1 is given
      to the Republican by one vote; the winner is the first party with the
      most votes; a race is uncontested when one party has three quarters
      of the three-party vote; an independent is in the top two unless it
      strictly trails both parties; a party with no candidate against the
      other's winner is credited with the independent's votes; and the
      Democratic two-party share is missing when neither party has a vote. */
  method DemVoteshare(x: Race) returns (v: Voteshare)
    ensures var r := if x.state == "AK" && x.districtNum == "001" then x.r + 1.0 else x.r;
      && v.winParty == IdxMax(x.d, r, x.i)
      && v.iTopTwo == !(x.i < x.d && x.i < r)
    ensures v.uncontested <==> Max3(x.demThree, x.repThree, x.indThree) >= 0.75
    ensures var r := if x.state == "AK" && x.districtNum == "001" then x.r + 1.0 else x.r;
      var d1 := if v.winParty == "R" && x.d == 0.0 then x.i else x.d;
      var r1 := if v.winParty == "D" && r == 0.0 then x.i else r;
      v.demElec == (if d1 + r1 == 0.0 then None else Some(d1 / (d1 + r1)))
    ensures NonNegativeVotes(x) && v.demElec.Some? ==> 0.0 <= v.demElec.value <= 1.0
    ensures NonNegativeVotes(x) && v.winParty == "D" && v.demElec.Some? ==> v.demElec.value >= 0.5
    ensures NonNegativeVotes(x) && v.winParty == "R" && v.demElec.Some? ==> v.demElec.value <= 0.5
    ensures NonNegativeVotes(x) && v.demElec.None? ==> x.d == 0.0 && (v.winParty == "I" || x.i == 0.0)
  {
    var d, r, i := x.d, x.r, x.i;
    if x.state == "AK" && x.districtNum == "001" {
      r := r + 1.0;
    }
    var winParty := IdxMax(d, r, i);
    var uncontested := Max3(x.demThree, x.repThree, x.indThree) >= 0.75;
    var worstParty := IdxMin(d, r, i);
    var iTopTwo := worstParty != "I";
    d := if winParty == "R" && d == 0.0 then i else d;
    r := if winParty == "D" && r == 0.0 then i else r;
    var demElec := if d + r == 0.0 then None else Some(d / (d + r));
    if NonNegativeVotes(x) && demElec.Some? {
      ShareBounds(d, r);
    }
    v := Voteshare(winParty, iTopTwo, uncontested, demElec);
  }

  /** d / (d + r) is a fraction, at least one half exactly when d >= r. */
  lemma ShareBounds(d: real, r: real)
    requires d >= 0.0 && r >= 0.0 && d + r != 0.0
    ensures 0.0 <= d / (d + r) <= 1.0
    ensures d >= r ==> d / (d + r) >= 0.5
    ensures d <= r ==> d / (d + r) <= 0.5
  {
    var t := d + r;
    assert d / t * t == d;
  }

  /* ---------------- foundation_diff (lines 150-164) ---------------- */

  /** A district's 2018 result as the election table gives it: the
      Democratic share (None when missing or NaN) and the uncontested flag
      (false for a district with no 2018 row). */
  datatype Election = Election(demElec: Option<real>, uncontested: bool)

  /** How far the 2018 result was from the no-incumbent prediction (the
      state's presidential share plus the district's residual); an
      uncontested race counts as a 30-point swing toward its winner. */
  method ElecDiff(resid: real, demState: real, e: Election) returns (diff: Option<real>)
    ensures e.demElec.None? <==> diff.None?
    ensures e.uncontested && e.demElec.Some? ==> diff == Some(if e.demElec.value > 0.5 then 0.3 else -0.3)
    ensures !e.uncontested && e.demElec.Some? ==> diff.value + (resid + demState) == e.demElec.value
  {
    var noIncumbPred := resid + demState;
    diff := if e.demElec.Some? then Some(e.demElec.value - noIncumbPred) else None;
    if e.uncontested && e.demElec.Some? && e.demElec.value > 0.5 {
      diff := Some(0.3);
    }
    if e.uncontested && e.demElec.Some? && e.demElec.value <= 0.5 {
      diff := Some(-0.3);
    }
  }

  /* ---------------- foundation_prediction (lines 199-224) ---------------- */

  /** One district for 2020: its incumbent (the text "D", "R", "I" or
      "False"), the Economist's statewide margin in points, the presidential
      residual, its 2018 result and gap, and the state's mean gap. */
  datatype District = District(incumbent: string, stateMargin: real, resid: real,
                               elec18: Option<real>, elecDiff: Option<real>, stateDiff: Option<real>)

  datatype Prediction = Prediction(pastElection: bool, elec18: Option<real>, foundVoteshare: Option<real>)

  predicate MajorParty(incumbent: string) {
    incumbent == "D" || incumbent == "R"
  }

  /** The statewide share from the forecast margin in points. */
  function StateVoteshare(margin: real): (s: real)
    ensures margin == 0.0 ==> s == 0.5
    ensures (s - 0.5) * 100.0 == margin
  {
    margin / 100.0 + 0.5
  }

  /** The incumbency advantage the prediction adds: the district's own gap
      when it has one, else the state's, turned toward the incumbent's
      party (zero for an independent or an open seat). */
  function IncumbencyAdvantage(x: District): (adv: Option<real>)
    ensures x.elecDiff.Some? ==> adv == x.elecDiff
    ensures x.elecDiff.None? && x.incumbent in {"I", "False"} ==> adv == Some(0.0)
    ensures x.elecDiff.None? && x.incumbent == "R" && x.stateDiff.Some? ==> adv == Some(-x.stateDiff.value)
    ensures x.elecDiff.None? && x.incumbent !in {"I", "False", "R"} ==> adv == x.stateDiff
  {
    var sd := if x.incumbent == "R" && x.stateDiff.Some? then Some(-x.stateDiff.value) else x.stateDiff;
    var sd := if x.incumbent in {"I", "False"} then Some(0.0) else sd;
    if x.elecDiff.Some? then x.elecDiff else sd
  }

  /** The column updates of foundation_prediction for one district. A
      missing advantage makes the vote share missing even where it is
      multiplied by 0 (NaN times 0 is NaN). */
  method FoundationPrediction(x: District) returns (p: Prediction)
    ensures p.pastElection <==> x.elecDiff.Some?
    ensures p.elec18 == x.elec18
    ensures p.foundVoteshare.None? <==> IncumbencyAdvantage(x).None?
    ensures p.foundVoteshare.Some? ==> 0.3 <= p.foundVoteshare.value <= 0.7
    ensures p.foundVoteshare.Some? && MajorParty(x.incumbent) ==>
      p.foundVoteshare.value == NpClip(StateVoteshare(x.stateMargin) + x.resid + IncumbencyAdvantage(x).value, 0.3, 0.7)
    ensures p.foundVoteshare.Some? && !MajorParty(x.incumbent) ==>
      p.foundVoteshare.value == NpClip(StateVoteshare(x.stateMargin) + x.resid, 0.3, 0.7)
  {
    var stateVoteshare := StateVoteshare(x.stateMargin);
    var incAdv := IncumbencyAdvantage(x);
    var found := stateVoteshare + x.resid;
    var isInc := if MajorParty(x.incumbent) then 1.0 else 0.0;
    var foundVoteshare := if incAdv.Some? then Some(found + isInc * incAdv.value) else None;
    foundVoteshare := if foundVoteshare.Some? then Some(NpClip(foundVoteshare.value, 0.3, 0.7)) else None;
    p := Prediction(x.elecDiff.Some?, x.elec18, foundVoteshare);
  }

  /** A Republican incumbent with no race of their own in 2018 is moved by
      the state's gap in the Republican direction: a state that swung
      toward the Democrats lowers the Democratic share. */
  lemma RepublicanAdvantage(x: District)
    requires x.incumbent == "R" && x.elecDiff.None? && x.stateDiff.Some?
    ensures IncumbencyAdvantage(x) == Some(-x.stateDiff.value)
    ensures x.stateDiff.value > 0.0 ==> IncumbencyAdvantage(x).value < 0.0
  {
  }
}

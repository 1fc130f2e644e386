/**
 * The 2018 back-test of the foundations model (foundations_blending_2018.py):
 * the vote share a CNalysis rating stands for, the clip of the foundations
 * share around it, the vote shares recovered from past margins, and the
 * incumbency advantage read off the last election.
 */
module Blending2018 {
  import opened Wrappers
  import opened PyValues
  import opened RealArith
  import opened SeatDistribution
  import opened Cnalysis

  /* ---------------- chaz_share (lines 70-90) ---------------- */

  /** The Democratic vote share a rating confidence stands for when the
      Democrat is favoured: half the rating's margin above 50%; a
      confidence outside the table (such as "Uncontested") is a sure win. */
  function DemShareOf(confidence: Cell): real {
    if confidence == Str("Toss-Up") then 0.5
    else if confidence == Str("Tilt") then 0.5 + 0.039 / 2.0
    else if confidence == Str("Lean") then 0.5 + 0.077 / 2.0
    else if confidence == Str("Likely") then 0.5 + 0.123 / 2.0
    else if confidence == Str("Safe") then 0.5 + 0.22 / 2.0
    else 1.0
  }

  /** The rating's Democratic vote share, mirrored for a Republican favourite. */
  function ChazShare(party: Cell, confidence: Cell): (share: real)
    ensures 0.0 <= share <= 1.0
    ensures party == Str("R") ==> share + DemShareOf(confidence) == 1.0
    ensures party != Str("R") ==> share == DemShareOf(confidence)
  {
    var share := DemShareOf(confidence);
    if party == Str("R") then 1.0 - share else share
  }

  /** A toss-up is 50% whoever is named; the two parties' readings of a
      rating add up to one. */
  lemma ChazShareSymmetric(confidence: Cell)
    ensures ChazShare(Str("R"), confidence) == 1.0 - ChazShare(Str("D"), confidence)
    ensures ChazShare(Str("R"), Str("Toss-Up")) == ChazShare(Str("D"), Str("Toss-Up")) == 0.5
    ensures ChazShare(Str("D"), confidence) >= 0.5 >= ChazShare(Str("R"), confidence)
  {
  }

  /** The Democratic share grows strictly from Toss-Up to Safe to a sure win. */
  lemma ChazShareOrdered()
    ensures ChazShare(Str("D"), Str("Toss-Up")) < ChazShare(Str("D"), Str("Tilt"))
      < ChazShare(Str("D"), Str("Lean")) < ChazShare(Str("D"), Str("Likely"))
      < ChazShare(Str("D"), Str("Safe")) < ChazShare(Str("D"), Str("Uncontested"))
  {
  }

  /* ---------------- clip_found (lines 62-63) ---------------- */

  /** The foundations share clipped to within `size` of the rating's share. */
  function ClipFound(found: real, chaz: real, size: real): (c: real)
    ensures size >= 0.0 ==> chaz - size <= c <= chaz + size
    ensures chaz - size <= found <= chaz + size ==> c == found
    ensures size < 0.0 ==> c == chaz + size
  {
    NpClip(found, chaz - size, chaz + size)
  }

  /** Clipping twice is clipping once. */
  lemma ClipFoundIdempotent(found: real, chaz: real, size: real)
    requires size >= 0.0
    ensures ClipFound(ClipFound(found, chaz, size), chaz, size) == ClipFound(found, chaz, size)
  {
  }

  /* ---------------- Shares from margins (lines 117-131) ---------------- */

  /** A winner's margin as a Democratic two-way share: the margin is
      negated when a Republican won, halved, and centred on one half.
      A missing margin (NaN) stays missing. */
  function Share(margin: Option<real>, winParty: Cell): (s: Option<real>)
    ensures s.Some? <==> margin.Some?
    ensures s.Some? ==> SignedMargin(s.value) == if winParty == Str("R") then -margin.value else margin.value
    ensures s.Some? && 0.0 <= margin.value <= 1.0 ==> 0.0 <= s.value <= 1.0 && OnWinnerSide(s.value, winParty)
  {
    match margin
    case None => None
    case Some(m) => Some((if winParty == Str("R") then -m else m) / 2.0 + 0.5)
  }

  /** The signed margin a share stands for: the inverse of Share. */
  function SignedMargin(share: real): real {
    (share - 0.5) * 2.0
  }

  /** A share on the winner's side of one half. */
  predicate OnWinnerSide(share: real, winParty: Cell) {
    if winParty == Str("R") then share <= 0.5 else share >= 0.5
  }

  /** Share and SignedMargin undo each other. */
  lemma ShareRoundTrip(m: real, winParty: Cell, share: real)
    ensures SignedMargin(Share(Some(m), winParty).value) == if winParty == Str("R") then -m else m
    ensures Share(Some(if winParty == Str("R") then -SignedMargin(share) else SignedMargin(share)), winParty) == Some(share)
  {
  }

  /** A margin between 0 and 1 gives a share on the winner's side of one
      half, and the same margin for either winner gives mirror shares. */
  lemma ShareSides(m: real)
    requires 0.0 <= m <= 1.0
    ensures 0.5 <= Share(Some(m), Str("D")).value <= 1.0
    ensures 0.0 <= Share(Some(m), Str("R")).value <= 0.5
    ensures Share(Some(m), Str("D")).value + Share(Some(m), Str("R")).value == 1.0
  {
  }

  /** A race's share from the winner's margin the pipeline computes from
      vote counts is a proper fraction. */
  lemma ShareOfVotes(votes: seq<real>, winParty: Cell)
    requires NonNegative(votes)
    ensures var s := Share(WinMargin(votes), winParty);
      s.Some? ==> 0.0 <= s.value <= 1.0
  {
  }

  /* ---------------- compile_data (lines 113-172) ---------------- */

  /** One 2018 rated district after the joins: its 2018 result and
      rating, the 2016 and 2014 results (None when the margin is NaN or the
      district did not match), the presidential residual, the known
      incumbent (NaN when not found) and the state's 2016 presidential share. */
  datatype Raw = Raw(
    confidence: Cell, favored: Cell,
    winParty18: Cell, margin18: Option<real>,
    winParty16: Cell, margin16: Option<real>,
    winParty14: Cell, margin14: Option<real>,
    resid: Option<real>, incumbent: Cell, demState: real)

  datatype Compiled = Compiled(
    confidence: Cell, favored: Cell,
    share18: Option<real>, share16: Option<real>, share14: Option<real>,
    districtResid: real, incumbent: Cell, demPres16: real)

  /** Shares from the margins, a missing residual read as 0, a missing
      incumbent read as the favourite, and the district's presidential
      share as the state's plus the residual. */
  function Compile(r: Raw): (c: Compiled)
    ensures c.incumbent == (if r.incumbent == NaN then r.favored else r.incumbent)
    ensures r.favored != NaN ==> c.incumbent != NaN
    ensures r.resid.None? ==> c.demPres16 == r.demState
    ensures r.resid.Some? ==> c.demPres16 - r.demState == c.districtResid == r.resid.value
    ensures c.share18 == Share(r.margin18, r.winParty18)
    ensures c.share16 == Share(r.margin16, r.winParty16) && c.share14 == Share(r.margin14, r.winParty14)
    ensures c.share18.Some? && 0.0 <= r.margin18.value <= 1.0 ==>
      0.0 <= c.share18.value <= 1.0 && OnWinnerSide(c.share18.value, r.winParty18)
    ensures c.share16.Some? && 0.0 <= r.margin16.value <= 1.0 ==>
      0.0 <= c.share16.value <= 1.0 && OnWinnerSide(c.share16.value, r.winParty16)
  {
    var resid := r.resid.GetOr(0.0);
    Compiled(r.confidence, r.favored,
             Share(r.margin18, r.winParty18), Share(r.margin16, r.winParty16), Share(r.margin14, r.winParty14),
             resid, if r.incumbent == NaN then r.favored else r.incumbent, r.demState + resid)
  }

  /* ---------------- incumbency_advantage (lines 188-206) ---------------- */

  function Abs(x: real): real {
    if x < 0.0 then -x else x
  }

  /** The last result is effectively uncontested when it is more than 25
      points from an even split; a missing one (NaN) is not. */
  predicate Uncontested(last: Option<real>) {
    last.Some? && Abs(last.value - 0.5) > 0.25
  }

  datatype Advantage = Advantage(last: Option<real>, uncontested: bool, elecDiff: Option<real>, incAdv: real)

  predicate MajorParty(c: Cell) {
    c == Str("D") || c == Str("R")
  }

  /** The column updates of incumbency_advantage on one district. */
  method IncumbencyAdvantage(c: Compiled, uncontestedDiff: real) returns (a: Advantage)
    ensures a.last == (if c.share18.Some? then c.share18 else c.share16)
    ensures a.uncontested <==> Uncontested(a.last)
    ensures a.uncontested ==> a.elecDiff == Some(if a.last.value > 0.5 then uncontestedDiff else -uncontestedDiff)
    ensures !a.uncontested && a.last.Some? ==> a.elecDiff == Some(a.last.value - c.demPres16)
    ensures a.last.None? ==> a.elecDiff.None?
    ensures a.incAdv == (if MajorParty(c.incumbent) then a.elecDiff.GetOr(0.0) else 0.0)
  {
    var last := if c.share18.Some? then c.share18 else c.share16;
    var uncontested := Uncontested(last);
    var elecDiff := if last.Some? then Some(last.value - c.demPres16) else None;
    if last.Some? && last.value > 0.5 && uncontested {
      elecDiff := Some(uncontestedDiff);
    }
    if uncontested && last.Some? && last.value <= 0.5 {
      elecDiff := Some(-uncontestedDiff);
    }
    var incAdv: Option<real> := None;
    if MajorParty(c.incumbent) {
      incAdv := elecDiff;
    }
    a := Advantage(last, uncontested, elecDiff, incAdv.GetOr(0.0));
  }

  /** A result recovered from a winner's margin m >= 0 is uncontested
      exactly when the margin is over one half. */
  lemma UncontestedIffLandslide(m: real, winParty: Cell)
    requires m >= 0.0
    ensures Uncontested(Share(Some(m), winParty)) <==> m > 0.5
  {
  }

  /** An uncontested incumbent's advantage is the fixed swing, signed by
      which side won. */
  lemma UncontestedAdvantage(c: Compiled, d: real, a: Advantage)
    requires a.last == (if c.share18.Some? then c.share18 else c.share16)
    requires a.uncontested <==> Uncontested(a.last)
    requires a.uncontested ==> a.elecDiff == Some(if a.last.value > 0.5 then d else -d)
    requires a.incAdv == (if MajorParty(c.incumbent) then a.elecDiff.GetOr(0.0) else 0.0)
    requires MajorParty(c.incumbent) && Uncontested(a.last) && d >= 0.0
    ensures a.last.value > 0.75 ==> a.incAdv == d
    ensures a.last.value < 0.25 ==> a.incAdv == -d
    ensures Abs(a.incAdv) == d
  {
  }

  /* ---------------- The foundations share (lines 43-51) ---------------- */

  /** The presidential share plus the incumbency advantage, kept within
      30% and 70%. */
  function FoundShare(c: Compiled, a: Advantage): (s: real)
    ensures 0.3 <= s <= 0.7
    ensures 0.3 <= c.demPres16 + a.incAdv <= 0.7 ==> s == c.demPres16 + a.incAdv
  {
    NpClip(c.demPres16 + a.incAdv, 0.3, 0.7)
  }

  /** The 2018 result kept within 30% and 70%; a missing one stays missing. */
  function ClippedResult(share18: Option<real>): (s: Option<real>)
    ensures s.Some? <==> share18.Some?
    ensures s.Some? ==> 0.3 <= s.value <= 0.7
  {
    match share18
    case None => None
    case Some(x) => Some(NpClip(x, 0.3, 0.7))
  }

  /** What main keeps for a district before blending. */
  datatype Prediction = Prediction(foundShare: real, chazShare: real, demShare18: Option<real>)

  /** main's steps for one district: compile it, compute its incumbency
      advantage, and derive the three shares; the advantage is returned
      beside the prediction so that the found share can be stated. */
  method Predict(r: Raw, uncontestedDiff: real) returns (p: Prediction, a: Advantage)
    ensures var c := Compile(r);
      && a.last == (if c.share18.Some? then c.share18 else c.share16)
      && (a.uncontested <==> Uncontested(a.last))
      && (a.uncontested ==> a.elecDiff == Some(if a.last.value > 0.5 then uncontestedDiff else -uncontestedDiff))
      && (!a.uncontested && a.last.Some? ==> a.elecDiff == Some(a.last.value - c.demPres16))
      && (a.last.None? ==> a.elecDiff.None?)
      && a.incAdv == (if MajorParty(c.incumbent) then a.elecDiff.GetOr(0.0) else 0.0)
    ensures p.foundShare == FoundShare(Compile(r), a)
    ensures p.foundShare == NpClip(Compile(r).demPres16 + a.incAdv, 0.3, 0.7)
    ensures 0.3 <= p.foundShare <= 0.7 && 0.0 <= p.chazShare <= 1.0
    ensures p.chazShare == ChazShare(r.favored, r.confidence)
    ensures p.demShare18 == ClippedResult(Share(r.margin18, r.winParty18))
    ensures !MajorParty(Compile(r).incumbent) ==> p.foundShare == NpClip(Compile(r).demPres16, 0.3, 0.7)
  {
    var c := Compile(r);
    a := IncumbencyAdvantage(c, uncontestedDiff);
    p := Prediction(FoundShare(c, a), ChazShare(r.favored, r.confidence), ClippedResult(c.share18));
  }
}

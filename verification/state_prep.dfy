/**
 * The races of one state made ready for voter_power (voter_power.py,
 * rating_to_margin and state_voter_powers).
 *
 * Uncontested seats leave the table and lower their chamber's threshold by
 * the Democratic ones among them; every safe independent leaves the table,
 * lowers every threshold by one and changes every tie probability; each
 * remaining rating becomes a signed margin, optionally blended with a
 * foundations margin clipped around it.
 */
module StatePreparation {
  import opened Wrappers
  import opened Errors
  import opened PyValues
  import opened RealArith
  import opened WinProbability
  import opened SeatDistribution
  import opened ChamberOutcome
  import opened CorrelatedError
  import opened VoterPower

  /** One row of all_races: its index label (rowIndex), state and office, the
      forecaster's favoured party and confidence, voters, chamber threshold
      and tie, sensitivities to the sources of correlated error, the
      foundations margin, and the state's both_bad / neither_bad flags. */
  datatype Race = Race(
    rowIndex: nat,
    state: string,
    office: string,
    favored: Cell,
    confidence: Cell,
    voters: nat,
    threshold: int,
    tie: real,
    sensitivities: seq<real>,
    foundMargin: real,
    bothBad: bool,
    neitherBad: bool)

  /** The optional foundations arguments: found_clip (0 = no clip),
      blend_safe and blend_else. */
  datatype Foundations = Foundations(clip: real, blendSafe: real, blendElse: real)

  /** The prepared table handed to voter_power, with the state's flags. */
  datatype Prepared = Prepared(districts: seq<District>, bothBad: bool, neitherBad: bool)

  // ---------------------------------------------------------------------
  // rating_to_margin

  /** The table's margin for the confidence, negated when the Republican is
      favoured; KeyError for a confidence missing from the table, and a
      ValueError for a favoured independent. */
  function RatingToMargin(favored: Cell, confidence: Cell, table: map<string, real>): (r: Result<real, Error>)
    ensures !(confidence.Str? && confidence.s in table) ==> r == Err(RatingNotFound)
    ensures confidence.Str? && confidence.s in table ==>
      && (r.Err? <==> favored == Str("I"))
      && (r.Ok? && favored == Str("R") ==> r.value == -table[confidence.s])
      && (r.Ok? && favored != Str("R") ==> r.value == table[confidence.s])
    ensures r.Err? ==> r.error == RatingNotFound || r.error == IndependentFavored
  {
    if !(confidence.Str? && confidence.s in table) then Err(RatingNotFound)
    else
      var margin := table[confidence.s];
      var signed := if favored == Str("R") then -margin else margin;
      if favored == Str("I") then Err(IndependentFavored) else Ok(signed)
  }

  /** A rating favouring the Republican is the mirror image of the same
      rating favouring the Democrat; a toss-up (False) reads the table as
      the Democratic side. */
  lemma RatingSides(confidence: Cell, table: map<string, real>)
    requires confidence.Str? && confidence.s in table
    ensures RatingToMargin(Str("D"), confidence, table).Ok?
    ensures RatingToMargin(Str("R"), confidence, table) == Ok(-RatingToMargin(Str("D"), confidence, table).value)
    ensures RatingToMargin(False, confidence, table) == RatingToMargin(Str("D"), confidence, table)
  {
  }

  // ---------------------------------------------------------------------
  // Selecting rows

  /** The rows of one state. */
  function InState(races: seq<Race>, state: string): (r: seq<Race>)
    ensures forall x :: x in r <==> x in races && x.state == state
  {
    if races == [] then []
    else (if races[0].state == state then [races[0]] else []) + InState(races[1..], state)
  }

  predicate UncontestedDem(r: Race) {
    r.favored == Str("D") && r.confidence == Str("Uncontested")
  }

  /** Number of uncontested Democratic seats in an office. */
  function UncontestedDems(races: seq<Race>, office: string): (n: nat)
    ensures n <= |races|
    ensures n == 0 <==> forall k :: 0 <= k < |races| ==> !(races[k].office == office && UncontestedDem(races[k]))
  {
    if races == [] then 0
    else (if races[0].office == office && UncontestedDem(races[0]) then 1 else 0) + UncontestedDems(races[1..], office)
  }

  /** The rows whose confidence is not 'Uncontested'. */
  function Contested(races: seq<Race>): (r: seq<Race>)
    ensures forall x :: x in r <==> x in races && x.confidence != Str("Uncontested")
  {
    if races == [] then []
    else (if races[0].confidence != Str("Uncontested") then [races[0]] else []) + Contested(races[1..])
  }

  /** The uncontested Democratic count of the race's office. */
  function OfficeCount(office: string, dLower: nat, dUpper: nat): nat {
    if office == "lower" then dLower else dUpper
  }

  predicate KnownOffice(r: Race) {
    r.office == "lower" || r.office == "upper"
  }

  /** Every threshold lowered by its office's count of uncontested
      Democratic seats; KeyError for an office that has no count. */
  function LowerThresholds(races: seq<Race>, dLower: nat, dUpper: nat): (r: Result<seq<Race>, Error>)
    ensures r.Err? <==> exists k :: 0 <= k < |races| && !KnownOffice(races[k])
    ensures r.Err? ==> r.error == UnknownChamber
    ensures r.Ok? ==> |r.value| == |races| && forall k :: 0 <= k < |races| ==>
      && r.value[k].threshold == races[k].threshold - (if races[k].office == "lower" then dLower else dUpper)
      && r.value[k] == races[k].(threshold := r.value[k].threshold)
  {
    if exists k :: 0 <= k < |races| && !KnownOffice(races[k]) then Err(UnknownChamber)
    else Ok(seq(|races|, k requires 0 <= k < |races| =>
                  races[k].(threshold := races[k].threshold - OfficeCount(races[k].office, dLower, dUpper))))
  }

  // ---------------------------------------------------------------------
  // Safe independents

  /** An independent rated Safe or Uncontested. */
  predicate SafeIndependent(r: Race) {
    r.favored == Str("I") && (r.confidence == Str("Safe") || r.confidence == Str("Uncontested"))
  }

  /** The rows that are (wanted) or are not (!wanted) safe independents, in order. */
  function Independents(races: seq<Race>, wanted: bool): (r: seq<Race>)
    ensures |r| <= |races|
    ensures forall x :: x in r <==> x in races && SafeIndependent(x) == wanted
  {
    if races == [] then []
    else (if SafeIndependent(races[0]) == wanted then [races[0]] else []) + Independents(races[1..], wanted)
  }

  function LabelSet(races: seq<Race>): set<nat> {
    set k | 0 <= k < |races| :: races[k].rowIndex
  }

  /** The tie update as written: `tie /= 0.5` doubles it. */
  function TieAfterIndependentAsWritten(tie: real): (t: real)
    ensures tie > 0.0 ==> t > tie
  {
    tie / 0.5
  }

  /** The tie probability after `steps` safe independents, each applying
      the update as written. */
  function Doubled(tie: real, steps: nat): real {
    if steps == 0 then tie else TieAfterIndependentAsWritten(Doubled(tie, steps - 1))
  }

  /** 2 to the power n. */
  function Pow2(n: nat): (p: real)
    ensures p >= 1.0
  {
    if n == 0 then 1.0 else 2.0 * Pow2(n - 1)
  }

  /** `steps` doublings multiply the tie probability by 2^steps. */
  lemma {:induction false} DoubledIsPower(tie: real, steps: nat)
    ensures Doubled(tie, steps) == tie * Pow2(steps)
  {
    if steps > 0 {
      DoubledIsPower(tie, steps - 1);
      assert Doubled(tie, steps) == (tie * Pow2(steps - 1)) / 0.5;
    }
  }

  lemma DoubledIsPowerAll(steps: nat)
    ensures forall tie :: Doubled(tie, steps) == tie * Pow2(steps)
  {
    forall tie ensures Doubled(tie, steps) == tie * Pow2(steps) {
      DoubledIsPower(tie, steps);
    }
  }

  /** The tie update as evidently intended: halved, since the independent
      sides with either party equally often. */
  function HalveTie(tie: real): real {
    tie * 0.5
  }

  /** The intended tie probability after `steps` safe independents. */
  function Halved(tie: real, steps: nat): real {
    if steps == 0 then tie else HalveTie(Halved(tie, steps - 1))
  }

  /** Every row with its threshold lowered by `steps` and its tie put
      through the update as written `steps` times, which multiplies it by
      2^steps; nothing else changes. */
  function AdjustAll(races: seq<Race>, steps: nat): (r: seq<Race>)
    ensures |r| == |races|
    ensures forall k :: 0 <= k < |races| ==> r[k] == Adjusted(races[k], steps)
  {
    DoubledIsPowerAll(steps);
    seq(|races|, k requires 0 <= k < |races| =>
          races[k].(threshold := races[k].threshold - steps, tie := Doubled(races[k].tie, steps)))
  }

  /** DataFrame.drop for a set of index labels. */
  function WithoutLabels(races: seq<Race>, labels: set<nat>): (r: seq<Race>)
    ensures |r| <= |races|
  {
    if races == [] then []
    else (if races[0].rowIndex in labels then [] else [races[0]]) + WithoutLabels(races[1..], labels)
  }

  /** Dropping keeps exactly the rows whose label is not dropped. */
  lemma {:induction false} WithoutLabelsKeeps(races: seq<Race>, labels: set<nat>)
    ensures forall x :: x in WithoutLabels(races, labels) <==> x in races && x.rowIndex !in labels
  {
    if races != [] {
      WithoutLabelsKeeps(races[1..], labels);
    }
  }

  /** A row after `steps` safe independents: threshold lowered by steps,
      tie multiplied by 2^steps. */
  function Adjusted(x: Race, steps: nat): Race {
    x.(threshold := x.threshold - steps, tie := x.tie * Pow2(steps))
  }

  /** The table after the loop over safe independents: no safe independent
      is left, and every row left is an input row with its threshold lowered
      once and its tie doubled once per safe independent. */
  function AfterIndependents(races: seq<Race>): (r: seq<Race>)
    ensures |r| <= |races|
    ensures forall x :: x in r ==> !SafeIndependent(x)
    ensures var n := |Independents(races, true)|;
      forall x :: x in r ==> exists k ::
        (0 <= k < |races| && x == Adjusted(races[k], n))
  {
    var indies := Independents(races, true);
    DroppedRows(races);
    WithoutLabels(AdjustAll(races, |indies|), LabelSet(indies))
  }

  /** A row's label is in the label set of any rows holding it. */
  lemma LabelOfMember(races: seq<Race>, x: Race)
    ensures x in races ==> x.rowIndex in LabelSet(races)
  {
    if x in races {
      var j :| 0 <= j < |races| && races[j] == x;
    }
  }

  /** What dropping the safe independents' labels leaves of the adjusted rows. */
  lemma DroppedRows(races: seq<Race>)
    ensures var indies := Independents(races, true); var n := |indies|;
      forall x :: x in WithoutLabels(AdjustAll(races, n), LabelSet(indies)) ==>
        && !SafeIndependent(x)
        && exists k ::
             (0 <= k < |races| && x == Adjusted(races[k], n))
  {
    var indies := Independents(races, true);
    var n := |indies|;
    var adjusted := AdjustAll(races, n);
    WithoutLabelsKeeps(adjusted, LabelSet(indies));
    forall x | x in WithoutLabels(adjusted, LabelSet(indies))
      ensures !SafeIndependent(x)
      ensures exists k ::
        (0 <= k < |races| && x == Adjusted(races[k], n))
    {
      var k :| 0 <= k < |adjusted| && adjusted[k] == x;
      assert x == Adjusted(races[k], n);
      LabelOfMember(indies, races[k]);
    }
  }

  /** The loop over safe independents: each lowers every threshold by one,
      doubles every tie (the update as written) and is dropped. */
  method DropSafeIndependents(races: seq<Race>) returns (out: seq<Race>)
    ensures out == AfterIndependents(races)
  {
    var indies := Independents(races, true);
    out := races;
    AdjustNone(races);
    WithoutNone(races);
    assert LabelSet(indies[..0]) == {};
    for j := 0 to |indies|
      invariant out == WithoutLabels(AdjustAll(races, j), LabelSet(indies[..j]))
    {
      AdjustWithout(AdjustAll(races, j), LabelSet(indies[..j]), 1);
      AdjustTwice(races, j);
      out := AdjustAll(out, 1);
      WithoutMore(AdjustAll(races, j + 1), LabelSet(indies[..j]), indies[j].rowIndex);
      LabelSetSnoc(indies, j);
      out := WithoutLabels(out, {indies[j].rowIndex});
    }
    assert indies[..|indies|] == indies;
  }

  lemma LabelSetSnoc(races: seq<Race>, j: nat)
    requires j < |races|
    ensures LabelSet(races[..j + 1]) == LabelSet(races[..j]) + {races[j].rowIndex}
  {
    var longer, shorter := races[..j + 1], races[..j];
    forall l | l in LabelSet(longer) ensures l in LabelSet(shorter) + {races[j].rowIndex} {
      var k :| 0 <= k < |longer| && longer[k].rowIndex == l;
      if k < j {
        assert shorter[k] == longer[k];
      }
    }
    forall l | l in LabelSet(shorter) ensures l in LabelSet(longer) {
      var k :| 0 <= k < |shorter| && shorter[k].rowIndex == l;
      assert longer[k] == shorter[k];
    }
    assert longer[j] == races[j];
  }

  lemma AdjustNone(races: seq<Race>)
    ensures AdjustAll(races, 0) == races
  {
  }

  lemma {:induction false} WithoutNone(races: seq<Race>)
    ensures WithoutLabels(races, {}) == races
  {
    if races != [] {
      WithoutNone(races[1..]);
    }
  }

  lemma AdjustTwice(races: seq<Race>, steps: nat)
    ensures AdjustAll(AdjustAll(races, steps), 1) == AdjustAll(races, steps + 1)
  {
    var once := AdjustAll(races, steps);
    forall k | 0 <= k < |races| ensures AdjustAll(once, 1)[k] == AdjustAll(races, steps + 1)[k] {
      assert AdjustAll(once, 1)[k].tie == (races[k].tie * Pow2(steps)) * 2.0;
    }
  }

  /** Adjusting thresholds and ties keeps the labels, so it commutes with dropping. */
  lemma {:induction false} AdjustWithout(races: seq<Race>, labels: set<nat>, steps: nat)
    ensures AdjustAll(WithoutLabels(races, labels), steps) == WithoutLabels(AdjustAll(races, steps), labels)
  {
    if races != [] {
      var adjusted := AdjustAll(races, steps);
      var rest := WithoutLabels(races[1..], labels);
      var head := if races[0].rowIndex in labels then [] else [races[0]];
      var headAdjusted := if races[0].rowIndex in labels then [] else [adjusted[0]];
      assert WithoutLabels(races, labels) == head + rest;
      AdjustAppend(head, rest, steps);
      assert AdjustAll(head, steps) == headAdjusted;
      assert adjusted[1..] == AdjustAll(races[1..], steps);
      AdjustWithout(races[1..], labels, steps);
      assert WithoutLabels(adjusted, labels) == headAdjusted + WithoutLabels(adjusted[1..], labels);
    }
  }

  lemma AdjustAppend(a: seq<Race>, b: seq<Race>, steps: nat)
    ensures AdjustAll(a + b, steps) == AdjustAll(a, steps) + AdjustAll(b, steps)
  {
  }

  /** Dropping labels one more at a time. */
  lemma {:induction false} WithoutMore(races: seq<Race>, labels: set<nat>, dropped: nat)
    ensures WithoutLabels(WithoutLabels(races, labels), {dropped}) == WithoutLabels(races, labels + {dropped})
  {
    if races != [] {
      WithoutMore(races[1..], labels, dropped);
      var head := if races[0].rowIndex in labels then [] else [races[0]];
      WithoutAppend(head, WithoutLabels(races[1..], labels), {dropped});
    }
  }

  lemma {:induction false} WithoutAppend(a: seq<Race>, b: seq<Race>, labels: set<nat>)
    ensures WithoutLabels(a + b, labels) == WithoutLabels(a, labels) + WithoutLabels(b, labels)
  {
    if a != [] {
      assert (a + b)[0] == a[0];
      assert (a + b)[1..] == a[1..] + b;
      WithoutAppend(a[1..], b, labels);
      var head := if a[0].rowIndex in labels then [] else [a[0]];
      assert WithoutLabels(a + b, labels) == head + WithoutLabels(a[1..] + b, labels);
      assert head + (WithoutLabels(a[1..], labels) + WithoutLabels(b, labels))
          == (head + WithoutLabels(a[1..], labels)) + WithoutLabels(b, labels);
    } else {
      assert a + b == b;
    }
  }

  /** No two rows share an index label. */
  predicate UniqueLabels(races: seq<Race>) {
    forall i, j :: 0 <= i < |races| && 0 <= j < |races| && races[i].rowIndex == races[j].rowIndex ==> i == j
  }

  /** With unique labels, a row's label is among the safe independents'
      labels exactly when the row is a safe independent. */
  lemma IndependentLabels(races: seq<Race>)
    requires UniqueLabels(races)
    ensures forall x :: x in races ==> (x.rowIndex in LabelSet(Independents(races, true)) <==> SafeIndependent(x))
  {
    var indies := Independents(races, true);
    forall x | x in races && x.rowIndex in LabelSet(indies) ensures SafeIndependent(x) {
      var k :| 0 <= k < |indies| && indies[k].rowIndex == x.rowIndex;
      assert indies[k] in races;
      var i :| 0 <= i < |races| && races[i] == indies[k];
      var j :| 0 <= j < |races| && races[j] == x;
      assert i == j;
    }
    forall x | x in races && SafeIndependent(x) ensures x.rowIndex in LabelSet(indies) {
      assert x in indies;
      var k :| 0 <= k < |indies| && indies[k] == x;
    }
  }

  lemma {:induction false} DropMatching(races: seq<Race>, labels: set<nat>)
    requires forall x :: x in races ==> (x.rowIndex in labels <==> SafeIndependent(x))
    ensures WithoutLabels(races, labels) == Independents(races, false)
  {
    if races != [] {
      assert races[0] in races;
      assert forall x :: x in races[1..] ==> x in races;
      DropMatching(races[1..], labels);
    }
  }

  /** With unique labels, the loop leaves exactly the rows that are not
      safe independents, each with its threshold lowered by the number of
      safe independents and its tie doubled that many times. */
  lemma AfterIndependentsExact(races: seq<Race>)
    requires UniqueLabels(races)
    ensures var k := |Independents(races, true)|;
      AfterIndependents(races) == AdjustAll(Independents(races, false), k)
  {
    var indies := Independents(races, true);
    IndependentLabels(races);
    DropMatching(races, LabelSet(indies));
    AdjustWithout(races, LabelSet(indies), |indies|);
  }

  /** Halving keeps a tie probability a probability, and never raises it. */
  lemma {:induction false} HalvedInUnit(tie: real, steps: nat)
    requires 0.0 <= tie <= 1.0
    ensures 0.0 <= Halved(tie, steps) <= tie
  {
    if steps > 0 {
      HalvedInUnit(tie, steps - 1);
    }
  }

  /** As written, one safe independent turns a tie probability of 1 into 2,
      and two toss-up races with a one-seat threshold then give the chamber
      a "probability" of 1.25. */
  lemma TieDoublingLeavesUnit()
    ensures TieAfterIndependentAsWritten(1.0) == 2.0
    ensures ChamberPower(SeatDist([0.5, 0.5]), 1, TieAfterIndependentAsWritten(1.0)) == 1.25
  {
    SingleRace(0.5);
    assert [0.5, 0.5][..1] == [0.5];
    var d := ConvolveRace([0.5, 0.5], 0.5);
    assert d == [0.25, 0.5, 0.25];
    assert d[1..] == [0.5, 0.25];
    assert Sum([0.5, 0.25]) == 0.5 + Sum([0.25]);
    assert Sum([0.25]) == 0.25 + Sum([]);
  }

  // ---------------------------------------------------------------------
  // Margins

  /** rating_to_margin on every row, in order: the first error, or one
      margin per row. */
  function Margins(races: seq<Race>, table: map<string, real>): (r: Result<seq<real>, Error>)
    ensures r.Ok? <==> forall k :: 0 <= k < |races| ==> RatingToMargin(races[k].favored, races[k].confidence, table).Ok?
    ensures r.Ok? ==> (|r.value| == |races| &&
      forall k :: 0 <= k < |races| ==> RatingToMargin(races[k].favored, races[k].confidence, table) == Ok(r.value[k]))
    ensures r.Err? ==> exists k :: (0 <= k < |races| && RatingToMargin(races[k].favored, races[k].confidence, table) == Err(r.error)
      && forall m :: 0 <= m < k ==> RatingToMargin(races[m].favored, races[m].confidence, table).Ok?)
  {
    if races == [] then Ok([])
    else
      match RatingToMargin(races[0].favored, races[0].confidence, table)
      case Err(e) => Err(e)
      case Ok(m) =>
        match Margins(races[1..], table)
        case Err(e) =>
          (ghost var k :| 0 <= k < |races[1..]| && RatingToMargin(races[1..][k].favored, races[1..][k].confidence, table) == Err(e)
             && forall m :: 0 <= m < k ==> RatingToMargin(races[1..][m].favored, races[1..][m].confidence, table).Ok?;
           assert RatingToMargin(races[k + 1].favored, races[k + 1].confidence, table) == Err(e);
           Err(e))
        case Ok(ms) => Ok([m] + ms)
  }

  function Min(a: real, b: real): real {
    if a <= b then a else b
  }

  function Max(a: real, b: real): real {
    if a >= b then a else b
  }

  /** The foundations margin clipped to within `clip` of the rating margin
      (first capped above, then raised below); a zero clip leaves it. */
  function ClipFound(found: real, margin: real, clip: real): (c: real)
    ensures clip == 0.0 ==> c == found
    ensures clip > 0.0 ==> margin - clip <= c <= margin + clip
    ensures clip > 0.0 && margin - clip <= found <= margin + clip ==> c == found
    ensures clip < 0.0 ==> c == margin - clip
  {
    if clip == 0.0 then found else Max(Min(found, margin + clip), margin - clip)
  }

  /** The blended margin of one row: weight blend_safe on the foundations
      margin for a Safe rating and blend_else otherwise. */
  function BlendedMargin(r: Race, margin: real, f: Foundations): (b: real)
  {
    var found := ClipFound(r.foundMargin, margin, f.clip);
    var w := if r.confidence == Str("Safe") then f.blendSafe else f.blendElse;
    Mix(w, margin, found)
  }

  /** A blend with weight in [0, 1] lies between its two margins, and the
      extreme weights pick one of them. */
  lemma MixBetween(w: real, x: real, y: real)
    requires 0.0 <= w <= 1.0
    ensures Min(x, y) <= Mix(w, x, y) <= Max(x, y)
    ensures w == 0.0 ==> Mix(w, x, y) == x
    ensures w == 1.0 ==> Mix(w, x, y) == y
  {
    assert Mix(w, x, y) == x + w * (y - x);
    if x <= y {
      FractionBound(y - x, w);
    } else {
      FractionBound(x - y, w);
      assert w * (y - x) == -(w * (x - y));
    }
    if w == 0.0 {
      assert w * (y - x) == 0.0;
    } else if w == 1.0 {
      assert w * (y - x) == y - x;
    }
  }

  /** Both blend weights are in [0, 1]. */
  predicate BlendWeights(f: Foundations) {
    0.0 <= f.blendSafe <= 1.0 && 0.0 <= f.blendElse <= 1.0
  }

  /** With blend weights in [0, 1] and a non-negative clip, the blended
      margin lies between the rating margin and the clipped foundations
      margin, hence within `clip` of the rating margin. */
  lemma BlendedMarginBounds(r: Race, margin: real, f: Foundations)
    requires BlendWeights(f) && f.clip >= 0.0
    ensures var found := ClipFound(r.foundMargin, margin, f.clip);
      Min(margin, found) <= BlendedMargin(r, margin, f) <= Max(margin, found)
    ensures f.clip > 0.0 ==> margin - f.clip <= BlendedMargin(r, margin, f) <= margin + f.clip
  {
    var w := if r.confidence == Str("Safe") then f.blendSafe else f.blendElse;
    MixBetween(w, margin, ClipFound(r.foundMargin, margin, f.clip));
  }

  /** Every row's blended margin stays within clip of its rating margin. */
  lemma AllBlendedWithinClip(races: seq<Race>, margins: seq<real>, f: Option<Foundations>)
    requires |margins| == |races|
    ensures f.Some? && BlendWeights(f.value) && f.value.clip > 0.0 ==> forall k :: 0 <= k < |races| ==>
      margins[k] - f.value.clip <= BlendedMargin(races[k], margins[k], f.value) <= margins[k] + f.value.clip
  {
    if f.Some? && BlendWeights(f.value) && f.value.clip > 0.0 {
      forall k | 0 <= k < |races|
        ensures margins[k] - f.value.clip <= BlendedMargin(races[k], margins[k], f.value) <= margins[k] + f.value.clip
      {
        BlendedMarginBounds(races[k], margins[k], f.value);
      }
    }
  }

  /** The rows as voter_power's districts, with their final margins. */
  function Districts(races: seq<Race>, margins: seq<real>, f: Option<Foundations>): (ds: seq<District>)
    requires |margins| == |races|
    ensures |ds| == |races|
    ensures forall k :: 0 <= k < |races| ==>
      && ds[k].margin == (if f.Some? then BlendedMargin(races[k], margins[k], f.value) else margins[k])
      && ds[k] == District(ds[k].margin, races[k].sensitivities, races[k].voters,
                           races[k].threshold, races[k].tie, races[k].office)
    ensures f.Some? && BlendWeights(f.value) && f.value.clip > 0.0 ==>
      forall k :: 0 <= k < |races| ==> margins[k] - f.value.clip <= ds[k].margin <= margins[k] + f.value.clip
  {
    AllBlendedWithinClip(races, margins, f);
    seq(|races|, k requires 0 <= k < |races| =>
          District(if f.Some? then BlendedMargin(races[k], margins[k], f.value) else margins[k],
                   races[k].sensitivities, races[k].voters, races[k].threshold, races[k].tie, races[k].office))
  }

  // ---------------------------------------------------------------------
  // state_voter_powers

  /** The table state_voter_powers hands to voter_power, or the error it
      raises on the way; an empty table fails when both_bad is read. */
  function Prepare(allRaces: seq<Race>, state: string, table: map<string, real>, f: Option<Foundations>): (r: Result<Prepared, Error>)
    ensures r.Err? ==> r.error in {UnknownChamber, RatingNotFound, IndependentFavored, NoRaces}
    ensures r.Ok? ==> r.value.districts != []
  {
    var stRaces := InState(allRaces, state);
    var dLower := UncontestedDems(stRaces, "lower");
    var dUpper := UncontestedDems(stRaces, "upper");
    match LowerThresholds(Contested(stRaces), dLower, dUpper)
    case Err(e) => Err(e)
    case Ok(lowered) =>
      var remaining := AfterIndependents(lowered);
      match Margins(remaining, table)
      case Err(e) => Err(e)
      case Ok(ms) =>
        if remaining == [] then Err(NoRaces)
        else Ok(Prepared(Districts(remaining, ms, f), remaining[0].bothBad, remaining[0].neitherBad))
  }

  /** Every row of the state has one sensitivity per source and some voters. */
  predicate StateWellFormed(allRaces: seq<Race>, state: string, sources: seq<seq<Node>>) {
    forall x :: x in allRaces && x.state == state ==> |x.sensitivities| == |sources| && x.voters > 0
  }

  /** Every row has one sensitivity per source and some voters. */
  predicate RowsFit(races: seq<Race>, sources: seq<seq<Node>>) {
    forall x :: x in races ==> |x.sensitivities| == |sources| && x.voters > 0
  }

  /** Lowering thresholds keeps sensitivities and voters. */
  lemma LoweredFit(races: seq<Race>, dLower: nat, dUpper: nat, sources: seq<seq<Node>>)
    requires RowsFit(races, sources) && LowerThresholds(races, dLower, dUpper).Ok?
    ensures RowsFit(LowerThresholds(races, dLower, dUpper).value, sources)
  {
    var lowered := LowerThresholds(races, dLower, dUpper).value;
    forall x | x in lowered ensures |x.sensitivities| == |sources| && x.voters > 0 {
      var k :| 0 <= k < |lowered| && lowered[k] == x;
      assert races[k] in races;
    }
  }

  /** Adjusting for and dropping safe independents keeps them too. */
  lemma AfterIndependentsFit(races: seq<Race>, sources: seq<seq<Node>>)
    requires RowsFit(races, sources)
    ensures RowsFit(AfterIndependents(races), sources)
  {
    var indies := Independents(races, true);
    var adjusted := AdjustAll(races, |indies|);
    WithoutLabelsKeeps(adjusted, LabelSet(indies));
    forall x | x in AfterIndependents(races) ensures |x.sensitivities| == |sources| && x.voters > 0 {
      var k :| 0 <= k < |adjusted| && adjusted[k] == x;
      assert races[k] in races;
    }
  }

  /** The districts carry their rows' sensitivities and voters. */
  lemma DistrictsFit(races: seq<Race>, margins: seq<real>, f: Option<Foundations>, sources: seq<seq<Node>>)
    requires |margins| == |races| && RowsFit(races, sources)
    ensures WellFormed(Districts(races, margins, f), sources)
  {
    var ds := Districts(races, margins, f);
    forall i | 0 <= i < |ds| ensures |ds[i].sensitivities| == |sources| && ds[i].voters > 0 {
      assert races[i] in races;
    }
  }

  /** The rows of the state keep their sensitivities and voters through every step. */
  lemma PreparedWellFormed(allRaces: seq<Race>, state: string, table: map<string, real>, f: Option<Foundations>,
                           sources: seq<seq<Node>>)
    requires StateWellFormed(allRaces, state, sources)
    requires Prepare(allRaces, state, table, f).Ok?
    ensures WellFormed(Prepare(allRaces, state, table, f).value.districts, sources)
  {
    var stRaces := InState(allRaces, state);
    var dLower := UncontestedDems(stRaces, "lower");
    var dUpper := UncontestedDems(stRaces, "upper");
    var contested := Contested(stRaces);
    assert RowsFit(contested, sources);
    LoweredFit(contested, dLower, dUpper, sources);
    var lowered := LowerThresholds(contested, dLower, dUpper).value;
    AfterIndependentsFit(lowered, sources);
    var remaining := AfterIndependents(lowered);
    DistrictsFit(remaining, Margins(remaining, table).value, f, sources);
  }

  /** Preparation succeeds with at least one district, and every district
      comes from a contested row of the state that is not a safe independent,
      with that row's sensitivities, voters and office, and, without
      foundations, that row's rating margin. */
  lemma PreparedRows(allRaces: seq<Race>, state: string, table: map<string, real>, f: Option<Foundations>)
    requires Prepare(allRaces, state, table, f).Ok?
    ensures var p := Prepare(allRaces, state, table, f).value;
      && p.districts != []
      && forall d :: d in p.districts ==> exists x ::
           && x in allRaces && x.state == state && x.confidence != Str("Uncontested") && !SafeIndependent(x)
           && d.sensitivities == x.sensitivities && d.voters == x.voters && d.chamber == x.office
           && (f.None? ==> RatingToMargin(x.favored, x.confidence, table) == Ok(d.margin))
  {
    var stRaces := InState(allRaces, state);
    var lowered := LowerThresholds(Contested(stRaces), UncontestedDems(stRaces, "lower"), UncontestedDems(stRaces, "upper")).value;
    var remaining := AfterIndependents(lowered);
    var ms := Margins(remaining, table).value;
    var ds := Districts(remaining, ms, f);
    assert Prepare(allRaces, state, table, f).value.districts == ds;
    RemainingFromState(allRaces, state);
    DistrictsFromRows(allRaces, state, table, remaining, ms, f);
  }

  /** The districts built from rows that each match a contested row of the
      state come from such rows. */
  lemma DistrictsFromRows(allRaces: seq<Race>, state: string, table: map<string, real>,
                          remaining: seq<Race>, ms: seq<real>, f: Option<Foundations>)
    requires |ms| == |remaining|
    requires forall k :: 0 <= k < |remaining| ==> RatingToMargin(remaining[k].favored, remaining[k].confidence, table) == Ok(ms[k])
    requires forall y :: y in remaining ==> exists x ::
      && x in allRaces && x.state == state && x.confidence != Str("Uncontested") && !SafeIndependent(x)
      && SameRace(y, x)
    ensures forall d :: d in Districts(remaining, ms, f) ==> exists x ::
      && x in allRaces && x.state == state && x.confidence != Str("Uncontested") && !SafeIndependent(x)
      && d.sensitivities == x.sensitivities && d.voters == x.voters && d.chamber == x.office
      && (f.None? ==> RatingToMargin(x.favored, x.confidence, table) == Ok(d.margin))
  {
    var ds := Districts(remaining, ms, f);
    forall d | d in ds ensures exists x ::
      && x in allRaces && x.state == state && x.confidence != Str("Uncontested") && !SafeIndependent(x)
      && d.sensitivities == x.sensitivities && d.voters == x.voters && d.chamber == x.office
      && (f.None? ==> RatingToMargin(x.favored, x.confidence, table) == Ok(d.margin))
    {
      var i :| 0 <= i < |ds| && ds[i] == d;
      assert remaining[i] in remaining;
      var x :| x in allRaces && x.state == state && x.confidence != Str("Uncontested") && !SafeIndependent(x)
               && SameRace(remaining[i], x);
    }
  }

  /** Two rows for the same contest: they differ at most in threshold and tie. */
  predicate SameRace(y: Race, x: Race) {
    && y.sensitivities == x.sensitivities && y.voters == x.voters && y.office == x.office
    && y.favored == x.favored && y.confidence == x.confidence
  }

  /** Every row left after lowering thresholds and dropping safe independents
      is the same contest as a contested row of the state that is not a safe
      independent. */
  lemma RemainingFromState(allRaces: seq<Race>, state: string)
    requires var stRaces := InState(allRaces, state);
      LowerThresholds(Contested(stRaces), UncontestedDems(stRaces, "lower"), UncontestedDems(stRaces, "upper")).Ok?
    ensures var stRaces := InState(allRaces, state);
      var lowered := LowerThresholds(Contested(stRaces), UncontestedDems(stRaces, "lower"), UncontestedDems(stRaces, "upper")).value;
      forall y :: y in AfterIndependents(lowered) ==> exists x ::
        && x in allRaces && x.state == state && x.confidence != Str("Uncontested") && !SafeIndependent(x)
        && SameRace(y, x)
  {
    var stRaces := InState(allRaces, state);
    var contested := Contested(stRaces);
    var lowered := LowerThresholds(contested, UncontestedDems(stRaces, "lower"), UncontestedDems(stRaces, "upper")).value;
    var n := |Independents(lowered, true)|;
    forall y | y in AfterIndependents(lowered) ensures exists x ::
      && x in allRaces && x.state == state && x.confidence != Str("Uncontested") && !SafeIndependent(x)
      && SameRace(y, x)
    {
      var k :| 0 <= k < |lowered| && y == Adjusted(lowered[k], n);
      assert contested[k] in contested;
      assert SameRace(y, contested[k]);
    }
  }

  /** A contested row of the state whose office is neither chamber makes
      preparation fail with the chamber KeyError, whatever else is wrong. */
  lemma UnknownOfficeFails(allRaces: seq<Race>, state: string, table: map<string, real>, f: Option<Foundations>, x: Race)
    requires x in allRaces && x.state == state && x.confidence != Str("Uncontested") && !KnownOffice(x)
    ensures Prepare(allRaces, state, table, f) == Err(UnknownChamber)
  {
    var contested := Contested(InState(allRaces, state));
    assert x in contested;
    var k :| 0 <= k < |contested| && contested[k] == x;
  }

  /** state_voter_powers: the prepared districts with their voter powers
      (or the success probability alone), or the first error raised. */
  method StateVoterPowers(allRaces: seq<Race>, state: string, table: map<string, real>, f: Option<Foundations>,
                          sources: seq<seq<Node>>, model: RaceModel, probOnly: bool)
    returns (r: Result<(seq<District>, Outcome), Error>)
    requires Usable(model) && StateWellFormed(allRaces, state, sources)
    ensures Prepare(allRaces, state, table, f).Err? ==> r == Err(Prepare(allRaces, state, table, f).error)
    ensures Prepare(allRaces, state, table, f).Ok? ==>
      var p := Prepare(allRaces, state, table, f).value;
      && WellFormed(p.districts, sources)
      && (r.Ok? ==> r.value.0 == p.districts)
      && VoterPowerResult(p.districts, sources, model, p.bothBad, p.neitherBad, probOnly,
                          if r.Ok? then Ok(r.value.1) else Err(r.error))
  {
    var stRaces := InState(allRaces, state);
    var dLower := UncontestedDems(stRaces, "lower");
    var dUpper := UncontestedDems(stRaces, "upper");
    stRaces := Contested(stRaces);
    var lowered := LowerThresholds(stRaces, dLower, dUpper);
    if lowered.Err? {
      return Err(lowered.error);
    }
    stRaces := DropSafeIndependents(lowered.value);
    var margins := Margins(stRaces, table);
    if margins.Err? {
      return Err(margins.error);
    }
    if stRaces == [] {
      return Err(NoRaces);
    }
    var districts := Districts(stRaces, margins.value, f);
    PreparedWellFormed(allRaces, state, table, f, sources);
    var outcome := ComputeVoterPower(districts, sources, model, stRaces[0].bothBad, stRaces[0].neitherBad, probOnly);
    if outcome.Err? {
      return Err(outcome.error);
    }
    return Ok((districts, outcome.value));
  }
}

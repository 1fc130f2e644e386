/**
 * Whether the 2020 incumbent is the person who won the seat in 2016
 * (historical_incumbency.py): the fuzzy-match classification of a 2018
 * candidate list, the "Last, First" name rewrite, and the per-district
 * rule of get_incumbency_2016. The fuzzy matcher (difflib's ratio) and the
 * title-casing library are parameters.
 */
module HistoricalIncumbency {
  import opened Wrappers
  import opened Errors
  import opened PyValues
  import opened Cnalysis

  /* ---------------- incumb_ratio (lines 51-60) ---------------- */

  /** The party whose candidate matches the previous winner, from the three
      match ratios: a Democrat needs a ratio of at least 0.7 beating both
      others, an independent at least 0.7 beating the Republican, a
      Republican at least 0.7; otherwise no incumbent. */
  function IncumbRatio(dem: real, ind: real, rep: real): (party: Cell)
    ensures party == Str("D") <==> dem >= 0.7 && dem > ind && dem > rep
    ensures party == Str("I") <==> !(dem >= 0.7 && dem > ind && dem > rep) && ind >= 0.7 && ind > rep
    ensures party == Str("R") <==> !(dem >= 0.7 && dem > ind && dem > rep) && !(ind >= 0.7 && ind > rep) && rep >= 0.7
    ensures party in {Str("D"), Str("I"), Str("R"), False}
  {
    if dem >= 0.7 && dem > ind && dem > rep then Str("D")
    else if ind >= 0.7 && ind > rep then Str("I")
    else if rep >= 0.7 then Str("R")
    else False
  }

  /** The ratio of the party an IncumbRatio result names. */
  function RatioOf(party: Cell, dem: real, ind: real, rep: real): real {
    if party == Str("D") then dem else if party == Str("I") then ind else rep
  }

  /** An incumbent is named exactly when some ratio reaches 0.7, and the
      named party's ratio is the best of those that do (a tie with the
      Republican goes to the Republican, a Democrat-independent tie to the
      independent). */
  lemma IncumbRatioBestMatch(dem: real, ind: real, rep: real)
    ensures var party := IncumbRatio(dem, ind, rep);
      && (party == False <==> dem < 0.7 && ind < 0.7 && rep < 0.7)
      && (party != False ==> RatioOf(party, dem, ind, rep) >= 0.7)
      && (party != False && dem >= 0.7 ==> dem <= RatioOf(party, dem, ind, rep))
      && (party != False && ind >= 0.7 ==> ind <= RatioOf(party, dem, ind, rep))
      && (party != False && rep >= 0.7 ==> rep <= RatioOf(party, dem, ind, rep))
  {
  }

  /** Equal Democratic and Republican matches go to the Republican. */
  lemma RatioTieGoesRepublican(x: real, ind: real)
    requires x >= 0.7 && ind <= x
    ensures IncumbRatio(x, ind, x) == Str("R")
  {
  }

  /* ---------------- Winner name (lines 147-148) ---------------- */

  /** str(x).split(','), then the last piece, a space and the first piece:
      the text after the last comma is put in front of the text before the
      first comma, so "Last, First" becomes " First Last" (the space after
      the comma is kept), no comma is left, and a name with no comma is
      written twice. */
  function ReorderName(winner: Cell): (name: string)
    ensures ',' !in name
    ensures ',' !in Text(winner) ==> name == Text(winner) + " " + Text(winner)
    ensures var s := Text(winner);
      var ps := Split(s, ',');
      && name == ps[|ps| - 1] + " " + ps[0]
      && IsPrefix(ps[0], s) && IsSuffix(ps[|ps| - 1], s)
      && (',' in s ==> s[|ps[0]|] == ',')
  {
    var ps := Split(Text(winner), ',');
    FirstAndLastPiece(Text(winner), ',', ps);
    ps[|ps| - 1] + " " + ps[0]
  }

  /** A "Last, First" name is turned around; any comma-free last and first
      names come back in the other order. */
  lemma ReorderLastFirst(last: string, first: string)
    requires ',' !in last && ',' !in first
    ensures ReorderName(Str(last + "," + first)) == first + " " + last
  {
    assert Join([last, first], ',') == last + "," + first;
    SplitJoin([last, first], ',');
  }

  /** A name without a comma is repeated, and a missing one reads "nan nan". */
  lemma ReorderNoComma(name: string)
    requires ',' !in name
    ensures ReorderName(Str(name)) == name + " " + name
    ensures ReorderName(NaN) == "nan nan"
  {
    assert Text(NaN) == "nan" && ',' !in "nan";
  }

  /* ---------------- get_incumbency_2016 (lines 121-171) ---------------- */

  /** One district of the 2020 input: its incumbent party, the R and D
      nominees, the 2016 winner, and the hand-checked incumbent (NaN when
      the district was not checked by hand). */
  datatype District = District(incumbent: Cell, nomR: Cell, nomD: Cell, winner: Cell, hand: Cell)

  datatype Checked = Checked(officeholder: string, winner: string, ratio: real,
                             incumbent: Cell, origIncumbent: Cell, hand: Cell)

  /** Only districts held by a Democrat or a Republican are kept. */
  predicate MajorIncumbent(d: District) {
    d.incumbent == Str("D") || d.incumbent == Str("R")
  }

  /** s with every occurrence of c removed. */
  function Remove(s: string, c: char): (r: string)
    ensures c !in r && |r| <= |s|
    ensures c !in s ==> r == s
    ensures forall x :: x != c ==> multiset(r)[x] == multiset(s)[x]
  {
    if s == [] then s
    else
      assert s == [s[0]] + s[1..];
      (if s[0] == c then "" else [s[0]]) + Remove(s[1..], c)
  }

  /** The successive column assignments for one kept district: the
      incumbent party's nominee without asterisks, the winner's name
      turned around and title-cased, their match ratio; the incumbent is
      dropped below a ratio of 0.7, and a hand-checked value overrides.
      A nominee cell that is not text makes str.replace raise. */
  function CheckDistrict(d: District, similar: (string, string) -> real, titlecase: string -> string): (r: Result<Checked, Error>)
    requires MajorIncumbent(d)
    ensures var nominee := if d.incumbent == Str("R") then d.nomR else d.nomD;
      r.Err? <==> !nominee.Str?
    ensures r.Ok? ==> '*' !in r.value.officeholder
    ensures r.Ok? ==> r.value.winner == titlecase(ReorderName(d.winner))
    ensures r.Ok? ==> r.value.ratio == similar(r.value.officeholder, r.value.winner)
    ensures r.Ok? ==> r.value.origIncumbent == (if r.value.ratio >= 0.7 then d.incumbent else False)
    ensures r.Ok? ==> r.value.incumbent == (if d.hand != NaN then d.hand else r.value.origIncumbent)
  {
    var nominee := if d.incumbent == Str("R") then d.nomR else d.nomD;
    if !nominee.Str? then Err(NotText)
    else
      var officeholder := Remove(nominee.s, '*');
      var winner := titlecase(ReorderName(d.winner));
      var ratio := similar(officeholder, winner);
      var incumbent := if ratio >= 0.7 then d.incumbent else False;
      Ok(Checked(officeholder, winner, ratio, if d.hand != NaN then d.hand else incumbent, incumbent, d.hand))
  }

  /** The districts get_incumbency_2016 keeps, in order. */
  function Kept(ds: seq<District>): (kept: seq<District>)
    ensures forall k :: 0 <= k < |kept| ==> MajorIncumbent(kept[k])
    ensures forall d :: d in kept <==> d in ds && MajorIncumbent(d)
  {
    if ds == [] then []
    else (if MajorIncumbent(ds[0]) then [ds[0]] else []) + Kept(ds[1..])
  }

  /** The whole table: each kept district checked; the first that raises
      makes the whole call raise. */
  function CheckAll(ds: seq<District>, similar: (string, string) -> real, titlecase: string -> string): (r: Result<seq<Checked>, Error>)
    requires forall k :: 0 <= k < |ds| ==> MajorIncumbent(ds[k])
    ensures r.Ok? <==> forall k :: 0 <= k < |ds| ==> CheckDistrict(ds[k], similar, titlecase).Ok?
    ensures r.Ok? ==> |r.value| == |ds|
    ensures r.Ok? ==> forall k :: 0 <= k < |ds| ==> CheckDistrict(ds[k], similar, titlecase) == Ok(r.value[k])
  {
    if ds == [] then Ok([])
    else
      var first := CheckDistrict(ds[0], similar, titlecase);
      var rest := CheckAll(ds[1..], similar, titlecase);
      assert forall k :: 1 <= k < |ds| ==> ds[k] == ds[1..][k - 1];
      if first.Err? then Err(first.error)
      else if rest.Err? then Err(rest.error)
      else
        CheckedCons(ds, first.value, rest.value, similar, titlecase);
        Ok([first.value] + rest.value)
  }

  /** Checking the first district and then the rest checks every district. */
  lemma CheckedCons(ds: seq<District>, c: Checked, rest: seq<Checked>,
                    similar: (string, string) -> real, titlecase: string -> string)
    requires ds != [] && forall k :: 0 <= k < |ds| ==> MajorIncumbent(ds[k])
    requires CheckDistrict(ds[0], similar, titlecase) == Ok(c)
    requires |rest| == |ds| - 1
    requires forall k :: 1 <= k < |ds| ==> CheckDistrict(ds[k], similar, titlecase) == Ok(rest[k - 1])
    ensures forall k :: 0 <= k < |ds| ==> CheckDistrict(ds[k], similar, titlecase) == Ok(([c] + rest)[k])
  {
    forall k | 0 <= k < |ds| ensures CheckDistrict(ds[k], similar, titlecase) == Ok(([c] + rest)[k]) {
      if k > 0 {
        assert ([c] + rest)[k] == rest[k - 1];
      }
    }
  }

  /** get_incumbency_2016 before duplicates are dropped: one checked row
      per district held by a Democrat or a Republican, in order; it raises
      when one of them has no nominee text. */
  function GetIncumbency2016(ds: seq<District>, similar: (string, string) -> real, titlecase: string -> string): (r: Result<seq<Checked>, Error>)
    ensures r.Err? <==> exists d :: d in ds && MajorIncumbent(d) && CheckDistrict(d, similar, titlecase).Err?
    ensures r.Ok? ==> |r.value| == |Kept(ds)|
    ensures r.Ok? ==> forall k :: 0 <= k < |Kept(ds)| ==> CheckDistrict(Kept(ds)[k], similar, titlecase) == Ok(r.value[k])
  {
    var kept := Kept(ds);
    assert forall d :: d in kept ==> exists k :: 0 <= k < |kept| && kept[k] == d;
    CheckAll(kept, similar, titlecase)
  }

  /** A hand-checked incumbent always wins; without one, the incumbent
      survives exactly when its nominee matches the 2016 winner with ratio
      at least 0.7, and a Democrat never becomes a Republican or back. */
  lemma CheckedIncumbent(d: District, similar: (string, string) -> real, titlecase: string -> string)
    requires MajorIncumbent(d)
    requires CheckDistrict(d, similar, titlecase).Ok?
    ensures var c := CheckDistrict(d, similar, titlecase).value;
      && (d.hand != NaN ==> c.incumbent == d.hand)
      && (d.hand == NaN ==> (c.incumbent == d.incumbent <==> c.ratio >= 0.7))
      && (d.hand == NaN ==> c.incumbent in {d.incumbent, False})
  {
  }
}

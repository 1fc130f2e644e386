/**
 * Row rules of the CNalysis rating pipeline (cnalysis_input_components.py):
 * the incumbent precedence, the parsing of a rating string, of nominee
 * cells and of a district geoid, the winner's margin of a race, and the two
 * in-place passes over a chamber's table that fill in incumbents.
 */
module Cnalysis {
  import opened Wrappers
  import opened PyValues
  import opened SeatDistribution

  /* ---------------- Incumbent precedence (lines 85-99) ---------------- */

  /** The party of the incumbent from three "has an incumbent" flags:
      a Democrat wins over a Republican, who wins over an independent. */
  function GetIncumb(d: bool, r: bool, i: bool): (party: Cell)
    ensures party == Str("D") <==> d
    ensures party == Str("R") <==> !d && r
    ensures party == Str("I") <==> !d && !r && i
    ensures party == False <==> !d && !r && !i
  {
    if d then Str("D")
    else if r then Str("R")
    else if i then Str("I")
    else False
  }

  /* ---------------- Splitting on a separator ---------------- */

  /** Python's s.split(sep) with an explicit one-character separator:
      consecutive separators give empty pieces, and there is always at
      least one piece. */
  function Split(s: string, sep: char): (pieces: seq<string>)
    ensures |pieces| >= 1
    ensures forall k :: 0 <= k < |pieces| ==> sep !in pieces[k]
  {
    if s == [] then [""]
    else
      var rest := Split(s[1..], sep);
      if s[0] == sep then [""] + rest
      else [[s[0]] + rest[0]] + rest[1..]
  }

  /** sep.join(pieces). */
  function Join(pieces: seq<string>, sep: char): string
    requires |pieces| >= 1
  {
    if |pieces| == 1 then pieces[0]
    else pieces[0] + [sep] + Join(pieces[1..], sep)
  }

  lemma JoinPrepend(c: char, pieces: seq<string>, sep: char)
    requires |pieces| >= 1
    ensures Join([[c] + pieces[0]] + pieces[1..], sep) == [c] + Join(pieces, sep)
  {
    var ps := [[c] + pieces[0]] + pieces[1..];
    assert ps[1..] == pieces[1..];
  }

  /** Joining the pieces back with the separator gives the string again. */
  lemma {:induction false} JoinSplit(s: string, sep: char)
    ensures Join(Split(s, sep), sep) == s
  {
    if s != [] {
      var rest := Split(s[1..], sep);
      JoinSplit(s[1..], sep);
      if s[0] == sep {
        assert ([""] + rest)[1..] == rest;
      } else {
        JoinPrepend(s[0], rest, sep);
      }
    }
  }

  lemma {:induction false} SplitPiece(p: string, sep: char)
    requires sep !in p
    ensures Split(p, sep) == [p]
  {
    if p != [] {
      SplitPiece(p[1..], sep);
      assert [p[0]] + p[1..] == p;
    }
  }

  lemma {:induction false} SplitAfterPiece(p: string, t: string, sep: char)
    requires sep !in p
    ensures Split(p + [sep] + t, sep) == [p] + Split(t, sep)
  {
    if p == [] {
      assert p + [sep] + t == [sep] + t;
      assert ([sep] + t)[1..] == t;
    } else {
      var s := p + [sep] + t;
      assert s[1..] == p[1..] + [sep] + t;
      SplitAfterPiece(p[1..], t, sep);
      assert [p[0]] + p[1..] == p;
    }
  }

  /** Splitting a join of separator-free pieces gives the pieces back. */
  lemma {:induction false} SplitJoin(pieces: seq<string>, sep: char)
    requires |pieces| >= 1
    requires forall k :: 0 <= k < |pieces| ==> sep !in pieces[k]
    ensures Split(Join(pieces, sep), sep) == pieces
  {
    if |pieces| == 1 {
      SplitPiece(pieces[0], sep);
    } else {
      SplitJoin(pieces[1..], sep);
      SplitAfterPiece(pieces[0], Join(pieces[1..], sep), sep);
    }
  }

  predicate IsSuffix(p: string, s: string) {
    |p| <= |s| && s[|s| - |p|..] == p
  }

  /** The first piece is the text up to the first separator, the last
      piece the text after the last one. */
  lemma FirstAndLastPiece(s: string, sep: char, ps: seq<string>)
    requires ps == Split(s, sep)
    ensures |ps| >= 1
    ensures IsPrefix(ps[0], s)
    ensures |ps| == 1 <==> sep !in s
    ensures |ps| == 1 ==> ps[0] == s
    ensures |ps| > 1 ==> s[|ps[0]|] == sep
    ensures IsSuffix(ps[|ps| - 1], s)
  {
    JoinSplit(s, sep);
    JoinShape(ps, sep, s);
  }

  lemma {:induction false} JoinShape(ps: seq<string>, sep: char, s: string)
    requires |ps| >= 1
    requires forall k :: 0 <= k < |ps| ==> sep !in ps[k]
    requires s == Join(ps, sep)
    ensures IsPrefix(ps[0], s)
    ensures |ps| == 1 <==> sep !in s
    ensures |ps| == 1 ==> ps[0] == s
    ensures |ps| > 1 ==> |ps[0]| < |s| && s[|ps[0]|] == sep
    ensures IsSuffix(ps[|ps| - 1], s)
  {
    if |ps| > 1 {
      var t := Join(ps[1..], sep);
      JoinShape(ps[1..], sep, t);
      assert s == ps[0] + [sep] + t;
      assert s[|s| - |t|..] == t;
      assert ps[|ps| - 1] == ps[1..][|ps[1..]| - 1];
      assert s[|s| - |ps[|ps| - 1]|..] == t[|t| - |ps[|ps| - 1]|..];
      assert s[|ps[0]|] == sep;
      assert s[..|ps[0]|] == ps[0];
    }
  }

  /* ---------------- Rating string (lines 117-124) ---------------- */

  /** favored is the last space-separated word of the rating and
      confidence the first; "Toss-Up" and "Election" are no favourite, and
      "No" (as in "No Election") no confidence. */
  function ParseRating(rating: string): (r: (Cell, Cell))
    ensures var words := Split(rating, ' ');
      && (r.0 == False <==> words[|words| - 1] in {"Toss-Up", "Election"})
      && (r.0 != False ==> r.0 == Str(words[|words| - 1]))
      && (r.1 == False <==> words[0] == "No")
      && (r.1 != False ==> r.1 == Str(words[0]))
  {
    var words := Split(rating, ' ');
    var last := words[|words| - 1];
    var favored := if last == "Toss-Up" then False else Str(last);
    var favored := if favored == Str("Election") then False else favored;
    var confidence := if words[0] == "No" then False else Str(words[0]);
    (favored, confidence)
  }

  /** The usual rating strings. */
  lemma SafeExample()
    ensures ParseRating("Safe D") == (Str("D"), Str("Safe"))
  {
    assert Join(["Safe", "D"], ' ') == "Safe D";
    SplitJoin(["Safe", "D"], ' ');
  }

  lemma TossUpExample()
    ensures ParseRating("Toss-Up") == (False, Str("Toss-Up"))
  {
    SplitPiece("Toss-Up", ' ');
  }

  lemma NoElectionExample()
    ensures ParseRating("No Election") == (False, False)
  {
    assert Join(["No", "Election"], ' ') == "No Election";
    SplitJoin(["No", "Election"], ' ');
  }

  /** Favourite and confidence both come from a rating's words: a favourite
      is the text after the last space, a confidence the text before the
      first space (the whole rating when it has no space). */
  lemma RatingWords(rating: string)
    ensures var (favored, confidence) := ParseRating(rating);
      && (favored.Str? ==> (IsSuffix(favored.s, rating) && ' ' !in favored.s))
      && (confidence.Str? ==> (IsPrefix(confidence.s, rating) && ' ' !in confidence.s))
      && (confidence.Str? && |confidence.s| < |rating| ==> rating[|confidence.s|] == ' ')
  {
    FirstAndLastPiece(rating, ' ', Split(rating, ' '));
  }

  /* ---------------- Nominee cells (lines 130-150) ---------------- */

  /** str(x) for a cell: NaN prints as "nan". */
  function Text(c: Cell): string {
    match c
    case Str(s) => s
    case False => "False"
    case NaN => "nan"
  }

  predicate IsPrefix(p: string, s: string) {
    |p| <= |s| && s[..|p|] == p
  }

  /** sub occurs somewhere in s. */
  predicate Contains(s: string, sub: string)
    decreases |s|
  {
    IsPrefix(sub, s) || (s != [] && Contains(s[1..], sub))
  }

  /** '[I]' in str(nominee): the nominee is marked as the incumbent. */
  predicate Marked(nominee: Cell) {
    Contains(Text(nominee), "[I]")
  }

  /** The incumbent's party from the three raw nominee cells. */
  function Incumbent(dNom: Cell, rNom: Cell, iNom: Cell): (party: Cell)
    ensures party == False <==> !Marked(dNom) && !Marked(rNom) && !Marked(iNom)
    ensures party == Str("D") <==> Marked(dNom)
  {
    GetIncumb(Marked(dNom), Marked(rNom), Marked(iNom))
  }

  /** A missing nominee is never marked as the incumbent. */
  lemma MissingNomineeUnmarked()
    ensures !Marked(NaN)
  {
    assert "nan"[1..] == "an" && "an"[1..] == "n" && "n"[1..] == "";
    assert !Contains("", "[I]");
    assert !Contains("n", "[I]");
    assert !Contains("an", "[I]");
    assert !IsPrefix("[I]", "nan") by {
      assert "nan"[..3][0] == 'n';
    }
  }

  /** A "TBA" nominee is not marked as the incumbent. */
  lemma TbaUnmarked()
    ensures !Marked(Str("TBA"))
  {
    assert "TBA"[1..] == "BA";
    assert "BA"[1..] == "A";
    assert "A"[1..] == "";
    assert !Contains("", "[I]");
    assert !Contains("A", "[I]");
    assert !Contains("BA", "[I]");
    assert !IsPrefix("[I]", "TBA") by {
      assert "TBA"[..3][0] == 'T';
    }
  }

  /** The text of s before the first occurrence of pat (all of s if none):
      s.split(pat)[0]. */
  function Before(s: string, pat: string): (b: string)
    requires pat != []
    ensures IsPrefix(b, s)
    ensures b == s <==> !Contains(s, pat)
    ensures b != s ==> IsPrefix(pat, s[|b|..])
    ensures forall i :: 0 <= i < |b| ==> !IsPrefix(pat, s[i..])
    decreases |s|
  {
    if IsPrefix(pat, s) then ""
    else if s == [] then s
    else
      var rest := Before(s[1..], pat);
      BeforeCons(s, pat, rest);
      [s[0]] + rest
  }

  /** The step of Before past a position where pat does not start. */
  lemma BeforeCons(s: string, pat: string, rest: string)
    requires pat != [] && s != [] && !IsPrefix(pat, s)
    requires IsPrefix(rest, s[1..])
    requires rest == s[1..] <==> !Contains(s[1..], pat)
    requires rest != s[1..] ==> IsPrefix(pat, s[1..][|rest|..])
    requires forall i :: 0 <= i < |rest| ==> !IsPrefix(pat, s[1..][i..])
    ensures IsPrefix([s[0]] + rest, s)
    ensures [s[0]] + rest == s <==> !Contains(s, pat)
    ensures [s[0]] + rest != s ==> IsPrefix(pat, s[|[s[0]] + rest|..])
    ensures forall i :: 0 <= i < |[s[0]] + rest| ==> !IsPrefix(pat, s[i..])
  {
    var b := [s[0]] + rest;
    assert s == [s[0]] + s[1..];
    assert s[1..][|rest|..] == s[|b|..];
    forall i | 0 <= i < |b| ensures !IsPrefix(pat, s[i..]) {
      if i > 0 {
        assert s[i..] == s[1..][i - 1..];
      }
    }
  }

  /** nom.fillna(False), then False when falsy, else the text before " [I]". */
  function NomineeName(raw: Cell): (name: Cell)
    ensures name == False <==> !raw.Str? || raw.s == ""
    ensures name.Str? ==> raw.Str? && IsPrefix(name.s, raw.s)
    ensures raw.Str? && !Contains(raw.s, " [I]") ==> name == raw || raw.s == ""
  {
    match raw
    case Str(s) => if s == "" then False else Str(Before(s, " [I]"))
    case _ => False
  }

  lemma NomineeExamples()
    ensures NomineeName(Str("Roe [I]")) == Str("Roe")
    ensures NomineeName(NaN) == False
  {
    var s := "Roe [I]";
    assert s[3..] == " [I]";
    forall i | 0 <= i < 3 ensures !IsPrefix(" [I]", s[i..]) {
      assert s[i..][0] == s[i] != ' ';
    }
    BeforeAt(s, " [I]", 3);
  }

  /** Before stops at the first position where pat starts. */
  lemma {:induction false} BeforeAt(s: string, pat: string, k: nat)
    requires pat != [] && k <= |s|
    requires IsPrefix(pat, s[k..])
    requires forall i :: 0 <= i < k ==> !IsPrefix(pat, s[i..])
    ensures Before(s, pat) == s[..k]
    decreases k
  {
    if k == 0 {
      assert s[0..] == s;
    } else {
      assert s[0..] == s;
      assert !IsPrefix(pat, s);
      assert Before(s, pat) == [s[0]] + Before(s[1..], pat);
      var t := s[1..];
      assert t[k - 1..] == s[k..];
      forall i | 0 <= i < k - 1 ensures !IsPrefix(pat, t[i..]) {
        assert t[i..] == s[i + 1..];
      }
      BeforeAt(t, pat, k - 1);
      assert s[..k] == [s[0]] + t[..k - 1];
    }
  }

  /* ---------------- Incumbent fill (lines 154-166) ---------------- */

  /** The nominee cell of a party, as the fill rules read it. */
  function NomOf(party: string, nomD: Cell, nomR: Cell, nomI: Cell): Cell {
    if party == "D" then nomD else if party == "R" then nomR else nomI
  }

  /** Lines 161-166: when X is favoured, X's nominee cell is empty and no
      incumbent was found, X is taken to hold the seat (X = R, D, I). */
  function FillFromMissingNominee(favored: Cell, dRaw: Cell, rRaw: Cell, iRaw: Cell, incumbent: Cell): (inc: Cell)
    ensures incumbent != False ==> inc == incumbent
    ensures incumbent == False && favored in {Str("D"), Str("R"), Str("I")} ==>
      (inc == favored <==> NomOf(favored.s, dRaw, rRaw, iRaw) == NaN)
    ensures inc != incumbent ==> incumbent == False && inc == favored
  {
    var inc := if favored == Str("R") && rRaw == NaN && incumbent == False then Str("R") else incumbent;
    var inc := if favored == Str("D") && dRaw == NaN && inc == False then Str("D") else inc;
    if favored == Str("I") && iRaw == NaN && inc == False then Str("I") else inc
  }

  /** Lines 154-159 as written: the mask ends in `Series is False`, an
      identity test that is always false, so no row is selected and the
      incumbent is returned unchanged. */
  function FillFromTbaAsWritten(favored: Cell, nomD: Cell, nomR: Cell, nomI: Cell, incumbent: Cell): (inc: Cell)
    ensures inc == incumbent
  {
    var seriesIsFalse := false;
    var inc := if favored == Str("R") && nomR == Str("TBA") && seriesIsFalse then Str("R") else incumbent;
    var inc := if favored == Str("D") && nomD == Str("TBA") && seriesIsFalse then Str("D") else inc;
    if favored == Str("I") && nomI == Str("TBA") && seriesIsFalse then Str("I") else inc
  }

  /** Lines 154-159 as their comment means them: a favoured party whose
      nominee is still "TBA" is taken to hold an empty seat; an existing
      incumbent is kept. */
  function FillFromTba(favored: Cell, nomD: Cell, nomR: Cell, nomI: Cell, incumbent: Cell): (inc: Cell)
    ensures incumbent != False ==> inc == incumbent
    ensures incumbent == False && favored in {Str("D"), Str("R"), Str("I")} ==>
      (inc == favored <==> NomOf(favored.s, nomD, nomR, nomI) == Str("TBA"))
    ensures inc != incumbent ==> incumbent == False && inc == favored
  {
    var inc := if favored == Str("R") && nomR == Str("TBA") && incumbent == False then Str("R") else incumbent;
    var inc := if favored == Str("D") && nomD == Str("TBA") && inc == False then Str("D") else inc;
    if favored == Str("I") && nomI == Str("TBA") && inc == False then Str("I") else inc
  }

  /** The TBA fill as written never changes a row, even one it was meant
      for, while the intended fill gives that row to the favourite. */
  lemma TbaFillIsDead(favored: Cell, nomD: Cell, nomR: Cell, nomI: Cell, incumbent: Cell)
    ensures FillFromTbaAsWritten(favored, nomD, nomR, nomI, incumbent) == incumbent
    ensures FillFromTbaAsWritten(Str("R"), False, Str("TBA"), False, False) == False
    ensures FillFromTba(Str("R"), False, Str("TBA"), False, False) == Str("R")
  {
  }

  /** The intended TBA fill: an existing incumbent is kept; otherwise the
      favoured party takes the seat exactly when its nominee is "TBA". */
  lemma TbaFillIntended(favored: Cell, nomD: Cell, nomR: Cell, nomI: Cell, incumbent: Cell)
    ensures var inc := FillFromTba(favored, nomD, nomR, nomI, incumbent);
      && (incumbent != False ==> inc == incumbent)
      && (incumbent == False && favored in {Str("D"), Str("R"), Str("I")} ==>
            (inc == favored <==> NomOf(favored.s, nomD, nomR, nomI) == Str("TBA")))
      && (inc != incumbent ==> incumbent == False && inc == favored)
  {
  }

  /** The two fills as written, applied twice, change nothing more. */
  lemma FillIdempotent(favored: Cell, nomD: Cell, nomR: Cell, nomI: Cell,
                       dRaw: Cell, rRaw: Cell, iRaw: Cell, incumbent: Cell)
    ensures var once := FillFromMissingNominee(favored, dRaw, rRaw, iRaw, FillFromTbaAsWritten(favored, nomD, nomR, nomI, incumbent));
      FillFromMissingNominee(favored, dRaw, rRaw, iRaw, FillFromTbaAsWritten(favored, nomD, nomR, nomI, once)) == once
  {
  }

  /* ---------------- Geoid (lines 169-171) ---------------- */

  function Zeros(n: nat): (z: string)
    ensures |z| == n && forall k :: 0 <= k < n ==> z[k] == '0'
  {
    if n == 0 then "" else "0" + Zeros(n - 1)
  }

  /** Python's str.zfill(width): pad with '0' on the left to `width`
      characters, keeping a leading sign in front of the padding. */
  function ZFill(s: string, width: nat): (z: string)
    ensures |s| >= width ==> z == s
    ensures |z| == if |s| >= width then |s| else width
    ensures |s| < width && (s == [] || s[0] !in "+-") ==> z == Zeros(width - |s|) + s
    ensures |s| < width && s != [] && s[0] in "+-" ==> z == [s[0]] + Zeros(width - |s|) + s[1..]
  {
    if |s| >= width then s
    else if s != [] && s[0] in "+-" then [s[0]] + Zeros(width - |s|) + s[1..]
    else Zeros(width - |s|) + s
  }

  /** The padded geoid and its split into state FIPS code and district number. */
  function SplitGeoid(raw: string): (r: (string, string, string))
    ensures |r.0| >= 5 && |r.1| == 2
    ensures r.1 + r.2 == r.0
    ensures r.0 == ZFill(raw, 5)
  {
    var geoid := ZFill(raw, 5);
    (geoid, geoid[..2], geoid[2..])
  }

  /** A district of state 6 numbered "1" reads as state "06", district "001". */
  lemma GeoidExample()
    ensures SplitGeoid("6001") == ("06001", "06", "001")
  {
    assert Zeros(1) == "0";
    var g := ZFill("6001", 5);
    assert g == "06001";
    assert g[..2] == "06";
    assert g[2..] == "001";
  }

  /* ---------------- The whole rating row (lines 117-171) ---------------- */

  datatype RawRating = RawRating(
    state: string, rating: string, flip: Cell,
    dNom: Cell, rNom: Cell, iNom: Cell, geoid: string)

  datatype CleanRating = CleanRating(
    state: string, flip: bool, favored: Cell, confidence: Cell, incumbent: Cell,
    nomD: Cell, nomR: Cell, nomI: Cell, geoid: string, stateFips: string, districtNum: string)

  /** Vermont and West Virginia elect multi-member districts and are dropped. */
  predicate MultiMember(state: string) {
    state in {"VT", "WV"}
  }

  function Clean(r: RawRating): (c: CleanRating)
    ensures c.flip <==> r.flip != NaN
    ensures (c.favored, c.confidence) == ParseRating(r.rating)
    ensures c.incumbent != Incumbent(r.dNom, r.rNom, r.iNom) ==>
      Incumbent(r.dNom, r.rNom, r.iNom) == False && c.incumbent == c.favored
    ensures c.stateFips + c.districtNum == c.geoid && |c.stateFips| == 2
  {
    var (favored, confidence) := ParseRating(r.rating);
    var nomD, nomR, nomI := NomineeName(r.dNom), NomineeName(r.rNom), NomineeName(r.iNom);
    var inc := Incumbent(r.dNom, r.rNom, r.iNom);
    var inc := FillFromTbaAsWritten(favored, nomD, nomR, nomI, inc);
    var inc := FillFromMissingNominee(favored, r.dNom, r.rNom, r.iNom, inc);
    var (geoid, fips, num) := SplitGeoid(r.geoid);
    CleanRating(r.state, r.flip != NaN, favored, confidence, inc, nomD, nomR, nomI, geoid, fips, num)
  }

  /** clean_initial_rating on a table: multi-member states dropped, every
      other row cleaned, in order. */
  function CleanInitialRating(rows: seq<RawRating>): (out: seq<CleanRating>)
    ensures |out| <= |rows|
  {
    if rows == [] then []
    else (if MultiMember(rows[0].state) then [] else [Clean(rows[0])]) + CleanInitialRating(rows[1..])
  }

  /** Every cleaned row comes from a kept raw row, and every kept raw row is cleaned. */
  lemma {:induction false} CleanInitialRatingRows(rows: seq<RawRating>)
    ensures forall c :: c in CleanInitialRating(rows) <==>
      exists r :: r in rows && !MultiMember(r.state) && c == Clean(r)
  {
    if rows != [] {
      CleanInitialRatingRows(rows[1..]);
      assert forall r :: r in rows <==> r == rows[0] || r in rows[1..];
    }
  }

  /** As written, a seat that favours R, whose R nominee is still "TBA"
      and which has no incumbent on file, keeps no incumbent. */
  lemma TbaSeatStaysEmpty(state: string, geoid: string)
    ensures Clean(RawRating(state, "Safe R", NaN, NaN, Str("TBA"), NaN, geoid)).incumbent == False
  {
    var r := RawRating(state, "Safe R", NaN, NaN, Str("TBA"), NaN, geoid);
    assert ParseRating(r.rating).0 == Str("R") by {
      assert Join(["Safe", "R"], ' ') == "Safe R";
      SplitJoin(["Safe", "R"], ' ');
    }
    assert Incumbent(r.dNom, r.rNom, r.iNom) == False by {
      MissingNomineeUnmarked();
      TbaUnmarked();
    }
    var inc := FillFromTbaAsWritten(Str("R"), NomineeName(r.dNom), NomineeName(r.rNom), NomineeName(r.iNom), False);
    assert FillFromMissingNominee(Str("R"), r.dNom, r.rNom, r.iNom, inc) == False;
  }

  /** A seat held by no one and favouring a party with no nominee on file
      goes to that party. */
  lemma MissingNomineeFill(r: RawRating, party: string)
    requires party in {"D", "R", "I"}
    requires ParseRating(r.rating).0 == Str(party)
    requires r.dNom == NaN && r.rNom == NaN && r.iNom == NaN
    ensures Clean(r).incumbent == Str(party)
  {
    MissingNomineeUnmarked();
  }

  /* ---------------- Winner's margin (lines 611-612) ---------------- */

  function Largest(votes: seq<real>): (m: real)
    requires votes != []
    ensures m in votes
    ensures forall k :: 0 <= k < |votes| ==> votes[k] <= m
  {
    if |votes| == 1 then votes[0]
    else
      var rest := Largest(votes[1..]);
      if votes[0] >= rest then votes[0] else rest
  }

  /** votes without one occurrence of x (the first). */
  function RemoveOne(votes: seq<real>, x: real): (r: seq<real>)
    requires x in votes
    ensures |r| == |votes| - 1
    ensures multiset(r) == multiset(votes) - multiset{x}
  {
    assert votes == [votes[0]] + votes[1..];
    if votes[0] == x then votes[1..]
    else [votes[0]] + RemoveOne(votes[1..], x)
  }

  /** The runner-up's vote: the largest after removing one copy of the
      largest, so a tie for first gives the same number twice. */
  function SecondLargest(votes: seq<real>): real
    requires |votes| >= 2
  {
    Largest(RemoveOne(votes, Largest(votes)))
  }

  /** The winner's lead over the runner-up. */
  function Lead(votes: seq<real>): real
    requires |votes| >= 2
  {
    Largest(votes) - SecondLargest(votes)
  }

  /** One candidate: margin 1. Otherwise the lead of the first over the
      second over all votes cast; None when no vote was cast (0 / 0 is NaN). */
  function WinMargin(votes: seq<real>): (r: Option<real>)
    ensures r.None? <==> |votes| >= 2 && Sum(votes) == 0.0
    ensures r.Some? && NonNegative(votes) ==> 0.0 <= r.value <= 1.0
  {
    if |votes| < 2 then Some(1.0)
    else if Sum(votes) == 0.0 then None
    else LeadShareInUnit(votes); Some(Lead(votes) / Sum(votes))
  }

  /** Removing one copy of x takes x out of the total. */
  lemma {:induction false} SumRemoveOne(votes: seq<real>, x: real)
    requires x in votes
    ensures Sum(votes) == x + Sum(RemoveOne(votes, x))
    decreases |votes|
  {
    SumFirst(votes);
    if votes[0] != x {
      assert votes == [votes[0]] + votes[1..];
      assert x in votes[1..];
      SumRemoveOne(votes[1..], x);
      var r := RemoveOne(votes, x);
      SumFirst(r);
      assert r[1..] == RemoveOne(votes[1..], x);
    }
  }

  /** What is left after removing one copy was in the votes. */
  lemma RemainingWasCast(votes: seq<real>, x: real, y: real)
    requires x in votes && y in RemoveOne(votes, x)
    ensures y in votes
  {
    assert y in multiset(RemoveOne(votes, x));
    assert y in multiset(votes);
  }

  /** The runner-up's vote and the winner's together are at most the total. */
  lemma TopTwoAtMostSum(votes: seq<real>)
    requires |votes| >= 2 && NonNegative(votes)
    ensures 0.0 <= SecondLargest(votes) <= Largest(votes)
    ensures Largest(votes) + SecondLargest(votes) <= Sum(votes)
  {
    var top := Largest(votes);
    var rest := RemoveOne(votes, top);
    SumRemoveOne(votes, top);
    var second := Largest(rest);
    RemainingWasCast(votes, top, second);
    var j :| 0 <= j < |rest| && rest[j] == second;
    assert NonNegative(rest) by {
      forall k | 0 <= k < |rest| ensures rest[k] >= 0.0 {
        RemainingWasCast(votes, top, rest[k]);
      }
    }
    EntryAtMostSum(rest, j);
  }

  /** For vote counts the winner's lead is a fraction of the votes cast. */
  lemma LeadShareInUnit(votes: seq<real>)
    requires |votes| >= 2 && Sum(votes) != 0.0
    ensures NonNegative(votes) ==> 0.0 <= Lead(votes) / Sum(votes) <= 1.0
  {
    if NonNegative(votes) {
      TopTwoAtMostSum(votes);
      SumNonNegative(votes);
      DivideAtMost(Lead(votes), Sum(votes));
    }
  }

  lemma DivideAtMost(x: real, y: real)
    requires 0.0 <= x <= y && y > 0.0
    ensures 0.0 <= x / y <= 1.0
  {
  }

  /** With votes cast, the margin is 0 exactly when the first two tie. */
  lemma WinMarginZeroIffTie(votes: seq<real>)
    requires |votes| >= 2 && Sum(votes) != 0.0
    ensures WinMargin(votes) == Some(0.0) <==> Largest(votes) == SecondLargest(votes)
  {
    ZeroQuotient(Lead(votes), Sum(votes));
  }

  lemma ZeroQuotient(x: real, y: real)
    requires y != 0.0
    ensures x / y == 0.0 <==> x == 0.0
  {
    if x / y == 0.0 {
      assert x == (x / y) * y;
    }
  }

  /** An uncontested race (one candidate) has margin 1; two candidates
      with 30 and 10 votes have margin 0.5. */
  lemma LeadMarginExample()
    ensures WinMargin([7.0]) == Some(1.0)
    ensures WinMargin([30.0, 10.0]) == Some(0.5)
  {
    var v := [30.0, 10.0];
    assert v[1..] == [10.0];
    assert Largest(v) == 30.0;
    assert RemoveOne(v, 30.0) == [10.0];
    assert SecondLargest(v) == 10.0;
    SumFirst(v);
    assert Sum(v) == 40.0;
  }

  /** Two candidates tied at 10 votes: margin 0. */
  lemma TieMarginExample()
    ensures WinMargin([10.0, 10.0]) == Some(0.0)
  {
    var v := [10.0, 10.0];
    assert v[1..] == [10.0];
    assert Largest(v) == 10.0;
    assert RemoveOne(v, 10.0) == [10.0];
    assert SecondLargest(v) == 10.0;
    SumFirst(v);
    assert Sum(v) == 20.0;
  }

  /* ---------------- merge_incumbents (lines 771-779) ---------------- */

  /** One row of a chamber's table after the incumbents scraped from
      Wikipedia are joined on (incParty, NaN when not found). */
  datatype Seat = Seat(geoid: string, favored: Cell, confidence: Cell, incumbent: Cell, incParty: Cell)

  /** A seat with no election (confidence False) becomes uncontested,
      won by the incumbent party, taken from the scraped party when the
      ratings named no incumbent; other seats are left as they are. */
  function MergedSeat(s: Seat): (m: Seat)
    ensures s.confidence != False ==> m == s
    ensures s.confidence == False ==> m.confidence == Str("Uncontested") && m.favored == m.incumbent
    ensures s.confidence == False ==> m.incumbent == (if s.incumbent == False then s.incParty else s.incumbent)
    ensures m.geoid == s.geoid && m.incParty == s.incParty
  {
    if s.confidence == False then
      var inc := if s.incumbent == False then s.incParty else s.incumbent;
      s.(incumbent := inc, favored := inc, confidence := Str("Uncontested"))
    else s
  }

  /** Merging a table twice gives what merging it once does. */
  lemma MergedSeatIdempotent(s: Seat)
    ensures MergedSeat(MergedSeat(s)) == MergedSeat(s)
  {
  }

  /** The loop over one chamber's rows, writing each row in place. */
  method MergeChamber(cham: array<Seat>)
    modifies cham
    ensures forall k :: 0 <= k < cham.Length ==> cham[k] == MergedSeat(old(cham[k]))
  {
    for i := 0 to cham.Length
      invariant forall k :: 0 <= k < i ==> cham[k] == MergedSeat(old(cham[k]))
      invariant forall k :: i <= k < cham.Length ==> cham[k] == old(cham[k])
    {
      var dist := cham[i];
      if dist.confidence == False {
        if dist.incumbent == False {
          cham[i] := cham[i].(incumbent := cham[i].incParty);
        }
        cham[i] := cham[i].(favored := cham[i].incumbent);
        cham[i] := cham[i].(confidence := Str("Uncontested"));
      }
    }
  }

  /** Both chambers in turn; were they one table, the second pass would
      change nothing. */
  method MergeIncumbents(upper: array<Seat>, lower: array<Seat>)
    modifies upper, lower
    ensures forall k :: 0 <= k < upper.Length ==> upper[k] == MergedSeat(old(upper[k]))
    ensures forall k :: 0 <= k < lower.Length ==> lower[k] == MergedSeat(old(lower[k]))
  {
    MergeChamber(upper);
    label mid:
    MergeChamber(lower);
    if upper == lower {
      forall k | 0 <= k < upper.Length ensures upper[k] == MergedSeat(old(upper[k])) {
        MergedSeatIdempotent(old(upper[k]));
      }
    }
  }

  /* ---------------- fix_incumbency (lines 513-536) ---------------- */

  /** A hand correction: in this chamber, the seat with this geoid is held
      by this party. */
  datatype Correction = Correction(chamber: string, geoid: string, actual: Cell)

  predicate Matches(c: Correction, chamber: string, geoid: string) {
    c.chamber == chamber && ZFill(c.geoid, 5) == geoid
  }

  /** The incumbent after the corrections for `chamber`, applied in order,
      to a seat with this geoid that had `incumbent`. */
  function Corrected(cs: seq<Correction>, chamber: string, geoid: string, incumbent: Cell): Cell {
    if cs == [] then incumbent
    else if Matches(cs[|cs| - 1], chamber, geoid) then cs[|cs| - 1].actual
    else Corrected(cs[..|cs| - 1], chamber, geoid, incumbent)
  }

  /** With no matching correction the incumbent stays. */
  lemma {:induction false} CorrectedNoMatch(cs: seq<Correction>, chamber: string, geoid: string, incumbent: Cell)
    requires forall j :: 0 <= j < |cs| ==> !Matches(cs[j], chamber, geoid)
    ensures Corrected(cs, chamber, geoid, incumbent) == incumbent
  {
    if cs != [] {
      var init := cs[..|cs| - 1];
      assert forall j :: 0 <= j < |init| ==> init[j] == cs[j];
      CorrectedNoMatch(init, chamber, geoid, incumbent);
    }
  }

  /** Otherwise the last matching correction decides. */
  lemma {:induction false} CorrectedLastMatch(cs: seq<Correction>, chamber: string, geoid: string, incumbent: Cell, j: nat)
    requires j < |cs| && Matches(cs[j], chamber, geoid)
    requires forall l :: j < l < |cs| ==> !Matches(cs[l], chamber, geoid)
    ensures Corrected(cs, chamber, geoid, incumbent) == cs[j].actual
  {
    if j < |cs| - 1 {
      var init := cs[..|cs| - 1];
      assert forall l :: 0 <= l < |init| ==> init[l] == cs[l];
      CorrectedLastMatch(init, chamber, geoid, incumbent, j);
    }
  }

  /** One chamber: for each correction of that chamber in order, every row
      with its (zero-padded) geoid gets its incumbent. */
  method ApplyCorrections(cham: array<Seat>, cs: seq<Correction>, chamber: string)
    modifies cham
    ensures forall k :: 0 <= k < cham.Length ==>
      cham[k] == old(cham[k]).(incumbent := Corrected(cs, chamber, old(cham[k]).geoid, old(cham[k]).incumbent))
  {
    for j := 0 to |cs|
      invariant forall k :: 0 <= k < cham.Length ==>
        cham[k] == old(cham[k]).(incumbent := Corrected(cs[..j], chamber, old(cham[k]).geoid, old(cham[k]).incumbent))
    {
      assert cs[..j + 1][..j] == cs[..j];
      if cs[j].chamber == chamber {
        var geoid := ZFill(cs[j].geoid, 5);
        for i := 0 to cham.Length
          invariant forall k :: 0 <= k < i ==>
            cham[k] == old(cham[k]).(incumbent := Corrected(cs[..j + 1], chamber, old(cham[k]).geoid, old(cham[k]).incumbent))
          invariant forall k :: i <= k < cham.Length ==>
            cham[k] == old(cham[k]).(incumbent := Corrected(cs[..j], chamber, old(cham[k]).geoid, old(cham[k]).incumbent))
        {
          if cham[i].geoid == geoid {
            cham[i] := cham[i].(incumbent := cs[j].actual);
          }
        }
      }
    }
    assert cs[..|cs|] == cs;
  }

  /** fix_incumbency: the lower-chamber corrections on `lower`, the
      upper-chamber ones on `upper`. */
  method FixIncumbency(cs: seq<Correction>, lower: array<Seat>, upper: array<Seat>)
    requires lower != upper
    modifies lower, upper
    ensures forall k :: 0 <= k < lower.Length ==>
      lower[k] == old(lower[k]).(incumbent := Corrected(cs, "lower", old(lower[k]).geoid, old(lower[k]).incumbent))
    ensures forall k :: 0 <= k < upper.Length ==>
      upper[k] == old(upper[k]).(incumbent := Corrected(cs, "upper", old(upper[k]).geoid, old(upper[k]).incumbent))
  {
    ApplyCorrections(lower, cs, "lower");
    ApplyCorrections(upper, cs, "upper");
  }
}

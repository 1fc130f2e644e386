/**
 * Win probability of one race (voter_power.py, prob_from_margin).
 *
 * The margin is standardised by the race sigma and looked up in a table of
 * Student-t CDF values sampled at equally spaced points over [-50, 50]; the
 * two neighbouring entries are interpolated linearly.  When an index is out
 * of range the direct CDF is used.  The Student-t CDF itself is foreign
 * numerics: it is the function-typed parameter `cdf`.
 */
module WinProbability {
  import opened Wrappers
  import opened RealArith

  /** The table covers standardised margins in [TableLow, TableHigh]. */
  const TableLow: real := -50.0
  const TableHigh: real := 50.0

  /** Python list indexing: a negative index counts from the end, any other
      index outside the list raises IndexError (None). */
  function PyIndex(len: nat, i: int): (r: Option<nat>)
    ensures r.Some? ==> r.value < len
    ensures 0 <= i < len ==> r == Some(i)
    ensures -(len as int) <= i < 0 ==> r == Some(len + i)
    ensures r.None? <==> i < -(len as int) || i >= len
  {
    if 0 <= i < len then Some(i)
    else if -(len as int) <= i < 0 then Some((len as int + i) as nat)
    else None
  }

  /** Fractional table position of the standardised margin x in a table of `size` samples. */
  function TablePosition(x: real, size: nat): real {
    (x - TableLow) / (TableHigh - TableLow) * (size as real - 1.0)
  }

  function Interpolate(a: real, b: real, frac: real): real {
    (1.0 - frac) * a + frac * b
  }

  predicate Between(p: real, a: real, b: real) {
    (a <= p <= b) || (b <= p <= a)
  }

  predicate UnitTable(tcdf: seq<real>) {
    forall k :: 0 <= k < |tcdf| ==> 0.0 <= tcdf[k] <= 1.0
  }

  predicate SortedTable(tcdf: seq<real>) {
    forall i, j :: 0 <= i <= j < |tcdf| ==> tcdf[i] <= tcdf[j]
  }

  ghost predicate UnitCdf(cdf: real -> real) {
    forall x :: 0.0 <= cdf(x) <= 1.0
  }

  ghost predicate MonotoneCdf(cdf: real -> real) {
    forall x, y :: x <= y ==> cdf(x) <= cdf(y)
  }

  /** The table holds the CDF's values at both ends of its domain. */
  predicate SamplesEnds(tcdf: seq<real>, cdf: real -> real) {
    |tcdf| >= 2 && tcdf[0] == cdf(TableLow) && tcdf[|tcdf| - 1] == cdf(TableHigh)
  }

  lemma InterpolateBetween(a: real, b: real, frac: real)
    requires 0.0 <= frac <= 1.0
    ensures Between(Interpolate(a, b, frac), a, b)
  {
    assert Interpolate(a, b, frac) == a + frac * (b - a);
    assert Interpolate(a, b, frac) == b - (1.0 - frac) * (b - a);
    if a <= b {
      MulNonneg(frac, b - a);
      MulNonneg(1.0 - frac, b - a);
    } else {
      MulNonneg(frac, a - b);
      MulNonneg(1.0 - frac, a - b);
    }
  }

  lemma UnitBetween(p: real, a: real, b: real)
    requires Between(p, a, b) && 0.0 <= a <= 1.0 && 0.0 <= b <= 1.0
    ensures 0.0 <= p <= 1.0
  {
  }

  /** prob_from_margin as written: Python's negative indices wrap around
      to the end of the table instead of raising IndexError. */
  function ProbFromMargin(margin: real, sigma: real, tcdf: seq<real>, cdf: real -> real): (p: real)
    requires sigma != 0.0
    ensures var lo := TablePosition(margin / sigma, |tcdf|).Floor;
      PyIndex(|tcdf|, lo).None? || PyIndex(|tcdf|, lo + 1).None? ==> p == cdf(margin / sigma)
    ensures var lo := TablePosition(margin / sigma, |tcdf|).Floor;
      0 <= lo && lo + 1 < |tcdf| ==> Between(p, tcdf[lo], tcdf[lo + 1])
    ensures UnitTable(tcdf) && UnitCdf(cdf) ==> 0.0 <= p <= 1.0
  {
    var x := margin / sigma;
    var ix := TablePosition(x, |tcdf|);
    var lo := ix.Floor;
    var frac := ix - lo as real;
    match (PyIndex(|tcdf|, lo), PyIndex(|tcdf|, lo + 1))
    case (Some(a), Some(b)) =>
      InterpolateBetween(tcdf[a], tcdf[b], frac);
      Interpolate(tcdf[a], tcdf[b], frac)
    case _ => cdf(x)
  }

  /** prob_from_margin as evidently intended: the table is used only when
      both neighbouring entries exist without wrapping around. */
  function GuardedProbFromMargin(margin: real, sigma: real, tcdf: seq<real>, cdf: real -> real): (p: real)
    requires sigma != 0.0
    ensures !(TableLow <= margin / sigma < TableHigh) ==> p == cdf(margin / sigma)
    ensures var lo := TablePosition(margin / sigma, |tcdf|).Floor;
      0 <= lo && lo + 1 < |tcdf| ==> Between(p, tcdf[lo], tcdf[lo + 1])
    ensures UnitTable(tcdf) && UnitCdf(cdf) ==> 0.0 <= p <= 1.0
  {
    var x := margin / sigma;
    var ix := TablePosition(x, |tcdf|);
    var lo := ix.Floor;
    InTableIffInDomain(x, |tcdf|);
    if 0 <= lo && lo + 1 < |tcdf| then
      InterpolateBetween(tcdf[lo], tcdf[lo + 1], ix - lo as real);
      Interpolate(tcdf[lo], tcdf[lo + 1], ix - lo as real)
    else
      cdf(x)
  }

  /** The per-race error model shared by every race of a state: the race
      sigma, the sampled CDF table and the CDF itself. */
  datatype RaceModel = RaceModel(sigma: real, tcdf: seq<real>, cdf: real -> real)

  predicate Usable(model: RaceModel) {
    model.sigma != 0.0
  }

  /** The table and the CDF both take values in [0, 1]. */
  ghost predicate Calibrated(model: RaceModel) {
    UnitTable(model.tcdf) && UnitCdf(model.cdf)
  }

  /** Win probability of a race with the given expected margin, through the
      lookup as written (wrap-around included). */
  function WinProb(model: RaceModel, margin: real): (p: real)
    requires Usable(model)
    ensures var x := margin / model.sigma;
      var lo := TablePosition(x, |model.tcdf|).Floor;
      PyIndex(|model.tcdf|, lo).None? || PyIndex(|model.tcdf|, lo + 1).None? ==> p == model.cdf(x)
    ensures var lo := TablePosition(margin / model.sigma, |model.tcdf|).Floor;
      0 <= lo && lo + 1 < |model.tcdf| ==> Between(p, model.tcdf[lo], model.tcdf[lo + 1])
    ensures Calibrated(model) ==> 0.0 <= p <= 1.0
  {
    ProbFromMargin(margin, model.sigma, model.tcdf, model.cdf)
  }

  /** Both neighbouring indices exist exactly when x lies in the table's domain. */
  lemma InTableIffInDomain(x: real, size: nat)
    ensures var lo := TablePosition(x, size).Floor;
      0 <= lo && lo + 1 < size ==> TableLow <= x < TableHigh
    ensures size >= 2 ==> var lo := TablePosition(x, size).Floor;
      (0 <= lo && lo + 1 < size <==> TableLow <= x < TableHigh)
  {
    var ix := TablePosition(x, size);
    var u := (x - TableLow) / (TableHigh - TableLow);
    var w := size as real - 1.0;
    assert ix == u * w;
    FloorRange(ix, size);
    UnitFraction(x);
    if size >= 2 {
      ScaledRange(u, w, ix);
    } else if size == 1 {
      assert ix == 0.0;
    }
  }

  /** The fraction of the way through the domain is in [0, 1) exactly on the domain. */
  lemma UnitFraction(x: real)
    ensures var u := (x - TableLow) / (TableHigh - TableLow);
      (u >= 0.0 <==> x >= TableLow) && (u < 1.0 <==> x < TableHigh)
  {
    var u := (x - TableLow) / (TableHigh - TableLow);
    assert u == (x + 50.0) / 100.0;
  }

  /** Where the floor of a position falls among the indices of a table. */
  lemma FloorRange(ix: real, size: nat)
    ensures 0 <= ix.Floor <==> ix >= 0.0
    ensures ix.Floor + 1 < size <==> ix < size as real - 1.0
  {
  }

  lemma ScaledRange(u: real, w: real, ix: real)
    requires w >= 1.0 && ix == u * w
    ensures ix >= 0.0 <==> u >= 0.0
    ensures ix < w <==> u < 1.0
  {
    if u >= 0.0 { MulNonneg(u, w); } else { assert u * w < 0.0; }
    if u < 1.0 { assert (1.0 - u) * w > 0.0; } else { MulNonneg(u - 1.0, w); }
  }

  lemma PositionMonotone(x1: real, x2: real, size: nat)
    requires x1 <= x2 && size >= 1
    ensures TablePosition(x1, size) <= TablePosition(x2, size)
  {
    var u1 := (x1 - TableLow) / (TableHigh - TableLow);
    var u2 := (x2 - TableLow) / (TableHigh - TableLow);
    var w := size as real - 1.0;
    assert (u2 - u1) * w >= 0.0;
  }

  /** Within one table cell the interpolation grows with the fraction. */
  lemma InterpolateMonotone(a: real, b: real, f1: real, f2: real)
    requires a <= b && f1 <= f2
    ensures Interpolate(a, b, f1) <= Interpolate(a, b, f2)
  {
    assert Interpolate(a, b, f2) - Interpolate(a, b, f1) == (f2 - f1) * (b - a);
    assert (f2 - f1) * (b - a) >= 0.0;
  }

  /** The corrected lookup never rewards a worse margin: it is monotone
      whenever the table is sorted, the CDF is monotone and the table's end
      entries are the CDF's values at the ends of its domain. */
  lemma {:induction false} GuardedMonotone(m1: real, m2: real, sigma: real, tcdf: seq<real>, cdf: real -> real)
    requires sigma > 0.0 && m1 <= m2
    requires SortedTable(tcdf) && MonotoneCdf(cdf) && SamplesEnds(tcdf, cdf)
    ensures GuardedProbFromMargin(m1, sigma, tcdf, cdf) <= GuardedProbFromMargin(m2, sigma, tcdf, cdf)
  {
    var K := |tcdf|;
    var x1, x2 := m1 / sigma, m2 / sigma;
    assert x1 <= x2 by {
      assert m2 / sigma - m1 / sigma == (m2 - m1) / sigma;
    }
    var ix1, ix2 := TablePosition(x1, K), TablePosition(x2, K);
    PositionMonotone(x1, x2, K);
    var lo1, lo2 := ix1.Floor, ix2.Floor;
    InTableIffInDomain(x1, K);
    InTableIffInDomain(x2, K);
    var p1 := GuardedProbFromMargin(m1, sigma, tcdf, cdf);
    var p2 := GuardedProbFromMargin(m2, sigma, tcdf, cdf);
    var in1 := 0 <= lo1 && lo1 + 1 < K;
    var in2 := 0 <= lo2 && lo2 + 1 < K;
    if in1 && in2 {
      assert lo1 <= lo2;
      InterpolateBetween(tcdf[lo1], tcdf[lo1 + 1], ix1 - lo1 as real);
      InterpolateBetween(tcdf[lo2], tcdf[lo2 + 1], ix2 - lo2 as real);
      if lo1 == lo2 {
        InterpolateMonotone(tcdf[lo1], tcdf[lo1 + 1], ix1 - lo1 as real, ix2 - lo2 as real);
      } else {
        assert p1 <= tcdf[lo1 + 1] <= tcdf[lo2] <= p2;
      }
    } else if in1 {
      // x2 lies at or beyond the top of the domain
      assert x2 >= TableHigh;
      InterpolateBetween(tcdf[lo1], tcdf[lo1 + 1], ix1 - lo1 as real);
      assert p1 <= tcdf[lo1 + 1] <= tcdf[K - 1] == cdf(TableHigh) <= cdf(x2) == p2;
    } else if in2 {
      // x1 lies below the bottom of the domain
      assert x1 < TableLow;
      InterpolateBetween(tcdf[lo2], tcdf[lo2 + 1], ix2 - lo2 as real);
      assert p1 == cdf(x1) <= cdf(TableLow) == tcdf[0] <= tcdf[lo2] <= p2;
    } else {
      assert p1 == cdf(x1) <= cdf(x2) == p2;
    }
  }

  /** A clamped linear stand-in for a CDF; the table [0, 0.5, 1] samples it exactly at -50, 0 and 50. */
  function RampCdf(x: real): (c: real)
    ensures 0.0 <= c <= 1.0
  {
    if x < TableLow then 0.0 else if x >= TableHigh then 1.0 else (x - TableLow) / (TableHigh - TableLow)
  }

  /** As written, a standardised margin of -75 reads the table at index -1,
      i.e. the LAST entry, and so gets probability 0.5, while the better
      margin -50 gets 0: the lookup is not monotone.  The guarded lookup
      returns the CDF's value 0 instead. */
  lemma WrapAroundBreaksMonotonicity()
    ensures SortedTable([0.0, 0.5, 1.0]) && MonotoneCdf(RampCdf) && SamplesEnds([0.0, 0.5, 1.0], RampCdf)
    ensures ProbFromMargin(-75.0, 1.0, [0.0, 0.5, 1.0], RampCdf) == 0.5
    ensures ProbFromMargin(-50.0, 1.0, [0.0, 0.5, 1.0], RampCdf) == 0.0
    ensures GuardedProbFromMargin(-75.0, 1.0, [0.0, 0.5, 1.0], RampCdf) == 0.0
  {
    var t := [0.0, 0.5, 1.0];
    assert TablePosition(-75.0, 3) == -0.5;
    assert (-0.5).Floor == -1;
    assert TablePosition(-50.0, 3) == 0.0;
    assert (0.0).Floor == 0;
    assert MonotoneCdf(RampCdf) by {
      forall x, y | x <= y ensures RampCdf(x) <= RampCdf(y) {
        if TableLow <= x < TableHigh && TableLow <= y < TableHigh {
          assert (y - TableLow) / 100.0 - (x - TableLow) / 100.0 == (y - x) / 100.0;
        }
      }
    }
  }
}

/**
 * Exact distribution of the number of seats won in independent races
 * (voter_power.py, dem_chamber_power lines 53-66).
 *
 * Each race is the polynomial (1 - p) + p x; the product of all of them,
 * computed by repeated convolution, has as coefficient of x^k the
 * probability of winning exactly k races.
 */
module SeatDistribution {
  import opened RealArith

  /** Entry k of s, and 0 outside s (the zero padding np.convolve assumes). */
  function At(s: seq<real>, k: int): real {
    if 0 <= k < |s| then s[k] else 0.0
  }

  /** Probability mass of "this many seats" after one more race: lose it
      having had x already, or win it having had y. */
  function Mix(p: real, x: real, y: real): real {
    (1.0 - p) * x + p * y
  }

  /** np.convolve(s, [1 - p, p]). */
  function ConvolveRace(s: seq<real>, p: real): (r: seq<real>)
    ensures |r| == |s| + 1
  {
    seq(|s| + 1, k requires 0 <= k < |s| + 1 => Mix(p, At(s, k), At(s, k - 1)))
  }

  /** The seat distribution after the races with win probabilities `probs`,
      convolved in list order starting from [1]. */
  function SeatDist(probs: seq<real>): (d: seq<real>)
    ensures |d| == |probs| + 1
    decreases |probs|
  {
    if probs == [] then [1.0]
    else ConvolveRace(SeatDist(probs[..|probs| - 1]), probs[|probs| - 1])
  }

  function Sum(s: seq<real>): real {
    if s == [] then 0.0 else s[0] + Sum(s[1..])
  }

  predicate NonNegative(s: seq<real>) {
    forall k :: 0 <= k < |s| ==> s[k] >= 0.0
  }

  predicate Probabilities(probs: seq<real>) {
    forall k :: 0 <= k < |probs| ==> 0.0 <= probs[k] <= 1.0
  }

  predicate IsDistribution(d: seq<real>) {
    NonNegative(d) && Sum(d) == 1.0
  }

  function Scale(s: seq<real>, c: real): seq<real> {
    seq(|s|, k requires 0 <= k < |s| => c * s[k])
  }

  function Add(a: seq<real>, b: seq<real>): seq<real>
    requires |a| == |b|
  {
    seq(|a|, k requires 0 <= k < |a| => a[k] + b[k])
  }

  lemma AtConvolve(s: seq<real>, p: real, k: int)
    ensures At(ConvolveRace(s, p), k) == Mix(p, At(s, k), At(s, k - 1))
  {
  }

  lemma {:induction false} SumAppend(a: seq<real>, b: seq<real>)
    ensures Sum(a + b) == Sum(a) + Sum(b)
  {
    if a == [] {
      assert a + b == b;
    } else {
      assert (a + b)[1..] == a[1..] + b;
      SumAppend(a[1..], b);
    }
  }

  lemma {:induction false} SumScale(s: seq<real>, c: real)
    ensures Sum(Scale(s, c)) == c * Sum(s)
  {
    if s != [] {
      assert forall i :: 0 <= i < |s| - 1 ==> Scale(s, c)[1..][i] == Scale(s[1..], c)[i];
      assert Scale(s, c)[1..] == Scale(s[1..], c);
      SumScale(s[1..], c);
    }
  }

  lemma {:induction false} SumAdd(a: seq<real>, b: seq<real>)
    requires |a| == |b|
    ensures Sum(Add(a, b)) == Sum(a) + Sum(b)
  {
    if a != [] {
      assert Add(a, b)[1..] == Add(a[1..], b[1..]);
      SumAdd(a[1..], b[1..]);
    }
  }

  lemma {:induction false} SumNonNegative(s: seq<real>)
    requires NonNegative(s)
    ensures Sum(s) >= 0.0
  {
    if s != [] {
      SumNonNegative(s[1..]);
    }
  }

  lemma NonNegativeSlice(s: seq<real>, i: nat, j: nat)
    requires NonNegative(s) && i <= j <= |s|
    ensures NonNegative(s[i..j])
  {
    assert forall k :: 0 <= k < j - i ==> s[i..j][k] == s[i + k];
  }

  /** The sum splits into the sum of a prefix and the sum of the rest. */
  lemma SumSplit(s: seq<real>, t: nat)
    requires t <= |s|
    ensures Sum(s) == Sum(s[..t]) + Sum(s[t..])
  {
    assert s == s[..t] + s[t..];
    SumAppend(s[..t], s[t..]);
  }

  /** np.convolve(s, [1 - p, p]) is (1 - p) s shifted by nothing plus p s shifted by one. */
  lemma ConvolveAsShiftedSum(s: seq<real>, p: real)
    ensures ConvolveRace(s, p) == Add(Scale(s, 1.0 - p) + [0.0], [0.0] + Scale(s, p))
  {
    var r := ConvolveRace(s, p);
    var sum := Add(Scale(s, 1.0 - p) + [0.0], [0.0] + Scale(s, p));
    forall k | 0 <= k < |r| ensures r[k] == sum[k] {
      ShiftedSumAt(s, p, k);
    }
  }

  lemma ShiftedSumAt(s: seq<real>, p: real, k: nat)
    requires k < |s| + 1
    ensures ConvolveRace(s, p)[k] == (Scale(s, 1.0 - p) + [0.0])[k] + ([0.0] + Scale(s, p))[k]
  {
    var a := Scale(s, 1.0 - p) + [0.0];
    var b := [0.0] + Scale(s, p);
    assert ConvolveRace(s, p)[k] == Mix(p, At(s, k), At(s, k - 1));
    if k < |s| {
      assert a[k] == (1.0 - p) * At(s, k);
    } else {
      assert a[k] == 0.0 && At(s, k) == 0.0;
    }
    if k > 0 {
      assert b[k] == p * At(s, k - 1);
    } else {
      assert b[k] == 0.0 && At(s, k - 1) == 0.0;
    }
  }

  /** Multiplying by a race's polynomial keeps the total mass. */
  lemma ConvolvePreservesSum(s: seq<real>, p: real)
    ensures Sum(ConvolveRace(s, p)) == Sum(s)
  {
    var a := Scale(s, 1.0 - p) + [0.0];
    var b := [0.0] + Scale(s, p);
    ConvolveAsShiftedSum(s, p);
    SumAdd(a, b);
    SumAppend(Scale(s, 1.0 - p), [0.0]);
    SumAppend([0.0], Scale(s, p));
    assert Sum([0.0]) == 0.0;
    SumScale(s, 1.0 - p);
    SumScale(s, p);
    SplitMass(Sum(s), p);
  }

  lemma ConvolvePreservesNonNegative(s: seq<real>, p: real)
    requires NonNegative(s) && 0.0 <= p <= 1.0
    ensures NonNegative(ConvolveRace(s, p))
  {
    var r := ConvolveRace(s, p);
    forall k | 0 <= k < |r| ensures r[k] >= 0.0 {
      assert r[k] == Mix(p, At(s, k), At(s, k - 1));
      MixNonneg(p, At(s, k), At(s, k - 1));
    }
  }

  lemma MixNonneg(p: real, x: real, y: real)
    requires 0.0 <= p <= 1.0 && x >= 0.0 && y >= 0.0
    ensures Mix(p, x, y) >= 0.0
  {
    MulNonneg(1.0 - p, x);
    MulNonneg(p, y);
  }

  /** The seat distribution is a probability distribution over 0..|probs| seats. */
  lemma {:induction false} SeatDistIsDistribution(probs: seq<real>)
    requires Probabilities(probs)
    ensures IsDistribution(SeatDist(probs))
  {
    if probs != [] {
      var init := probs[..|probs| - 1];
      SeatDistIsDistribution(init);
      ConvolvePreservesSum(SeatDist(init), probs[|probs| - 1]);
      ConvolvePreservesNonNegative(SeatDist(init), probs[|probs| - 1]);
    } else {
      assert Sum([1.0]) == 1.0 + Sum([]);
    }
  }

  /** One race with win probability p gives exactly [1 - p, p]. */
  lemma SingleRace(p: real)
    ensures SeatDist([p]) == [1.0 - p, p]
  {
    assert [p][..0] == [];
    var d := ConvolveRace([1.0], p);
    assert SeatDist([p]) == d;
    assert d[0] == 1.0 - p && d[1] == p;
  }

  /** Every entry of a non-negative sequence is at most its sum. */
  lemma {:induction false} EntryAtMostSum(s: seq<real>, k: nat)
    requires NonNegative(s) && k < |s|
    ensures s[k] <= Sum(s)
  {
    SumNonNegative(s[1..]);
    if k > 0 {
      EntryAtMostSum(s[1..], k - 1);
    }
  }

  /** Adding races in either order gives the same polynomial. */
  lemma ConvolveCommutes(s: seq<real>, p: real, q: real)
    ensures ConvolveRace(ConvolveRace(s, p), q) == ConvolveRace(ConvolveRace(s, q), p)
  {
    var sp, sq := ConvolveRace(s, p), ConvolveRace(s, q);
    var l := ConvolveRace(sp, q);
    var r := ConvolveRace(sq, p);
    forall k | 0 <= k < |l| ensures l[k] == r[k] {
      ConvolveCommutesAt(s, p, q, k);
    }
  }

  lemma ConvolveCommutesAt(s: seq<real>, p: real, q: real, k: int)
    ensures At(ConvolveRace(ConvolveRace(s, p), q), k) == At(ConvolveRace(ConvolveRace(s, q), p), k)
  {
    var sp, sq := ConvolveRace(s, p), ConvolveRace(s, q);
    AtConvolve(s, p, k);
    AtConvolve(s, p, k - 1);
    AtConvolve(s, q, k);
    AtConvolve(s, q, k - 1);
    AtConvolve(sp, q, k);
    AtConvolve(sq, p, k);
    TwoRacesAlgebra(At(s, k), At(s, k - 1), At(s, k - 2), p, q);
  }

  lemma TwoRacesAlgebra(a: real, b: real, c: real, p: real, q: real)
    ensures Mix(q, Mix(p, a, b), Mix(p, b, c)) == Mix(p, Mix(q, a, b), Mix(q, b, c))
  {
  }

  lemma SplitMass(x: real, p: real)
    ensures (1.0 - p) * x + p * x == x
  {
  }

  function RemoveAt(s: seq<real>, k: nat): seq<real>
    requires k < |s|
  {
    s[..k] + s[k + 1..]
  }

  /** Any race can be taken as the last one convolved. */
  lemma {:induction false} SeatDistRemove(probs: seq<real>, k: nat)
    requires k < |probs|
    ensures SeatDist(probs) == ConvolveRace(SeatDist(RemoveAt(probs, k)), probs[k])
    decreases |probs|
  {
    var n := |probs|;
    var init := probs[..n - 1];
    var z := probs[n - 1];
    assert SeatDist(probs) == ConvolveRace(SeatDist(init), z);
    if k == n - 1 {
      assert RemoveAt(probs, k) == init;
    } else {
      var fewer := SeatDist(RemoveAt(init, k));
      SeatDistRemove(init, k);
      assert init[k] == probs[k];
      ConvolveCommutes(fewer, probs[k], z);
      RemoveBeforeLast(probs, k);
    }
  }

  /** Removing an entry before the last keeps the last one last. */
  lemma RemoveBeforeLast(probs: seq<real>, k: nat)
    requires k < |probs| - 1
    ensures SeatDist(RemoveAt(probs, k))
         == ConvolveRace(SeatDist(RemoveAt(probs[..|probs| - 1], k)), probs[|probs| - 1])
  {
    var rest := RemoveAt(probs, k);
    assert rest[..|rest| - 1] == RemoveAt(probs[..|probs| - 1], k);
    assert rest[|rest| - 1] == probs[|probs| - 1];
  }

  /** Taking one entry out of a sequence takes it out of the sum. */
  lemma SumRemoveAt(s: seq<real>, k: nat)
    requires k < |s|
    ensures Sum(s) == s[k] + Sum(RemoveAt(s, k))
  {
    SumSplit(s, k);
    SumFirst(s[k..]);
    assert s[k..][1..] == s[k + 1..];
    SumAppend(s[..k], s[k + 1..]);
  }

  /** The sum around one entry: what is before it, it, and what is after it. */
  lemma SumAround(s: seq<real>, k: nat)
    requires k < |s|
    ensures Sum(s) == Sum(s[..k]) + s[k] + Sum(s[k + 1..])
  {
    SumSplit(s, k);
    SumFirst(s[k..]);
    assert s[k..][1..] == s[k + 1..];
  }

  lemma SumFirst(s: seq<real>)
    requires s != []
    ensures Sum(s) == s[0] + Sum(s[1..])
  {
  }

  lemma MultisetRemoveAt(s: seq<real>, k: nat)
    requires k < |s|
    ensures multiset(RemoveAt(s, k)) == multiset(s) - multiset{s[k]}
  {
    assert s == s[..k] + [s[k]] + s[k + 1..];
  }

  /** The seat distribution does not depend on the order of the races. */
  lemma {:induction false} SeatDistPermutation(a: seq<real>, b: seq<real>)
    requires multiset(a) == multiset(b)
    ensures SeatDist(a) == SeatDist(b)
    decreases |a|
  {
    if a != [] {
      var n := |a|;
      var x := a[n - 1];
      assert x in multiset(b);
      var k :| 0 <= k < |b| && b[k] == x;
      SeatDistRemove(b, k);
      var init := a[..n - 1];
      MultisetRemoveAt(a, n - 1);
      MultisetRemoveAt(b, k);
      assert RemoveAt(a, n - 1) == init;
      SeatDistPermutation(init, RemoveAt(b, k));
    } else {
      assert |b| == |multiset(b)| == 0;
    }
  }
}

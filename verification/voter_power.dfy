/**
 * The power of one vote in each district (voter_power.py, voter_power).
 *
 * The districts of a state arrive in chamber order.  Each chamber's
 * threshold is first classified: a chamber the Democrats already control
 * or can no longer reach is decided, and every race in it has power 0.
 * For every other race the margin is raised by one vote (1 / voters) on a
 * copy of the parameter rows and the change in the integrated success
 * probability is the race's power.  Races with the same parameter row in
 * the same chamber share one integration through a cache that stores the
 * power times the race's voters; a cache hit divides by the voters of the
 * race at hand, which is exact whenever the first race with the same key
 * has as many voters.
 */
module VoterPower {
  import opened Wrappers
  import opened Errors
  import opened RealArith
  import opened WinProbability
  import opened ChamberOutcome
  import opened SeatDistribution
  import opened CorrelatedError

  /** One row of districts_df: the expected Democratic margin, the race's
      sensitivity to each source of correlated error, its voters, the
      threshold and tie of its chamber, and the chamber's name. */
  datatype District = District(
    margin: real,
    sensitivities: seq<real>,
    voters: nat,
    threshold: int,
    tie: real,
    chamber: string)

  /** What voter_power returns: the success probability alone (prob_only)
      or the power column, one entry per district. */
  datatype Outcome = Probability(prob: real) | Powers(powers: seq<real>)

  /** Every district has one sensitivity per source of correlated error
      (both come from the same error_vars dictionary) and some voters. */
  predicate WellFormed(ds: seq<District>, sources: seq<seq<Node>>) {
    forall i :: 0 <= i < |ds| ==> |ds[i].sensitivities| == |sources| && ds[i].voters > 0
  }

  /** list.index: the first position holding x. */
  function FirstIndex<T(==)>(xs: seq<T>, x: T): (i: nat)
    requires x in xs
    ensures i < |xs| && xs[i] == x
    ensures forall k :: 0 <= k < i ==> xs[k] != x
  {
    if xs[0] == x then 0 else 1 + FirstIndex(xs[1..], x)
  }

  /** A chamber's threshold against its number of races: at most zero seats
      still needed means decided for the Democrats, more than the races
      left means decided against them. */
  function Classify(threshold: int, possible: nat): (t: Threshold)
    ensures t == ForcedD <==> threshold <= 0
    ensures t == ForcedR <==> possible < threshold
    ensures t.Seats? ==> 1 <= t.n <= possible && t.n == threshold
  {
    if threshold <= 0 then ForcedD
    else if threshold > possible then ForcedR
    else Seats(threshold)
  }

  /** parameter_weights: each district's margin followed by its sensitivities. */
  function Rows(ds: seq<District>): (rows: seq<seq<real>>)
    ensures |rows| == |ds|
    ensures forall i :: 0 <= i < |ds| ==> rows[i] == [ds[i].margin] + ds[i].sensitivities
  {
    seq(|ds|, i requires 0 <= i < |ds| => [ds[i].margin] + ds[i].sensitivities)
  }

  function Chambers(ds: seq<District>): (cs: seq<string>)
    ensures |cs| == |ds| && forall i :: 0 <= i < |ds| ==> cs[i] == ds[i].chamber
  {
    seq(|ds|, i requires 0 <= i < |ds| => ds[i].chamber)
  }

  /** The arguments of chamber_success_prob: chamber 2 starts at the first
      district of the last district's chamber; thresholds and ties are read
      from the first and the last district. */
  function Setup(ds: seq<District>, bothBad: bool, neitherBad: bool): (s: StateParams)
    requires ds != []
    ensures s.rows == Rows(ds)
    ensures s.chamber2 < |ds| && ds[s.chamber2].chamber == ds[|ds| - 1].chamber
    ensures forall k :: 0 <= k < s.chamber2 ==> ds[k].chamber != ds[|ds| - 1].chamber
    ensures s.threshold1 == Classify(ds[0].threshold, s.chamber2)
    ensures s.threshold2 == Classify(ds[|ds| - 1].threshold, |ds| - s.chamber2)
    ensures s.tie1 == ds[0].tie && s.tie2 == ds[|ds| - 1].tie
    ensures s.bothBad == bothBad && s.neitherBad == neitherBad
  {
    var last := |ds| - 1;
    var c2 := FirstIndex(Chambers(ds), ds[last].chamber);
    StateParams(Rows(ds), c2,
                Classify(ds[0].threshold, c2), Classify(ds[last].threshold, |ds| - c2),
                ds[0].tie, ds[last].tie, bothBad, neitherBad)
  }

  /** Whether the chamber of race i is still in doubt. */
  predicate InDoubt(s: StateParams, i: nat) {
    if i < s.chamber2 then s.threshold1.Seats? else s.threshold2.Seats?
  }

  /** The cache key of race i: its whole parameter row and its chamber. */
  function Key(s: StateParams, i: nat): (seq<real>, bool)
    requires i < |s.rows|
  {
    (s.rows[i], i < s.chamber2)
  }

  function Keys(s: StateParams): (keys: seq<(seq<real>, bool)>)
    ensures |keys| == |s.rows| && forall i :: 0 <= i < |s.rows| ==> keys[i] == Key(s, i)
  {
    seq(|s.rows|, i requires 0 <= i < |s.rows| => Key(s, i))
  }

  /** The copy of the rows with the margin of race j raised by delta. */
  function Bump(rows: seq<seq<real>>, j: nat, delta: real): (r: seq<seq<real>>)
    requires j < |rows| && |rows[j]| > 0
    ensures |r| == |rows|
    ensures forall k :: 0 <= k < |rows| && k != j ==> r[k] == rows[k]
    ensures |r[j]| == |rows[j]| && r[j][0] == rows[j][0] + delta && r[j][1..] == rows[j][1..]
  {
    rows[j := [rows[j][0] + delta] + rows[j][1..]]
  }

  /** The arguments with one more Democratic vote among the voters of race j. */
  function Perturb(s: StateParams, j: nat, voters: nat): (r: StateParams)
    requires j < |s.rows| && |s.rows[j]| > 0 && voters > 0
    ensures |r.rows| == |s.rows|
    ensures forall k :: 0 <= k < |s.rows| && k != j ==> r.rows[k] == s.rows[k]
    ensures |r.rows[j]| == |s.rows[j]| && r.rows[j][1..] == s.rows[j][1..]
    ensures r.rows[j][0] == s.rows[j][0] + 1.0 / (voters as real)
    ensures r.chamber2 == s.chamber2 && r.threshold1 == s.threshold1 && r.threshold2 == s.threshold2
    ensures r.tie1 == s.tie1 && r.tie2 == s.tie2 && r.bothBad == s.bothBad && r.neitherBad == s.neitherBad
  {
    s.(rows := Bump(s.rows, j, 1.0 / (voters as real)))
  }

  /** What the cache stores for race j: the gain in success probability
      from one more vote there, times the race's voters. */
  function Stored(s: StateParams, sources: seq<seq<Node>>, model: RaceModel, j: nat, voters: nat, prob: real): (r: Result<real, Error>)
    requires Usable(model) && j < |s.rows| && |s.rows[j]| > 0 && voters > 0
    ensures var p := ChamberSuccessProbability(Perturb(s, j, voters), sources, model);
      && (r.Err? <==> p.Err?)
      && (r.Err? ==> r.error == p.error)
      && (r.Ok? ==> r.value / (voters as real) == p.value - prob)
  {
    match ChamberSuccessProbability(Perturb(s, j, voters), sources, model)
    case Err(e) => Err(e)
    case Ok(p) => Ok(Gain(p, prob, voters))
  }

  /** The change in success probability, times the voters of the race. */
  function Gain(probNew: real, prob: real, voters: nat): (g: real)
    ensures voters > 0 ==> g / (voters as real) == probNew - prob
  {
    (probNew - prob) * (voters as real)
  }

  /** Whether each race's chamber is still in doubt. */
  function Doubts(s: StateParams): (doubt: seq<bool>)
    ensures |doubt| == |s.rows| && forall i :: 0 <= i < |s.rows| ==> doubt[i] == InDoubt(s, i)
  {
    seq(|s.rows|, i requires 0 <= i < |s.rows| => InDoubt(s, i))
  }

  function VoterCounts(ds: seq<District>): (vs: seq<nat>)
    ensures |vs| == |ds| && forall i :: 0 <= i < |ds| ==> vs[i] == ds[i].voters
  {
    seq(|ds|, i requires 0 <= i < |ds| => ds[i].voters)
  }

  /** What the cache would store for each race if it missed there. */
  function StoredTable(ds: seq<District>, s: StateParams, sources: seq<seq<Node>>, model: RaceModel, prob: real): (t: seq<Result<real, Error>>)
    requires Usable(model) && WellFormed(ds, sources) && ds != [] && s.rows == Rows(ds)
    ensures |t| == |ds|
    ensures forall j :: 0 <= j < |ds| ==> t[j] == Stored(s, sources, model, j, ds[j].voters, prob)
  {
    seq(|ds|, j requires 0 <= j < |ds| => Stored(s, sources, model, j, ds[j].voters, prob))
  }

  // ---------------------------------------------------------------------
  // The cache, whatever is cached

  /** Races with the same key are in the same chamber, so both or neither
      are in doubt. */
  predicate DoubtFollowsKey<K(==)>(keys: seq<K>, doubt: seq<bool>)
    requires |doubt| == |keys|
  {
    forall j, k :: 0 <= j < |keys| && 0 <= k < |keys| && keys[j] == keys[k] ==> doubt[j] == doubt[k]
  }

  predicate Positive(voters: seq<nat>) {
    forall k :: 0 <= k < |voters| ==> voters[k] > 0
  }

  /** The power reported for race i: 0 if its chamber is decided, and
      otherwise the value cached for the first race sharing its key,
      divided by the voters of race i. */
  predicate ReportedPower<K(==)>(keys: seq<K>, doubt: seq<bool>, table: seq<Result<real, Error>>,
                                 voters: seq<nat>, i: nat, power: real)
    requires |doubt| == |keys| == |table| == |voters| && i < |keys| && Positive(voters)
  {
    if !doubt[i] then power == 0.0
    else
      var j := FirstIndex(keys, keys[i]);
      table[j].Ok? && power == table[j].value / (voters[i] as real)
  }

  /** The cache after the first i races: it holds the key of every race in
      doubt so far, and each key maps to the table entry of the first race
      with that key. */
  predicate CacheAgrees<K(==)>(keys: seq<K>, doubt: seq<bool>, table: seq<Result<real, Error>>,
                               cache: map<K, real>, i: nat)
    requires |doubt| == |keys| == |table| && i <= |keys|
  {
    && (forall k :: 0 <= k < i && doubt[k] ==> keys[k] in cache)
    && (forall key :: key in cache ==>
          && key in keys && FirstIndex(keys, key) < i
          && table[FirstIndex(keys, key)] == Ok(cache[key]))
  }

  /** A race in a decided chamber leaves the cache alone. */
  lemma Decided<K>(keys: seq<K>, doubt: seq<bool>, table: seq<Result<real, Error>>, cache: map<K, real>, i: nat)
    requires |doubt| == |keys| == |table| && i < |keys| && !doubt[i]
    requires CacheAgrees(keys, doubt, table, cache, i)
    ensures CacheAgrees(keys, doubt, table, cache, i + 1)
  {
  }

  /** A cache hit reports the cached value over this race's voters. */
  lemma CacheHit<K>(keys: seq<K>, doubt: seq<bool>, table: seq<Result<real, Error>>, voters: seq<nat>,
                        cache: map<K, real>, i: nat)
    requires |doubt| == |keys| == |table| == |voters| && i < |keys| && doubt[i] && Positive(voters)
    requires CacheAgrees(keys, doubt, table, cache, i) && keys[i] in cache
    ensures CacheAgrees(keys, doubt, table, cache, i + 1)
    ensures ReportedPower(keys, doubt, table, voters, i, cache[keys[i]] / (voters[i] as real))
  {
  }

  /** A cache miss happens at the first race with its key; caching that
      race's table entry keeps the cache in agreement. */
  lemma CacheMiss<K>(keys: seq<K>, doubt: seq<bool>, table: seq<Result<real, Error>>, voters: seq<nat>,
                         cache: map<K, real>, i: nat, stored: real)
    requires |doubt| == |keys| == |table| == |voters| && i < |keys| && doubt[i] && Positive(voters)
    requires DoubtFollowsKey(keys, doubt)
    requires CacheAgrees(keys, doubt, table, cache, i) && keys[i] !in cache
    requires table[i] == Ok(stored)
    ensures FirstIndex(keys, keys[i]) == i
    ensures CacheAgrees(keys, doubt, table, cache[keys[i] := stored], i + 1)
    ensures ReportedPower(keys, doubt, table, voters, i, stored / (voters[i] as real))
  {
    MissIsFirst(keys, doubt, table, cache, i);
    CacheStore(keys, doubt, table, cache, i, stored);
  }

  /** Storing the entry of the first race with its key keeps the cache in
      agreement one race further. */
  lemma CacheStore<K>(keys: seq<K>, doubt: seq<bool>, table: seq<Result<real, Error>>,
                      cache: map<K, real>, i: nat, stored: real)
    requires |doubt| == |keys| == |table| && i < |keys|
    requires CacheAgrees(keys, doubt, table, cache, i) && FirstIndex(keys, keys[i]) == i
    requires table[i] == Ok(stored)
    ensures CacheAgrees(keys, doubt, table, cache[keys[i] := stored], i + 1)
  {
    var cache' := cache[keys[i] := stored];
    forall key | key in cache'
      ensures key in keys && FirstIndex(keys, key) < i + 1 && table[FirstIndex(keys, key)] == Ok(cache'[key])
    {
      if key != keys[i] {
        assert key in cache;
      }
    }
  }

  /** A key missing from the cache has not been seen in doubt before. */
  lemma MissIsFirst<K>(keys: seq<K>, doubt: seq<bool>, table: seq<Result<real, Error>>, cache: map<K, real>, i: nat)
    requires |doubt| == |keys| == |table| && i < |keys| && doubt[i]
    requires DoubtFollowsKey(keys, doubt)
    requires CacheAgrees(keys, doubt, table, cache, i) && keys[i] !in cache
    ensures FirstIndex(keys, keys[i]) == i
  {
    var j := FirstIndex(keys, keys[i]);
    if j < i {
      assert false;
    }
  }

  // ---------------------------------------------------------------------
  // voter_power

  lemma KeysDecideDoubt(s: StateParams)
    ensures DoubtFollowsKey(Keys(s), Doubts(s))
  {
  }

  /** The rows and thresholds voter_power builds fit the error sources. */
  lemma SetupFits(ds: seq<District>, bothBad: bool, neitherBad: bool, sources: seq<seq<Node>>)
    requires ds != [] && WellFormed(ds, sources)
    ensures Fits(Setup(ds, bothBad, neitherBad), |sources|)
  {
  }

  /** One more vote in race j changes no row's shape and no threshold. */
  lemma PerturbFits(s: StateParams, j: nat, voters: nat, width: nat)
    requires Fits(s, width) && j < |s.rows| && voters > 0
    ensures Fits(Perturb(s, j, voters), width)
  {
  }

  /** The finite difference for race j, times its voters: the value a
      cache miss stores. */
  method FiniteDifference(s: StateParams, sources: seq<seq<Node>>, model: RaceModel, j: nat, voters: nat, prob: real)
    returns (stored: real)
    requires Usable(model) && Integrable(sources) && Fits(s, |sources|) && j < |s.rows| && voters > 0
    ensures Stored(s, sources, model, j, voters, prob) == Ok(stored)
  {
    var copy := Perturb(s, j, voters);
    PerturbFits(s, j, voters, |sources|);
    IntegrationOutcome(copy, sources, model);
    var probNew := ChamberSuccessProb(copy, sources, model);
    stored := Gain(probNew.value, prob, voters);
  }

  /** The loop over the races of voter_power, given the baseline success
      probability. */
  method PowerLoop(ds: seq<District>, s: StateParams, sources: seq<seq<Node>>, model: RaceModel, prob: real)
    returns (powers: seq<real>)
    requires Usable(model) && WellFormed(ds, sources) && ds != [] && Integrable(sources)
    requires s.rows == Rows(ds) && Fits(s, |sources|)
    ensures |powers| == |ds|
    ensures forall i :: 0 <= i < |ds| ==>
      ReportedPower(Keys(s), Doubts(s), StoredTable(ds, s, sources, model, prob), VoterCounts(ds), i, powers[i])
  {
    ghost var keys := Keys(s);
    ghost var doubt := Doubts(s);
    ghost var table := StoredTable(ds, s, sources, model, prob);
    ghost var voters := VoterCounts(ds);
    KeysDecideDoubt(s);
    var cache: map<(seq<real>, bool), real> := map[];
    powers := [];
    for i := 0 to |ds|
      invariant |powers| == i
      invariant forall k :: 0 <= k < i ==> ReportedPower(keys, doubt, table, voters, k, powers[k])
      invariant CacheAgrees(keys, doubt, table, cache, i)
    {
      var power;
      power, cache := PowerAt(ds, s, sources, model, prob, i, cache);
      powers := powers + [power];
    }
  }

  /** One pass of the loop: 0 in a decided chamber, else the cached finite
      difference for the race's key (computed and cached on a miss) over
      the race's voters. */
  method PowerAt(ds: seq<District>, s: StateParams, sources: seq<seq<Node>>, model: RaceModel, prob: real,
                 i: nat, cache: map<(seq<real>, bool), real>)
    returns (power: real, cache': map<(seq<real>, bool), real>)
    requires Usable(model) && WellFormed(ds, sources) && ds != [] && Integrable(sources)
    requires s.rows == Rows(ds) && Fits(s, |sources|) && i < |ds|
    requires CacheAgrees(Keys(s), Doubts(s), StoredTable(ds, s, sources, model, prob), cache, i)
    ensures CacheAgrees(Keys(s), Doubts(s), StoredTable(ds, s, sources, model, prob), cache', i + 1)
    ensures ReportedPower(Keys(s), Doubts(s), StoredTable(ds, s, sources, model, prob), VoterCounts(ds), i, power)
  {
    ghost var keys := Keys(s);
    ghost var doubt := Doubts(s);
    ghost var table := StoredTable(ds, s, sources, model, prob);
    ghost var voters := VoterCounts(ds);
    var testCham1 := s.threshold1.Seats?;
    var testCham2 := s.threshold2.Seats?;
    if (i < s.chamber2 && !testCham1) || (i >= s.chamber2 && !testCham2) {
      Decided(keys, doubt, table, cache, i);
      return 0.0, cache;
    }
    var numVoters := ds[i].voters;
    var uniqueParams := (s.rows[i], i < s.chamber2);
    assert uniqueParams == keys[i];
    cache' := cache;
    if uniqueParams !in cache {
      var stored := FiniteDifference(s, sources, model, i, numVoters, prob);
      KeysDecideDoubt(s);
      CacheMiss(keys, doubt, table, voters, cache, i, stored);
      cache' := cache[uniqueParams := stored];
    } else {
      CacheHit(keys, doubt, table, voters, cache, i);
    }
    power := cache'[uniqueParams] / (numVoters as real);
  }

  /** What voter_power returns for districts ds: NoRaces for an empty
      frame (chambers[-1] fails), the integration's error, the baseline
      success probability when only that is asked for, and otherwise one
      power per district: 0 in a decided chamber, else the cached finite
      difference of the first district with the same parameter row and
      chamber, over this district's voters. */
  predicate VoterPowerResult(ds: seq<District>, sources: seq<seq<Node>>, model: RaceModel,
                             bothBad: bool, neitherBad: bool, probOnly: bool, r: Result<Outcome, Error>)
    requires Usable(model) && WellFormed(ds, sources)
  {
    && (ds == [] ==> r == Err(NoRaces))
    && (ds != [] ==>
      var s := Setup(ds, bothBad, neitherBad);
      var base := ChamberSuccessProbability(s, sources, model);
      && (base.Err? ==> r == Err(base.error))
      && (base.Ok? && probOnly ==> r == Ok(Probability(base.value)))
      && (base.Ok? && !probOnly ==>
            && r.Ok? && r.value.Powers? && |r.value.powers| == |ds|
            && forall i :: 0 <= i < |ds| ==>
                 ReportedPower(Keys(s), Doubts(s), StoredTable(ds, s, sources, model, base.value),
                               VoterCounts(ds), i, r.value.powers[i])))
  }

  /** voter_power. */
  method ComputeVoterPower(ds: seq<District>, sources: seq<seq<Node>>, model: RaceModel,
                           bothBad: bool, neitherBad: bool, probOnly: bool) returns (r: Result<Outcome, Error>)
    requires Usable(model) && WellFormed(ds, sources)
    ensures VoterPowerResult(ds, sources, model, bothBad, neitherBad, probOnly, r)
  {
    if ds == [] {
      return Err(NoRaces);
    }
    var parameterWeights := Rows(ds);
    var chambers := Chambers(ds);
    var last := |ds| - 1;
    var chamber2 := FirstIndex(chambers, chambers[last]);
    var threshold1 := Classify(ds[0].threshold, chamber2);
    var threshold2 := Classify(ds[last].threshold, |ds| - chamber2);
    var s := StateParams(parameterWeights, chamber2, threshold1, threshold2,
                         ds[0].tie, ds[last].tie, bothBad, neitherBad);
    assert s == Setup(ds, bothBad, neitherBad);
    var prob := ChamberSuccessProb(s, sources, model);
    if prob.Err? {
      return Err(prob.error);
    }
    if probOnly {
      return Ok(Probability(prob.value));
    }
    SetupFits(ds, bothBad, neitherBad, sources);
    IntegrationOutcome(s, sources, model);
    var powers := PowerLoop(ds, s, sources, model, prob.value);
    return Ok(Powers(powers));
  }

  /** A reported power in a chamber in doubt is the race's own finite
      difference whenever the first race sharing its key has as many
      voters: always on a cache miss, and on a hit between equal voter
      counts, because races with the same row in the same chamber are
      interchangeable.  Otherwise the hit rescales another race's
      finite difference and is only an approximation. */
  lemma CachedPowerExact(ds: seq<District>, s: StateParams, sources: seq<seq<Node>>, model: RaceModel,
                         prob: real, i: nat, power: real)
    requires Usable(model) && WellFormed(ds, sources) && ds != [] && i < |ds|
    requires s == Setup(ds, s.bothBad, s.neitherBad) && InDoubt(s, i)
    requires ReportedPower(Keys(s), Doubts(s), StoredTable(ds, s, sources, model, prob), VoterCounts(ds), i, power)
    requires ds[FirstIndex(Keys(s), Key(s, i))].voters == ds[i].voters
    ensures var p := ChamberSuccessProbability(Perturb(s, i, ds[i].voters), sources, model);
      p.Ok? && p.value == prob + power
  {
    var j := FirstIndex(Keys(s), Key(s, i));
    var v := ds[i].voters;
    var pj := ChamberSuccessProbability(Perturb(s, j, v), sources, model);
    HitFromStored(ds, s, sources, model, prob, i, power);
    assert ChamberSuccessProbability(Perturb(s, i, v), sources, model) == pj by {
      if j != i {
        assert s.rows[j] == s.rows[i] && (j < s.chamber2) == (i < s.chamber2);
        PerturbedTwins(s, sources, model, j, i, v);
      }
    }
  }

  /** The power reported at a race in doubt is the stored gain of the first
      race with its key, over this race's voters. */
  lemma HitFromStored(ds: seq<District>, s: StateParams, sources: seq<seq<Node>>, model: RaceModel,
                      prob: real, i: nat, power: real)
    requires Usable(model) && WellFormed(ds, sources) && ds != [] && i < |ds|
    requires s == Setup(ds, s.bothBad, s.neitherBad) && InDoubt(s, i)
    requires ReportedPower(Keys(s), Doubts(s), StoredTable(ds, s, sources, model, prob), VoterCounts(ds), i, power)
    requires ds[FirstIndex(Keys(s), Key(s, i))].voters == ds[i].voters
    ensures var pj := ChamberSuccessProbability(Perturb(s, FirstIndex(Keys(s), Key(s, i)), ds[i].voters), sources, model);
      pj.Ok? && pj.value == prob + power
  {
    var j := FirstIndex(Keys(s), Key(s, i));
    var v := ds[i].voters;
    var table := StoredTable(ds, s, sources, model, prob);
    var pj := ChamberSuccessProbability(Perturb(s, j, v), sources, model);
    var stored := Stored(s, sources, model, j, v, prob);
    assert stored.Ok? && power == stored.value / (v as real) by {
      assert table[j] == stored;
    }
    assert pj.Ok? && stored.value / (v as real) == pj.value - prob;
    var gain := pj.value - prob;
    assert power == gain;
    assert pj.value == prob + gain;
  }

  // ---------------------------------------------------------------------
  // Interchangeable races

  /** xs with the entries at a and b exchanged. */
  function Swap<T>(xs: seq<T>, a: nat, b: nat): (r: seq<T>)
    requires a < |xs| && b < |xs|
    ensures |r| == |xs| && r[a] == xs[b] && r[b] == xs[a]
    ensures forall k :: 0 <= k < |xs| && k != a && k != b ==> r[k] == xs[k]
  {
    xs[a := xs[b]][b := xs[a]]
  }

  lemma SwapMultiset(xs: seq<real>, a: nat, b: nat)
    requires a < |xs| && b < |xs|
    ensures multiset(Swap(xs, a, b)) == multiset(xs)
  {
    var once := xs[a := xs[b]];
    assert multiset(once) == multiset(xs) - multiset{xs[a]} + multiset{xs[b]};
    assert multiset(once[b := xs[a]]) == multiset(once) - multiset{once[b]} + multiset{xs[a]};
  }

  /** Exchanging two races of a chamber does not change its control probability. */
  lemma ChamberSuccessSwap(m: seq<real>, t: Threshold, tie: real, model: RaceModel, a: nat, b: nat)
    requires Usable(model) && a < |m| && b < |m|
    ensures ChamberSuccess(ChamberParams(Swap(m, a, b), t, tie), model) == ChamberSuccess(ChamberParams(m, t, tie), model)
  {
    var probs := WinProbs(m, model);
    assert WinProbs(Swap(m, a, b), model) == Swap(probs, a, b);
    SwapMultiset(probs, a, b);
    SeatDistPermutation(Swap(probs, a, b), probs);
  }

  /** Exchanging two rows exchanges their shifted margins. */
  lemma ShiftedMarginsSwap(rows: seq<seq<real>>, shift: seq<real>, a: nat, b: nat)
    requires a < |rows| && b < |rows|
    requires forall i :: 0 <= i < |rows| ==> |rows[i]| == |shift| + 1
    ensures ShiftedMargins(Swap(rows, a, b), shift) == Swap(ShiftedMargins(rows, shift), a, b)
  {
  }

  /** Exchanging two entries on the same side of a boundary exchanges them
      within that side only. */
  lemma SplitSwap(m: seq<real>, c: nat, a: nat, b: nat)
    requires c <= |m| && a < |m| && b < |m| && (a < c) == (b < c)
    ensures a < c ==> Swap(m, a, b)[..c] == Swap(m[..c], a, b) && Swap(m, a, b)[c..] == m[c..]
    ensures c <= a ==> Swap(m, a, b)[..c] == m[..c] && Swap(m, a, b)[c..] == Swap(m[c..], a - c, b - c)
  {
  }

  /** Exchanging two rows of the same chamber does not change the success
      at any combination of shifts. */
  lemma SuccessAtSwap(s: StateParams, model: RaceModel, combo: seq<Node>, a: nat, b: nat)
    requires Usable(model) && a < |s.rows| && b < |s.rows| && (a < s.chamber2) == (b < s.chamber2)
    ensures SuccessAt(s.(rows := Swap(s.rows, a, b)), model, combo) == SuccessAt(s, model, combo)
  {
    RowShapesSwap(s.rows, |combo| + 1, a, b);
    if forall i :: 0 <= i < |s.rows| ==> |s.rows[i]| == |combo| + 1 {
      ShapedSuccessAtSwap(s, model, combo, a, b);
    }
  }

  /** The case of `SuccessAtSwap` where every row fits the combination. */
  lemma ShapedSuccessAtSwap(s: StateParams, model: RaceModel, combo: seq<Node>, a: nat, b: nat)
    requires Usable(model) && a < |s.rows| && b < |s.rows| && (a < s.chamber2) == (b < s.chamber2)
    requires forall i :: 0 <= i < |s.rows| ==> |s.rows[i]| == |combo| + 1
    ensures SuccessAt(s.(rows := Swap(s.rows, a, b)), model, combo) == SuccessAt(s, model, combo)
  {
    var t := s.(rows := Swap(s.rows, a, b));
    var m := ShiftedMargins(s.rows, Points(combo));
    var w := Swap(m, a, b);
    var c := Boundary(s.chamber2, |m|);
    var p1 := ChamberParams(w[..c], s.threshold1, s.tie1);
    var p2 := ChamberParams(w[c..], s.threshold2, s.tie2);
    var q1 := ChamberParams(m[..c], s.threshold1, s.tie1);
    var q2 := ChamberParams(m[c..], s.threshold2, s.tie2);
    assert SuccessAt(t, model, combo) == SuccessIndependence(p1, p2, model, s.bothBad, s.neitherBad) by {
      RowShapesSwap(s.rows, |combo| + 1, a, b);
      ShiftedMarginsSwap(s.rows, Points(combo), a, b);
    }
    assert SuccessIndependence(p1, p2, model, s.bothBad, s.neitherBad)
        == SuccessIndependence(q1, q2, model, s.bothBad, s.neitherBad) by {
      FirstChamberSwap(s, model, m, a, b);
      SecondChamberSwap(s, model, m, a, b);
      SuccessIndependenceCongruent(p1, p2, q1, q2, model, s.bothBad, s.neitherBad);
    }
  }

  /** Exchanging two rows keeps every row of the same length or not. */
  lemma RowShapesSwap(rows: seq<seq<real>>, width: nat, a: nat, b: nat)
    requires a < |rows| && b < |rows|
    ensures (exists i :: 0 <= i < |rows| && |Swap(rows, a, b)[i]| != width)
        <==> (exists i :: 0 <= i < |rows| && |rows[i]| != width)
  {
    var t := Swap(rows, a, b);
    if exists i :: 0 <= i < |rows| && |t[i]| != width {
      var i :| 0 <= i < |rows| && |t[i]| != width;
      var k := if i == a then b else if i == b then a else i;
      assert |rows[k]| != width;
    }
    if exists i :: 0 <= i < |rows| && |rows[i]| != width {
      var i :| 0 <= i < |rows| && |rows[i]| != width;
      var k := if i == a then b else if i == b then a else i;
      assert |t[k]| != width;
    }
  }

  /** Exchanging two races of the same chamber leaves the first chamber's
      control probability at margins m unchanged. */
  lemma FirstChamberSwap(s: StateParams, model: RaceModel, m: seq<real>, a: nat, b: nat)
    requires Usable(model) && a < |m| && b < |m| && (a < s.chamber2) == (b < s.chamber2)
    ensures var c := Boundary(s.chamber2, |m|);
      ChamberSuccess(ChamberParams(Swap(m, a, b)[..c], s.threshold1, s.tie1), model)
        == ChamberSuccess(ChamberParams(m[..c], s.threshold1, s.tie1), model)
  {
    var c := Boundary(s.chamber2, |m|);
    if a < c {
      SwapWithin(m, c, a, b, s.threshold1, s.tie1, model);
    } else {
      assert Swap(m, a, b)[..c] == m[..c] by {
        SplitSwap(m, c, a, b);
      }
    }
  }

  /** ... and the second chamber's. */
  lemma SecondChamberSwap(s: StateParams, model: RaceModel, m: seq<real>, a: nat, b: nat)
    requires Usable(model) && a < |m| && b < |m| && (a < s.chamber2) == (b < s.chamber2)
    ensures var c := Boundary(s.chamber2, |m|);
      ChamberSuccess(ChamberParams(Swap(m, a, b)[c..], s.threshold2, s.tie2), model)
        == ChamberSuccess(ChamberParams(m[c..], s.threshold2, s.tie2), model)
  {
    var c := Boundary(s.chamber2, |m|);
    var swapped := Swap(m, a, b)[c..];
    if c <= a {
      var i, j := a - c, b - c;
      assert swapped == Swap(m, c + i, c + j)[c..];
      SwapAfter(m, c, i, j, s.threshold2, s.tie2, model);
    } else {
      assert swapped == m[c..] by {
        SplitSwap(m, c, a, b);
      }
    }
  }

  /** Exchanging races c + i and c + j leaves the chamber of the races from
      c on with the same control probability. */
  lemma SwapAfter(m: seq<real>, c: nat, i: nat, j: nat, t: Threshold, tie: real, model: RaceModel)
    requires Usable(model) && c + i < |m| && c + j < |m|
    ensures ChamberSuccess(ChamberParams(Swap(m, c + i, c + j)[c..], t, tie), model) == ChamberSuccess(ChamberParams(m[c..], t, tie), model)
  {
    SwapSuffix(m, c, i, j);
    ChamberSuccessSwap(m[c..], t, tie, model, i, j);
  }

  /** An exchange at or after position c is an exchange within the suffix from c. */
  lemma SwapSuffix(m: seq<real>, c: nat, i: nat, j: nat)
    requires c + i < |m| && c + j < |m|
    ensures Swap(m, c + i, c + j)[c..] == Swap(m[c..], i, j)
  {
    var lhs, rhs := Swap(m, c + i, c + j)[c..], Swap(m[c..], i, j);
    forall k | 0 <= k < |lhs| ensures lhs[k] == rhs[k] {
      assert lhs[k] == Swap(m, c + i, c + j)[k + c];
    }
  }

  /** Exchanging two races before position c leaves the chamber of the
      first c races with the same control probability. */
  lemma SwapWithin(m: seq<real>, c: nat, a: nat, b: nat, t: Threshold, tie: real, model: RaceModel)
    requires Usable(model) && c <= |m| && a < |m| && b < |m| && (a < c) == (b < c)
    ensures a < c ==> ChamberSuccess(ChamberParams(Swap(m, a, b)[..c], t, tie), model) == ChamberSuccess(ChamberParams(m[..c], t, tie), model)
    ensures c == 0 ==> ChamberSuccess(ChamberParams(Swap(m, a, b), t, tie), model) == ChamberSuccess(ChamberParams(m, t, tie), model)
  {
    if a < c {
      assert Swap(m, a, b)[..c] == Swap(m[..c], a, b) by {
        SplitSwap(m, c, a, b);
      }
      ChamberSuccessSwap(m[..c], t, tie, model, a, b);
    } else {
      ChamberSuccessSwap(m, t, tie, model, a, b);
    }
  }

  /** Exchanging two rows of the same chamber does not change the
      integrated success probability. */
  lemma IntegrationSwap(s: StateParams, sources: seq<seq<Node>>, model: RaceModel, a: nat, b: nat)
    requires Usable(model) && a < |s.rows| && b < |s.rows| && (a < s.chamber2) == (b < s.chamber2)
    ensures ChamberSuccessProbability(s.(rows := Swap(s.rows, a, b)), sources, model)
         == ChamberSuccessProbability(s, sources, model)
  {
    var t := s.(rows := Swap(s.rows, a, b));
    var combos := Combos(sources);
    forall i | 0 <= i < |combos| ensures SuccessAt(t, model, combos[i]) == SuccessAt(s, model, combos[i]) {
      SuccessAtSwap(s, model, combos[i], a, b);
    }
    assert Successes(t, model, combos) == Successes(s, model, combos);
  }

  /** Raising one of two identical rows is raising the other one and
      exchanging them. */
  lemma BumpTwins(rows: seq<seq<real>>, a: nat, b: nat, delta: real)
    requires a < |rows| && b < |rows| && rows[a] == rows[b] && |rows[a]| > 0
    ensures Bump(rows, b, delta) == Swap(Bump(rows, a, delta), a, b)
  {
  }

  /** One more vote in either of two races with the same row in the same
      chamber gives the same success probability. */
  lemma PerturbedTwins(s: StateParams, sources: seq<seq<Node>>, model: RaceModel, a: nat, b: nat, voters: nat)
    requires Usable(model) && a < |s.rows| && b < |s.rows| && voters > 0 && |s.rows[a]| > 0
    requires s.rows[a] == s.rows[b] && (a < s.chamber2) == (b < s.chamber2)
    ensures ChamberSuccessProbability(Perturb(s, b, voters), sources, model)
         == ChamberSuccessProbability(Perturb(s, a, voters), sources, model)
  {
    var pa := Perturb(s, a, voters);
    BumpTwins(s.rows, a, b, 1.0 / (voters as real));
    assert Perturb(s, b, voters) == pa.(rows := Swap(pa.rows, a, b));
    IntegrationSwap(pa, sources, model, a, b);
  }
}

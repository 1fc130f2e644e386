# Redistricting voter power: a Dafny model

This project models the computation behind a "voter power" estimate for state
legislative elections. The estimate asks how much one extra Democratic vote in
one district changes the probability of a "good" redistricting outcome, that
is, no single party holding the redistricting pen. The project also models the
row rules of the data pipeline that feeds that computation.

The engine (`voter_power.py`) runs in these steps:

- **Win probability.** A race's expected margin becomes a win probability.
  The margin is looked up, with linear interpolation, in a table of
  Student-t CDF values (`win_probability.dfy`).
- **Seat distribution.** The per-race polynomials `(1 - p) + p x` are
  multiplied by repeated convolution. The result is the exact distribution
  of seats won when races are independent (`seat_distribution.dfy`).
- **Chamber control.** A chamber is won with probability
  `P(seats > t) + tie * P(seats = t)`. A chamber whose threshold is already
  decided is forced to 1 or 0. The two chambers combine into the probability
  of a good outcome under the `both_bad` / `neither_bad` flags
  (`chamber.dfy`).
- **Correlated error.** Each source of correlated error supplies quadrature
  nodes. Every combination of one node per source shifts the margins by the
  races' sensitivities. The success probability at those margins is averaged
  with the product of the node weights (`correlated_error.dfy`).
- **Voter power.** This is a finite difference. One race's margin is raised
  by `1 / voters` on a copy of the parameter rows, and the integration is
  redone. A cache keyed by (parameter row, chamber) stores the gain times the
  race's voters. A hit divides by the voters of the race at hand
  (`voter_power.dfy`).
- **Per-state preparation.** Uncontested seats are removed and their
  chamber's threshold lowered. Safe independents are removed; each one lowers
  every threshold and changes every tie probability. Ratings become signed
  margins, optionally blended with a clipped foundations margin
  (`state_prep.dfy`).

The pipeline rules are modelled row by row:

- CNalysis rating parsing, nominee parsing, incumbent precedence, geoid
  splitting, the winner's margin of a race, and the two in-place passes that
  fill in incumbents (`cnalysis.dfy`).
- The 2018 back-test of the foundations model: rating shares, clipping,
  shares from margins, and the incumbency advantage (`blending_2018.dfy`).
- The fuzzy-match incumbent rules of `historical_incumbency.py`
  (`historical_incumbency.dfy`).
- The 2020 foundations prediction (`prediction_2020.dfy`).

Foreign numerics are parameters:

- the Student-t CDF (a `real -> real` function and a sampled table);
- the quadrature nodes (shift and weight pairs, which the source derives
  from the t percentile and density functions and `cos`);
- difflib's similarity ratio;
- the title-casing function.

pandas cells are a `Cell` datatype that keeps the three values the code tells
apart: a string, the boolean `False`, and NaN. Each exception the code can
raise is a constructor of `Errors.Error`, returned through `Result`.

The engine reproduces three defects of the source as written. Each is listed
under Findings. The model also states each one as a counterexample lemma:

- `WinProbability.WinProb` reads the table through `ProbFromMargin`. There,
  a negative index wraps around to the end of the table (voter_power.py:26-29).
- `StatePreparation.AdjustAll` carries out line 471 as written. For every
  safe independent, `tie /= 0.5` doubles every tie probability, so `steps`
  independents multiply it by 2^steps.
- `Cnalysis.Clean` goes through `FillFromTbaAsWritten`. That fill never
  changes a row (cnalysis_input_components.py:154-159).

The corrected definitions (`GuardedProbFromMargin`, `Halved` and `FillFromTba`)
are separate members, and their intended properties are proved.
Nothing in the engine uses them.

Two further behaviours are reproduced as written and stated by lemmas:

- Line 470 of `voter_power.py` lowers the threshold of both chambers for
  every safe independent, whatever its chamber (`StatePreparation.AdjustAll`).
- The voter-power cache is exact whenever the first race with the same key
  has as many voters as the race at hand (`VoterPower.CachedPowerExact`).

## Model

| member | source | states |
|---|---|---|
| WinProbability.PyIndex | voter_power.py:27-29 | Python list indexing: an in-range index is itself, a negative index down to -len counts from the end, anything else raises |
| WinProbability.ProbFromMargin | voter_power.py:24-32 | as written: interpolates between the two neighbouring entries when both indices exist (after wrap-around), else falls back to the CDF; the result is in [0, 1] when table and CDF are |
| WinProbability.GuardedProbFromMargin | voter_power.py:24-32 | corrected lookup: the CDF outside the table's domain [-50, 50), otherwise a value between the two neighbouring table entries; in [0, 1] for a calibrated table and CDF |
| WinProbability.InterpolateBetween | voter_power.py:29 | the interpolated value lies between the two neighbouring table entries |
| WinProbability.InTableIffInDomain | voter_power.py:26-29 | both neighbouring indices exist exactly when the standardised margin lies in [-50, 50) |
| WinProbability.GuardedMonotone | voter_power.py:12-32 | with a sorted table, a monotone CDF and matching end samples, a larger margin never gets a smaller win probability |
| WinProbability.WrapAroundBreaksMonotonicity | voter_power.py:26-29 | counterexample: as written, margin -75 gets probability 0.5 and the better margin -50 gets 0 |
| WinProbability.WinProb | voter_power.py:24-32 | as written, through ProbFromMargin: the CDF whenever a neighbouring index is missing after wrap-around; between the two neighbouring entries when both are in the table; in [0, 1] for a calibrated model |
| SeatDistribution.ConvolveRace | voter_power.py:59-66 | one convolution with [1 - p, p] adds one seat count |
| SeatDistribution.SeatDist | voter_power.py:64-66 | the distribution has one entry per possible seat count, len(margins) + 1 |
| SeatDistribution.SeatDistIsDistribution | voter_power.py:56-66 | with probabilities in [0, 1] the entries are non-negative and sum to 1 |
| SeatDistribution.SingleRace | voter_power.py:59-66 | one race gives exactly [1 - p, p] |
| SeatDistribution.ConvolvePreservesSum | voter_power.py:58-66 | multiplying by a race polynomial keeps the total mass |
| SeatDistribution.ConvolvePreservesNonNegative | voter_power.py:58-66 | multiplying by a race polynomial keeps the entries non-negative |
| SeatDistribution.ConvolveCommutes | voter_power.py:61-66 | two races can be convolved in either order |
| SeatDistribution.SeatDistRemove | voter_power.py:61-66 | any race can be taken as the last one convolved |
| SeatDistribution.SeatDistPermutation | voter_power.py:61-66 | the seat distribution does not depend on the order of the races |
| SeatDistribution.EntryAtMostSum | voter_power.py:70 | a seat count's probability is at most the total mass |
| ChamberOutcome.WinProbs | voter_power.py:54 | one win probability per margin, each the race model's (as written) win probability of that margin; all in [0, 1] for a calibrated model |
| ChamberOutcome.ChamberPowerTieExtremes | voter_power.py:70 | tie = 1 gives P(seats >= t), tie = 0 gives P(seats > t) |
| ChamberOutcome.ChamberPower | voter_power.py:70 | `sum(d[t:]) - (1 - tie) d[t]` is the mass above t plus tie times the mass at t |
| ChamberOutcome.ChamberPowerInUnit | voter_power.py:70 | on a distribution with tie in [0, 1] the chamber power is a probability |
| ChamberOutcome.CalibratedChamberPower | voter_power.py:53-70 | the chamber power of the races' seat distribution is a probability |
| ChamberOutcome.DemChamberProbability | voter_power.py:35-70 | AssertionError exactly when the threshold is not below the number of seat counts; otherwise a probability |
| ChamberOutcome.DemChamberPower | voter_power.py:53-70 | the convolution loop computes DemChamberProbability |
| ChamberOutcome.ChamberSuccess | voter_power.py:97-108 | forced 'D' gives 1 and forced 'R' gives 0; otherwise dem_chamber_power, a probability |
| ChamberOutcome.ChamberProb | voter_power.py:92-108 | the per-chamber body of the loop computes ChamberSuccess |
| ChamberOutcome.FourOutcomes | voter_power.py:113-115 | the four joint outcomes' probabilities sum to 1, and the neither-bad term is P(both lost) |
| ChamberOutcome.GoodOutcome | voter_power.py:110-117 | the closed form equals the sum over the four joint control outcomes of their probability times whether the flags make them good |
| ChamberOutcome.GoodOutcomeInUnit | voter_power.py:110-117 | with control probabilities in [0, 1] the good-outcome probability is in [0, 1] |
| ChamberOutcome.GoodOutcomeStepwise | voter_power.py:110-117 | the two subtractions of the epilogue give the closed form |
| ChamberOutcome.SuccessIndependence | voter_power.py:73-117 | fails exactly when a chamber fails; otherwise a probability for calibrated models and ties |
| ChamberOutcome.BothChambersOk | voter_power.py:110-117 | with both chambers' probabilities known the result is the good-outcome formula on them |
| ChamberOutcome.SuccessIndependenceCongruent | voter_power.py:90-117 | the outcome depends on the chambers only through their control probabilities |
| ChamberOutcome.SuccessProbIndependence | voter_power.py:90-117 | the loop over the two chambers computes SuccessIndependence |
| ChamberOutcome.ThreeTossUps | voter_power.py:53-70 | three toss-ups give [1/8, 3/8, 3/8, 1/8] and at least two seats with probability 1/2 |
| CorrelatedError.Prepend | voter_power.py:184 | putting one node in front keeps the number of combinations |
| CorrelatedError.Points | voter_power.py:184-185 | a combination's shift vector has one shift per source |
| CorrelatedError.ShiftedMargins | voter_power.py:194 | one margin per race |
| CorrelatedError.Boundary | voter_power.py:197-198 | the chamber split clamps to the number of races like a Python slice |
| CorrelatedError.SuccessAt | voter_power.py:192-203 | ValueError (ShapeMismatch) exactly when some row does not have one entry per source plus the margin; every other error is a chamber's AssertionError; otherwise a probability for a calibrated model |
| CorrelatedError.Successes | voter_power.py:190-203 | one result per combination |
| CorrelatedError.ChamberSuccessProbability | voter_power.py:156-208 | AssertionError exactly when there is no source of correlated error |
| CorrelatedError.AccumulateStep | voter_power.py:189-206 | one step of the weighted sum: an earlier error stays, a new error stops it, else the weighted success is added |
| CorrelatedError.Accumulate | voter_power.py:189-206 | succeeds exactly when every combination succeeds; otherwise fails with the error of the first failing combination |
| CorrelatedError.IntegrationErrorKinds | voter_power.py:189-206 | the missing-source error never comes out of the integration loop itself |
| CorrelatedError.ErrorPersists | voter_power.py:189-206 | once the integration has failed later combinations do not change the error |
| CorrelatedError.ChamberSuccessProb | voter_power.py:156-208 | the method computes ChamberSuccessProbability |
| CorrelatedError.WeightedSuccess | voter_power.py:189-208 | the accumulation loop computes the weighted sum of the successes, stopping at the first error |
| CorrelatedError.SuccessAtShift | voter_power.py:192-203 | one pass of the loop computes SuccessAt |
| CorrelatedError.FittingSuccessAt | voter_power.py:194-203 | rows of the right width and thresholds within the races never fail |
| CorrelatedError.IntegrationOutcome | voter_power.py:156-208 | with fitting rows the integration succeeds exactly when there is a source and a non-zero total weight; with sources but zero total weight it returns Err(ZeroTotalWeight), where the source divides 0 by 0 |
| CorrelatedError.ProductWithShape | voter_power.py:184 | one node prepended to each rest: len(ns) * len(rests) combinations, each one longer |
| CorrelatedError.Combos | voter_power.py:184-185 | itertools.product gives the product of the node counts many combinations, each with one node per source |
| CorrelatedError.NodeCountZero | voter_power.py:184 | the product is empty exactly when some source has no nodes |
| CorrelatedError.CombosPositive | voter_power.py:186 | with positive node weights every combination has positive weights |
| CorrelatedError.ComboWeightPositive | voter_power.py:186 | np.prod of positive weights is positive |
| CorrelatedError.TotalWeightProductWith | voter_power.py:186-187 | the total weight of one more source is its weight sum times the rest's total |
| CorrelatedError.TotalWeightFactorises | voter_power.py:186-187 | the total weight of the grid is the product of the per-source weight sums |
| CorrelatedError.TotalWeightZeroIff | voter_power.py:187 | with positive weights the total weight is non-negative and zero exactly when a source has no nodes |
| CorrelatedError.WeightProductSign | voter_power.py:186-187 | the product of weight sums is non-negative, zero exactly when a source is empty |
| CorrelatedError.AccumulateBounds | voter_power.py:189-206 | with results in [lo, hi] and non-negative weights the weighted sum lies between the weights' sum times lo and times hi |
| CorrelatedError.AccumulateMonotone | voter_power.py:189-206 | with non-negative weights, pointwise larger successes give a larger weighted sum |
| CorrelatedError.ChamberSuccessBetween | voter_power.py:189-208 | with positive node weights, when every combination's success lies in [lo, hi] so does the integrated probability |
| CorrelatedError.ChamberSuccessInUnit | voter_power.py:189-208 | for a calibrated model and ties in [0, 1] the integrated success probability is a probability (ChamberSuccessBetween with 0 and 1) |
| CorrelatedError.ConstantSuccess | voter_power.py:189-206 | when every combination gives p the weighted sum is total weight times p |
| CorrelatedError.AverageOfConstant | voter_power.py:208 | dividing total weight times p by the total weight gives p |
| CorrelatedError.BaseMargins | voter_power.py:194 | one base margin per race |
| CorrelatedError.ZeroShiftSuccess | voter_power.py:194 | at a zero shift vector the success is the independent-race success on the base margins |
| CorrelatedError.NoShiftIsIndependence | voter_power.py:184-208 | when every node sits at 0 the integration reduces to the independent-race probability |
| CorrelatedError.ZeroCombos | voter_power.py:184-185 | combinations of zero nodes are zero shift vectors |
| CorrelatedError.DotUnitVector | voter_power.py:194 | the dot product with [1] + zeros is the row's first entry |
| VoterPower.FirstIndex | voter_power.py:262 | list.index: a position holding x with no earlier one |
| VoterPower.Classify | voter_power.py:283-301 | threshold <= 0 is forced 'D', more than the chamber's races is forced 'R', otherwise the seat count |
| VoterPower.Setup | voter_power.py:246-301 | chamber 2 starts at the first row of the last row's chamber; thresholds classified against each chamber's races; ties from the first and last rows |
| VoterPower.Bump | voter_power.py:351-355 | the copy differs from the rows only in the margin of race j, raised by delta |
| VoterPower.Perturb | voter_power.py:351-355 | the copy differs from the state only in race j's margin, raised by 1 / voters; thresholds, ties, split and flags are kept |
| VoterPower.Decided | voter_power.py:324-332 | a race in a decided chamber leaves the cache in agreement |
| VoterPower.CacheHit | voter_power.py:367-368 | a hit reports the cached value over this race's voters and keeps the cache in agreement |
| VoterPower.CacheMiss | voter_power.py:349-368 | a miss happens at the first race with its key, stores its finite difference and keeps the cache in agreement |
| VoterPower.CacheStore | voter_power.py:364-365 | storing the first race's entry keeps the cache in agreement |
| VoterPower.MissIsFirst | voter_power.py:347-349 | a key missing from the cache has not been met in doubt before |
| VoterPower.KeysDecideDoubt | voter_power.py:341-345 | races with the same key are both in doubt or both decided |
| VoterPower.SetupFits | voter_power.py:246-301 | the rows and thresholds voter_power builds fit the error sources |
| VoterPower.PerturbFits | voter_power.py:351-355 | one more vote changes no row's width and no threshold |
| VoterPower.FiniteDifference | voter_power.py:351-365 | a miss stores (prob_new - prob) * voters |
| VoterPower.Gain | voter_power.py:365-368 | the stored gain divided by the voters is prob_new - prob |
| VoterPower.Stored | voter_power.py:357-365 | fails exactly when the perturbed integration fails, with its error; otherwise the stored value over the voters is the perturbed probability minus prob |
| VoterPower.HitFromStored | voter_power.py:349-368 | with equal voters, a reported power is the gain stored by the first race sharing the key: its perturbed probability is prob + power |
| VoterPower.PowerLoop | voter_power.py:322-368 | one power per race, each the reported power: 0 in a decided chamber, else the first same-key race's stored gain over this race's voters |
| VoterPower.PowerAt | voter_power.py:324-368 | one pass of the loop reports the power of race i and keeps the cache in agreement |
| VoterPower.ComputeVoterPower | voter_power.py:211-372 | IndexError for no races, the integration's error, the baseline alone for prob_only, else one reported power per race |
| VoterPower.CachedPowerExact | voter_power.py:313-368 | whenever the first race sharing the key has as many voters as race i, the reported power of race i is exactly its own finite difference: the perturbed integration succeeds and equals prob + power |
| VoterPower.ChamberSuccessSwap | voter_power.py:53-70 | exchanging two races of a chamber keeps its control probability |
| VoterPower.ShiftedMarginsSwap | voter_power.py:194 | exchanging two rows exchanges their shifted margins |
| VoterPower.SplitSwap | voter_power.py:197-198 | an exchange on one side of the chamber split stays on that side |
| VoterPower.SwapSuffix | voter_power.py:198 | exchanging two entries after the split is exchanging them in the suffix |
| VoterPower.SwapAfter | voter_power.py:198 | exchanging two races after the split keeps the second chamber's control probability |
| VoterPower.SuccessAtSwap | voter_power.py:192-203 | exchanging two rows of one chamber keeps the success at every combination |
| VoterPower.ShapedSuccessAtSwap | voter_power.py:192-203 | with rows of the right width, exchanging two rows of one chamber keeps the success at a combination |
| VoterPower.FirstChamberSwap | voter_power.py:197 | exchanging two races of one chamber keeps chamber 1's control probability |
| VoterPower.SecondChamberSwap | voter_power.py:198 | exchanging two races of one chamber keeps chamber 2's control probability |
| VoterPower.SwapWithin | voter_power.py:197-198 | an exchange before the split keeps the first chamber's control probability |
| VoterPower.IntegrationSwap | voter_power.py:189-208 | exchanging two rows of one chamber keeps the integrated probability |
| VoterPower.BumpTwins | voter_power.py:351-355 | raising one of two identical rows is raising the other and exchanging them |
| VoterPower.PerturbedTwins | voter_power.py:343-365 | one more vote in either of two same-key races gives the same success probability |
| StatePreparation.RatingToMargin | voter_power.py:375-397 | KeyError for a confidence missing from the table, ValueError for a favoured independent, the margin negated for R |
| StatePreparation.RatingSides | voter_power.py:388-393 | a Republican favourite mirrors a Democratic one; a toss-up reads the Democratic side |
| StatePreparation.InState | voter_power.py:449 | exactly the rows of the state |
| StatePreparation.UncontestedDems | voter_power.py:452-457 | zero exactly when no row of the office is an uncontested Democratic seat |
| StatePreparation.Contested | voter_power.py:460 | exactly the rows not rated Uncontested |
| StatePreparation.LowerThresholds | voter_power.py:461-462 | KeyError exactly when an office is neither lower nor upper; otherwise every threshold lowered by its office's count, nothing else changed |
| StatePreparation.Independents | voter_power.py:467-468 | exactly the safe (or uncontested) independents |
| StatePreparation.AdjustAll | voter_power.py:469-471 | as written: every row's threshold lowered by the step count and its tie multiplied by 2^steps (`tie /= 0.5` once per safe independent); nothing else changes |
| StatePreparation.WithoutLabelsKeeps | voter_power.py:472 | dropping keeps exactly the rows whose label is not dropped |
| StatePreparation.DropSafeIndependents | voter_power.py:467-472 | the loop over safe independents computes AfterIndependents, whose rows are input rows lowered and tie-doubled once per safe independent |
| StatePreparation.AdjustWithout | voter_power.py:469-472 | adjusting commutes with dropping |
| StatePreparation.WithoutMore | voter_power.py:472 | dropping one label more at a time is dropping the union |
| StatePreparation.IndependentLabels | voter_power.py:467-472 | with unique labels a row's label is dropped exactly when it is a safe independent |
| StatePreparation.AfterIndependentsExact | voter_power.py:464-472 | with unique labels the loop leaves exactly the non-independents, in order, each with its threshold lowered by the number of safe independents and its tie doubled that often |
| StatePreparation.AfterIndependents | voter_power.py:467-472 | no safe independent is left, and every row left is an input row with its threshold lowered and its tie doubled once per safe independent |
| StatePreparation.DroppedRows | voter_power.py:469-472 | adjusting every row and then dropping the independents' labels leaves only such rows |
| StatePreparation.AdjustTwice | voter_power.py:469-471 | one more pass of the loop body adjusts every row one step further |
| StatePreparation.DoubledIsPower | voter_power.py:471 | doubling a tie once per step multiplies it by 2^steps |
| StatePreparation.HalvedInUnit | voter_power.py:464-471 | corrected: halving keeps a tie probability in [0, tie] |
| StatePreparation.TieAfterIndependentAsWritten | voter_power.py:471 | as written the tie grows |
| StatePreparation.TieDoublingLeavesUnit | voter_power.py:471 | counterexample: a tie of 1 becomes 2 and two toss-ups then give a chamber "probability" of 1.25 |
| StatePreparation.Margins | voter_power.py:475-479 | the first row's error in order, or one margin per row from rating_to_margin |
| StatePreparation.ClipFound | voter_power.py:486-494 | zero clip is no clip; a positive clip keeps the foundations margin within clip of the rating margin and unchanged inside |
| StatePreparation.MixBetween | voter_power.py:498-502 | a blend with weight in [0, 1] lies between its margins; weights 0 and 1 pick one |
| StatePreparation.BlendedMarginBounds | voter_power.py:482-502 | the blended margin lies between the rating and clipped foundations margins, hence within clip of the rating |
| StatePreparation.Districts | voter_power.py:474-502 | one district per row with the row's sensitivities, voters, threshold, tie and chamber; its margin is the blended margin when foundations are given, and it then lies within clip of the rating margin |
| StatePreparation.AllBlendedWithinClip | voter_power.py:482-502 | with blend weights in [0, 1] and a positive clip, every row's blended margin lies within clip of its rating margin |
| StatePreparation.Prepare | voter_power.py:449-502 | fails only with an unknown chamber, a missing or independent rating, or no races left; a prepared table is never empty |
| StatePreparation.PreparedRows | voter_power.py:449-502 | every prepared district comes from a contested, non-independent row of the state with the same sensitivities, voters and chamber, and without foundations carries that row's rating margin |
| StatePreparation.RemainingFromState | voter_power.py:449-472 | every row left after the independents comes from a contested, non-independent row of the state |
| StatePreparation.DistrictsFromRows | voter_power.py:474-502 | districts built from such rows keep their origin, and without foundations their margin is the rating margin |
| StatePreparation.UnknownOfficeFails | voter_power.py:460-462 | a contested row of the state whose office is neither lower nor upper makes the preparation fail with KeyError |
| StatePreparation.LoweredFit | voter_power.py:461-462 | lowering thresholds keeps sensitivities and voters |
| StatePreparation.AfterIndependentsFit | voter_power.py:467-472 | dropping safe independents keeps sensitivities and voters |
| StatePreparation.DistrictsFit | voter_power.py:474-502 | the districts carry their rows' sensitivities and voters |
| StatePreparation.PreparedWellFormed | voter_power.py:449-502 | the table handed to voter_power fits the error sources |
| StatePreparation.StateVoterPowers | voter_power.py:400-515 | the preparation's error, or voter_power's outcome on the prepared (as written) districts with the state's flags; the prepared table fits the error sources |
| RealArith.NpClip | foundations_prediction_2020.py:221 | np.clip: within [lo, hi] for a proper range, unchanged inside, hi for an empty range |
| Cnalysis.GetIncumb | cnalysis_input_components.py:85-99 | 'D' iff d; 'R' iff r and not d; 'I' iff only i; False iff none |
| Cnalysis.Split | cnalysis_input_components.py:117-120 | str.split gives at least one piece, none holding the separator |
| Cnalysis.JoinSplit | cnalysis_input_components.py:117-120 | joining the pieces of a split gives the string back |
| Cnalysis.SplitJoin | cnalysis_input_components.py:117-120 | splitting a join of separator-free pieces gives the pieces back |
| Cnalysis.FirstAndLastPiece | cnalysis_input_components.py:117-120 | the first piece is a prefix ending at the first separator, the last piece a suffix; one piece iff no separator |
| Cnalysis.ParseRating | cnalysis_input_components.py:117-124 | favored is the last word (False for Toss-Up or Election), confidence the first (False for No) |
| Cnalysis.SafeExample | cnalysis_input_components.py:117-124 | "Safe D" is (D, Safe) |
| Cnalysis.TossUpExample | cnalysis_input_components.py:117-124 | "Toss-Up" is (False, Toss-Up) |
| Cnalysis.NoElectionExample | cnalysis_input_components.py:117-124 | "No Election" is (False, False) |
| Cnalysis.RatingWords | cnalysis_input_components.py:117-124 | favoured is a space-free suffix of the rating, confidence a space-free prefix followed by a space |
| Cnalysis.Incumbent | cnalysis_input_components.py:130-136 | no incumbent iff no nominee cell is marked [I]; D iff the Democrat's is |
| Cnalysis.MissingNomineeUnmarked | cnalysis_input_components.py:130-132 | str(NaN) holds no [I] |
| Cnalysis.Before | cnalysis_input_components.py:145-150 | s.split(pat)[0]: a prefix of s, all of s iff pat does not occur, followed by pat otherwise, with no earlier occurrence |
| Cnalysis.BeforeAt | cnalysis_input_components.py:145-150 | the prefix ends at the first occurrence of pat |
| Cnalysis.NomineeName | cnalysis_input_components.py:142-150 | False iff the cell is missing or empty; otherwise a prefix of the cell, the whole cell when unmarked |
| Cnalysis.NomineeExamples | cnalysis_input_components.py:142-150 | "Roe [I]" becomes "Roe"; NaN becomes False |
| Cnalysis.TbaFillIsDead | cnalysis_input_components.py:154-159 | as written the TBA fill never changes a row, even the one it was meant for |
| Cnalysis.FillFromTbaAsWritten | cnalysis_input_components.py:154-159 | as written the incumbent is returned unchanged |
| Cnalysis.FillFromTba | cnalysis_input_components.py:154-159 | corrected: an incumbent stays; with none, a favoured party takes the seat exactly when its nominee is TBA; nothing else changes |
| Cnalysis.TbaUnmarked | cnalysis_input_components.py:130-132 | the nominee text TBA holds no [I] |
| Cnalysis.TbaSeatStaysEmpty | cnalysis_input_components.py:116-171 | as written, a Safe R row with R nominee TBA and no incumbent is cleaned to no incumbent |
| Cnalysis.TbaFillIntended | cnalysis_input_components.py:154-159 | corrected: an existing incumbent stays; otherwise the favourite takes the seat exactly when its nominee is TBA |
| Cnalysis.FillIdempotent | cnalysis_input_components.py:154-166 | the two fills as written (the dead TBA fill, then the missing-nominee fill), applied a second time, change nothing |
| Cnalysis.ZFill | cnalysis_input_components.py:169 | str.zfill: left-padding with '0' to the width, after a leading sign |
| Cnalysis.SplitGeoid | cnalysis_input_components.py:169-171 | the padded geoid is at least 5 long and is state_fips (2 characters) followed by district_num |
| Cnalysis.GeoidExample | cnalysis_input_components.py:169-171 | "6001" becomes "06001", "06", "001" |
| Cnalysis.Clean | cnalysis_input_components.py:116-171 | as written: flip iff FLIP is present; favourite and confidence from the rating; the incumbent changes only from none to the favourite; the geoid is a 2-character state_fips followed by district_num |
| Cnalysis.CleanInitialRating | cnalysis_input_components.py:127 | at most as many rows |
| Cnalysis.CleanInitialRatingRows | cnalysis_input_components.py:127-171 | exactly the cleaned rows of the states other than VT and WV |
| Cnalysis.MissingNomineeFill | cnalysis_input_components.py:161-166 | a favoured party with no nominee on file and no incumbent takes the seat |
| Cnalysis.FillFromMissingNominee | cnalysis_input_components.py:161-166 | an incumbent stays; with none, a favoured party takes the seat exactly when its nominee cell is missing; nothing else changes |
| Cnalysis.Largest | cnalysis_input_components.py:610-611 | a cast vote at least as large as every other |
| Cnalysis.RemoveOne | cnalysis_input_components.py:610-611 | the votes less one copy of x |
| Cnalysis.TopTwoAtMostSum | cnalysis_input_components.py:610-611 | for vote counts, 0 <= runner-up <= winner and the two together are at most the total |
| Cnalysis.WinMargin | cnalysis_input_components.py:610-611 | NaN (None) exactly when two or more candidates share no votes at all; otherwise, for vote counts, in [0, 1] |
| Cnalysis.LeadShareInUnit | cnalysis_input_components.py:610-611 | for vote counts with votes cast, the winner's lead over the runner-up divided by the total is in [0, 1] |
| Cnalysis.WinMarginZeroIffTie | cnalysis_input_components.py:610-611 | with votes cast the margin is 0 exactly when the top two tie |
| Cnalysis.LeadMarginExample | cnalysis_input_components.py:610-611 | one candidate gives 1; 30 against 10 gives 0.5 |
| Cnalysis.TieMarginExample | cnalysis_input_components.py:610-611 | 10 against 10 gives 0 |
| Cnalysis.MergedSeat | cnalysis_input_components.py:775-779 | a seat without an election becomes uncontested for its incumbent (the scraped party when none was named); other seats are untouched |
| Cnalysis.MergedSeatIdempotent | cnalysis_input_components.py:768-779 | merging twice is merging once |
| Cnalysis.MergeChamber | cnalysis_input_components.py:771-779 | the loop writes MergedSeat of every row in place |
| Cnalysis.MergeIncumbents | cnalysis_input_components.py:768-779 | both chambers' rows are merged |
| Cnalysis.CorrectedNoMatch | cnalysis_input_components.py:527-534 | without a matching correction the incumbent stays |
| Cnalysis.CorrectedLastMatch | cnalysis_input_components.py:527-534 | otherwise the last matching correction decides |
| Cnalysis.ApplyCorrections | cnalysis_input_components.py:527-534 | the loop gives every row the incumbent its chamber's corrections decide, changing nothing else |
| Cnalysis.FixIncumbency | cnalysis_input_components.py:513-536 | the lower corrections on the lower table, the upper ones on the upper table |
| Blending2018.ChazShare | foundations_blending_2018.py:70-90 | the table's share for the confidence, mirrored for R; always in [0, 1] |
| Blending2018.ChazShareSymmetric | foundations_blending_2018.py:70-90 | R and D readings add to 1; Toss-Up is 0.5 for either; D is at least 0.5 |
| Blending2018.ChazShareOrdered | foundations_blending_2018.py:72-83 | Toss-Up < Tilt < Lean < Likely < Safe < any other confidence |
| Blending2018.ClipFound | foundations_blending_2018.py:62-63 | within size of the rating's share, unchanged inside; np.clip's value for a negative size |
| Blending2018.ClipFoundIdempotent | foundations_blending_2018.py:62-63 | clipping twice is clipping once |
| Blending2018.ShareRoundTrip | foundations_blending_2018.py:117-118 | the signed margin of a share is the winner-signed margin, and back |
| Blending2018.Share | foundations_blending_2018.py:117-118 | missing iff the margin is; the signed margin of the share is the margin, negated when R won; a margin in [0, 1] gives a share in [0, 1] on the winner's side |
| Blending2018.ShareSides | foundations_blending_2018.py:117-131 | a margin in [0, 1] gives a share on the winner's side; the two winners' shares mirror |
| Blending2018.ShareOfVotes | foundations_blending_2018.py:117-118 | a share from a margin computed from votes is in [0, 1] |
| Blending2018.Compile | foundations_blending_2018.py:113-172 | the shares of the three years from their margins, the 2018 and 2016 ones in [0, 1] and on the winner's side for margins in [0, 1]; a missing residual read as 0, so the district's presidential share is the state's, otherwise the state's share plus the residual; a missing incumbent read as the favourite, never missing when a favourite is named |
| Blending2018.IncumbencyAdvantage | foundations_blending_2018.py:188-206 | last share falls back to 2016; uncontested iff more than 25 points off even; elec_diff by side when uncontested; inc_adv only for D/R incumbents, NaN read as 0 |
| Blending2018.UncontestedIffLandslide | foundations_blending_2018.py:191-192 | a share from a margin m is uncontested iff m > 0.5 |
| Blending2018.UncontestedAdvantage | foundations_blending_2018.py:198-206 | an uncontested incumbent's advantage is the fixed swing, signed by side |
| Blending2018.FoundShare | foundations_blending_2018.py:43-44 | the presidential share plus advantage, clipped to [0.3, 0.7] |
| Blending2018.ClippedResult | foundations_blending_2018.py:51 | the 2018 share clipped to [0.3, 0.7], NaN staying NaN |
| Blending2018.Predict | foundations_blending_2018.py:43-51 | the advantage returned is incumbency_advantage's on the compiled row (last share, landslide test, signed swing, D/R only); the found share is np.clip of the presidential share plus that advantage to [0.3, 0.7], so other incumbents get no advantage; rating share in [0, 1]; the clipped 2018 result |
| HistoricalIncumbency.IncumbRatio | historical_incumbency.py:51-60 | 'D' iff dem >= 0.7 beating both; else 'I' iff ind >= 0.7 beating rep; else 'R' iff rep >= 0.7; else False |
| HistoricalIncumbency.IncumbRatioBestMatch | historical_incumbency.py:51-60 | no incumbent iff every ratio is below 0.7; the named party's ratio is the best of those reaching 0.7 |
| HistoricalIncumbency.RatioTieGoesRepublican | historical_incumbency.py:51-60 | equal D and R matches go to R |
| HistoricalIncumbency.ReorderName | historical_incumbency.py:147-148 | the result holds no comma; it is the last comma piece of the text, a space, then the first piece; the first piece is a prefix of the text ending at its first comma, the last a suffix; without a comma the text is repeated |
| HistoricalIncumbency.ReorderLastFirst | historical_incumbency.py:147-148 | "Last,First" becomes "First Last" |
| HistoricalIncumbency.ReorderNoComma | historical_incumbency.py:147-148 | a name without a comma is repeated; NaN reads "nan nan" |
| HistoricalIncumbency.Remove | historical_incumbency.py:140 | no '*' is left and every other character is kept |
| HistoricalIncumbency.CheckDistrict | historical_incumbency.py:134-164 | AttributeError iff the incumbent party's nominee is not text; the incumbent survives iff ratio >= 0.7; a hand value overrides |
| HistoricalIncumbency.Kept | historical_incumbency.py:132 | exactly the D and R incumbents' districts |
| HistoricalIncumbency.CheckAll | historical_incumbency.py:134-164 | fails iff some district fails, else one checked row per district |
| HistoricalIncumbency.CheckedCons | historical_incumbency.py:134-164 | one checked district in front of the rest's checked rows matches every district |
| HistoricalIncumbency.GetIncumbency2016 | historical_incumbency.py:121-171 | fails iff a kept district's nominee is not text, else one checked row per kept district |
| HistoricalIncumbency.CheckedIncumbent | historical_incumbency.py:155-164 | a hand value wins; otherwise the incumbent survives iff ratio >= 0.7 and never changes party |
| Prediction2020.IdxMax | foundations_prediction_2020.py:96 | the first party with the most votes |
| Prediction2020.IdxMin | foundations_prediction_2020.py:104 | the first party with the fewest votes |
| Prediction2020.Max3 | foundations_prediction_2020.py:99 | the largest of three shares |
| Prediction2020.DemVoteshare | foundations_prediction_2020.py:93-116 | AK 001 tie broken for R; uncontested iff max share >= 0.75; I in top two unless it trails both; the Democratic share is D / (D + R) after a party with no votes against the other's winner is credited with the independent's votes, missing when that sum is 0; it is in [0, 1], on the winner's side, and missing only when the Democrat has no votes and none were imputed |
| Prediction2020.ShareBounds | foundations_prediction_2020.py:116 | d / (d + r) is in [0, 1] and at least one half iff d >= r |
| Prediction2020.ElecDiff | foundations_prediction_2020.py:150-164 | missing iff the result is; +-0.3 by side when uncontested; else the result minus the no-incumbent prediction |
| Prediction2020.StateVoteshare | foundations_prediction_2020.py:199 | margin in points to share: 0 is one half |
| Prediction2020.IncumbencyAdvantage | foundations_prediction_2020.py:204-211 | the district's gap when known, else the state's, negated for R and 0 for I or none |
| Prediction2020.FoundationPrediction | foundations_prediction_2020.py:196-224 | past_election iff a gap is known; the share in [0.3, 0.7], with the advantage only for D/R incumbents, missing iff the advantage is |
| Prediction2020.RepublicanAdvantage | foundations_prediction_2020.py:204-211 | a state swinging to D lowers an R incumbent's share |

## Left out

- The Student-t CDF, percentile and density functions, `np.cos` and the Chebyshev node construction (voter_power.py:165-181) are foreign numerics. The CDF is a parameter; the nodes arrive as (shift, weight) pairs.
- The 10^7-entry CDF table is built elsewhere and is a parameter.
- Floating point is modelled as exact reals. `1 / num_voters`, the division by the total weight and the comparisons are exact.
- pandas plumbing is not modelled: CSV reads and writes, `merge`, `groupby`, `append` and `drop_duplicates`. Joined values arrive as fields of the row datatypes. The state's mean gap (`groupby('state').mean()`, foundations_prediction_2020.py:167-172) is an input field.
- Vectorised column updates are modelled one row at a time. The row loops of `merge_incumbents` and `fix_incumbency` are in-place array loops.
- `districts_df[power_col] = ...` is modelled as the returned power sequence, not a DataFrame write.
- Prediction2020.DemVoteshare: a missing (NaN) vote count is not modelled. Counts are reals, and NaN arises only as 0 / 0.
- Blending2018.Compile: a district with no 2016 or 2014 row is a missing margin. The other joins are assumed to match.
- Prediction2020.ElecDiff: a district with no 2018 row is read with `uncontested` false, which is what the left join's NaN does in the mask.
- The `similar` ratio (difflib) and `titlecase` are parameters with no properties.
- Cnalysis.NomineeName: a nominee cell holding `False` is never in the raw data. A NaN cell (`fillna(False)`) is NotText for later steps.
- HistoricalIncumbency.CheckAll: the hand-checked table's merge and its chamber filter are not modelled. Each district arrives with its hand value.
- `main` of historical_incumbency.py and its file handling are not modelled.
- The division by the total weight (voter_power.py:208) gives NaN, with a RuntimeWarning, when the total weight is zero. The model returns Err(ZeroTotalWeight) instead of a NaN probability.
- The `print('here')` in the lookup's except branch (voter_power.py:31) writes to the console; the model does not reproduce that output.
- The docstring of incumbency_advantage in foundations_blending_2018.py describes a fallback from 2016 to 2014. The code (foundations_blending_2018.py:188) falls back from 2018 to 2016, and the model follows the code.
- VoterPower.ComputeVoterPower: the model takes district voters as positive and the race sigma as non-zero. The source divides by both, and these divisions are not modelled as errors.
- The docstring of results_to_dem_voteshare speaks of 80% of the three-party share, while the code uses 0.75. The model follows the code.
- mOnEyBaLl.py and the earlier copies of these rules in other files are not part of this model.

## Findings

| source | as written | input that shows it | evidently intended | confidence | as-written member | corrected member |
|---|---|---|---|---|---|---|
| voter_power.py:26-32 | a negative table index wraps around to the end of the table. Just below the table, the lookup therefore reads entries from the table's far end. The CDF fallback fires only above the table, or once the index falls below minus the table length (table [0, 0.5, 1] with standardised margin -250 gives index -4, an IndexError, then the CDF) | standardised margin -75 with table [0, 0.5, 1]: index -1 reads the last entry, so the probability is 0.5, while the better margin -50 gets 0 | use the CDF whenever either neighbouring index is outside the table, which keeps the lookup monotone | not executed | WinProbability.WrapAroundBreaksMonotonicity | WinProbability.GuardedMonotone |
| voter_power.py:471 | `tie /= 0.5` doubles the tie probability for every safe independent | tie 1 becomes 2; two toss-up races with threshold 1 then give a chamber probability of 1.25 | halve the tie (`*= 0.5`), keeping it in [0, tie] | not executed | StatePreparation.TieDoublingLeavesUnit | StatePreparation.HalvedInUnit |
| cnalysis_input_components.py:154-159 | the mask ends in `Series is False`, always false, so the three TBA fills never apply | rating "Safe R", R nominee "TBA", no incumbent: the incumbent stays False | a favoured party whose nominee is TBA takes an empty seat | not executed | Cnalysis.TbaFillIsDead | Cnalysis.TbaFillIntended |

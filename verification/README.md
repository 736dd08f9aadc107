# openfrag: verified policy and live-capture protocol

openfrag watches a player's matches, saves replay clips of highlights and rates finished matches.
This project models the parts of it that decide something, in Dafny, and proves what those
decisions guarantee.

- **Highlights** (`Highlight.dfy`, `Retention.dfy`). Provisional candidates are merged to a fixpoint
  by overlap or start distance; the fixpoint is the set of connected components of the original
  candidates. Provisional media expires and is evicted oldest first against a byte budget.
- **Rating** (`Exact.dfy`, `Rating.dfy`, `RatingOverflow.dfy`). Checked 64-bit fractions with 128-bit
  intermediates, and the six-component rating built on them: exactness, canonical forms, the real
  formula, scale invariance, monotonicity, a bound below which nothing overflows and the exact
  condition for overflow.
- **Personal history** (`Statistics.dfy`, `Baseline.dfy`, `Goals.dfy`, `ComponentStatistics.dfy`,
  `Sessions.dfy`). Baselines over the latest twenty demos, robust statistics and when they overflow,
  goals over ten matches, sessions.
- **Demo analysis** (`Analysis.dfy`, `Scoreboard.dfy`, `DemoFacts.dfy`, `TradeKills.dfy`). Pairing of
  freeze and end events into rounds and the scoring of events: what each counter counts, in events
  and snapshots, and exactly which demos are analysed. Its results meet the preconditions of the
  rating, which gives one end-to-end theorem.
- **Live protocol** (`Gsi.dfy`, `Live.dfy`, `LiveCalls.dfy`, `Deadlines.dfy`, `Supervisor.dfy`, and
  `EvidenceSink.dfy`, `LiveRuntime.dfy`, `SaveRequests.dfy`). Four state machines: evidence engine,
  capture coordinator, deadline driver and recorder supervisor. The last three modules run the
  coordinator together with the engine, the deadline driver and the supervisor. Sink, store,
  scheduler, recorder, child process, file system and clock are arguments that may answer anything
  at every step; the theorems hold over all runs. Each machine is a class whose methods update its
  fields, specified by a function from the old state to the new one; lemmas say what that function
  does field by field, and the lemmas about runs are about it.
- **Codecs** (`CaptureConfig.dfy`, `Durations.dfy`, on `Text.dfy`). The stored capture configuration
  and the two duration parsers.

`Prelude.dfy` and `Ordering.dfy` hold machine ranges, saturating arithmetic, orders, the stable sort
and filtering.

Conventions. Machine integers are ranges of `int`; saturating, checked and wrapping operations are
written out. A Rust sort is a stable insertion sort, whose result the lemmas show to be forced where
the order is total on the data. Iteration over a hash map is an arbitrary choice loop or takes the
order as an argument. Loops of the source are methods proved equal to a function. A clock that does
not run backwards is a stated assumption wherever it is used. Where documentation and code differ,
the model follows the code; the places are the counterexample lemmas below.

## Model

| member | source | states |
|---|---|---|
| Highlight.MergeComputesComponents | crates/openfrag-domain/src/highlight.rs:99-121 | For fresh candidates the result is the sorted list, without ties, of the hulls of the connected components of the original link relation: one output per component, one component per output, and no two outputs can still merge. |
| Highlight.LinkIff | crates/openfrag-domain/src/highlight.rs:72-86 | Two original candidates are linked exactly when they are of one session, round and rule and their intervals meet or their starts are at most ten seconds apart. |
| Highlight.MergedInOrder | crates/openfrag-domain/src/highlight.rs:99-138 | The output is listed alphabetically by session, round and rule, and inside such a group one after the other in time, without overlap. |
| Highlight.CrossLink | crates/openfrag-domain/src/highlight.rs:72-97 | If two hulls can merge then two of their original parts were linked. A hull that has grown over a gap attracts nothing new. |
| Highlight.LinkLifts | crates/openfrag-domain/src/highlight.rs:72-97 | If two parts are linked (or shared) then their hulls can still merge, so the loop does not stop early. |
| Highlight.SameOutputIffLinked | crates/openfrag-domain/src/highlight.rs:72-121 | Two inputs end in the same output exactly when a chain of overlaps or ten-second starts joins them, inside one session, round and rule. |
| Highlight.MergeIgnoresOrderAndDuplicates | crates/openfrag-domain/src/highlight.rs:99-121 | Inputs with the same elements, in any order and multiplicity, give the same output sequence. |
| Highlight.MergeIdempotent | crates/openfrag-domain/src/highlight.rs:99-121 | Merging the output again changes nothing. |
| Highlight.MergeIncrementally | crates/openfrag-domain/src/highlight.rs:99-121 | The closure can be computed a batch at a time: for fresh a and b, merging the result of merging a together with b gives what merging a and b at once gives, although the hulls in it are no longer fresh. |
| Highlight.SettledTieFree | crates/openfrag-domain/src/highlight.rs:123-138 | Two outputs never tie in the candidate order, so the sort leaves no freedom. |
| Highlight.FindFirstPair | crates/openfrag-domain/src/highlight.rs:103-112 | The nested search finds the first mergeable pair in row order, or shows that none exists. |
| Highlight.MergeCandidateList | crates/openfrag-domain/src/highlight.rs:99-121 | The remove, push and sort loop terminates and computes the closure of which the lemmas above speak; its result is settled. |
| Retention.RetentionDecisions | crates/openfrag-domain/src/highlight.rs:254-291 | Item by item: expired means unconfirmed and at least thirty days old; evicted means among the first of the (created, id) order that the budget loop takes; everything else, and all confirmed media, is retained. |
| Retention.DecisionIff | crates/openfrag-domain/src/highlight.rs:254-291 | In fields: confirmed media is retained; unconfirmed media thirty days old is expired; any other item is evicted exactly when the bytes of all such media, capped at the largest u64, less those of what goes before it by (created, id, place), are still more than 2 GiB. |
| Retention.SaturatingTotal | crates/openfrag-domain/src/highlight.rs:271-276 | The fold of saturating additions is the true sum capped at the largest u64. |
| Retention.RetentionWithinBudget | crates/openfrag-domain/src/highlight.rs:254-291 | For every input the retained unconfirmed bytes exceed 2 GiB by at most what the true total exceeds u64, and without the last eviction they would exceed 2 GiB. |
| Retention.WithinBudgetIff | crates/openfrag-domain/src/highlight.rs:271-288 | The budget holds exactly when no prefix of the eviction order reaches what the saturated total asks to evict without reaching what the true total does. If the true total fits u64 there is no such prefix. |
| Retention.SaturationOvershoots | crates/openfrag-domain/src/highlight.rs:271-276 | Two items of the largest size leave more than the budget retained. |
| Retention.EvictsOldestFirst | crates/openfrag-domain/src/highlight.rs:262-288 | What is evicted precedes, by creation and identifier, all unconfirmed media that is retained. |
| Exact.GcdLoop | crates/openfrag-domain/src/exact.rs:187-195 | The remainder loop computes the greatest common divisor. |
| Exact.Bezout | crates/openfrag-domain/src/exact.rs:187-195 | That divisor is an integer combination of its arguments, hence the greatest. |
| Exact.NormalizeExact | crates/openfrag-domain/src/exact.rs:167-185 | Normalisation of a 128-bit fraction succeeds exactly when some canonical 64-bit fraction has its value, and returns that fraction. |
| Exact.CanonicalUnique | crates/openfrag-domain/src/exact.rs:12-16 | Canonical fractions that are equal by cross multiplication are structurally equal. |
| Exact.AddIsExact | crates/openfrag-domain/src/exact.rs:45-50 | Addition returns the exact sum if it is representable and an overflow otherwise; its 128-bit intermediates never overflow. |
| Exact.MulIsExact | crates/openfrag-domain/src/exact.rs:56-61 | The same for multiplication. |
| Exact.DivIsExact | crates/openfrag-domain/src/exact.rs:63-71 | The same for division; a zero divisor is a division by zero. |
| Exact.SubIsExactIff | crates/openfrag-domain/src/exact.rs:52-54 | Subtraction succeeds exactly when the difference is representable and the numerator of the subtrahend is not the least i64. |
| Exact.SubRefusesRepresentable | crates/openfrag-domain/src/exact.rs:52-54 | A representable difference that is refused: -1 minus the least i64. |
| Exact.CmpIsValueOrder | crates/openfrag-domain/src/exact.rs:103-107 | Comparison is the order of the values, and Equal is structural equality. |
| Exact.ClampValue | crates/openfrag-domain/src/exact.rs:88-90 | Clamping clamps the value. |
| Exact.RoundsHalfUp | crates/openfrag-domain/src/exact.rs:92-100 | Rounding fails only for negative values; otherwise it returns the one integer v with v - 1/2 <= value < v + 1/2. |
| Exact.RoundMonotone | crates/openfrag-domain/src/exact.rs:92-100 | Rounding is monotone. |
| Rating.ScoreIsFormula | crates/openfrag-domain/src/rating.rs:340-426 | A computed score equals the published six-component formula over the reals, lies in [0, 2], and its basis points are the half-up rounding, at most 20000. |
| Rating.ScoreNeverOverflows | crates/openfrag-domain/src/rating.rs:340-426 | No step overflows when the product of the three denominators is within an explicit bound; the numerators are arbitrary u32s. |
| Rating.CalculateRatingTotal | crates/openfrag-domain/src/rating.rs:226-311 | With at most 2000 rounds, opening duels and clutch opportunities and consistent clutch counts a receipt is always returned; it carries a score exactly when the evidence is complete and undisputed over at least eight rounds, and it is trend eligible exactly under the documented conditions. |
| Rating.StatusIff | crates/openfrag-domain/src/rating.rs:226-311 | A returned receipt is unavailable exactly when it has no score: evidence missing or failed, a forfeit, fewer than eight rounds. With a score it is a preview exactly below twelve rounds, after a missed live round or after a surrender, and rated otherwise. |
| Rating.FailsIff | crates/openfrag-domain/src/rating.rs:226-311 | No receipt is returned exactly when clutch wins exceed clutch opportunities, or when a score is due and cannot be computed; the first has its own error. |
| Rating.UnavailableReasonIff | crates/openfrag-domain/src/rating.rs:231-246 | The reason of an unavailable receipt in each case: the first missing kind of evidence in the published order, then the failure of the evidence, then the forfeit, then the number of rounds. |
| Rating.PreviewReasonsIff | crates/openfrag-domain/src/rating.rs:272-290 | The reasons of a preview are exactly those of too few rounds, a missed live round and a surrender that hold, each once and in this order. |
| Rating.TrendExclusionsIff | crates/openfrag-domain/src/rating.rs:291-297 | A receipt is excluded from trends for having no score, for being a preview and for an imbalanced roster, exactly when these hold. |
| Rating.ComponentsAreOwn | crates/openfrag-domain/src/rating.rs:313-338 | The six component receipts of a score come in the published order, each with the value, the weight and the evidence of its own component. |
| RatingOverflow.ScoreSucceedsIff | crates/openfrag-domain/src/rating.rs:340-426 | For all consistent counters: a score is computed exactly when the five partial sums of the formula, the rating and its ten-thousandfold are fractions of 64-bit integers; otherwise an overflow is reported. |
| RatingOverflow.ScoreSucceedsIffSumsFit | crates/openfrag-domain/src/rating.rs:340-426 | The same condition in integers: seven explicit products of the counters over one common denominator fit i64 once divided by their greatest common divisor. |
| RatingOverflow.CrowdedOverflows | crates/openfrag-domain/src/rating.rs:390-426 | Concrete consistent counters (2^31 rounds, 3^20 opening duels) for which the score reports an overflow. |
| Rating.RatingScaleInvariant | crates/openfrag-domain/src/rating.rs:340-426 | Multiplying all metrics by k > 0 changes neither the exact rating nor the basis points, whenever both are computed. |
| Rating.RatingMonotone | crates/openfrag-domain/src/rating.rs:340-426 | The basis points do not fall when damage, kills, opening wins, trades, utility damage or flash assists rise and deaths and opening losses fall. |
| Statistics.RobustStatsSound | crates/openfrag-domain/src/baseline.rs:370-388 | Within the limits, successful statistics are ordered minimum <= lower <= median <= upper <= maximum, and at least half of the values lie within one MAD of the median. |
| Statistics.RobustStatsAre | crates/openfrag-domain/src/baseline.rs:354-388 | Over the reals: the median is the middle of the ordered values, or halfway between the two middle ones; the MAD is the median of the distances from it; the range ends two MADs away, kept inside the limits. |
| Statistics.RobustStatsPermutation | crates/openfrag-domain/src/baseline.rs:370-388 | Statistics, and failures, do not depend on the order of the values. |
| Statistics.MedianWithin | crates/openfrag-domain/src/baseline.rs:354-368 | The median of values between two bounds is between them. |
| Statistics.RatingStatsNeverOverflow | crates/openfrag-domain/src/baseline.rs:354-388 | For rating basis points in range the statistics cannot overflow. |
| Baseline.BuildLens | crates/openfrag-domain/src/baseline.rs:192-237 | The loop over the history computes the lens of which the lemmas below speak. |
| Baseline.FinalizeBaseline | crates/openfrag-domain/src/baseline.rs:239-316 | Sorting, deduplicating, draining to twenty and the statistics compute the receipt. |
| Baseline.RetainFirst | crates/openfrag-domain/src/baseline.rs:252-268 | The retain loop keeps the first copy of each demo and records every other one. |
| Baseline.DrainWindow | crates/openfrag-domain/src/baseline.rs:269-283 | Draining keeps the first twenty and records the rest. |
| Baseline.BaselineConserves | crates/openfrag-domain/src/baseline.rs:192-316 | Every history item is exactly once among the included and the excluded, as multisets of match identifiers. |
| Baseline.SelectionIsLatest | crates/openfrag-domain/src/baseline.rs:239-283 | The selection is at most twenty distinct demos in descending (end, hash) order; every other eligible match is a no later copy of a selected demo, or comes after twenty selected ones. |
| Baseline.IncludedAreEligible | crates/openfrag-domain/src/baseline.rs:318-345 | Every selected match has the query's series and scope, is canonical, not excluded from trends, and ended by the cutoff. |
| Baseline.JudgeIff | crates/openfrag-domain/src/baseline.rs:192-237 | A history match is admitted exactly when it has the query's series and scope, is canonical, is not excluded from trends, has an interval in order that ended by the cutoff, and has a value for the queried field; its value is that field of that match, for a side lens that of the side asked for. Otherwise the reason is that of the first of these it breaks. |
| Baseline.SelectionIsLatestTwenty | crates/openfrag-domain/src/baseline.rs:239-283 | In fields: the selection is at most twenty admitted matches with their values, one a demo, latest first by (end, hash), and every other admitted match is an earlier copy of a selected demo or comes after twenty selected ones. |
| Baseline.LensReceipt | crates/openfrag-domain/src/baseline.rs:284-316 | The receipt lists match, demo, run and value of that selection in its order; its maturity counts it; from ten matches on, and only then, it carries the statistics of exactly these values. |
| Baseline.LensFails | crates/openfrag-domain/src/baseline.rs:192-316 | A side lens of ratings is refused with its own error, and nothing else fails but by its statistics. |
| Baseline.ExclusionsHaveCauses | crates/openfrag-domain/src/baseline.rs:192-283 | Every exclusion names a match of the history and a reason that holds of it: a broken rule or missing value, another admitted copy of its demo, or twenty included demos other than it. |
| Baseline.RejectedMatchesDoNotMatter | crates/openfrag-domain/src/baseline.rs:192-345 | Inserting or removing any rejected matches anywhere changes neither the selection nor the statistics. |
| Baseline.ImportOrderDoesNotMatter | crates/openfrag-domain/src/baseline.rs:239-251 | A permuted history gives the same selection and statistics when different eligible matches differ in end or hash. |
| Baseline.RatingBaselineAlwaysExists | crates/openfrag-domain/src/baseline.rs:169-316 | A rating baseline never fails. |
| ComponentStatistics.ComponentBaselineIff | crates/openfrag-domain/src/baseline.rs:192-316 | A component baseline, of either side too, exists exactly when fewer than ten values are selected or, over a common denominator, these integers fit i64 in lowest terms: the sum of the two middle numerators and its half (for an even number), every difference from the median, the same for the distances, twice the MAD and both ends of the range. Otherwise an overflow is reported. |
| ComponentStatistics.StatsSucceedIff | crates/openfrag-domain/src/baseline.rs:370-388 | The same condition for the statistics of any values between 0 and 1, over any common denominator. |
| ComponentStatistics.GoalEvaluatedIff | crates/openfrag-domain/src/baseline.rs:554-650 | An active goal is evaluated exactly when nothing is selected or its median can be computed: an odd number of values, or a sum of the two middle ones and a half of it that fit i64 in lowest terms. Otherwise an overflow is reported. |
| ComponentStatistics.MedianSucceedsIff | crates/openfrag-domain/src/baseline.rs:354-368 | The same condition for the median of any values. |
| ComponentStatistics.TenValuesOverflow | crates/openfrag-domain/src/baseline.rs:354-388 | For five copies each of 1/2^32 and 1/3^20, in any order, the median and the statistics overflow. |
| ComponentStatistics.RareHistoryOverflows | crates/openfrag-domain/src/baseline.rs:192-316 | A history of ten qualifying matches for which both the goal and the baseline report an overflow. |
| Goals.EvaluateGoal | crates/openfrag-domain/src/baseline.rs:554-650 | The evaluation with its loops computes the function of which the lemmas below speak. |
| Goals.QualifiesIff | crates/openfrag-domain/src/baseline.rs:569-603 | A history match is a candidate of an active goal exactly when it has the goal's series and scope, is canonical, is not excluded from trends, has an interval in order that starts after the goal was created, and has a value for the goal's field; the value counted is that field of that match. Otherwise the reason is that of the first rule it breaks. |
| Goals.SelectionIsEarliestTen | crates/openfrag-domain/src/baseline.rs:604-617 | In fields: the selection is at most ten candidates with their values, one a demo, earliest first by (start, end, hash), and every other candidate is a later copy of a selected demo or comes after ten selected ones. |
| Goals.EvaluationReceipt | crates/openfrag-domain/src/baseline.rs:618-650 | The receipt of an active goal lists the selected matches in order and the median of exactly their values if there are any; it is in progress below ten, achieved at ten when the target does not exceed the median, and not achieved otherwise. |
| Goals.InactiveGoals | crates/openfrag-domain/src/baseline.rs:554-568 | A cancelled goal, or one of another series, is answered without looking at the history. |
| Goals.GoalExclusionsHaveCauses | crates/openfrag-domain/src/baseline.rs:569-617 | Every exclusion names a match of the history and a reason that holds of it. |
| Goals.DecisionIsFinal | crates/openfrag-domain/src/baseline.rs:554-650 | Once ten matches are selected, any number of matches after the tenth in (start, end, hash), inserted anywhere and possibly repeating a selected demo, leave status, selection and median unchanged. |
| Goals.AchievedIffMedianReachesTarget | crates/openfrag-domain/src/baseline.rs:618-650 | A decided goal is achieved exactly when the target does not exceed the median of its ten matches. |
| Goals.GoalConservesIff | crates/openfrag-domain/src/baseline.rs:604-617 | For an evaluated goal every match is selected or excluded exactly when the admitted history holds at most ten distinct demos: what lies beyond the ten is not recorded. |
| Goals.ElevenLoseOne | crates/openfrag-domain/src/baseline.rs:604-617 | Concrete histories: of ten qualifying demos every match is accounted for, of eleven one is not. |
| Goals.RatingGoalAlwaysEvaluated | crates/openfrag-domain/src/baseline.rs:554-650 | The evaluation of a rating goal never fails. |
| Sessions.GroupSessions | crates/openfrag-domain/src/baseline.rs:403-452 | The sorting and grouping loops compute the grouping of which the lemmas below speak. |
| Sessions.SessionsAre | crates/openfrag-domain/src/baseline.rs:403-452 | In the matches of the history: each session lists a run of matches of which each starts after the last one ended, at most 90 minutes later, from the start of the first to the end of the last; sessions are more than 90 minutes apart; a match with its interval in order is in one of them unless it starts inside a kept match that is sooner by (start, end, hash), and every exclusion names a match and the reason that holds of it. |
| Sessions.GroupingSound | crates/openfrag-domain/src/baseline.rs:403-452 | In a session each match starts after the last one ended, at most 90 minutes later; successive sessions are more than 90 minutes apart; all kept matches are disjoint; every match excluded for overlap starts inside the last match kept before it. |
| Sessions.SessionDisjoint | crates/openfrag-domain/src/baseline.rs:424-446 | Any two matches of a session are disjoint. |
| Sessions.GroupingConserves | crates/openfrag-domain/src/baseline.rs:403-452 | Every match is exactly once in a session or among the exclusions. |
| Analysis.SnapshotAt | crates/openfrag-analysis/src/lib.rs:481-491 | The snapshot found is the last one of the player at or before the tick, and there is none only if no such snapshot exists. |
| Analysis.BuildRoundLedgers | crates/openfrag-analysis/src/lib.rs:231-326 | The pairing loop computes the rounds of which the lemmas below speak, or fails as they do. |
| Analysis.RoundsDisjoint | crates/openfrag-analysis/src/lib.rs:231-326 | Whenever rounds are built their tick ranges are disjoint and in order. |
| Analysis.RoundEndClosesRound | crates/openfrag-analysis/src/lib.rs:231-326 | Every round end closes a round: rounds and round ends are equally many and correspond. |
| Analysis.RoundEndsDiffer | crates/openfrag-analysis/src/lib.rs:231-326 | No round holds two round ends. |
| Analysis.ScoreRoundInto | crates/openfrag-analysis/src/lib.rs:328-479 | The nested scoring loops compute the round score. |
| Analysis.RoundBounded | crates/openfrag-analysis/src/lib.rs:328-479 | A round adds at most one opening duel and at most one clutch, and a clutch win only with an opportunity. |
| Analysis.InputBounded | crates/openfrag-analysis/src/lib.rs:68-212 | Hence opening wins plus losses and clutch opportunities do not exceed the eligible rounds, and clutch wins do not exceed opportunities. |
| Analysis.AnalyzeNeverDomainError | crates/openfrag-analysis/src/lib.rs:68-212 | End to end: with at most 2000 freeze events the analysis never fails in the rating domain. |
| Analysis.AnalysisCountsEachEventOnce | crates/openfrag-analysis/src/lib.rs:328-479 | Deaths, kills, flash assists, damage, utility damage and trade kills of the result are, modulo 2^32, sums over the parsed events: every event counts once, in the eligible round that holds it. Kills and damage count only across teams, damage never beyond the health the victim had, and a trade kill is a kill of someone who had killed an own-team player in that round within the window. |
| Analysis.RoundTally | crates/openfrag-analysis/src/lib.rs:328-479 | One round adds to each of these counters what its own events are worth. |
| TradeKills.TradesWithinKillsIff | crates/openfrag-analysis/src/lib.rs:418-442 | Trade kills can exceed kills. While neither counter wraps they do not exactly when, over the eligible rounds of the demo, the local player's avenging kills of own-team players are no more than his kills of enemies that avenge nobody. |
| TradeKills.TradeOrKill | crates/openfrag-analysis/src/lib.rs:418-442 | Event by event these are the only two ways in which the trade kills and the kills differ. |
| TradeKills.TradeKillsExceedKills | crates/openfrag-analysis/src/lib.rs:68-212 | A whole demo of one round that is analysed successfully, with one trade kill and no kill: the player avenged a teammate on another teammate. |
| Analysis.AnalyzeDemo | crates/openfrag-analysis/src/lib.rs:68-212 | The whole flow, with its loops, computes the analysis. |
| Scoreboard.RoundOpening | crates/openfrag-analysis/src/lib.rs:388-409 | A scored round counts its opening duel once: won exactly when the attacker of the earliest death of the round between two different players on known, different teams is the local player, lost exactly when he is its victim. |
| Scoreboard.RoundClutch | crates/openfrag-analysis/src/lib.rs:443-477 | A scored round counts a clutch opportunity exactly when some snapshot of the round has the local player alive, no living teammate and a living enemy, and a clutch win exactly when his team also won the round. |
| Scoreboard.OpeningsAndClutches | crates/openfrag-analysis/src/lib.rs:68-190 | Over a demo the opening duels won and lost and the clutches faced and won are the numbers of eligible rounds of which this holds; these counters never wrap. |
| Scoreboard.StateIs | crates/openfrag-analysis/src/lib.rs:481-495 | The team, life and round counter of a player at a tick are those of the last snapshot of that player up to it. |
| DemoFacts.RoundIs | crates/openfrag-analysis/src/lib.rs:231-324 | Every round is that of one freeze and of the only round end before the next freeze. It is eligible exactly when it is no warmup and the snapshot at the freeze has the local player alive on one of the two teams; then the round counter goes up by one. Exclusion, team, winner and evidence are those of freeze, end and snapshot. |
| DemoFacts.RoundRefusals | crates/openfrag-analysis/src/lib.rs:243-299 | With one round end before the next freeze a round is refused exactly when something it needs is unknown (state at the freeze, or a counter of an eligible round), or something is wrong (no winner, a counter that does not go up by one), in this order. |
| DemoFacts.RoundsRefused | crates/openfrag-analysis/src/lib.rs:231-324 | The rounds are refused for the first refused freeze, or for not being as many as the round ends. |
| DemoFacts.RoundScoredIff | crates/openfrag-analysis/src/lib.rs:328-479 | An eligible round is scored exactly when no event of it is refused, five seconds of ticks fit an i32 and the life of the local player is known at each snapshot up to the first clutch; its first refused event names the error. |
| DemoFacts.RefusedForFirstNeed | crates/openfrag-analysis/src/lib.rs:68-112 | A demo that lacks the tick rate, the build, the local player, the order or one of the four event kinds is refused for the first of these it lacks. |
| DemoFacts.AnalysedIff | crates/openfrag-analysis/src/lib.rs:68-212 | A demo with at most 2000 freezes is analysed exactly when it lacks none of these, its rounds pair up and each eligible one can be scored. |
| DemoFacts.IrregularitiesAre | crates/openfrag-analysis/src/lib.rs:163-195 | The roster is reported imbalanced exactly when more than one eligible round starts with fewer than five living participants of a team, overtime exactly above 24 eligible rounds, and nothing else ever. |
| DemoFacts.EvidenceIs | crates/openfrag-analysis/src/lib.rs:136-212 | The receipt is the rating of an input that carries the evidence of the eligible rounds, that of the others or a word for none, and all receipts of the demo for each component. |
| Gsi.DeriveFacts | crates/openfrag-gsi/src/lib.rs:500-557 | The pushes and the round loop compute the transition of which the lemmas below speak. |
| Gsi.FactsIff | crates/openfrag-gsi/src/lib.rs:500-557 | A healthy receipt carries exactly the facts that hold between the baseline and the payload, each once and in order: kills or deaths that rose from a count that is not negative, round kills that did and health that was depleted within one round, and the end of every round left. |
| Gsi.OutputIff | crates/openfrag-gsi/src/lib.rs:500-571 | An accepted payload is Recovered exactly when the engine was stale, Seeded exactly when it was not and had no baseline, SessionReset exactly when both session hashes are known and differ or a known round, kills, deaths or provider timestamp fell, and Healthy otherwise; only Healthy carries facts. |
| Gsi.Engine.RoutePost | crates/openfrag-gsi/src/lib.rs:258-308 | One accepted, duplicate or refused payload: response, receipt and whole new engine state; a refused receipt leaves all but the pruned hashes unchanged. |
| Gsi.ResponseIff | crates/openfrag-gsi/src/lib.rs:258-308 | A post is a duplicate exactly when its hash was remembered at most two seconds ago, otherwise refused exactly when the sink refuses; only an acceptance emits a receipt or changes more than the memory of hashes. |
| Gsi.AcceptedReceipt | crates/openfrag-gsi/src/lib.rs:258-308 | The receipt of an accepted payload has the next number, the time, hash, presence and context of that payload, which the engine remembers; older hashes are kept for two seconds and dropped by a reset. |
| Gsi.Engine.PollStale | crates/openfrag-gsi/src/lib.rs:158-195 | One poll: at most one stale receipt per outage, and the whole new engine state. |
| Gsi.PollIff | crates/openfrag-gsi/src/lib.rs:158-201 | A poll marks the engine stale exactly when something was accepted, nothing has been heard for three heartbeats or ninety seconds, and the sink takes the receipt; that receipt repeats hash, presence and context of the last one and carries no facts. |
| Gsi.Engine.ClearTransitionBaselines | crates/openfrag-gsi/src/lib.rs:415-425 | Everything but the sequence number is forgotten. |
| Gsi.RunNumbered | crates/openfrag-gsi/src/lib.rs:158-308 | In every run the emitted sequence numbers are 1, 2, 3, ... without gaps, whatever the sink refuses, and no two neighbouring receipts are stale. |
| Gsi.StaleNeedsAcceptance | crates/openfrag-gsi/src/lib.rs:158-308 | Between two stale receipts there is an accepted one. |
| Gsi.DuplicateIffRecentlyAccepted | crates/openfrag-gsi/src/lib.rs:258-273 | With a clock that does not run backwards, a payload is answered as a duplicate exactly when it was accepted at most two seconds ago with no clear since. |
| Gsi.RunSpacesDuplicates | crates/openfrag-gsi/src/lib.rs:258-308 | Two acceptances of one payload with no clear between them are more than two seconds apart. |
| Gsi.SegmentConserves | crates/openfrag-gsi/src/lib.rs:500-567 | Over any healthy segment with rounds and kills present the facts list every round left exactly once, in order, and the kill deltas sum to the kills gained, whatever duplicates, refusals and idle polls come between. |
| EvidenceSink.RunValid | crates/openfragd/src/live_runtime.rs:515-527 | In every run of the evidence engine with the coordinator as its sink: every round that an accepted receipt reports on a map has its capture, every round of the current stretch has been reported on a map, and the coordinator has processed only receipts with numbers up to the engine's. |
| EvidenceSink.ReportedRoundsAreCaptured | crates/openfragd/src/live_runtime.rs:515-527 | An accepted receipt that reports a round on a map leaves a capture of that map and round, for good. |
| EvidenceSink.StretchIsCaptured | crates/openfrag-gsi/src/lib.rs:258-308 | Between the baseline with which an uninterrupted stretch began and the current one no round is without a capture, whatever was refused, duplicated or retried in between. |
| EvidenceSink.OwedRoundFate | crates/openfrag-gsi/src/lib.rs:158-308 | A round that was left in a refused receipt is made up for by the next accepted healthy receipt that leaves it on a map, and stays owed over further refusals. It is lost exactly when the baseline is dropped first: by a request of another player, or by an accepted receipt that is stale or a reset or names no round, or no map for the rounds it leaves; then no capture is added for it. |
| EvidenceSink.OneFate | crates/openfrag-gsi/src/lib.rs:158-308 | Making up for a round, finding it still played and dropping the baseline exclude each other. |
| EvidenceSink.EngineRuns | crates/openfrag-gsi/src/lib.rs:158-308 | The engine's part of such a run is a run of the engine alone, so its theorems apply; receipt numbers are 1, 2, 3, ... here too. |
| EvidenceSink.MismatchLosesRound | crates/openfrag-gsi/src/lib.rs:258-308 | A concrete run in which a refused receipt is followed by a request of another player: the round it reported never gets a capture. |
| EvidenceSink.SecondMatchShares | crates/openfrag-live/src/lib.rs:440-445 | A concrete run without any refusal in which a second match on the same map gets no capture for round 1: the cancelled one of the first match stands for it. |
| EvidenceSink.EarlierCaptureStands | crates/openfrag-live/src/lib.rs:440-445 | In general a capture that exists for a map and round keeps its candidate and deadline whatever is reported later, and a cancelled one stays cancelled. |
| Live.Coordinator.Ingest | crates/openfrag-live/src/lib.rs:251-294 | One ingest against arbitrary store and scheduler answers: result and whole new state, also on failure. |
| LiveCalls.IngestIs | crates/openfrag-live/src/lib.rs:251-294 | A new receipt first cancels every automatic capture that is scheduled or waits for a retry, if it is stale or a reset, then takes its facts one by one, and is processed once all of them got through; a failing call stops it after some of the captures or facts. |
| LiveCalls.IngestIdle | crates/openfrag-live/src/lib.rs:251-257 | A receipt whose record cannot be stored, or that was processed before, changes nothing. |
| LiveCalls.MilestoneIs | crates/openfrag-live/src/lib.rs:382-427 | A rise to the third kill of a round or a later one, as many as the receipt's context says, on a known map and round without a candidate, adds a candidate of that instant, map and round, if it can be stored. |
| LiveCalls.OtherFactIs | crates/openfrag-live/src/lib.rs:264-290 | Every fact that is neither such a milestone nor the end of a round without a capture changes nothing and calls nobody. |
| Live.Coordinator.ScheduleRoundCapture | crates/openfrag-live/src/lib.rs:429-493 | Merging, scheduling, storing, and taking the schedule back on a store failure. |
| LiveCalls.RoundEndIs | crates/openfrag-live/src/lib.rs:429-493 | The end of a round without a capture schedules one for ten seconds later and stores it: identity, round, candidate, receipts, deadline and timer field by field. If it cannot be stored a cancel is sent after it, as far as the scheduler takes it, and nothing else changes. |
| Live.Coordinator.CancelUnsavedCaptures | crates/openfrag-live/src/lib.rs:495-522 | Cancelling in the map's iteration order, stopping at the first failure. |
| LiveCalls.CancelUnsavedIs | crates/openfrag-live/src/lib.rs:495-522 | Whatever fails, only automatic captures that were scheduled or waited for a retry differ, by being cancelled for this reason; on success all of them do. |
| LiveCalls.CancelAllSends | crates/openfrag-live/src/lib.rs:495-522 | On success the scheduler is sent one cancel for each of their timers, in the order of iteration, and two calls are made for each. |
| Live.Coordinator.OnTimer | crates/openfrag-live/src/lib.rs:301-321 | A due timer: only a scheduled capture whose deadline has passed is asked for. |
| LiveCalls.TimerIs | crates/openfrag-live/src/lib.rs:301-321 | A timer asks for its capture exactly when that is still scheduled and its deadline has passed; otherwise the answer says that it is unknown, not due or handled, and nothing changes. |
| Live.Coordinator.RetryCapture | crates/openfrag-live/src/lib.rs:328-337 | Only a retryable capture is asked for again. |
| LiveCalls.RetryIs | crates/openfrag-live/src/lib.rs:328-337 | A retry of a capture whose save failed appends one request for it; if the store grants, it is SaveRequested or Retryable as the recorder answered, with the window and coverage of that moment. An unknown capture is missing, any other one already handled, and then nothing changes. |
| Live.Coordinator.FlagManually | crates/openfrag-live/src/lib.rs:344-368 | A manual flag: a fresh identity, a stored record, then the request. |
| LiveCalls.ManualIs | crates/openfrag-live/src/lib.rs:344-368 | A manual flag counts itself, stores a capture named by time and count whose window and coverage reach back from now, and asks for it once; when the first store call fails only the count remains. |
| Live.Coordinator.RequestCaptureSave | crates/openfrag-live/src/lib.rs:524-562 | The request to the recorder and the storing of its answer, each of which may fail. |
| LiveCalls.RequestIs | crates/openfrag-live/src/lib.rs:524-562 | A request records one more request with the recorder's answer, and when the store grants, status, window and coverage of that capture and of no other; an automatic capture without candidate or round end is refused. |
| Live.RunValid | crates/openfrag-live/src/lib.rs:251-562 | Over every run, whatever the environment answers: captures and timers keep their shape, nothing is asked for or waits for a retry before its deadline, and a stored acceptance is never asked for again. |
| Live.RunEvolves | crates/openfrag-live/src/lib.rs:251-562 | Between any two points of a run a capture keeps its identity, candidate and deadline; SaveRequested and Cancelled are never left; nothing returns to Scheduled. |
| Live.NoEarlySave | crates/openfrag-live/src/lib.rs:301-337 | No automatic save is asked for before ten seconds (saturating) after its round end, neither by timer nor by retry. |
| Live.OneAutoPerRound | crates/openfrag-live/src/lib.rs:429-493 | Each map and round has at most one automatic capture. |
| Live.RoundIdsDiffer | crates/openfrag-live/src/lib.rs:569-571 | Different maps or rounds have different capture identifiers, even if a map name contains the separator. |
| Live.CaptureCoversMilestone | crates/openfrag-live/src/lib.rs:454-464 | The scheduled capture is the hull of the kill milestone and the round end and names both receipts; only a milestone stamped more than ten seconds after the round end is left out. |
| Live.RetriesReachSingleSuccess | crates/openfrag-live/src/lib.rs:251-294 | Any number of failed ingests followed by a successful one reach the state of a single success, unless the first call was a hazard: an unprocessed stale or reset receipt one of whose facts adds a capture while a later one still has something to store. |
| Live.RetryHarmIff | crates/openfrag-live/src/lib.rs:251-294 | A call is a hazard exactly when some store and scheduler answers make it fail and change what a later success reaches. The condition is about the state and the receipt before the call. |
| Live.FailedAttemptHarmless | crates/openfrag-live/src/lib.rs:251-294 | For given answers, a failed ingest leaves what a later success reaches unchanged exactly when the receipt is neither stale nor reset or no capture was added before it failed; Live.RetryHarmIff gives the condition before the call. |
| Live.StaleFactsAreNotRetrySafe | crates/openfrag-live/src/lib.rs:258-289 | A concrete stale receipt with facts for which the retry cancels what a single success leaves scheduled. |
| Live.EngineReceiptsAreRetrySafe | crates/openfrag-gsi/src/lib.rs:175-183 | The evidence engine never puts facts on a stale or reset receipt, so none of its receipts is a hazard. |
| Live.IngestReports | crates/openfrag-live/src/lib.rs:251-294 | A successful ingest reports how many candidates and captures it added and how many unsaved captures it cancelled; a repeated receipt adds and cancels nothing. |
| Live.AutoWindowSound | crates/openfrag-domain/src/highlight.rs:193-220 | For any inputs the window of an automatic capture ends when the save is asked for, claims no media from before the recorder had any or outside its sixty seconds, and is marked truncated exactly when it is smaller than desired. It covers a candidate that starts by its round end, and then is reversed exactly when the recorder had nothing yet when the save was asked for; in general also when the desired start lies beyond the save. |
| LiveCalls.ManualWindowIs | crates/openfrag-domain/src/highlight.rs:222-237 | The window of a manual save reaches back fifteen seconds from the flag as far as the recorder has media, and is marked truncated exactly when that is less; the coverage reaches back sixty seconds. |
| Live.AcceptedButNotStored | crates/openfrag-live/src/lib.rs:547-553 | If the recorder accepts and the store fails, every capture is unchanged and the timer, if it is dispatched again, asks again (the driver does not: LiveRuntime.DriveStrandsIff). |
| Live.AcceptedButNotStoredReachable | crates/openfrag-live/src/lib.rs:301-321 | A two-step run that reaches this: a round ends, its timer is due, the recorder accepts, the store fails, the capture is still scheduled. |
| Live.ManualStuckInRequesting | crates/openfrag-live/src/lib.rs:344-368 | A manual capture still Requesting is left so by every operation. |
| Live.ManualRequestingIff | crates/openfrag-live/src/lib.rs:344-368 | A flag leaves its capture Requesting exactly when its record was stored and the recorder's answer was not. |
| Live.ManualStuckReachable | crates/openfrag-live/src/lib.rs:344-368 | A one-step run that leaves a capture Requesting although the recorder accepted the save. |
| LiveRuntime.RuntimeDriver.DriveOnce | crates/openfragd/src/live_runtime.rs:828-844 | One round: all due timers are taken, then dispatched in order until one fails; result and whole new state of coordinator and driver are those of the transition the lemmas below speak of. |
| LiveRuntime.RuntimeDriver.IngestReceipt | crates/openfragd/src/live_runtime.rs:392-397 | An ingest of the coordinator, whose accepted scheduler commands reach the driver's queue in order; result and whole new state. |
| LiveRuntime.RunValid | crates/openfragd/src/live_runtime.rs:828-844 | In every run of coordinator and deadline driver together: every automatic capture is known under its own timer, an armed timer is armed for its capture's deadline, and the coordinator's invariants hold. |
| LiveRuntime.OnTimeUnlessStranded | crates/openfragd/src/live_runtime.rs:828-844 | At any point of a run a scheduled capture has its timer armed for its deadline, unless a step of the run stranded it. |
| LiveRuntime.NewlyStrandedIff | crates/openfragd/src/live_runtime.rs:828-844 | Exactly which steps strand a capture: an ingest whose cancel went halfway, or a driver round that failed at it or before it. No retry and no manual flag does. |
| LiveRuntime.IngestStrandsIff | crates/openfrag-live/src/lib.rs:495-522 | An ingest strands a waiting capture exactly when the scheduler takes its cancel and the store then refuses its record. |
| LiveRuntime.DriveStrandsIff | crates/openfragd/src/live_runtime.rs:828-837 | A driver round strands a capture exactly when its timer was due and it, or one due before it, failed: all due timers leave the schedule before the first is dispatched. |
| LiveRuntime.StrandedStays | crates/openfragd/src/live_runtime.rs:828-844 | No step asks for a stranded capture; it stays stranded until a stale or reset receipt cancels it. |
| LiveRuntime.FailingDispatchStrands | crates/openfragd/src/live_runtime.rs:828-837 | A concrete run in which every store call works: the recorder refuses the first of two due captures and the other is stranded. |
| Deadlines.DeadlineDriver.TakeDue | crates/openfragd/src/live_runtime.rs:121-139 | All due timers sorted by (deadline, identifier), removed from the schedule, after the queued commands are applied. |
| Deadlines.DueInOrder | crates/openfragd/src/live_runtime.rs:121-139 | What is taken is exactly the timers whose deadline has come, each once, by deadline and then alphabetically. |
| Deadlines.DeadlineDriver.TakeNextDue | crates/openfragd/src/live_runtime.rs:205-218 | The least due timer, or none exactly when nothing is due. |
| Deadlines.FirstIff | crates/openfragd/src/live_runtime.rs:205-218 | The one taken first is due and precedes every due timer by deadline and then alphabetically. |
| Deadlines.DeadlineDriver.TakeAllNext | crates/openfragd/src/live_runtime.rs:121-218 | Repeating `take_next_due` until it finds nothing yields exactly the sequence and the schedule of one `take_due`. |
| Deadlines.DeadlineDriver.DrainCommands | crates/openfragd/src/live_runtime.rs:192-203 | All queued commands are applied in order; a closed channel is noticed. |
| Deadlines.DeadlineDriver.NextDeadline | crates/openfragd/src/live_runtime.rs:142-145 | The least deadline after the queued commands are applied. |
| Deadlines.SortedIsDueSequence | crates/openfragd/src/live_runtime.rs:123-134 | Sorting any enumeration of the due entries gives the one-at-a-time sequence, so the map's iteration order does not matter. |
| Deadlines.RunFiresPending | crates/openfragd/src/live_runtime.rs:118-230 | In every run a timer is handed out only if its schedule is pending (received, not fired, cancelled or replaced since) and its deadline has passed. |
| Deadlines.FiresOncePerSchedule | crates/openfragd/src/live_runtime.rs:118-230 | Between two firings of one timer a new schedule for it arrived whose deadline was met. |
| Deadlines.NothingDueIsLeft | crates/openfragd/src/live_runtime.rs:121-139 | After `take_due` no pending schedule is due. |
| Supervisor.RecorderSupervisor.RequestSave | crates/openfrag-capture/src/lib.rs:256-284 | A request is refused, coalesced into the queued save, or signalled; whole new state. |
| Supervisor.RequestIff | crates/openfrag-capture/src/lib.rs:256-300 | A request is refused exactly when nothing runs or its signal fails, joins the queued save when one is in flight, and becomes the save in flight otherwise; the answer names the save under which it will be found. |
| Supervisor.RecorderSupervisor.Acknowledge | crates/openfrag-capture/src/lib.rs:316-332 | A settlement consumes the save in flight and the queued one even when signalling the follow-up fails. |
| Supervisor.AcknowledgeIff | crates/openfrag-capture/src/lib.rs:316-332 | An acknowledgement is accepted exactly when a save is in flight, the output is acceptable (inside the directory, no parent component, no symbolic link, a regular file that resolves into the directory) and the media probe agrees. It then carries identity, provenance and request time of the save in flight, whatever is queued, is what the settlement records and what the caller gets; the queued save takes its place if its signal is delivered. |
| Supervisor.AcknowledgeRefusals | crates/openfrag-capture/src/lib.rs:316-332 | The error of a refused acknowledgement in each case, in the order of the checks. |
| Supervisor.SettledIsLastSent | crates/openfrag-capture/src/lib.rs:286-332 | In every run a settlement carries identity, provenance and request time of the last save sent before it. |
| Supervisor.FailedAcknowledgeIff | crates/openfrag-capture/src/lib.rs:316-332 | An acknowledgement that reports an error has changed nothing, unless a valid clip settled the save in flight while the signal for the queued one was refused: then the queued save is lost and the caller is told only of the error. |
| Supervisor.RecorderSupervisor.DiscoverSave | crates/openfrag-capture/src/lib.rs:302-314 | The first new output, if any, is acknowledged. |
| Supervisor.DiscoverIff | crates/openfrag-capture/src/lib.rs:302-314 | Discovering refuses without a save in flight, finds nothing in an empty listing, and otherwise acknowledges the first output listed and returns that acknowledgement. |
| Supervisor.RecorderSupervisor.Poll | crates/openfrag-capture/src/lib.rs:335-365 | Draining, stability, exit with restart schedule, and due restart; whole new state. |
| Supervisor.PollAnswers | crates/openfrag-capture/src/lib.rs:335-365 | A poll returns the exit code it found; it fails exactly when draining, the look for an exit, or the spawn of a due restart fails. |
| Supervisor.PollChanges | crates/openfrag-capture/src/lib.rs:335-365 | What a poll changes, field by field: stability after the configured time and the failures it forgets, the exit and the restart it schedules unless shut down, the restart that is due. |
| Supervisor.RestartDelays | crates/openfrag-capture/src/lib.rs:430-432 | The delays double from one second over four failures and stay at thirty seconds from the fifth on. |
| Supervisor.RecorderSupervisor.AppendStderr | crates/openfrag-capture/src/lib.rs:389-397 | The byte-by-byte push and pop keeps the last `max` bytes. |
| Supervisor.RecorderSupervisor.Shutdown | crates/openfrag-capture/src/lib.rs:367-376 | No restart remains scheduled, also when the interrupt fails. |
| Supervisor.RecorderSupervisor.Spawn | crates/openfrag-capture/src/lib.rs:378-388 | A successful spawn clears shutdown, stability and the scheduled restart; a failed one changes nothing. |
| Supervisor.StartStop | crates/openfrag-capture/src/lib.rs:367-388 | A spawn and a shutdown, field by field. |
| Supervisor.RunValid | crates/openfrag-capture/src/lib.rs:256-397 | In every run: a queued save implies one in flight; signals delivered equal saves settled plus the one in flight; a follow-up carries the first waiting identity, is manual exactly when some waiting request was, and follows at once; the k-th consecutive unstable exit schedules the restart at exit time plus the table entry min(k, 5); the stderr tail is the last bytes ever drained; acknowledged paths lie in the output directory, and each acknowledgement carries identity, provenance and request time of the last save sent. |
| Supervisor.NoRestartAfterShutdown | crates/openfrag-capture/src/lib.rs:335-388 | Between a shutdown and a later restart there was a successful `start`. |
| Supervisor.RestartsNeedExits | crates/openfrag-capture/src/lib.rs:335-388 | Between two spawns of which the second is a restart the child exited and that exit's delay has passed. |
| Supervisor.CoalesceStands | crates/openfrag-capture/src/lib.rs:264-279 | The queued save keeps the first identity and becomes manual exactly when some coalesced request is. |
| SaveRequests.RecorderHears | crates/openfragd/src/live_runtime.rs:285-305 | The recorder hears of a step of the coordinator exactly when that step records a request: once, under the identity of the capture and the next number, with the provenance of the capture; the request counts as accepted exactly when the supervisor took it. |
| SaveRequests.RunValid | crates/openfragd/src/live_runtime.rs:285-305 | In every run of the coordinator with the supervisor as its recorder each capture marked SaveRequested stands in the recorder's history: by its own signal, or by the join that coalesced it. |
| SaveRequests.CoalescedFate | crates/openfrag-capture/src/lib.rs:256-332 | A capture whose save was coalesced still waits in the queue, has been followed up by a signal, or is forgotten. |
| SaveRequests.NewlyForgottenIff | crates/openfrag-capture/src/lib.rs:316-332 | A step forgets a waiting request exactly when it is an acknowledgement that settles the save in flight and is refused the signal for the queued one. |
| SaveRequests.ForgottenStays | crates/openfrag-live/src/lib.rs:524-562 | No step repairs it: the request stays forgotten and its capture stays SaveRequested. |
| SaveRequests.CoalescedSaveForgotten | crates/openfrag-live/src/lib.rs:344-368 | A concrete run of four steps that leaves a manual capture SaveRequested for a save nobody will make. |
| CaptureConfig.EncodeOsString | crates/openfrag-setup/src/capture_config.rs:280-288 | The loop over the bytes writes their hexadecimal encoding. |
| CaptureConfig.ReadConfiguration | crates/openfrag-setup/src/capture_config.rs:234-278 | Advancing the line iterator field by field computes the decoding of which the lemmas below speak. |
| CaptureConfig.ValidateIs | crates/openfrag-setup/src/capture_config.rs:84-92 | A configuration is valid exactly when its target is one to 128 letters, digits and, after the first, _ - . or :, and nothing is wrong with output directory, probe and native recorder: each path absolute, at most 4096 bytes, without control characters or a parent component, and accepted by the file system. The first that is wrong gives the error. |
| CaptureConfig.DecodeRefuses | crates/openfrag-setup/src/capture_config.rs:234-268 | A text that spells a configuration is refused only for what is wrong with that configuration, any other text for its format. |
| CaptureConfig.RoundTrip | crates/openfrag-setup/src/capture_config.rs:219-268 | Decoding what was encoded gives back every valid configuration, with arbitrary path bytes; the file is ASCII. |
| CaptureConfig.DecodesIffSpelled | crates/openfrag-setup/src/capture_config.rs:234-278 | A text decodes to a configuration exactly when that configuration is valid and the eight lines spell it, up to hexadecimal case and line endings. |
| CaptureConfig.DecodesIffEncodes | crates/openfrag-setup/src/capture_config.rs:280-314 | A text decodes to a path exactly when it is that path's encoding up to the case of its digits. |
| Durations.ParseSecondsAsMilliseconds | crates/openfrag-clips/src/derivative.rs:818-852 | The two loops over the fraction compute the exporter's parser. |
| Durations.ParseDurationMs | crates/openfrag-capture/src/lib.rs:633-656 | The enumerating loop computes the supervisor's parser. |
| Durations.ProbeIs | crates/openfrag-capture/src/lib.rs:633-656 | The supervisor's parser takes digits, possibly with a dot and more digits, that are worth between one millisecond and the largest u64, and returns the whole milliseconds; below it is not positive, above it is too large. |
| Durations.ProbeRefuses | crates/openfrag-capture/src/lib.rs:633-656 | Exactly the texts that are not spelled so are refused as no decimal. |
| Durations.FormatParses | crates/openfrag-clips/src/derivative.rs:727-729 | Both parsers read every printed positive duration back; zero is refused by both. |
| Durations.AgreeOnDigits | crates/openfrag-clips/src/derivative.rs:818-852 | The parsers agree on every text whose part before the first dot is a nonempty run of digits, also on zero durations. |
| Durations.AgreeUnlessSigned | crates/openfrag-capture/src/lib.rs:633-656 | They disagree exactly on a plus sign followed by something the supervisor's parser accepts. |
| Durations.SignedDiffers | crates/openfrag-clips/src/derivative.rs:818-852 | The text +1 is one second to the exporter and refused by the supervisor. |
| Durations.ParsesToFloor | crates/openfrag-capture/src/lib.rs:633-656 | An accepted text is worth the floor of its exact decimal value in milliseconds. |

## Left out

- Rating.ScoreNeverOverflows: the bound is sufficient, not necessary; the necessary and sufficient condition is RatingOverflow.ScoreSucceedsIffSumsFit.
- Retention.RetentionWithinBudget: allows the excess of a total beyond u64, because the code's saturated total forgets it; Retention.WithinBudgetIff says exactly when the budget holds.
- Analysis.AnalyzeDemo: `u32` counters wrap as in a release build; a debug build would panic. Identity and build strings, JSON normalisation and hashing are not modelled, and hashes are opaque strings.
- Baseline.BuildLens: the public wrappers are covered through its optional side; the check of `build_side_component_lens` that refuses a one-map scope is not a member of its own.
- Gsi.Engine.RoutePost: starts after authentication and decoding; header, JSON, token and application checks are omitted, presence bits are opaque, and sequence numbers are unbounded instead of u64. Times are whole nanoseconds.
- Live.RunValid: assumes fewer than 2^64 manual flags, beyond which the saturated ordinal could repeat an identifier. Messages of the store and the scheduler are not modelled: each call is granted or refused, and granted scheduler commands are recorded in order. Final labels, which the coordinator leaves empty, and `finalize_capture`, which only forwards to the store, are omitted.
- Live.Coordinator.Ingest: the map's iteration order is an argument that lists every capture once.
- ComponentStatistics.ComponentBaselineExists: a bound on the denominators that suffices; the exact condition is ComponentStatistics.ComponentBaselineIff.
- ComponentStatistics.ComponentGoalEvaluated: likewise; the exact condition is ComponentStatistics.GoalEvaluatedIff.
- SaveRequests.RunValid: the running number of requests is unbounded instead of u64.
- EvidenceSink.RunValid: the capture runtime is available; evidence and the coordinator's other operations take turns.
- LiveRuntime.RuntimeDriver.DriveOnce: the capture runtime is available; its bounded record of diagnostics is omitted.
- LiveRuntime.RunValid: operations of the coordinator do not overlap a driver round, and the driver has received every command sent when a round begins. The recorder's exit and the publication of finished saves, which the same round polls, are not part of it.
- Deadlines.DeadlineDriver.DrainCommands: commands sent while it drains are those sent before it or after it. The blocking wait of `wait_next_due` is omitted; its steps are draining and taking the next timer.
- Supervisor.RunValid: assumes that the clock does not run backwards within one poll. Error messages, launch arguments and the interrupt signal are not recorded; paths are sequences of components.
- Supervisor.RecorderSupervisor.Poll: `usize` counters are 64 bits wide.
- CaptureConfig.ReadConfiguration: the file is the text it decodes to; encoded files are ASCII, for which UTF-8 decoding is the identity. Permissions, symbolic links and atomic publishing are one function argument or omitted.
- Durations.ParseDurationMs: text is a sequence of characters.
- Storage, migrations and the SQL behind the store.
- The demo parser and its error mapping.
- HTTP routing, the dashboard, the setup flow and the doctor checks.
- Process spawning, ffmpeg and ffprobe, file publishing.
- Portal shortcuts, worker threads, mutex poisoning and async loops: steps are taken one at a time.
- Finite tables: `final_labels`, `session_sample`, `position`, enum-to-string maps.

# Multi-bag ball-drawing probability calculator, modelled in Dafny

The calculator starts from a set of numbered bags, each holding coloured
balls. It runs a list of operations against them:

- `draw`: take `draw_count` balls from a bag into the hand;
- `discard`: take `draw_count` balls from a bag and throw them away;
- `return`: put one ball from the hand, chosen at random, back into a bag.

It reports the probability of every final hand. The hand is written as a
description such as `"2B+1R"`: the colours in ascending order, each with
its count. An empty hand is written `"空手"`. The calculator has two
engines:

- **The exact engine** expands a list of search states. Each state holds
  the hand, the table of every bag, and the probability of reaching it.
  - A draw or discard branches into one state per combination of colours
    that can be taken. Each branch is weighted by the multivariate
    hypergeometric probability `∏ C(n_i, k_i) / C(N, K)`.
  - A return branches into one state per colour held, weighted by that
    colour's share of the hand.
  - After every operation, states whose hand and bag sizes agree are
    merged. The first such state stands for all of them. Its bag contents
    are kept and the others' are dropped, so later draws can depend on
    which state came first.
  - When there are more than 100000 states, the 50000 most probable are
    kept and their probabilities rescaled to sum to 1.
  - The surviving states are aggregated into the distribution of hand
    descriptions.
- **The Monte Carlo engine** replays the operations against a random source
  once per simulation. It then divides the tally of final hands by the
  number of trials.

The model also covers the checks run before a calculation:

- the checks on a configuration (bag ids, bag contents, and the bag, count
  and kind of every operation);
- the checks on a loaded configuration file;
- the translation of the file's operation records into engine operations;
- the display helper that reads the per-colour expected ball counts back
  out of a distribution of hand descriptions.

Model structure:

- **Colour tables.** A colour table (a `dict` in insertion order, or a
  `Counter`) is a `Tallies.Tally`: an insertion order plus a count map.
- **Probabilities.** Probabilities are `real`.
- **Bags.** A bag the source mutates is the class `BagStates.BagState`.
- **Search states and trials.** These are values, because the source
  deep-copies every bag of a state before changing it.
- **Code with loops.** Every function of the source that loops is a method
  with a loop. It is proved equal to a recursive specification function.
  The properties the source relies on are proved about those functions:
  - draw probabilities sum to 1;
  - every operation conserves total probability;
  - a draw or a return moves balls between a bag and the hand, creating
    or losing none; a discard takes exactly the discarded balls out of the
    bag;
  - merging keeps the distribution of hand descriptions;
  - pruning keeps the most probable states, stably, and renormalises them;
  - a Monte Carlo result is the tally of the trials divided by the number
    of trials, and sums to 1;
  - each error message is emitted exactly when its condition holds;
  - the expected ball counts read back from hand descriptions equal the
    expected counts over the actual hands.

Modules, one per file:

| module | models |
|---|---|
| `Operations` | `BallDrawOperation` and the three operation kinds |
| `Tallies` | colour tables and the balls they stand for |
| `Combinatorics` | `math.comb` and Vandermonde's identity |
| `Draws` | the outcomes `draw_balls` enumerates |
| `BagStates` | the `BagState` class |
| `Distributions` | the hand distribution dictionaries |
| `HandKeys` | hand descriptions |
| `SearchStates` | one state of the exact engine and its children |
| `ExactEngine` | `calculate_exact` |
| `Merging` | `_merge_states` |
| `Pruning` | `_prune_states` |
| `Aggregation` | `_aggregate_results` |
| `MonteCarlo` | `monte_carlo_simulation` |
| `Validation` | `ProbabilityCalculator.validate_configuration` |
| `FromFile` | `calculate_from_file.py` |
| `Display` | `_calculate_color_expectations` |

Merging keys a state on its hand and on each bag's **total** only, as the
source does. Two states with the same hand and bag sizes but different bag
contents are merged into the first one's bags. The model keeps this
behaviour. The source's own comment calls the key a simplification.

## Model

| member | source | states |
|---|---|---|
| BagStates.BagState.constructor | probability_calculator.py:41-43 | the new bag holds a copy of the given colour table, and its total is the sum of the counts |
| BagStates.BagState.Copy | probability_calculator.py:45-47 | a fresh bag with the same colour table and total |
| BagStates.BagState.HasEnoughBalls | probability_calculator.py:49-51 | true exactly when the bag holds at least `count` balls |
| BagStates.BagState.DrawBalls | probability_calculator.py:53-109 | the list of outcomes is `Outcomes` of the bag's table: `[([], 1.0)]` when too few balls are left, otherwise one outcome of positive probability per combination of takes |
| BagStates.GenerateCombinations | probability_calculator.py:67-106 | the recursive enumeration appends exactly the outcomes of the combinations that extend the current takes |
| BagStates.TakeEach | probability_calculator.py:95-106 | the loop over `take in range(max_take + 1)` appends the outcomes of every take from 0 to `min(count, remaining)` in turn |
| BagStates.RecordCombination | probability_calculator.py:68-90 | a finished combination appends its outcome only when its probability is positive |
| BagStates.Numerator | probability_calculator.py:75-79 | the numerator is the product of `C(n_i, k_i)` over the colours |
| BagStates.BallList | probability_calculator.py:86-88 | the ball list repeats each colour by its take, in the table's order |
| BagStates.BagState.RemoveBalls | probability_calculator.py:111-116 | the table loses one ball per listed colour that is still present; the balls lose exactly the multiset of listed colours, and the total stays equal to the number of balls |
| BagStates.BagState.AddBall | probability_calculator.py:118-123 | the colour's count grows by one (a new colour is appended to the order); the balls gain that colour |
| BagStates.DecrementTotal | probability_calculator.py:113-116 | removing a colour lowers the total by one exactly when that colour was present |
| Combinatorics.Vandermonde | probability_calculator.py:74-81 | `Σ_t C(a, t) · C(b, k − t) = C(a + b, k)`, the identity behind the probabilities summing to 1 |
| Combinatorics.ChooseAbove | probability_calculator.py:79-82 | `C(n, k)` is 0 when `k > n`, as `math.comb` returns |
| Combinatorics.ChoosePositive | probability_calculator.py:81-82 | `C(n, k)` is positive when `k <= n`, so the denominator is never 0 in range |
| Draws.OutcomesSumToOne | probability_calculator.py:53-109 | when `count >= 0`, the outcome probabilities of every bag sum to 1; a negative count yields no outcome |
| Draws.SplitsWeighTotal | probability_calculator.py:74-84 | the numerators of all combinations sum to `C(N, K)` |
| Draws.RenderProbs | probability_calculator.py:74-89 | the kept outcomes' probabilities sum to the combinations' numerators divided by `C(N, K)` |
| Draws.ProbPositive | probability_calculator.py:81-84 | an outcome's probability is numerator over `C(N, K)`, and is positive exactly when its numerator is |
| Draws.OutcomeFacts | probability_calculator.py:59-89 | every outcome of a feasible draw has exactly `count` balls, taken from the bag, listed in the bag's colour order, with positive probability |
| Draws.CombinationsShape | probability_calculator.py:92-106 | every enumerated combination extends the current takes, takes exactly the remaining count, and takes no more of a colour than the bag holds |
| Draws.CombinationsNegative | probability_calculator.py:95-98 | a negative remaining count enumerates nothing |
| Tallies.Increment | probability_calculator.py:189-190 | `hand[ball] += 1`: that colour's count grows by one, every other count is unchanged, and the table stays well formed |
| Tallies.DecrementDrop | probability_calculator.py:238-241 | a count is lowered by one, and the colour is deleted when its count reaches 0 |
| Tallies.RemoveAllBalls | probability_calculator.py:111-116 | removal takes exactly the listed multiset out of the bag's balls |
| Tallies.AddAllBalls | probability_calculator.py:189-190 | adding a list of balls to the hand adds exactly their multiset |
| Tallies.DropAll | probability_calculator.py:388-392 | the Monte Carlo removal takes the drawn multiset out of the bag, keeping the table well formed |
| Tallies.DropAllKeys | probability_calculator.py:389-392 | a drawn colour stays in the table exactly while some of it is left, so one that reaches 0 is deleted; an undrawn colour stays exactly when it was there, zero counts included |
| SearchStates.ExpandState | probability_calculator.py:168-253 | the children of one state under one operation are `Children(s, op)`; an unknown kind has none |
| SearchStates.ExpandDraw | probability_calculator.py:173-222 | a draw or discard yields one child per outcome of positive probability, with the balls moved and the probability multiplied |
| SearchStates.DrawnState | probability_calculator.py:182-199 | the child of one outcome has the bag's balls removed, the balls added to the hand when drawing, and probability `prob × draw_prob` |
| SearchStates.AddToHand | probability_calculator.py:189-190 | the new hand is the old one with every drawn ball added |
| SearchStates.CopyRemove | probability_calculator.py:182-186 | removing from a copied bag gives `RemoveAll` of its table |
| SearchStates.CopyAdd | probability_calculator.py:243-244 | adding to a copied bag gives `Increment` of its table |
| SearchStates.ExpandReturn | probability_calculator.py:224-253 | an empty hand passes the state on unchanged; otherwise there is one child per colour held |
| SearchStates.ReturnEach | probability_calculator.py:234-253 | the loop over the held colours builds exactly `ReturnChildren` |
| SearchStates.ReturnedState | probability_calculator.py:236-252 | returning a colour moves one ball from the hand to the bag and multiplies the probability by `count / hand size` |
| SearchStates.ChildrenMass | probability_calculator.py:164-253 | for a known kind (and a non-negative count for draws and discards), the children's probabilities sum to the parent's |
| SearchStates.ChildrenLost | probability_calculator.py:173-253 | an unknown kind, or a draw or discard of negative count, yields no child |
| SearchStates.ChildrenSound | probability_calculator.py:168-253 | every child is well formed, has a hand without zero counts and positive probability, and keeps the same bag ids |
| SearchStates.DrawMovesBalls | probability_calculator.py:182-199 | a draw changes only its bag; the balls of hand and bag together are conserved; the hand grows by `draw_count`, or the state is unchanged when too few balls are left |
| SearchStates.DiscardKeepsHand | probability_calculator.py:206-222 | a discard leaves the hand and the other bags unchanged and takes `draw_count` balls out of its bag |
| SearchStates.ReturnMovesOne | probability_calculator.py:224-253 | a return moves exactly one ball of a held colour from the hand to the bag, weighted by that colour's share of the hand |
| ExactEngine.CalculateExact | probability_calculator.py:134-270 | the result is `CalculateExactOf`: every operation is expanded, merged and pruned, then the states are aggregated; a missing bag raises (`None`) |
| ExactEngine.StepStates | probability_calculator.py:164-265 | one operation: expand all states, merge, and prune when more than 100000 remain |
| ExactEngine.ExpandStates | probability_calculator.py:166-253 | the concatenation of every state's children, or `None` when a state needs a bag that does not exist |
| ExactEngine.RunDefined | probability_calculator.py:173-176 | when every known operation names an existing bag, the run never raises |
| ExactEngine.MissingBagRaises | probability_calculator.py:173-176 | a draw or discard on a missing bag, reached with a state left, raises `KeyError` (`None`) |
| ExactEngine.ExpandAllLost | probability_calculator.py:164-253 | an unknown operation kind, or a negative draw count, leaves no state at all |
| ExactEngine.RunEmptyStays | probability_calculator.py:164-265 | once no state is left, none ever returns |
| ExactEngine.LostOperation | probability_calculator.py:164-336 | after an unknown operation kind, the result has 0 states, total probability 0 and an empty distribution |
| ExactEngine.StepMass | probability_calculator.py:255-265 | an operation of a known kind keeps total probability at 1, merging and pruning included |
| ExactEngine.RunMass | probability_calculator.py:152-265 | starting from probability 1.0, the surviving states' probabilities sum to 1 when every operation has a known kind and a non-negative count |
| ExactEngine.ExactResultTotal | probability_calculator.py:134-336 | the reported total probability is 1, the state count is that of the surviving states, and each hand's entry is the summed probability of the states with that description |
| Merging.MergeStates | probability_calculator.py:272-294 | the dictionary loop computes `Merge`: each state is either folded into the entry with its key or appended |
| Merging.Absorb | probability_calculator.py:286-292 | one state is folded in, and the key index stays exact |
| Merging.SortedIds | probability_calculator.py:282 | `sorted(state["bags"].items())` visits exactly the bag ids, in strictly ascending order |
| Merging.SizeList | probability_calculator.py:281-284 | `bag_summaries` lists each bag id of the sorted order once, paired with that bag's ball total |
| Merging.SizeListIff | probability_calculator.py:280-284 | the size map used in the key and the `bag_summaries` list of `(bag_id, size)` pairs in ascending id order determine each other |
| Merging.KeyOfIff | probability_calculator.py:276-286 | two states get the same key exactly when their sorted hand items and their `bag_summaries` lists are both equal, as `full_key` compares them |
| Merging.MergeMass | probability_calculator.py:288-292 | merging keeps the total probability |
| Merging.MergeKeys | probability_calculator.py:276-294 | the merged list holds each key once, and exactly the keys of the input |
| Merging.MergeRepresents | probability_calculator.py:286-294 | each merged entry is the first input state with its key, carrying the summed probability of all states with that key |
| Merging.MergeOrder | probability_calculator.py:294 | the merged entries appear in the order their keys are first seen |
| Merging.MergeLength | probability_calculator.py:272-294 | merging never lengthens the list |
| Merging.MergeSound | probability_calculator.py:288-292 | merging well-formed states of positive probability gives such states |
| Merging.MergeIds | probability_calculator.py:292 | merged states keep the bag ids |
| Pruning.PruneStates | probability_calculator.py:296-312 | the result is `PruneOf`: the input unchanged when short enough, otherwise the first `max_states` of the stable descending sort, rescaled when their total is positive |
| Pruning.SumProb | probability_calculator.py:306 | the sum of the kept probabilities |
| Pruning.Rescale | probability_calculator.py:307-309 | every kept probability is divided by the total |
| Pruning.SortPermutes | probability_calculator.py:302 | sorting is a permutation |
| Pruning.SortDescending | probability_calculator.py:302 | with `reverse=True` the probabilities are in non-increasing order |
| Pruning.SortStable | probability_calculator.py:302 | states of equal probability keep their relative order |
| Pruning.PruneKeepsMostProbable | probability_calculator.py:298-303 | a short list is returned as is; otherwise no dropped state is more probable than a kept one |
| Pruning.NormalizeEntries | probability_calculator.py:307-309 | each state keeps its hand and bags, and its probability is divided by the total |
| Pruning.NormalizeMass | probability_calculator.py:306-309 | after rescaling, the total is the old total divided by the divisor |
| Pruning.PruneMass | probability_calculator.py:296-312 | pruning states of positive probability leaves a total of exactly 1 |
| Pruning.PruneSound | probability_calculator.py:296-312 | pruned states stay well formed, with positive probability and the same bag ids |
| Aggregation.AggregateResults | probability_calculator.py:314-336 | the result is `ResultOf`: the state count, the distribution of hand descriptions and its sum |
| Aggregation.SumDist | probability_calculator.py:329 | the loop sums the distribution's values |
| Aggregation.AggregateProper | probability_calculator.py:316-326 | every description is listed once in the distribution |
| Aggregation.AggregateGet | probability_calculator.py:318-326 | each description's probability is the total probability of the states whose hand it describes |
| Aggregation.AggregateSum | probability_calculator.py:328-333 | the reported total probability is the total probability of the states |
| Aggregation.AggregateKeys | probability_calculator.py:318-326 | a description appears exactly when some state's hand has it |
| Aggregation.MergeKeepsDistribution | probability_calculator.py:255-257 | merging does not change the aggregated probability of any hand description |
| HandKeys.SortedItemsIff | probability_calculator.py:277 | two well-formed hands without zero counts have the same sorted items exactly when they hold the same counts |
| HandKeys.HandKeyCanonical | probability_calculator.py:319-325 | two hands with equal counts get the same description, whatever their insertion order |
| HandKeys.HandKeyEmpty | probability_calculator.py:325 | the description is `"空手"` exactly when no colour is held |
| HandKeys.SortAscending | probability_calculator.py:321 | `sorted` of distinct colours is strictly ascending |
| HandKeys.AscendingUnique | probability_calculator.py:321 | an ascending arrangement of a set of colours is unique |
| HandKeys.DecimalRoundTrip | probability_calculator.py:323 | reading back the decimal digits of a count gives the count |
| HandKeys.HeldItemsFacts | probability_calculator.py:321-323 | every listed item has a positive count equal to the hand's count of that colour |
| Distributions.AddTo | probability_calculator.py:326 | `d[k] += x` on a defaultdict: only `k` changes, by `x`, and a new key is appended |
| Distributions.AddToSum | probability_calculator.py:326-329 | adding to one entry raises the sum by the same amount |
| MonteCarlo.MonteCarloSimulation | probability_calculator.py:338-467 | the result is `MonteCarloOf`: `num_simulations` trials, tallied and turned into frequencies, or `None` when a trial raises |
| MonteCarlo.CollectOutcomes | probability_calculator.py:359-450 | the trial loop tallies the final hand description of every trial |
| MonteCarlo.Simulate | probability_calculator.py:365-441 | one trial starts from fresh bags and an empty hand and applies every operation |
| MonteCarlo.ApplyOperation | probability_calculator.py:370-441 | an operation is a draw, a discard or a return; any other kind changes nothing |
| MonteCarlo.DrawStep | probability_calculator.py:371-418 | the trial fails exactly when the bag is missing or the count is negative (`random.sample` raises); a draw from a bag with too few balls is skipped |
| MonteCarlo.DrawFromBag | probability_calculator.py:371-418 | the loop computes `DrawStep` |
| MonteCarlo.MoveDrawn | probability_calculator.py:387-396 | the drawn balls leave the bag and, for a draw, enter the hand |
| MonteCarlo.HandAfter | probability_calculator.py:394-396 | the hand gains the drawn balls for a draw and is unchanged for a discard |
| MonteCarlo.ReturnStep | probability_calculator.py:420-441 | an empty hand skips the return; otherwise the trial fails exactly when the bag is missing |
| MonteCarlo.ReturnToBag | probability_calculator.py:420-441 | the loop computes `ReturnStep` |
| MonteCarlo.ReturnedBall | probability_calculator.py:426-433 | `random.choice` picks a colour the hand holds |
| MonteCarlo.Population | probability_calculator.py:376-378 | the ball list repeats each colour by its count, in table order |
| MonteCarlo.TakeBalls | probability_calculator.py:388-392 | the loop computes `DropAll`: the bag loses exactly the drawn balls, and by `DropAllKeys` a colour that reaches 0 is deleted |
| MonteCarlo.RandomSample | probability_calculator.py:385 | the loop computes `Sample`: `k` balls taken without replacement, driven by the random source |
| MonteCarlo.SampleWithin | probability_calculator.py:385 | a sample is a sub-multiset of the population |
| MonteCarlo.Below | probability_calculator.py:433 | the random index is below the pool size |
| MonteCarlo.DrawMoves | probability_calculator.py:384-396 | a feasible draw moves `draw_count` balls from the bag to the hand (only from the bag for a discard); the other bags are unchanged |
| MonteCarlo.ReturnMovesOne | probability_calculator.py:433-441 | a return moves one held ball from the hand to the bag |
| MonteCarlo.FrequencyTable | probability_calculator.py:452-459 | each description's frequency is its tally divided by the total |
| MonteCarlo.SumCounts | probability_calculator.py:455 | the loop sums the tallies |
| MonteCarlo.TalliedCount | probability_calculator.py:450 | a description's tally is the number of trials that ended with it |
| MonteCarlo.FrequenciesGet | probability_calculator.py:458-459 | each frequency is the tally over the number of trials, and 0 for an unseen hand |
| MonteCarlo.FrequenciesSum | probability_calculator.py:455-463 | the frequencies sum to 1 |
| MonteCarlo.MonteCarloFrequencies | probability_calculator.py:452-467 | a run without failure reports each hand's share of the trials, as many states as distinct hands, total probability 1 and the number of simulations |
| MonteCarlo.NoSimulations | probability_calculator.py:354-467 | zero or negative simulations give an empty distribution with total 0 |
| MonteCarlo.MissingBagFails | probability_calculator.py:371-373 | a draw or discard on a missing bag makes the simulation raise |
| Validation.ValidateConfiguration | probability_calculator.py:469-502 | the message list is `Violations`: the bag checks in dict order, then the operation checks in list order |
| Validation.CheckBag | probability_calculator.py:479-489 | one bag's messages: a bad id, an empty bag, then each negative count |
| Validation.SumCounts | probability_calculator.py:483 | the loop sums the bag's counts |
| Validation.FindNegatives | probability_calculator.py:487-489 | one message per negative count, in order |
| Validation.NegativeCounts | probability_calculator.py:487-489 | a negative-count message is emitted exactly for each colour with a negative count |
| Validation.CheckOperation | probability_calculator.py:492-500 | one operation's messages: a missing bag, a non-positive count, an unknown kind |
| Validation.FindBag | probability_calculator.py:493 | true exactly when some bag has that id |
| Validation.BagViolationsEmpty | probability_calculator.py:479-489 | a bag yields no message exactly when its id is a positive int, its total is positive and no count is negative |
| Validation.NoNegativesNoMessages | probability_calculator.py:487-489 | with no negative count, no negative-count message is emitted |
| Validation.AllBagViolationsEmpty | probability_calculator.py:479-489 | the bag checks pass exactly when every bag is good |
| Validation.AllOpViolationsEmpty | probability_calculator.py:492-500 | the operation checks pass exactly when every operation is good |
| Validation.ValidIff | probability_calculator.py:469-502 | the configuration is valid exactly when every bag and every operation is good |
| Validation.FromSomeBag | probability_calculator.py:479-489 | every bag message comes from some bag |
| Validation.BadBagIdReported | probability_calculator.py:480-481 | the bad-id message is emitted exactly for a listed bag whose id is not a positive int |
| Validation.EmptyBagReported | probability_calculator.py:483-485 | the empty-bag message is emitted exactly for a listed bag whose counts sum to 0 or less |
| Validation.NegativeCountReported | probability_calculator.py:487-489 | the negative-count message is emitted exactly for a listed bag holding that colour with that negative count |
| Validation.MissingBagReported | probability_calculator.py:492-494 | the missing-bag message for step `i+1` is emitted exactly when operation `i` names a bag that does not exist |
| Validation.NonPositiveDrawReported | probability_calculator.py:492-497 | the count message is emitted exactly when the operation's count is 0 or less |
| Validation.UnknownTypeReported | probability_calculator.py:492-500 | the kind message is emitted exactly when the kind is not draw, discard or return |
| FromFile.ValidateConfiguration | calculate_from_file.py:29-62 | the problems are `FileProblems`, and the file is accepted exactly when there are none |
| FromFile.AcceptedIff | calculate_from_file.py:29-62 | a file is accepted exactly when both fields exist, `bags_config` is a non-empty object and `operations` is a list |
| FromFile.MissingFieldStops | calculate_from_file.py:33-44 | a missing field is reported (each one exactly when missing), and the shape checks are not run |
| FromFile.LookupFound | calculate_from_file.py:70-72 | a key is found exactly when some member carries it, and then the last such member's value is taken |
| FromFile.ConvertOperations | calculate_from_file.py:64-106 | the loop keeps the converted operation of every record, in order |
| FromFile.ConvertOne | calculate_from_file.py:69-104 | one record: the defaults, the skips, the kind mapping and the caught exception |
| FromFile.ConvertRecord | calculate_from_file.py:69-104 | a kept record has a positive count and the kind draw, discard or return |
| FromFile.KeptIff | calculate_from_file.py:70-101 | a record is kept exactly when it is an object with a truthy kind that is draw, return or discard_bag and a positive count |
| FromFile.DroppedRecords | calculate_from_file.py:74-101 | a record without a kind, without a count, of kind `discard_hand`, or with a count of 0 or less is dropped |
| FromFile.DiscardBagBecomesDiscard | calculate_from_file.py:83-89 | `discard_bag` becomes a discard with the same bag and count |
| FromFile.DrawAndReturnPassThrough | calculate_from_file.py:90-95 | draw and return keep their kind, bag and count |
| FromFile.DefaultBag | calculate_from_file.py:72 | a record without `bag_id` uses bag 1 |
| FromFile.ConvertAllAppend | calculate_from_file.py:68-106 | converting a concatenation concatenates the conversions |
| FromFile.ConvertAllFrom | calculate_from_file.py:64-106 | an operation is in the result exactly when some record converts to it |
| FromFile.ConvertAllNoneDropped | calculate_from_file.py:64-106 | the result is as long as the input exactly when no record is dropped |
| Display.CalculateColorExpectations | modules/ui/display.py:141-160 | the loop computes `ColorExpectationsOf`: the empty hand is skipped, and every other description adds `count × prob` per part |
| Display.AddDescription | modules/ui/display.py:150-158 | one description adds `count × prob` for each part that parses |
| Display.ParsePartLoop | modules/ui/display.py:153-158 | the character loop reads the leading count (1 when absent) and the colour, and yields nothing for a part of digits only |
| Display.ParsePartNone | modules/ui/display.py:153-158 | a part yields nothing exactly when it is all digits |
| Display.DigitsOnlyIgnored | modules/ui/display.py:153-158 | a part of digits only contributes nothing |
| Display.SplitJoin | modules/ui/display.py:150 | splitting a `"+"`-joined list of parts that contain no `+` gives the parts back |
| Display.ParsePartOf | modules/ui/display.py:153-157 | parsing `f"{count}{color}"` gives back `(count, color)` when the colour does not start with a digit |
| Display.ParseHandKey | modules/ui/display.py:150-157 | parsing a hand description gives back the hand's sorted items, a round trip with `_aggregate_results` |
| Display.KeyCountIsCount | modules/ui/display.py:150-157 | the count read from a description for a colour is the hand's count of that colour |
| Display.ExpectationsGet | modules/ui/display.py:145-158 | each colour's entry is `Σ prob × count` read from the descriptions |
| Display.ColorExpectationsOfHands | modules/ui/display.py:141-160 | for a distribution of hand descriptions, each colour's entry is the expected number of balls of that colour in the hand |

## Left out

- Print statements, progress output, the `__repr__` methods, the debugging `path` of each state, `states_cache` and the numpy fallback shim are not modelled. They do not affect any result.
- Floating point is modelled as exact `real` arithmetic. Rounding in products, sums and divisions is not modelled.
- Python's `set` iteration order in the exact engine's return step depends on the string hash seed. The model fixes one order: the hand's colours in insertion order, keeping those with a positive count.
  - That order decides which of several equal-key states merging keeps. The kept state's bag contents feed every later draw, so the exact engine's probabilities can depend on it.
  - Example: bags 1 = {W:1}, 2 = {R:1, B:1} and 3 = {R:1, B:1}. Draw 2 from bag 2, return one ball to bag 1, draw 1 from bag 3, then draw 1 from bag 1.
  - With R iterated first, the result is P("1B+2R") = 0.375 and P("2B+1R") = 0.125. With B first, the two values swap. The model gives the R-first answer, because R was added to the hand first.
  - Orders other than the modelled one are not modelled.
- Randomness is a parameter: `RandomSource` is a stream of naturals read at a cursor.
  - `random.sample` is modelled as the pool strategy (swap-remove with an index below the pool size).
  - `random.choice` is modelled as an index below the list length.
  - Python's exact use of its generator is not modelled.
- The `total_balls` field of the Monte Carlo bags is not tracked. The Monte Carlo engine never reads it.
- Exceptions (`KeyError` on a missing bag, `ValueError` from `random.sample` with a negative count) are modelled as `None`. Their message text is not.
- Validation messages are modelled as `Violation` and `FileProblem` values carrying what each message reports. The message text is not modelled.
- Bag counts in the engines are naturals. Negative counts in a configuration can be stated only to `Validation`, which reports them.
- `bags_config` keys are taken as ints by the engines. The string keys that JSON produces reach `Validation` as `TextKey`, but no engine is modelled on them.
- `FromFile.Json` numbers are integers. JSON floats are not modelled. A non-object top level of the configuration file is not modelled.
- `str.isdigit` is modelled as ASCII `'0'..'9'`. Other Unicode digits are not modelled.
- Pruning.PruneStates: `max_states` is a natural. A negative argument is not modelled; the engine always passes 50000.
- The constant `"calculation_method"` entry of the result dictionaries is not modelled.
- File loading, saving, the interactive input modules and the display of results are not modelled. They are I/O around the core.

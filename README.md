# Poker hand improvement estimator — Dafny model

This project models the engine of `poker_jordan_vanevery.c`, the empirical
poker hand probability generator. The engine reads a five-card hand and
does four things:

- puts the hand in canonical order, sorting by rank with a bubble sort;
- classifies it into a three-entry descriptor `pokerHandID`: the category
  1..9, a tie-break "minor rank", and the lower pair for two pair;
- for each card, discards it and replaces it many times with a random
  card that is not in the hand;
- counts how often the new hand beats the dealt hand's descriptor.

The model keeps the program's own shape:

- **`Cards`** (cards.dfy): the rank and suit alphabets, `isRank`, `isSuit`
  and `rankToInt`, as pure functions.
- **`Hands`** (hands.dfy): hands as sequences of `Card` values with their
  rank and suit columns, and the reference sort `SortCards`. It also holds
  the stability and uniqueness facts about sorting by rank.
- **`Categories`** (categories.dfy): one function per category test, on
  the rank and suit columns. Each has lemmas saying what its value means
  in terms of how many cards share a rank.
- **`Classifier`** (classifier.dfy): the descriptor, the classifier
  `Classify` that `getHandRank` computes, and the lexicographic order on
  descriptors. It proves that each case of `isBetterHand`'s switch is sound
  and complete with respect to that order.
- **`Estimator`** (estimator.dfy): what `getProbabilities` counts, stated
  on values.
  - The random cards are a stream `draws`.
  - `Accepted` is the subsequence of draws the rejection loop keeps.
  - Block i of `sampleNumber` kept draws is used for the card in canonical
    slot i.
  - `Trial` is the number of improvements that block gives.
  - `Recorded` says which count ends up in which slot of the dealt hand.
  - It also holds the worked example of the program's header comment.
- **`Engine`** (engine.dfy): the globals as a class `HandState`.
  - Its array fields are `handRank`, `handSuit`, `copyHandRank`,
    `copyHandSuit`, `pokerHandID` and `improvements`.
  - Each C procedure is a method that updates the arrays in place, with
    the source's loops and their invariants.
  - Each method is proved against the functions of the other modules.

Notes on the model:

- **Straight.** The ace-low straight 2,3,4,5,A scores 5, which is
  `handRank[3]`.
- **Flush.** The flush tie-break is the sum of the five ranks, as the code
  computes it. The comment at poker_jordan_vanevery.c:450 says "high card";
  the model follows the code.
- **`isXOfAKind(x)`.** It returns the rank of the first run of *at least*
  x equal neighbours, so for x = 2 it also fires on trips and quads.
- **Past-the-end reads.** Some scanning loops compare a slot with
  `handRank[5]`, one past the end of the array:
  - `isXOfAKind` at poker_jordan_vanevery.c:719-720;
  - `isFullHouse` at poker_jordan_vanevery.c:748-749.

  That comparison is modelled as "not equal" (`Categories.Same`). This is
  the one place where the model assigns a value to something the C program
  leaves undefined.
- **`repeatCards`.** It stores the rank of the earlier slot in a `char`.
  `Hands.AsChar` models that conversion, and the method's contract shows
  the conversion loses nothing for ranks 2..14.

## Model

| member | source | states |
|---|---|---|
| Cards.IsSuit | poker_jordan_vanevery.c:209-218 | true exactly for 'C', 'D', 'H', 'S' (the characters of SUIT_LIST) |
| Cards.IsRank | poker_jordan_vanevery.c:226-235 | true exactly for '2'..'9', '0', 'J', 'Q', 'K', 'A' (the characters of RANK_LIST) |
| Cards.RankToInt | poker_jordan_vanevery.c:263-279 | a rank character maps to a value in 2..14, and RANK_LIST holds the character at that value minus 2 |
| Cards.RankToIntAt | poker_jordan_vanevery.c:263-279 | RANK_LIST[i] maps to i + 2: '2'..'9' to 2..9, '0' to 10, 'J', 'Q', 'K', 'A' to 11..14 |
| Cards.RankToIntIncreasing | poker_jordan_vanevery.c:263-279 | the mapping strictly increases along RANK_LIST |
| Engine.HandState.constructor | poker_jordan_vanevery.c:76-81 | the globals: five-slot hand, copy and count arrays and a three-entry descriptor, all zeroed as static storage is |
| Engine.HandState.RepeatCards | poker_jordan_vanevery.c:337-349 | true exactly when two different slots hold the same rank and suit (with the rank passed through a `char`); for valid ranks this is `HasRepeat` of the hand |
| Engine.HandState.LoadCopyHand | poker_jordan_vanevery.c:286-292 | the hand becomes the saved copy, column by column; the copy is unchanged |
| Engine.HandState.SaveCopyHand | poker_jordan_vanevery.c:112-115 | the saved copy becomes the hand as read |
| Engine.HandState.SwapCards | poker_jordan_vanevery.c:427-435 | exchanges neighbouring slots i and i + 1, suit with rank, and leaves the order of the cards of every rank unchanged |
| Engine.HandState.SortHand | poker_jordan_vanevery.c:420-440 | the hand ends sorted by rank and equal to the stable reference sort `SortCards` of the hand before: a permutation with each suit beside its rank and equal ranks in their old order |
| Hands.SortCards | poker_jordan_vanevery.c:420-440 | the reference sort: ranks non-decreasing, the same multiset of cards, the same length |
| Hands.SortCardsStable | poker_jordan_vanevery.c:420-440 | the cards of each rank keep their relative order |
| Hands.SortCardsOfSorted | poker_jordan_vanevery.c:420-440 | a hand already in rank order is left unchanged |
| Hands.StableSortUnique | poker_jordan_vanevery.c:420-440 | two rank-ordered hands that hold the cards of every rank in the same order are equal, so the sorted result is determined |
| Hands.SortedPermutationEqual | poker_jordan_vanevery.c:420-440 | two sorted rank columns with the same elements are equal |
| Engine.BubbleStep | poker_jordan_vanevery.c:425-436 | one comparison of a pass keeps the finished suffix and moves the largest rank seen so far to slot i + 1 |
| Engine.PassEnd | poker_jordan_vanevery.c:423-438 | a full pass adds one slot to the suffix that holds its final ranks |
| Engine.HandState.IsFlush | poker_jordan_vanevery.c:665-679 | the loop computes `FlushValue`: the rank sum when all five suits agree, else 0 |
| Categories.FlushMeaning | poker_jordan_vanevery.c:665-679 | the flush value is nonzero exactly when all suits agree; it is then the rank sum, at least 10 |
| Engine.HandState.IsStraight | poker_jordan_vanevery.c:689-705 | the loop computes `StraightValue`: `handRank[4]` for five consecutive ranks, 5 for exactly 2,3,4,5,14, else 0 |
| Engine.HandState.IsXOfAKind | poker_jordan_vanevery.c:716-732 | the loop computes `OfAKindValue(r, x)`: the rank of the first run of at least x equal neighbours, or 0 |
| Categories.OfAKindMeaning | poker_jordan_vanevery.c:716-732 | on a sorted hand, 0 exactly when no rank is held x times; otherwise the lowest rank held at least x times |
| Engine.HandState.IsFullHouse | poker_jordan_vanevery.c:743-765 | the loop computes `FullHouseValue`; the triplet rank, once set, survives the past-the-end comparison |
| Categories.FullHouseMeaning | poker_jordan_vanevery.c:743-765 | on a sorted hand, nonzero exactly when the rank counts are three and two; the value is the rank held three times |
| Engine.HandState.IsTwoPair | poker_jordan_vanevery.c:772-794 | the loop computes `TwoPairValue` |
| Categories.TwoPairMeaning | poker_jordan_vanevery.c:772-794 | on a sorted hand, nonzero exactly when two ranks are held twice each (counts two, two and one); the value is the higher pair's rank and the x = 2 test gives the lower pair |
| Engine.HandState.HighCard | poker_jordan_vanevery.c:803-811 | the loop computes `HighCardValue` |
| Categories.HighCardValue | poker_jordan_vanevery.c:803-811 | the value is at least every rank and is one of them (or 0 for no cards) |
| Classifier.Classify | poker_jordan_vanevery.c:457-502 | the category is the strongest whose test matches (high card when none does); the minor rank is that test's value; the low pair is the x = 2 value for two pair and 0 otherwise |
| Engine.HandState.GetHandRank | poker_jordan_vanevery.c:457-502 | writes `Digits(Classify(handRank, handSuit))` into `pokerHandID`; the hand is unchanged |
| Classifier.ClassifyOrderIndependent | poker_jordan_vanevery.c:457-502 | after sorting, two orderings of the same five cards get the same descriptor |
| Classifier.ClassifySortedPermutation | poker_jordan_vanevery.c:457-502 | two rank-sorted arrangements of the same cards get the same descriptor |
| Engine.HandState.TestCase | poker_jordan_vanevery.c:518-650 | one case of the switch breaks with "better" exactly when `CaseFires` holds; cached straight and flush values stay correct |
| Classifier.CaseFiresSound | poker_jordan_vanevery.c:518-650 | a case at or above the reference category that breaks with "better" means the hand's descriptor is lexicographically greater |
| Classifier.GreaterFires | poker_jordan_vanevery.c:518-650 | a lexicographically greater hand is caught by the case of its own category, which is at or above the reference's |
| Engine.HandState.IsBetterHand | poker_jordan_vanevery.c:514-653 | writes nothing; for a well-formed reference, true exactly when the hand's own descriptor is lexicographically greater; a higher category always wins, a lower one always loses, and the hand that produced the descriptor never beats itself |
| Engine.HandState.ClassifyHand | poker_jordan_vanevery.c:112-119 | copy, sort and classify: the copy is the hand as read, the hand is its sorted form, and `pokerHandID` holds its descriptor |
| Engine.HandState.EvaluateHand | poker_jordan_vanevery.c:112-120 | for a line of five valid distinct cards: the descriptor is that of the sorted hand, and the counts are the `Recorded` trials, each between 0 and `sampleNumber` |
| Estimator.Accepted | poker_jordan_vanevery.c:374-384 | the kept draws are no more than the draws |
| Estimator.AcceptedMembers | poker_jordan_vanevery.c:374-384 | a card is kept exactly when it is drawn and is not a dealt card |
| Estimator.AcceptedPrefix | poker_jordan_vanevery.c:374-384 | the draws kept from a prefix of the stream are a prefix of those kept from the whole stream |
| Estimator.ReplacementRejected | poker_jordan_vanevery.c:374-384 | with the other four cards and the discarded card making up the dealt hand, the loop's rejection test (a repeat, or the discarded card) holds exactly when the draw is a dealt card |
| Hands.ReplaceRepeat | poker_jordan_vanevery.c:374-384 | putting d in a slot makes a repeat exactly when d is among the other cards |
| Engine.HandState.PlaceDraw | poker_jordan_vanevery.c:377-384 | the draw goes in slot `swapIndex`, the other four slots are unchanged, and the draw is rejected exactly when it is a dealt card |
| Engine.HandState.DrawReplacement | poker_jordan_vanevery.c:374-384 | consumes draws up to and including the next kept one, puts it in slot `swapIndex` and leaves the other slots unchanged |
| Engine.HandState.LocateCard | poker_jordan_vanevery.c:387-392 | finds the first slot holding the drawn card |
| Engine.HandState.Resort | poker_jordan_vanevery.c:385-392 | after sorting, the hand is the four kept cards plus the draw, sorted, and `swapIndex` points at the draw |
| Engine.HandState.JudgeDraw | poker_jordan_vanevery.c:393-396 | the hand beats the descriptor exactly when the draw passes the improvement test `Improves` |
| Engine.HandState.Redraw | poker_jordan_vanevery.c:374-392 | the draw is the next kept draw; the other four cards are unchanged; the hand is sorted and `swapIndex` points at the draw |
| Engine.HandState.Sample | poker_jordan_vanevery.c:373-397 | one sample: the next kept draw is used and the count goes up exactly when it improves the hand |
| Engine.HandState.SampleDiscard | poker_jordan_vanevery.c:371-397 | the sample loop uses exactly the next `sampleNumber` kept draws, and counts those that improve the hand |
| Engine.HandState.SampleSlot | poker_jordan_vanevery.c:371-397 | the sample loop for canonical slot i leaves the hand `HeldAfter` names |
| Engine.HandState.PrepareDiscard | poker_jordan_vanevery.c:367-370 | reloads and sorts the dealt hand; the discarded card is slot i of the sorted hand, and the other four cards plus it make up the dealt hand |
| Engine.HandState.StoreCount | poker_jordan_vanevery.c:400-405 | the count is stored in the first slot of the dealt hand holding the discarded card, and nowhere else |
| Engine.HandState.DiscardSlot | poker_jordan_vanevery.c:363-406 | one pass of the outer loop: the count of block i goes to the dealt slot of the card in canonical slot i |
| Engine.HandState.DiscardPass | poker_jordan_vanevery.c:363-406 | one more dealt slot is recorded with its trial count |
| Engine.HandState.DiscardPasses | poker_jordan_vanevery.c:363-406 | after five passes every dealt slot is recorded, and exactly five blocks of kept draws are used |
| Engine.HandState.GetProbabilities | poker_jordan_vanevery.c:358-407 | every slot of the dealt hand holds the trial count for that card, between 0 and `sampleNumber`; the draws used are the first five blocks of kept draws |
| Estimator.Trial | poker_jordan_vanevery.c:373-397 | a trial count is at most the number of samples |
| Estimator.TrialMarks | poker_jordan_vanevery.c:373-397 | a trial counts the improving draws of its block |
| Estimator.CountTrueMeaning | poker_jordan_vanevery.c:393-396 | the counter is 0 exactly when no draw improves, and equals the number of samples exactly when every draw does |
| Estimator.RecordStep | poker_jordan_vanevery.c:400-405 | storing pass i's count at the dealt slot of its card extends the recorded slots by that card |
| Estimator.RecordedBounds | poker_jordan_vanevery.c:400-405 | once all five passes are recorded, every slot holds a count between 0 and `sampleNumber` |
| Estimator.ExampleRank | poker_jordan_vanevery.c:19-20 | 2D 2C 5H 2H 2S, dealt in any order, is four of a kind in deuces |
| Estimator.ExampleNoDrawImproves | poker_jordan_vanevery.c:19-20 | no valid card outside that hand improves it, whichever card is discarded |
| Estimator.ExampleCountsZero | poker_jordan_vanevery.c:19-20 | each trial count of that hand is 0, for any draws |
| Estimator.ExampleAllZero | poker_jordan_vanevery.c:19-20 | every recorded count of that hand is 0 for any draws, matching the printed 0.0% for each card |

## Left out

- I/O is not modelled: `main`'s line loop, `readLine`, `trashToEndOfLine`, `printHandRank`, `printHand`, and the `printf` of the results.
  - `EvaluateHand` models the processing of one well-formed line.
  - `ClassifyHand` and `SaveCopyHand` model the steps before it.
  - A line with errors is never processed, so it needs no model.
- `srand`, `time` and `rand` are replaced by the draw stream `draws` of (rank, suit) cards, each a valid card. Nothing is claimed about uniformity over the remaining 47 cards or about the bias of `rand()%13`.
- The float percentage `100*((float)numOfImprovements/sampleNumber)` and its `%.1f` rendering are not modelled. `improvements` holds the integer counts the percentages are computed from.
- `sampleNumber` is a parameter rather than the constant 750000.
- Termination of the rejection `do … while` loop holds only with probability 1. `GetProbabilities` and `DrawReplacement` assume instead that the stream holds enough acceptable draws: five blocks of `sampleNumber` for the whole estimate, one more for each draw.
- GetProbabilities: states the multiset of the final hand (`HeldAfter`), not the order of equal-rank cards in it.
- Whatever memory lies past `handRank[4]` is not modelled. A comparison with it is taken to be false (`Categories.Same`).

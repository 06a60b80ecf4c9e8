/** The hand descriptor `pokerHandID` (category, minor rank, low pair), the
    classifier that picks the strongest matching category, and the order in
    which descriptors compare. */
module Classifier {
  import opened Cards
  import opened Hands
  import opened Categories

  /** Categories, from weakest to strongest. */
  const HIGH_CARD := 1
  const ONE_PAIR := 2
  const TWO_PAIR := 3
  const THREE_OF_A_KIND := 4
  const STRAIGHT := 5
  const FLUSH := 6
  const FULL_HOUSE := 7
  const FOUR_OF_A_KIND := 8
  const STRAIGHT_FLUSH := 9

  /** Number of entries of `pokerHandID`, and which entry holds what. */
  const DIGITS_IN_POKER_HAND_ID := 3
  const MAJOR_RANK_DIGIT := 0
  const MINOR_RANK_DIGIT := 1
  const LOW_PAIR_DIGIT := 2

  /** The three entries of `pokerHandID`: the category, its tie-break value
      (the minor rank) and, for two pair only, the rank of the lower pair. */
  datatype Descriptor = Descriptor(major: int, minor: int, lowPair: int)

  function Digits(d: Descriptor): seq<int> {
    [d.major, d.minor, d.lowPair]
  }

  function FromDigits(id: seq<int>): Descriptor
    requires |id| == DIGITS_IN_POKER_HAND_ID
  {
    Descriptor(id[MAJOR_RANK_DIGIT], id[MINOR_RANK_DIGIT], id[LOW_PAIR_DIGIT])
  }

  /** The test that decides category k, and its tie-break value (0 when the
      hand does not match). A straight flush needs both the straight and the
      flush test and takes the straight's value. */
  function TestValue(k: int, r: seq<int>, s: seq<char>): int
    requires |r| == HAND_SIZE
  {
    if k == HIGH_CARD then HighCardValue(r)
    else if k == ONE_PAIR then OfAKindValue(r, 2)
    else if k == TWO_PAIR then TwoPairValue(r)
    else if k == THREE_OF_A_KIND then OfAKindValue(r, 3)
    else if k == STRAIGHT then StraightValue(r)
    else if k == FLUSH then FlushValue(r, s)
    else if k == FULL_HOUSE then FullHouseValue(r)
    else if k == FOUR_OF_A_KIND then OfAKindValue(r, 4)
    else if k == STRAIGHT_FLUSH then
      (if StraightValue(r) != 0 && FlushValue(r, s) != 0 then StraightValue(r) else 0)
    else 0
  }

  /** `getHandRank` on a hand in canonical order: the strongest category whose
      test matches (high card when none does), that test's value as the minor
      rank, and the lower pair for two pair only. */
  function Classify(r: seq<int>, s: seq<char>): (d: Descriptor)
    requires |r| == HAND_SIZE
    ensures HIGH_CARD <= d.major <= STRAIGHT_FLUSH
    ensures d.major == HIGH_CARD || TestValue(d.major, r, s) != 0
    ensures forall k :: d.major < k <= STRAIGHT_FLUSH ==> TestValue(k, r, s) == 0
    ensures d.minor == TestValue(d.major, r, s)
    ensures d.lowPair == if d.major == TWO_PAIR then OfAKindValue(r, 2) else 0
  {
    var straight := StraightValue(r);
    var flush := FlushValue(r, s);
    if flush != 0 && straight != 0 then Descriptor(STRAIGHT_FLUSH, straight, 0)
    else if OfAKindValue(r, 4) != 0 then Descriptor(FOUR_OF_A_KIND, OfAKindValue(r, 4), 0)
    else if FullHouseValue(r) != 0 then Descriptor(FULL_HOUSE, FullHouseValue(r), 0)
    else if flush != 0 then Descriptor(FLUSH, flush, 0)
    else if straight != 0 then Descriptor(STRAIGHT, straight, 0)
    else if OfAKindValue(r, 3) != 0 then Descriptor(THREE_OF_A_KIND, OfAKindValue(r, 3), 0)
    else if TwoPairValue(r) != 0 then Descriptor(TWO_PAIR, TwoPairValue(r), OfAKindValue(r, 2))
    else if OfAKindValue(r, 2) != 0 then Descriptor(ONE_PAIR, OfAKindValue(r, 2), 0)
    else Descriptor(HIGH_CARD, HighCardValue(r), 0)
  }

  function ClassifyCards(cs: seq<Card>): Descriptor
    requires |cs| == HAND_SIZE
  {
    Classify(Ranks(cs), Suits(cs))
  }

  /** The descriptors the classifier produces: a category 1..9, and a low
      pair entry of 0 unless the category is two pair. */
  predicate WellFormed(d: Descriptor) {
    HIGH_CARD <= d.major <= STRAIGHT_FLUSH && (d.major != TWO_PAIR ==> d.lowPair == 0)
  }

  /** Lexicographic order on (category, minor rank, low pair). */
  predicate Greater(a: Descriptor, b: Descriptor) {
    || a.major > b.major
    || (a.major == b.major && a.minor > b.minor)
    || (a.major == b.major && a.minor == b.minor && a.lowPair > b.lowPair)
  }

  /** Case k of the comparison switch breaks with "better": the high card
      case compares high cards only; every other case needs its test to
      match and then a stronger category, a larger minor rank, or (two pair
      only) an equal high pair and a larger low pair. */
  predicate CaseFires(k: int, r: seq<int>, s: seq<char>, ref: Descriptor)
    requires |r| == HAND_SIZE
  {
    var v := TestValue(k, r, s);
    if k == HIGH_CARD then v > ref.minor
    else
      v != 0 &&
      (k > ref.major || v > ref.minor || (k == TWO_PAIR && v == ref.minor && OfAKindValue(r, 2) > ref.lowPair))
  }

  /** A case that breaks with "better" is right to: the hand beats the
      reference. */
  lemma CaseFiresSound(r: seq<int>, s: seq<char>, ref: Descriptor, k: int)
    requires |r| == HAND_SIZE && WellFormed(ref) && ref.major <= k <= STRAIGHT_FLUSH
    requires CaseFires(k, r, s, ref)
    ensures Greater(Classify(r, s), ref)
  {
    var c := Classify(r, s);
    if k != HIGH_CARD {
      assert c.major >= k;
    }
  }

  /** A hand that beats the reference is caught by the case of its own
      category, which the switch reaches because that category is at least
      the reference's. */
  lemma GreaterFires(r: seq<int>, s: seq<char>, ref: Descriptor)
    requires |r| == HAND_SIZE && WellFormed(ref) && Greater(Classify(r, s), ref)
    ensures ref.major <= Classify(r, s).major <= STRAIGHT_FLUSH
    ensures CaseFires(Classify(r, s).major, r, s, ref)
  {
  }

  lemma AllSameSuitPermutation(x: seq<char>, y: seq<char>)
    requires multiset(x) == multiset(y) && x != []
    ensures AllSameSuit(x) ==> AllSameSuit(y)
  {
    if AllSameSuit(x) {
      forall k | 0 <= k < |y| ensures y[k] == y[0] {
        assert y[k] in multiset(x) && y[0] in multiset(x);
      }
    }
  }

  /** Two arrangements of the same five cards in canonical order classify
      alike: they have the same ranks slot by slot and the same suits. */
  lemma ClassifySortedPermutation(a: seq<Card>, b: seq<Card>)
    requires |a| == HAND_SIZE && multiset(a) == multiset(b)
    requires Sorted(Ranks(a)) && Sorted(Ranks(b))
    ensures |b| == HAND_SIZE && ClassifyCards(a) == ClassifyCards(b)
  {
    assert |b| == |multiset(b)| == |a|;
    PermutationKeepsColumns(a, b);
    SortedPermutationEqual(Ranks(a), Ranks(b));
    AllSameSuitPermutation(Suits(a), Suits(b));
    AllSameSuitPermutation(Suits(b), Suits(a));
    assert FlushValue(Ranks(a), Suits(a)) == FlushValue(Ranks(b), Suits(b));
  }

  /** After sorting, the descriptor is the same for every order in which the
      same five cards are dealt. */
  lemma ClassifyOrderIndependent(a: seq<Card>, b: seq<Card>)
    requires |a| == HAND_SIZE && multiset(a) == multiset(b)
    ensures |b| == HAND_SIZE && ClassifyCards(SortCards(a)) == ClassifyCards(SortCards(b))
  {
    assert |b| == |multiset(b)| == |a|;
    ClassifySortedPermutation(SortCards(a), SortCards(b));
  }
}

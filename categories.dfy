/** The category tests of the classifier, as functions of the rank column
    (and, for the flush, the suit column) of a hand in canonical order. Each
    gives the test's tie-break value, or 0 for "no match". The scanning loops
    that compute them are in HandState (engine.dfy); the lemmas here say
    what each value means in terms of how many cards share a rank. */
module Categories {
  import opened Cards
  import opened Hands

  /** The comparison `handRank[k] == handRank[k + 1]` made by the scanning
      loops. A loop that reaches the last slot compares it with the slot past
      the end of the hand; that slot is taken to be unequal. */
  predicate Same(r: seq<int>, k: int) {
    0 <= k && k + 1 < |r| && r[k] == r[k + 1]
  }

  // ---------------------------------------------------------------- flush

  /** Sum of the ranks, accumulated from the first slot to the last. */
  function Sum(r: seq<int>): int {
    if r == [] then 0 else Sum(r[..|r| - 1]) + r[|r| - 1]
  }

  predicate AllSameSuit(s: seq<char>) {
    forall k :: 0 <= k < |s| ==> s[k] == s[0]
  }

  /** Flush test: the sum of the five ranks when all suits match, else 0. */
  function FlushValue(r: seq<int>, s: seq<char>): int {
    if AllSameSuit(s) then Sum(r) else 0
  }

  lemma {:induction false} SumOfValidRanks(r: seq<int>)
    requires ValidRanks(r)
    ensures Sum(r) >= 2 * |r|
    decreases |r|
  {
    if r != [] {
      SumOfValidRanks(r[..|r| - 1]);
    }
  }

  /** A flush scores the sum of its ranks, which is at least 10; a hand with
      two suits scores 0. */
  lemma FlushMeaning(r: seq<int>, s: seq<char>)
    requires |r| == HAND_SIZE && ValidRanks(r)
    ensures FlushValue(r, s) != 0 <==> AllSameSuit(s)
    ensures AllSameSuit(s) ==> FlushValue(r, s) == Sum(r) >= 10
  {
    SumOfValidRanks(r);
  }

  // ------------------------------------------------------------- straight

  /** The special straight in which the ace plays low. */
  const WHEEL: seq<int> := [2, 3, 4, 5, 14]

  /** Each rank is one more than the rank before it. */
  predicate Consecutive(r: seq<int>) {
    forall k :: 0 <= k < |r| - 1 ==> r[k] + 1 == r[k + 1]
  }

  /** Straight test: the high end of the run; the wheel is five-high. */
  function StraightValue(r: seq<int>): int
    requires |r| == HAND_SIZE
  {
    if r == WHEEL then 5
    else if Consecutive(r) then r[4]
    else 0
  }

  // -------------------------------------------------------- x of a kind

  /** Slots j .. j + x - 1 hold x equal ranks (x is 2, 3 or 4), found by
      comparing neighbours as the scanning loop does. */
  predicate RunAt(r: seq<int>, j: int, x: int) {
    && 0 <= j && 2 <= x <= 4 && j + x - 1 < |r|
    && Same(r, j)
    && (x >= 3 ==> Same(r, j + 1))
    && (x == 4 ==> Same(r, j + 2))
  }

  /** X-of-a-kind test: the rank of the first run of at least x neighbouring
      equal ranks. */
  function OfAKindValue(r: seq<int>, x: int): int
    requires |r| == HAND_SIZE && 2 <= x <= 4
  {
    if RunAt(r, 0, x) then r[0]
    else if RunAt(r, 1, x) then r[1]
    else if RunAt(r, 2, x) then r[2]
    else if RunAt(r, 3, x) then r[3]
    else 0
  }

  // ---------------------------------------------------- full house, pairs

  /** Full house test: a run of three and a run of two; the value is the
      rank of the three. */
  function FullHouseValue(r: seq<int>): int
    requires |r| == HAND_SIZE
  {
    if Same(r, 0) && Same(r, 1) && !Same(r, 2) && Same(r, 3) then r[0]
    else if Same(r, 0) && !Same(r, 1) && Same(r, 2) && Same(r, 3) then r[4]
    else 0
  }

  /** Two pair test: two pairs and an odd card; the value is the rank of the
      higher pair. */
  function TwoPairValue(r: seq<int>): int
    requires |r| == HAND_SIZE
  {
    if Same(r, 0) && !Same(r, 1) && Same(r, 2) && !Same(r, 3) then r[2]
    else if Same(r, 0) && !Same(r, 1) && !Same(r, 2) && Same(r, 3) then r[4]
    else if !Same(r, 0) && Same(r, 1) && !Same(r, 2) && Same(r, 3) then r[4]
    else 0
  }

  // ------------------------------------------------------------ high card

  /** The running maximum of `highCard`, which starts from 0. */
  function HighCardValue(r: seq<int>): (m: int)
    ensures m >= 0
    ensures forall k :: 0 <= k < |r| ==> r[k] <= m
    ensures m == 0 || m in r
  {
    if r == [] then 0
    else
      var m := HighCardValue(r[..|r| - 1]);
      assert forall k :: 0 <= k < |r| - 1 ==> r[k] == r[..|r| - 1][k];
      assert m in r[..|r| - 1] ==> m in r;
      if m < r[|r| - 1] then r[|r| - 1] else m
  }

  // ------------------------------------------------ meaning of the tests

  /** The x-of-a-kind test gives the lowest rank held at least x times, and 0
      when no rank is held x times. With x = 2 on a two pair hand it gives the
      lower pair (see TwoPairMeaning). */
  lemma OfAKindMeaning(r: seq<int>, x: int)
    requires |r| == HAND_SIZE && Sorted(r) && ValidRanks(r) && 2 <= x <= 4
    ensures OfAKindValue(r, x) == 0 <==> forall k :: 0 <= k < HAND_SIZE ==> Count(r, r[k]) < x
    ensures OfAKindValue(r, x) != 0 ==>
      && OfAKindValue(r, x) in r
      && Count(r, OfAKindValue(r, x)) >= x
      && forall k :: 0 <= k < HAND_SIZE && r[k] < OfAKindValue(r, x) ==> Count(r, r[k]) < x
  {
    forall v | true ensures Count(r, v) == (if r[0] == v then 1 else 0) + (if r[1] == v then 1 else 0)
      + (if r[2] == v then 1 else 0) + (if r[3] == v then 1 else 0) + (if r[4] == v then 1 else 0)
    {
      CountFive(r, v);
    }
  }

  /** The full house test matches exactly the hands whose rank counts are
      three and two, and gives the rank held three times. */
  lemma FullHouseMeaning(r: seq<int>)
    requires |r| == HAND_SIZE && Sorted(r) && ValidRanks(r)
    ensures FullHouseValue(r) != 0 <==>
      exists i, j :: 0 <= i < HAND_SIZE && 0 <= j < HAND_SIZE && Count(r, r[i]) == 3 && Count(r, r[j]) == 2
    ensures FullHouseValue(r) != 0 ==> Count(r, FullHouseValue(r)) == 3
  {
    forall v | true ensures Count(r, v) == (if r[0] == v then 1 else 0) + (if r[1] == v then 1 else 0)
      + (if r[2] == v then 1 else 0) + (if r[3] == v then 1 else 0) + (if r[4] == v then 1 else 0)
    {
      CountFive(r, v);
    }
  }

  /** The two pair test matches exactly the hands whose rank counts are two,
      two and one, and gives the higher pair; the pair test then gives the
      lower one. */
  lemma TwoPairMeaning(r: seq<int>)
    requires |r| == HAND_SIZE && Sorted(r) && ValidRanks(r)
    ensures TwoPairValue(r) != 0 <==>
      exists i, j :: 0 <= i < HAND_SIZE && 0 <= j < HAND_SIZE && r[i] < r[j] && Count(r, r[i]) == 2 && Count(r, r[j]) == 2
    ensures TwoPairValue(r) != 0 ==>
      && Count(r, TwoPairValue(r)) == 2
      && (forall k :: 0 <= k < HAND_SIZE && r[k] > TwoPairValue(r) ==> Count(r, r[k]) == 1)
      && OfAKindValue(r, 2) < TwoPairValue(r)
      && Count(r, OfAKindValue(r, 2)) == 2
  {
    forall v | true ensures Count(r, v) == (if r[0] == v then 1 else 0) + (if r[1] == v then 1 else 0)
      + (if r[2] == v then 1 else 0) + (if r[3] == v then 1 else 0) + (if r[4] == v then 1 else 0)
    {
      CountFive(r, v);
    }
  }
}

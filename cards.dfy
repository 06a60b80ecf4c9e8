/** The card alphabets of the hand evaluator: the rank and suit characters a
    hand is written in, the mapping of rank characters to integers, and the
    card value the rest of the model is built on. */
module Cards {

  /** Number of cards in a hand. */
  const HAND_SIZE := 5
  const SUIT_COUNT := 4
  const RANK_COUNT := 13

  /** Clubs, Diamonds, Hearts, Spades. */
  const SUIT_LIST := "CDHS"
  /** Ranks from low to high; '0' stands for the ten. */
  const RANK_LIST := "234567890JQKA"

  /** A card: its integer rank (2..14, the ace is 14) and its suit character. */
  datatype Card = Card(rank: int, suit: char)

  predicate ValidRank(v: int) { 2 <= v <= 14 }

  predicate ValidCard(c: Card) { ValidRank(c.rank) && c.suit in SUIT_LIST }

  /** The lookup loops of `isSuit` and `isRank`: scan `list` from index `i`
      and stop at the first entry equal to `c`. */
  function OccursFrom(c: char, list: string, i: nat): (found: bool)
    requires i <= |list|
    ensures found <==> c in list[i..]
    decreases |list| - i
  {
    if i == |list| then false
    else if list[i] == c then true
    else
      assert list[i..] == [list[i]] + list[i + 1..];
      OccursFrom(c, list, i + 1)
  }

  /** `isSuit`: is `c` one of the four suit letters? */
  function IsSuit(c: char): (valid: bool)
    ensures valid <==> c in SUIT_LIST
    ensures valid <==> (c == 'C' || c == 'D' || c == 'H' || c == 'S')
  {
    assert SUIT_LIST[0..] == SUIT_LIST;
    OccursFrom(c, SUIT_LIST, 0)
  }

  /** `isRank`: is `c` one of the thirteen rank characters? */
  function IsRank(c: char): (valid: bool)
    ensures valid <==> c in RANK_LIST
    ensures valid <==> ('2' <= c <= '9' || c == '0' || c == 'J' || c == 'Q' || c == 'K' || c == 'A')
  {
    assert RANK_LIST[0..] == RANK_LIST;
    OccursFrom(c, RANK_LIST, 0)
  }

  /** The search loop of `rankToInt`: the index of `c` in RANK_LIST, looking
      from index `i` onwards. */
  function RankIndexFrom(c: char, i: nat): (k: nat)
    requires i < |RANK_LIST| && c in RANK_LIST[i..]
    ensures i <= k < |RANK_LIST| && RANK_LIST[k] == c
    decreases |RANK_LIST| - i
  {
    if RANK_LIST[i] == c then i
    else
      assert RANK_LIST[i..] == [RANK_LIST[i]] + RANK_LIST[i + 1..];
      RankIndexFrom(c, i + 1)
  }

  /** `rankToInt`: digits map to their value, the letters (and '0' for ten)
      are found by searching RANK_LIST from index 8. The result is the
      character's index in RANK_LIST plus two. The source leaves the result
      undefined for a character that is not a rank; its callers only pass
      ranks. */
  function RankToInt(c: char): (v: int)
    requires IsRank(c)
    ensures ValidRank(v)
    ensures RANK_LIST[v - 2] == c
  {
    if '2' <= c <= '9' then
      DigitsAt(c as int - '2' as int);
      c as int - '0' as int
    else
      assert c in RANK_LIST[8..] by {
        LettersAt();
      }
      RankIndexFrom(c, 8) + 2
  }

  /** The first eight entries of RANK_LIST are the digits '2'..'9'. */
  lemma DigitsAt(k: int)
    requires 0 <= k < 8
    ensures RANK_LIST[k] as int == k + '2' as int
  {
    if k < 4 {
      assert RANK_LIST[0] == '2' && RANK_LIST[1] == '3' && RANK_LIST[2] == '4' && RANK_LIST[3] == '5';
    } else {
      assert RANK_LIST[4] == '6' && RANK_LIST[5] == '7' && RANK_LIST[6] == '8' && RANK_LIST[7] == '9';
    }
  }

  /** The last five entries of RANK_LIST are '0', 'J', 'Q', 'K', 'A'. */
  lemma LettersAt()
    ensures RANK_LIST[8..] == "0JQKA"
  {
  }

  /** RANK_LIST[i] is sent to i + 2: '2'..'9' to 2..9, '0' to 10, and 'J',
      'Q', 'K', 'A' to 11..14. */
  lemma RankToIntAt(i: int)
    requires 0 <= i < |RANK_LIST|
    ensures RankToInt(RANK_LIST[i]) == i + 2
  {
    var c := RANK_LIST[i];
    if i < 8 {
      DigitsAt(i);
    } else {
      LettersAt();
      assert c == RANK_LIST[8..][i - 8];
      assert !('2' <= c <= '9');
      var t := RankToInt(c) - 2;
      assert 8 <= t && RANK_LIST[t] == c;
      assert RANK_LIST[8..][t - 8] == c;
    }
  }

  /** The mapping strictly increases along RANK_LIST. */
  lemma RankToIntIncreasing(i: int, j: int)
    requires 0 <= i < j < |RANK_LIST|
    ensures RankToInt(RANK_LIST[i]) < RankToInt(RANK_LIST[j])
  {
    RankToIntAt(i);
    RankToIntAt(j);
  }
}

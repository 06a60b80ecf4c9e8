/** The global state of the hand evaluator and the procedures that work on
    it in place: the hand being examined (`handRank`, `handSuit`), the hand
    as it was dealt (`copyHandRank`, `copyHandSuit`), the descriptor of the
    dealt hand (`pokerHandID`) and one improvement count per card. */
module Engine {
  import opened Cards
  import opened Hands
  import opened Categories
  import opened Classifier
  import opened Estimator

  /** After p passes of bubble sort, the last p slots hold their final ranks:
      each is at least every rank before it. */
  predicate SuffixDone(r: seq<int>, p: int) {
    forall k, l :: 0 <= k < l < |r| && l >= |r| - p ==> r[k] <= r[l]
  }

  /** Within a pass, slot i holds the largest rank seen so far. */
  predicate BubbledTo(r: seq<int>, i: int)
    requires 0 <= i < |r|
  {
    forall k :: 0 <= k < i ==> r[k] <= r[i]
  }

  /** Once pass p + 1 has moved past slot |r| - 1 - p, that slot holds the
      largest rank before it. */
  predicate PassMax(r: seq<int>, i: int, p: int)
    requires 0 <= p < |r|
  {
    i >= |r| - 1 - p ==> forall k :: 0 <= k < |r| - 1 - p ==> r[k] <= r[|r| - 1 - p]
  }

  predicate SortedUpTo(r: seq<int>, i: int) {
    forall k, l :: 0 <= k <= l <= i && l < |r| ==> r[k] <= r[l]
  }

  /** One comparison of a pass: slot i and i + 1 are exchanged exactly when
      the first rank is greater, which can only happen before the finished
      suffix. */
  lemma BubbleStep(r: seq<int>, i: int, p: int)
    requires 0 <= i < |r| - 1 && 0 <= p < |r|
    requires SuffixDone(r, p) && BubbledTo(r, i) && PassMax(r, i, p)
    ensures r[i] > r[i + 1] ==> i + 1 < |r| - p
    ensures var r' := if r[i] > r[i + 1] then r[i := r[i + 1]][i + 1 := r[i]] else r;
      SuffixDone(r', p) && BubbledTo(r', i + 1) && PassMax(r', i + 1, p)
    ensures r[i] <= r[i + 1] && SortedUpTo(r, i) ==> SortedUpTo(r, i + 1)
  {
    var r' := if r[i] > r[i + 1] then r[i := r[i + 1]][i + 1 := r[i]] else r;
    if r[i] > r[i + 1] {
      assert i + 1 < |r| - p;
      forall k, l | 0 <= k < l < |r'| && l >= |r'| - p ensures r'[k] <= r'[l] {
        assert r[k] <= r[l] || k == i || k == i + 1;
        if k == i {
          assert r[i + 1] <= r[l];
        } else if k == i + 1 {
          assert r[i] <= r[l];
        }
      }
    }
  }

  /** A pass that reaches the end extends the finished suffix by one slot. */
  lemma PassEnd(r: seq<int>, p: int)
    requires 0 <= p < |r| && SuffixDone(r, p) && PassMax(r, |r| - 1, p)
    ensures SuffixDone(r, p + 1)
  {
  }

  class HandState {
    const handRank: array<int>
    const handSuit: array<char>
    const copyHandRank: array<int>
    const copyHandSuit: array<char>
    const pokerHandID: array<int>
    /** The number of improving draws for each card of the dealt hand; the
        percentage of the source is this count over the number of samples. */
    const improvements: array<int>

    /** The arrays have their fixed sizes and are separate objects. */
    predicate Valid() {
      && handRank.Length == HAND_SIZE && handSuit.Length == HAND_SIZE
      && copyHandRank.Length == HAND_SIZE && copyHandSuit.Length == HAND_SIZE
      && pokerHandID.Length == DIGITS_IN_POKER_HAND_ID
      && improvements.Length == HAND_SIZE
      && handRank != copyHandRank && handRank != pokerHandID && handRank != improvements
      && copyHandRank != pokerHandID && copyHandRank != improvements
      && pokerHandID != improvements
      && handSuit != copyHandSuit
    }

    /** The cards of the hand being examined. */
    function Hand(): seq<Card>
      requires Valid()
      reads handRank, handSuit
    {
      Zip(handRank[..], handSuit[..])
    }

    /** The hand during sampling: sorted, made of valid cards, the four kept
        cards `others` and the card `last` drawn most recently, which sits in
        slot `slot`. */
    predicate Holds(others: seq<Card>, last: Card, slot: int)
      reads this, handRank, handSuit
    {
      && Valid() && 0 <= slot < HAND_SIZE
      && Sorted(handRank[..]) && ValidCards(Hand())
      && multiset(Hand()) == multiset(others) + multiset{last} && Hand()[slot] == last
    }

    /** The cards of the hand as dealt. */
    function CopyHand(): seq<Card>
      requires Valid()
      reads copyHandRank, copyHandSuit
    {
      Zip(copyHandRank[..], copyHandSuit[..])
    }

    /** The globals start zeroed, as C static storage does. */
    constructor ()
      ensures Valid()
      ensures fresh(handRank) && fresh(handSuit) && fresh(copyHandRank) && fresh(copyHandSuit)
      ensures fresh(pokerHandID) && fresh(improvements)
      ensures handRank[..] == copyHandRank[..] == improvements[..] == [0, 0, 0, 0, 0]
      ensures handSuit[..] == copyHandSuit[..] == ['\0', '\0', '\0', '\0', '\0']
      ensures pokerHandID[..] == [0, 0, 0]
    {
      handRank := new int[HAND_SIZE](_ => 0);
      handSuit := new char[HAND_SIZE](_ => '\0');
      copyHandRank := new int[HAND_SIZE](_ => 0);
      copyHandSuit := new char[HAND_SIZE](_ => '\0');
      pokerHandID := new int[DIGITS_IN_POKER_HAND_ID](_ => 0);
      improvements := new int[HAND_SIZE](_ => 0);
    }

    /** `repeatCards`: two slots hold the same card. The rank of the earlier
        slot passes through a `char`, which keeps every rank 2..14. */
    method RepeatCards() returns (repCard: bool)
      requires Valid()
      ensures repCard <==> exists a, b :: RepeatAt(handRank[..], handSuit[..], a, b)
      ensures ValidRanks(handRank[..]) ==> (repCard <==> HasRepeat(Hand()))
    {
      ghost var r, s := handRank[..], handSuit[..];
      repCard := false;
      var i := 0;
      while i < HAND_SIZE
        invariant 0 <= i <= HAND_SIZE
        invariant repCard <==> exists a, b :: RepeatAt(r, s, a, b) && a < i
      {
        var rank := AsChar(handRank[i]);
        var suit := handSuit[i];
        var j := i + 1;
        while j < HAND_SIZE
          invariant i + 1 <= j <= HAND_SIZE
          invariant repCard <==>
            (exists a, b :: RepeatAt(r, s, a, b) && a < i) || (exists b :: RepeatAt(r, s, i, b) && b < j)
        {
          if rank == handRank[j] && suit == handSuit[j] {
            repCard := true;
          }
          assert RepeatAt(r, s, i, j) <==> rank == handRank[j] && suit == handSuit[j];
          j := j + 1;
        }
        i := i + 1;
      }
      if ValidRanks(r) {
        if repCard {
          var a, b :| RepeatAt(r, s, a, b);
          assert Hand()[a] == Hand()[b];
        }
        if HasRepeat(Hand()) {
          var a, b :| 0 <= a < b < HAND_SIZE && Hand()[a] == Hand()[b];
          assert RepeatAt(r, s, a, b);
        }
      }
    }

    /** `loadCopyHand`: the hand being examined becomes the dealt hand. */
    method LoadCopyHand()
      requires Valid()
      modifies handRank, handSuit
      ensures handRank[..] == copyHandRank[..] && handSuit[..] == copyHandSuit[..]
    {
      var i := 0;
      while i < HAND_SIZE
        invariant 0 <= i <= HAND_SIZE
        invariant handRank[..i] == copyHandRank[..i] && handSuit[..i] == copyHandSuit[..i]
      {
        handRank[i] := copyHandRank[i];
        handSuit[i] := copyHandSuit[i];
        i := i + 1;
      }
    }

    /** The copy made in `main` after a line is read: the dealt hand
        becomes the hand being examined. */
    method SaveCopyHand()
      requires Valid()
      modifies copyHandRank, copyHandSuit
      ensures copyHandRank[..] == handRank[..] && copyHandSuit[..] == handSuit[..]
    {
      var i := 0;
      while i < HAND_SIZE
        invariant 0 <= i <= HAND_SIZE
        invariant copyHandRank[..i] == handRank[..i] && copyHandSuit[..i] == handSuit[..i]
      {
        copyHandRank[i] := handRank[i];
        copyHandSuit[i] := handSuit[i];
        i := i + 1;
      }
    }

    /** `isFlush`: the sum of the ranks when the five suits agree, else 0. */
    method IsFlush() returns (flushSum: int)
      requires Valid()
      ensures flushSum == FlushValue(handRank[..], handSuit[..])
    {
      var i := 0;
      flushSum := 0;
      var flushSuit := handSuit[i];
      i := 1;
      while i < HAND_SIZE
        invariant 1 <= i <= HAND_SIZE
        invariant forall k :: 0 <= k < i ==> handSuit[k] == flushSuit
      {
        if flushSuit != handSuit[i] {
          assert handSuit[..][i] != handSuit[..][0];
          return 0;
        }
        i := i + 1;
      }
      assert AllSameSuit(handSuit[..]);
      if i == HAND_SIZE {
        i := 0;
        while i < HAND_SIZE
          invariant 0 <= i <= HAND_SIZE
          invariant flushSum == Sum(handRank[..i])
        {
          assert handRank[..i + 1][..i] == handRank[..i];
          flushSum := flushSum + handRank[i];
          i := i + 1;
        }
        assert handRank[..i] == handRank[..];
      }
    }

    /** `isStraight`: the high end of five consecutive ranks, 5 for the wheel
        (the rank in the fourth slot), else 0. */
    method IsStraight() returns (highCard: int)
      requires Valid()
      ensures highCard == StraightValue(handRank[..])
    {
      var specialStraight := new int[HAND_SIZE];
      specialStraight[0], specialStraight[1], specialStraight[2] := 2, 3, 4;
      specialStraight[3], specialStraight[4] := 5, 14;
      assert specialStraight[..] == WHEEL;
      highCard := 0;
      var i := 0;
      while i < HAND_SIZE
        invariant 0 <= i <= HAND_SIZE
        invariant forall k :: 0 <= k < i ==> handRank[k] == specialStraight[k]
      {
        if handRank[i] != specialStraight[i] {
          break;
        }
        i := i + 1;
      }
      var j := 0;
      while j < HAND_SIZE - 1
        invariant 0 <= j <= HAND_SIZE - 1
        invariant forall k :: 0 <= k < j ==> handRank[k] + 1 == handRank[k + 1]
      {
        if handRank[j] != handRank[j + 1] - 1 {
          break;
        }
        j := j + 1;
      }
      if j == HAND_SIZE - 1 {
        highCard := handRank[HAND_SIZE - 1];
      }
      if i == HAND_SIZE {
        assert handRank[..] == WHEEL;
        highCard := handRank[HAND_SIZE - 2];
      }
      assert i < HAND_SIZE ==> handRank[..][i] != WHEEL[i];
      assert j < HAND_SIZE - 1 ==> handRank[..][j] + 1 != handRank[..][j + 1];
    }

    /** `isXOfAKind`: walk the runs of equal neighbouring ranks and stop at the
        first run that reaches x cards; give up once too many runs have been
        seen for x equal cards to fit in the rest of the hand. */
    method IsXOfAKind(x: int) returns (rankOfMatchingCards: int)
      requires Valid() && 2 <= x <= 4
      ensures rankOfMatchingCards == OfAKindValue(handRank[..], x)
    {
      ghost var r := handRank[..];
      var i := 0;
      rankOfMatchingCards := 0;
      var matchCounter, diffCounter := 1, 1;
      ghost var start := 0;  // first slot of the current run
      while diffCounter <= HAND_SIZE - x + 1
        invariant r == handRank[..]
        invariant 0 <= start <= i
        invariant matchCounter == i - start + 1
        invariant 1 <= matchCounter < x
        invariant 1 <= diffCounter <= start + 1
        invariant forall k :: start <= k < i ==> Same(r, k)
        invariant start > 0 ==> !Same(r, start - 1)
        invariant forall j :: 0 <= j && j + x - 2 < i ==> !RunAt(r, j, x)
        invariant i < HAND_SIZE ==> r[i] == r[start]
        invariant rankOfMatchingCards == 0
        decreases HAND_SIZE - x + 2 - diffCounter, x - matchCounter
      {
        // The comparison with the slot past the end counts as unequal.
        if i + 1 < HAND_SIZE && handRank[i] == handRank[i + 1] {
          assert Same(r, i);
          matchCounter := matchCounter + 1;
        } else {
          diffCounter := diffCounter + 1;
          matchCounter := 1;
          start := i + 1;
        }
        if matchCounter == x {
          rankOfMatchingCards := handRank[i];
          assert RunAt(r, start, x);
          break;
        }
        i := i + 1;
      }
    }

    /** `isFullHouse`: count the lengths of the first two runs; a run of two
        followed by three gives the last rank, three followed by two the
        first. The value, once set, is kept until the loop ends. */
    method IsFullHouse() returns (cardRankOfTriplet: int)
      requires Valid()
      ensures cardRankOfTriplet == FullHouseValue(handRank[..])
    {
      ghost var r := handRank[..];
      var counter := new int[2];
      counter[0], counter[1] := 1, 1;
      var uniqueCards := 1;
      var i := 0;
      cardRankOfTriplet := 0;
      ghost var b := 0;  // slot where the first run ends
      while uniqueCards < 3
        invariant r == handRank[..]
        invariant 1 <= uniqueCards <= 3 && 0 <= i
        invariant uniqueCards == 1 ==> i < HAND_SIZE
        invariant uniqueCards == 2 ==> i <= HAND_SIZE
        invariant uniqueCards == 1 ==>
          counter[0] == i + 1 && counter[1] == 1 && forall k :: 0 <= k < i ==> Same(r, k)
        invariant uniqueCards >= 2 ==>
          0 <= b < i && (forall k :: 0 <= k < b ==> Same(r, k)) && !Same(r, b) && counter[0] == b + 1
        invariant uniqueCards == 2 ==> counter[1] == i - b && forall k :: b < k < i ==> Same(r, k)
        invariant uniqueCards == 3 ==>
          b < i - 1 && counter[1] == i - 1 - b && (forall k :: b < k < i - 1 ==> Same(r, k)) && !Same(r, i - 1)
        invariant cardRankOfTriplet ==
          if counter[0] == 2 && counter[1] == 3 then r[4]
          else if counter[0] == 3 && counter[1] == 2 then r[0]
          else 0
        decreases 3 - uniqueCards, HAND_SIZE + 1 - i
      {
        // The comparison with the slot past the end counts as unequal.
        if i + 1 < HAND_SIZE && handRank[i] == handRank[i + 1] {
          assert Same(r, i);
          counter[uniqueCards - 1] := counter[uniqueCards - 1] + 1;
        } else {
          uniqueCards := uniqueCards + 1;
          if uniqueCards == 2 {
            b := i;
          }
        }
        i := i + 1;
        if counter[0] == 2 && counter[1] == 3 {
          cardRankOfTriplet := handRank[HAND_SIZE - 1];
        } else if counter[0] == 3 && counter[1] == 2 {
          cardRankOfTriplet := handRank[0];
        }
      }
      // The runs end at slots b and i - 1; the last slot never equals the
      // slot past the end.
      assert !Same(r, HAND_SIZE - 1);
    }

    /** `isTwoPair`: count the lengths of the first three runs; pairs in the
        first two runs give the middle rank, pairs in the third and one of
        the first two give the last rank. */
    method IsTwoPair() returns (highPairRank: int)
      requires Valid()
      ensures highPairRank == TwoPairValue(handRank[..])
    {
      ghost var r := handRank[..];
      var counter := new int[3];
      counter[0], counter[1], counter[2] := 1, 1, 1;
      var uniqueCardCount := 1;
      var i := 0;
      highPairRank := 0;
      ghost var b1, b2 := 0, 0;  // slots where the first and second runs end
      while uniqueCardCount < 4 && i < HAND_SIZE - 1
        invariant r == handRank[..]
        invariant 1 <= uniqueCardCount <= 4 && 0 <= i <= HAND_SIZE - 1
        invariant uniqueCardCount == 1 ==>
          counter[0] == i + 1 && counter[1] == 1 && counter[2] == 1 && forall k :: 0 <= k < i ==> Same(r, k)
        invariant uniqueCardCount >= 2 ==>
          0 <= b1 < i && (forall k :: 0 <= k < b1 ==> Same(r, k)) && !Same(r, b1) && counter[0] == b1 + 1
        invariant uniqueCardCount == 2 ==>
          counter[1] == i - b1 && counter[2] == 1 && forall k :: b1 < k < i ==> Same(r, k)
        invariant uniqueCardCount >= 3 ==>
          b1 < b2 < i && (forall k :: b1 < k < b2 ==> Same(r, k)) && !Same(r, b2) && counter[1] == b2 - b1
        invariant uniqueCardCount == 3 ==> counter[2] == i - b2 && forall k :: b2 < k < i ==> Same(r, k)
        invariant uniqueCardCount == 4 ==>
          b2 < i - 1 && counter[2] == i - 1 - b2 && (forall k :: b2 < k < i - 1 ==> Same(r, k)) && !Same(r, i - 1)
        decreases HAND_SIZE - 1 - i
      {
        if handRank[i] == handRank[i + 1] {
          assert Same(r, i);
          counter[uniqueCardCount - 1] := counter[uniqueCardCount - 1] + 1;
        } else {
          uniqueCardCount := uniqueCardCount + 1;
          if uniqueCardCount == 2 {
            b1 := i;
          } else if uniqueCardCount == 3 {
            b2 := i;
          }
        }
        i := i + 1;
      }
      if counter[0] == 2 && counter[1] == 2 {
        highPairRank := handRank[HAND_SIZE / 2];
      } else if (counter[0] == 2 && counter[2] == 2) || (counter[1] == 2 && counter[2] == 2) {
        highPairRank := handRank[HAND_SIZE - 1];
      }
    }

    /** The exchange of two neighbouring cards in `sortHand`, suit with
        rank; the order of the cards of each rank is kept. */
    method SwapCards(i: int)
      requires Valid() && 0 <= i < HAND_SIZE - 1 && handRank[i] > handRank[i + 1]
      modifies handRank, handSuit
      ensures handRank[..] == old(handRank[..])[i := old(handRank[i + 1])][i + 1 := old(handRank[i])]
      ensures forall v :: FilterRank(Hand(), v) == FilterRank(old(Hand()), v)
    {
      ghost var rs, ss := handRank[..], handSuit[..];
      var tempRank := handRank[i];
      handRank[i] := handRank[i + 1];
      handRank[i + 1] := tempRank;
      var tempSuit := handSuit[i];
      handSuit[i] := handSuit[i + 1];
      handSuit[i + 1] := tempSuit;
      assert handRank[..] == rs[i := rs[i + 1]][i + 1 := rs[i]];
      assert handSuit[..] == ss[i := ss[i + 1]][i + 1 := ss[i]];
      SwapNeighbours(rs, ss, i);
    }

    /** `sortHand`: bubble sort by rank. Neighbours are exchanged only when the
        first rank is strictly greater, each suit moving with its rank, and
        passes repeat until one makes no exchange. The result is the stable
        sort of the hand by rank. */
    method SortHand()
      requires Valid()
      modifies handRank, handSuit
      ensures Hand() == SortCards(old(Hand()))
      ensures Sorted(handRank[..])
    {
      ghost var cards0 := Hand();
      var swapDetector := true;
      var i := 0;
      ghost var passes := 0;
      while swapDetector
        invariant 0 <= passes
        invariant forall v :: FilterRank(Hand(), v) == FilterRank(cards0, v)
        invariant SuffixDone(handRank[..], passes)
        invariant swapDetector ==> passes < HAND_SIZE
        invariant !swapDetector ==> SortedUpTo(handRank[..], HAND_SIZE - 1)
        decreases HAND_SIZE - passes
      {
        swapDetector := false;
        i := 0;
        while i < HAND_SIZE - 1
          invariant 0 <= i <= HAND_SIZE - 1 && 0 <= passes < HAND_SIZE
          invariant forall v :: FilterRank(Hand(), v) == FilterRank(cards0, v)
          invariant SuffixDone(handRank[..], passes)
          invariant BubbledTo(handRank[..], i) && PassMax(handRank[..], i, passes)
          invariant swapDetector ==> passes + 1 < HAND_SIZE
          invariant !swapDetector ==> SortedUpTo(handRank[..], i)
        {
          BubbleStep(handRank[..], i, passes);
          if handRank[i] > handRank[i + 1] {
            SwapCards(i);
            swapDetector := true;
          }
          i := i + 1;
        }
        PassEnd(handRank[..], passes);
        i := i - 1;
        passes := passes + 1;
      }
      ZipColumns(handRank[..], handSuit[..]);
      forall v ensures FilterRank(Hand(), v) == FilterRank(SortCards(cards0), v) {
        SortCardsStable(cards0, v);
      }
      StableSortUnique(Hand(), SortCards(cards0));
    }

    /** `getHandRank`: writes the descriptor of the hand, trying the
        categories from the strongest down. */
    method GetHandRank()
      requires Valid()
      modifies pokerHandID
      ensures pokerHandID[..] == Digits(Classify(handRank[..], handSuit[..]))
    {
      pokerHandID[LOW_PAIR_DIGIT] := 0;
      var straightMinorRank := IsStraight();
      var flushMinorRank := IsFlush();
      if flushMinorRank != 0 && straightMinorRank != 0 {
        pokerHandID[MAJOR_RANK_DIGIT] := STRAIGHT_FLUSH;
        pokerHandID[MINOR_RANK_DIGIT] := straightMinorRank;
        return;
      }
      var tempMinorRank := IsXOfAKind(4);
      if tempMinorRank != 0 {
        pokerHandID[MAJOR_RANK_DIGIT] := FOUR_OF_A_KIND;
        pokerHandID[MINOR_RANK_DIGIT] := tempMinorRank;
        return;
      }
      tempMinorRank := IsFullHouse();
      if tempMinorRank != 0 {
        pokerHandID[MAJOR_RANK_DIGIT] := FULL_HOUSE;
        pokerHandID[MINOR_RANK_DIGIT] := tempMinorRank;
      } else if flushMinorRank != 0 {
        pokerHandID[MAJOR_RANK_DIGIT] := FLUSH;
        pokerHandID[MINOR_RANK_DIGIT] := flushMinorRank;
      } else if straightMinorRank != 0 {
        pokerHandID[MAJOR_RANK_DIGIT] := STRAIGHT;
        pokerHandID[MINOR_RANK_DIGIT] := straightMinorRank;
      } else {
        tempMinorRank := IsXOfAKind(3);
        if tempMinorRank != 0 {
          pokerHandID[MAJOR_RANK_DIGIT] := THREE_OF_A_KIND;
          pokerHandID[MINOR_RANK_DIGIT] := tempMinorRank;
          return;
        }
        tempMinorRank := IsTwoPair();
        if tempMinorRank != 0 {
          pokerHandID[MAJOR_RANK_DIGIT] := TWO_PAIR;
          pokerHandID[MINOR_RANK_DIGIT] := tempMinorRank;
          var lowPair := IsXOfAKind(2);
          pokerHandID[LOW_PAIR_DIGIT] := lowPair;
          return;
        }
        tempMinorRank := IsXOfAKind(2);
        if tempMinorRank != 0 {
          pokerHandID[MAJOR_RANK_DIGIT] := ONE_PAIR;
          pokerHandID[MINOR_RANK_DIGIT] := tempMinorRank;
        } else {
          pokerHandID[MAJOR_RANK_DIGIT] := HIGH_CARD;
          var highCardRank := HighCard();
          pokerHandID[MINOR_RANK_DIGIT] := highCardRank;
        }
      }
    }

    /** `isBetterHand`: the switch on the reference category falls through
        from case `majorRank` to every stronger case until one breaks. Each
        category of the loop below is one case. A case breaks with "better" when
        its test matches and its category is stronger than the reference, or
        equal with a larger minor rank (for two pair, an equal high pair and
        a larger low pair). No global is written. */
    method IsBetterHand() returns (betterHandDetected: bool)
      requires Valid()
      ensures WellFormed(FromDigits(pokerHandID[..])) ==>
        (betterHandDetected <==> Greater(Classify(handRank[..], handSuit[..]), FromDigits(pokerHandID[..])))
      ensures !(HIGH_CARD <= pokerHandID[MAJOR_RANK_DIGIT] <= STRAIGHT_FLUSH) ==> !betterHandDetected
      ensures WellFormed(FromDigits(pokerHandID[..])) ==>
        (Classify(handRank[..], handSuit[..]).major > pokerHandID[MAJOR_RANK_DIGIT] ==> betterHandDetected) &&
        (Classify(handRank[..], handSuit[..]).major < pokerHandID[MAJOR_RANK_DIGIT] ==> !betterHandDetected)
      ensures pokerHandID[..] == Digits(Classify(handRank[..], handSuit[..])) ==> !betterHandDetected
    {
      ghost var ref := FromDigits(pokerHandID[..]);
      ghost var r, s := handRank[..], handSuit[..];
      var majorRank := pokerHandID[MAJOR_RANK_DIGIT];
      var minorRank := pokerHandID[MINOR_RANK_DIGIT];
      var straightMinorRank, flushMinorRank := 0, 0;
      betterHandDetected := false;
      if HIGH_CARD <= majorRank <= STRAIGHT_FLUSH {
        var category := majorRank;
        while category <= STRAIGHT_FLUSH
          invariant majorRank <= category <= STRAIGHT_FLUSH + 1
          invariant !betterHandDetected
          invariant forall k :: majorRank <= k < category ==> !CaseFires(k, r, s, ref)
          invariant straightMinorRank == 0 || straightMinorRank == StraightValue(handRank[..])
          invariant flushMinorRank == 0 || flushMinorRank == FlushValue(handRank[..], handSuit[..])
          decreases STRAIGHT_FLUSH + 1 - category
        {
          var fires;
          fires, straightMinorRank, flushMinorRank := TestCase(category, majorRank, minorRank, straightMinorRank, flushMinorRank);
          if fires {
            betterHandDetected := true;
            break;
          }
          assert !CaseFires(category, r, s, ref);
          category := category + 1;
        }
        if WellFormed(ref) {
          if betterHandDetected {
            CaseFiresSound(r, s, ref, category);
          } else if Greater(Classify(r, s), ref) {
            GreaterFires(r, s, ref);
            assert false;
          }
        }
      }
      if pokerHandID[..] == Digits(Classify(r, s)) {
        assert ref == Classify(r, s);
      }
    }

    /** One case of the switch in `isBetterHand`: does case `category` break
        with "better"? The straight and flush values found so far are passed
        in and out, so that the straight flush case does not compute them
        again. */
    method TestCase(category: int, majorRank: int, minorRank: int, straight0: int, flush0: int)
      returns (fires: bool, straightMinorRank: int, flushMinorRank: int)
      requires Valid() && HIGH_CARD <= category <= STRAIGHT_FLUSH
      requires majorRank == pokerHandID[MAJOR_RANK_DIGIT] && minorRank == pokerHandID[MINOR_RANK_DIGIT]
      requires majorRank <= category
      requires straight0 == 0 || straight0 == StraightValue(handRank[..])
      requires flush0 == 0 || flush0 == FlushValue(handRank[..], handSuit[..])
      ensures fires == CaseFires(category, handRank[..], handSuit[..], FromDigits(pokerHandID[..]))
      ensures straightMinorRank == 0 || straightMinorRank == StraightValue(handRank[..])
      ensures flushMinorRank == 0 || flushMinorRank == FlushValue(handRank[..], handSuit[..])
    {
      straightMinorRank, flushMinorRank := straight0, flush0;
      fires := false;
      var tempMinor;
      if category == HIGH_CARD {
        var highCardRank := HighCard();
        if highCardRank > minorRank {
          fires := true;
        }
      } else if category == ONE_PAIR {
        tempMinor := IsXOfAKind(2);
        if tempMinor != 0 {
          if ONE_PAIR > majorRank {
            fires := true;
          } else if tempMinor > minorRank {
            fires := true;
          }
        }
      } else if category == TWO_PAIR {
        tempMinor := IsTwoPair();
        if tempMinor != 0 {
          if TWO_PAIR > majorRank {
            fires := true;
          } else if tempMinor > minorRank {
            fires := true;
          } else if tempMinor == minorRank {
            var lowPair := IsXOfAKind(2);
            if lowPair > pokerHandID[LOW_PAIR_DIGIT] {
              fires := true;
            }
          }
        }
      } else if category == THREE_OF_A_KIND {
        tempMinor := IsXOfAKind(3);
        if tempMinor != 0 {
          if THREE_OF_A_KIND > majorRank {
            fires := true;
          } else if tempMinor > minorRank {
            fires := true;
          }
        }
      } else if category == STRAIGHT {
        straightMinorRank := IsStraight();
        if straightMinorRank != 0 {
          if STRAIGHT > majorRank {
            fires := true;
          } else if straightMinorRank > minorRank {
            fires := true;
          }
        }
      } else if category == FLUSH {
        flushMinorRank := IsFlush();
        if flushMinorRank != 0 {
          if FLUSH > majorRank {
            fires := true;
          } else if flushMinorRank > minorRank {
            fires := true;
          }
        }
      } else if category == FULL_HOUSE {
        tempMinor := IsFullHouse();
        if tempMinor != 0 {
          if FULL_HOUSE > majorRank {
            fires := true;
          } else if tempMinor > minorRank {
            fires := true;
          }
        }
      } else if category == FOUR_OF_A_KIND {
        tempMinor := IsXOfAKind(4);
        if tempMinor != 0 {
          if FOUR_OF_A_KIND > majorRank {
            fires := true;
          } else if tempMinor > minorRank {
            fires := true;
          }
        }
      } else {
        // The straight and flush values are computed here only when an
        // earlier case has not already found them nonzero.
        if straightMinorRank == 0 {
          straightMinorRank := IsStraight();
        }
        if flushMinorRank == 0 {
          flushMinorRank := IsFlush();
        }
        if straightMinorRank != 0 && flushMinorRank != 0 {
          if majorRank == STRAIGHT_FLUSH {
            if straightMinorRank > minorRank {
              fires := true;
            }
          } else {
            fires := true;
          }
        }
      }
    }

    /** `highCard`: the running maximum of the ranks, starting from 0. */
    method HighCard() returns (highCardRank: int)
      requires Valid()
      ensures highCardRank == HighCardValue(handRank[..])
    {
      highCardRank := 0;
      var i := 0;
      while i < HAND_SIZE
        invariant 0 <= i <= HAND_SIZE
        invariant highCardRank == HighCardValue(handRank[..i])
      {
        assert handRank[..i + 1][..i] == handRank[..i];
        if highCardRank < handRank[i] {
          highCardRank := handRank[i];
        }
        i := i + 1;
      }
      assert handRank[..i] == handRank[..];
    }
  
    /** The draw loop of `getProbabilities`: puts the next card of `draws`
        in slot `swapIndex` until it is neither a repeat of a card in the
        hand nor the discarded card. With the other four cards and the
        discarded card making up the dealt hand, the card kept is the next
        draw that is none of the dealt cards. */
    method DrawReplacement(draws: seq<Card>, cursor: int, swapIndex: int, discarded: Card, ghost dealt: seq<Card>)
      returns (next: int, randRank: int, randSuit: char)
      requires Valid() && 0 <= swapIndex < HAND_SIZE
      requires ValidCards(Hand()) && ValidCards(draws) && !HasRepeat(dealt)
      requires multiset(Without(Hand(), swapIndex)) + multiset{discarded} == multiset(dealt)
      requires 0 <= cursor <= |draws| && |Accepted(draws[..cursor], dealt)| < |Accepted(draws, dealt)|
      modifies handRank, handSuit
      ensures cursor < next <= |draws|
      ensures Card(randRank, randSuit) !in dealt
      ensures Accepted(draws[..next], dealt) == Accepted(draws[..cursor], dealt) + [Card(randRank, randSuit)]
      ensures Hand() == old(Hand())[swapIndex := Card(randRank, randSuit)]
    {
      ghost var h0 := Hand();
      next := cursor;
      while true
        invariant cursor <= next <= |draws|
        invariant Accepted(draws[..next], dealt) == Accepted(draws[..cursor], dealt)
        invariant |Hand()| == HAND_SIZE && Without(Hand(), swapIndex) == Without(h0, swapIndex)
        invariant ValidCards(Hand())
        decreases |draws| - next
      {
        DrawsRemain(draws, dealt, next);
        ghost var before := Hand();
        randRank := draws[next].rank;
        randSuit := draws[next].suit;
        ghost var d := draws[next];
        assert ValidCard(d);
        AcceptedStep(draws, dealt, next);
        next := next + 1;
        var rejected := PlaceDraw(randRank, randSuit, swapIndex, discarded, dealt);
        if !rejected {
          assert Accepted(draws[..next], dealt) == Accepted(draws[..cursor], dealt) + [d];
          SameOutside(before, h0, swapIndex, d);
          break;
        }
      }
    }

    /** One pass of the draw loop: the drawn card goes in slot `swapIndex`,
        and the draw is rejected when it equals the discarded card or repeats
        a card of the hand, which is exactly when it is one of the dealt
        cards. */
    method PlaceDraw(randRank: int, randSuit: char, swapIndex: int, discarded: Card, ghost dealt: seq<Card>)
      returns (rejected: bool)
      requires Valid() && 0 <= swapIndex < HAND_SIZE
      requires ValidCards(Hand()) && ValidCard(Card(randRank, randSuit)) && !HasRepeat(dealt)
      requires multiset(Without(Hand(), swapIndex)) + multiset{discarded} == multiset(dealt)
      modifies handRank, handSuit
      ensures Hand() == old(Hand())[swapIndex := Card(randRank, randSuit)]
      ensures Without(Hand(), swapIndex) == Without(old(Hand()), swapIndex)
      ensures ValidCards(Hand())
      ensures rejected <==> Card(randRank, randSuit) in dealt
    {
      ghost var before, r0, s0 := Hand(), handRank[..], handSuit[..];
      ghost var d := Card(randRank, randSuit);
      var sameHand := false;
      handRank[swapIndex] := randRank;
      handSuit[swapIndex] := randSuit;
      assert handRank[..] == r0[swapIndex := randRank] && handSuit[..] == s0[swapIndex := randSuit];
      ZipUpdate(r0, s0, swapIndex, randRank, randSuit);
      WithoutReplace(before, swapIndex, d);
      if randRank == discarded.rank && randSuit == discarded.suit {
        sameHand := true;
      }
      ValidCardsUpdate(before, swapIndex, d);
      ValidCardsRanks(handRank[..], handSuit[..]);
      var repeated := RepeatCards();
      ReplacementRejected(before, swapIndex, d, discarded, dealt);
      rejected := repeated || sameHand;
    }

    /** The search after sorting in `getProbabilities`: the first slot that
        holds the drawn card. */
    method LocateCard(randRank: int, randSuit: char) returns (swapIndex: int)
      requires Valid() && Card(randRank, randSuit) in Hand()
      ensures 0 <= swapIndex < HAND_SIZE && Hand()[swapIndex] == Card(randRank, randSuit)
      ensures forall m :: 0 <= m < swapIndex ==> Hand()[m] != Card(randRank, randSuit)
    {
      var k := 0;
      while k < HAND_SIZE
        invariant 0 <= k <= HAND_SIZE
        invariant forall m :: 0 <= m < k ==> Hand()[m] != Card(randRank, randSuit)
      {
        if randRank == handRank[k] && randSuit == handSuit[k] {
          return k;
        }
        k := k + 1;
      }
      assert false;
    }

    /** The final search of `getProbabilities`: the count goes to the first
        slot of the dealt hand that holds the discarded card. */
    method StoreCount(tempRank: int, tempSuit: char, numOfImprovements: int, ghost dealt: seq<Card>) returns (slot: int)
      requires Valid() && dealt == CopyHand() && Card(tempRank, tempSuit) in dealt
      modifies improvements
      ensures 0 <= slot < HAND_SIZE && dealt[slot] == Card(tempRank, tempSuit)
      ensures forall m :: 0 <= m < slot ==> dealt[m] != Card(tempRank, tempSuit)
      ensures improvements[..] == old(improvements[..])[slot := numOfImprovements]
    {
      var j := 0;
      while j < HAND_SIZE
        invariant 0 <= j <= HAND_SIZE
        invariant forall m :: 0 <= m < j ==> CopyHand()[m] != Card(tempRank, tempSuit)
      {
        if tempSuit == copyHandSuit[j] && tempRank == copyHandRank[j] {
          improvements[j] := numOfImprovements;
          return j;
        }
        j := j + 1;
      }
      assert false;
    }

    /** The draw of one sample: a replacement for slot `swapIndex` is drawn
        (redrawing as long as it repeats a card of the hand or is the
        discarded card), the hand is sorted again and the slot now holding
        the draw is found. The draw is kept draw n. */
    method Redraw(draws: seq<Card>, cursor: int, swapIndex: int, tempRank: int, tempSuit: char,
                  ghost dealt: seq<Card>, ghost kept: seq<Card>, ghost others: seq<Card>, ghost n: int, ghost last: Card)
      returns (next: int, newSwapIndex: int, ghost d: Card)
      requires Holds(others, last, swapIndex)
      requires ValidCards(draws) && !HasRepeat(dealt) && |others| == HAND_SIZE - 1
      requires multiset(others) + multiset{Card(tempRank, tempSuit)} == multiset(dealt)
      requires kept == Accepted(draws, dealt)
      requires 0 <= cursor <= |draws| && 0 <= n < |kept|
      requires Accepted(draws[..cursor], dealt) == kept[..n]
      modifies handRank, handSuit
      ensures cursor < next <= |draws| && d == kept[n]
      ensures Accepted(draws[..next], dealt) == kept[..n + 1]
      ensures Holds(others, d, newSwapIndex)
    {
      ghost var h0 := Hand();
      WithoutMultiset(h0, swapIndex);
      var randRank, randSuit;
      next, randRank, randSuit := DrawReplacement(draws, cursor, swapIndex, Card(tempRank, tempSuit), dealt);
      d := Card(randRank, randSuit);
      assert ValidCard(d) by {
        AcceptedMembers(draws, dealt, d);
        AcceptedMembers(draws[..next], dealt, d);
      }
      MultisetReplace(h0, swapIndex, d);
      ValidCardsUpdate(h0, swapIndex, d);
      KeptNext(draws, dealt, next, n, d);
      newSwapIndex := Resort(others, randRank, randSuit);
    }

    /** After the draw the hand is sorted again and the slot now holding
        the drawn card is found. */
    method Resort(ghost others: seq<Card>, randRank: int, randSuit: char) returns (swapIndex: int)
      requires Valid() && ValidCards(Hand())
      requires multiset(Hand()) == multiset(others) + multiset{Card(randRank, randSuit)}
      modifies handRank, handSuit
      ensures Holds(others, Card(randRank, randSuit), swapIndex)
    {
      ghost var drawn := Hand();
      SortHand();
      ValidCardsPermutation(drawn, Hand());
      assert Card(randRank, randSuit) in Hand() by {
        assert Card(randRank, randSuit) in multiset(drawn);
      }
      swapIndex := LocateCard(randRank, randSuit);
    }

    /** The comparison in the sample loop of `getProbabilities`: the sorted
        hand, the four cards kept and the draw d, beats the dealt hand's
        descriptor exactly when d passes the improvement test. */
    method JudgeDraw(ghost others: seq<Card>, ghost d: Card, ghost slot: int, ghost ref: Descriptor, ghost hit: Card -> bool)
      returns (better: bool)
      requires Holds(others, d, slot) && |others| == HAND_SIZE - 1
      requires ref == FromDigits(pokerHandID[..]) && WellFormed(ref)
      requires forall c {:trigger Improves(ref, others, c)} :: hit(c) == Improves(ref, others, c)
      ensures better == hit(d)
    {
      better := IsBetterHand();
      ZipColumns(handRank[..], handSuit[..]);
      ClassifySortedPermutation(Hand(), SortCards(others + [d]));
      assert better <==> Improves(ref, others, d);
    }

    /** One pass of the sample loop of `getProbabilities`: a replacement is
        drawn for slot `swapIndex`, the hand is sorted again, the slot now
        holding the drawn card is found and, when the hand beats the dealt
        hand's descriptor, the count goes up. With `others` the four cards
        kept, n draws kept so far and the count covering those from `start`
        on, the card drawn is kept draw n and the count covers it too. */
    method Sample(draws: seq<Card>, cursor: int, swapIndex: int, tempRank: int, tempSuit: char,
                  numOfImprovements: int, ghost dealt: seq<Card>, ghost kept: seq<Card>, ghost others: seq<Card>,
                  ghost ref: Descriptor, ghost hit: Card -> bool, ghost start: int, ghost n: int, ghost last: Card)
      returns (next: int, newSwapIndex: int, count: int)
      requires Holds(others, last, swapIndex)
      requires ValidCards(draws) && !HasRepeat(dealt) && |others| == HAND_SIZE - 1
      requires multiset(others) + multiset{Card(tempRank, tempSuit)} == multiset(dealt)
      requires kept == Accepted(draws, dealt)
      requires 0 <= cursor <= |draws| && 0 <= start <= n < |kept|
      requires Accepted(draws[..cursor], dealt) == kept[..n]
      requires ref == FromDigits(pokerHandID[..]) && WellFormed(ref)
      requires forall c {:trigger Improves(ref, others, c)} :: hit(c) == Improves(ref, others, c)
      requires numOfImprovements == CountTrue(Marks(hit, kept[start .. n]))
      modifies handRank, handSuit
      ensures cursor < next <= |draws|
      ensures Accepted(draws[..next], dealt) == kept[..n + 1]
      ensures Holds(others, kept[n], newSwapIndex)
      ensures count == CountTrue(Marks(hit, kept[start .. n + 1]))
    {
      ghost var d;
      next, newSwapIndex, d := Redraw(draws, cursor, swapIndex, tempRank, tempSuit, dealt, kept, others, n, last);
      var better := JudgeDraw(others, d, newSwapIndex, ref, hit);
      count := numOfImprovements;
      if better {
        count := count + 1;
      }
      SliceExtend(kept, start, n);
      MarkStep(hit, kept[start .. n], d, numOfImprovements);
    }

    /** The sample loop of `getProbabilities` for one discarded card, the card
        `Card(tempRank, tempSuit)` in slot i of the dealt hand in canonical
        order: `sampleNumber` replacements are drawn in turn, each into the
        slot where the previous one ended up after sorting, and the improving
        ones are counted. The draws used are the i-th block of kept draws. */
    method SampleDiscard(draws: seq<Card>, cursor: int, i: int, tempRank: int, tempSuit: char, sampleNumber: int,
                         ghost dealt: seq<Card>, ghost kept: seq<Card>, ghost others: seq<Card>,
                         ghost ref: Descriptor, ghost hit: Card -> bool, ghost start: int, ghost stop: int)
      returns (numOfImprovements: int, next: int, ghost last: Card, ghost held: int)
      requires 0 <= sampleNumber && 0 <= start && stop == start + sampleNumber
      requires Holds(others, Card(tempRank, tempSuit), i)
      requires |others| == HAND_SIZE - 1 && multiset(others) + multiset{Card(tempRank, tempSuit)} == multiset(dealt)
      requires !HasRepeat(dealt) && ValidCards(draws)
      requires kept == Accepted(draws, dealt) && stop <= |kept|
      requires 0 <= cursor <= |draws| && Accepted(draws[..cursor], dealt) == kept[..start]
      requires ref == FromDigits(pokerHandID[..]) && WellFormed(ref)
      requires forall c {:trigger Improves(ref, others, c)} :: hit(c) == Improves(ref, others, c)
      modifies handRank, handSuit
      ensures cursor <= next <= |draws|
      ensures Accepted(draws[..next], dealt) == kept[..stop]
      ensures numOfImprovements == CountTrue(Marks(hit, kept[start .. stop]))
      ensures last == if sampleNumber == 0 then Card(tempRank, tempSuit) else kept[stop - 1]
      ensures Holds(others, last, held)
    {
      ghost var taken := start;
      ghost var lastIdx := start;
      last := Card(tempRank, tempSuit);
      numOfImprovements := 0;
      next := cursor;
      var swapIndex := i;
      var j := 0;
      while j < sampleNumber
        invariant 0 <= j <= sampleNumber && taken == start + j
        invariant cursor <= next <= |draws|
        invariant Accepted(draws[..next], dealt) == kept[..taken]
        invariant numOfImprovements == CountTrue(Marks(hit, kept[start .. taken]))
        invariant Holds(others, last, swapIndex)
        invariant j == 0 ==> last == Card(tempRank, tempSuit)
        invariant j > 0 ==> lastIdx == taken - 1 && last == kept[lastIdx]
      {
        next, swapIndex, numOfImprovements :=
          Sample(draws, next, swapIndex, tempRank, tempSuit, numOfImprovements, dealt, kept, others, ref, hit, start, taken, last);
        last := kept[taken];
        lastIdx := taken;
        taken := taken + 1;
        j := j + 1;
      }
      held := swapIndex;
    }

    /** The sample loop for the card in canonical slot i, with the hand it
        leaves described by `HeldAfter`. */
    method SampleSlot(draws: seq<Card>, cursor: int, i: int, tempRank: int, tempSuit: char, sampleNumber: int,
                      ghost dealt: seq<Card>, ghost kept: seq<Card>, ghost sorted: seq<Card>, ghost others: seq<Card>,
                      ghost ref: Descriptor, ghost hit: Card -> bool, ghost start: int, ghost stop: int)
      returns (count: int, next: int)
      requires 0 <= i < HAND_SIZE && 0 <= sampleNumber && stop == Blocks(i + 1, sampleNumber)
      requires 0 <= start && start + sampleNumber == stop <= Blocks(HAND_SIZE, sampleNumber) <= |kept|
      requires |sorted| == HAND_SIZE && sorted[i] == Card(tempRank, tempSuit) && others == Without(sorted, i)
      requires Holds(others, Card(tempRank, tempSuit), i)
      requires multiset(others) + multiset{Card(tempRank, tempSuit)} == multiset(dealt)
      requires !HasRepeat(dealt) && ValidCards(draws) && kept == Accepted(draws, dealt)
      requires 0 <= cursor <= |draws| && Accepted(draws[..cursor], dealt) == kept[..start]
      requires ref == FromDigits(pokerHandID[..]) && WellFormed(ref)
      requires forall c {:trigger Improves(ref, others, c)} :: hit(c) == Improves(ref, others, c)
      modifies handRank, handSuit
      ensures cursor <= next <= |draws|
      ensures Accepted(draws[..next], dealt) == kept[..stop]
      ensures count == CountTrue(Marks(hit, kept[start .. stop]))
      ensures Sorted(handRank[..]) && multiset(Hand()) == HeldAfter(sorted, kept, i, sampleNumber)
    {
      ghost var last, held;
      count, next, last, held :=
        SampleDiscard(draws, cursor, i, tempRank, tempSuit, sampleNumber, dealt, kept, others, ref, hit, start, stop);
      HeldAfterPass(sorted, kept, i, sampleNumber, last, stop);
    }

    /** The start of a pass of the outer loop of `getProbabilities`: the
        dealt hand is reloaded and sorted, and the card in slot i is the one
        discarded. */
    method PrepareDiscard(i: int, ghost dealt: seq<Card>, ghost sorted: seq<Card>, ghost others: seq<Card>)
      returns (tempRank: int, tempSuit: char)
      requires Valid() && 0 <= i < HAND_SIZE && dealt == CopyHand() && ValidCards(dealt)
      requires sorted == SortCards(dealt) && others == Without(sorted, i)
      modifies handRank, handSuit
      ensures Holds(others, Card(tempRank, tempSuit), i) && sorted[i] == Card(tempRank, tempSuit)
      ensures |others| == HAND_SIZE - 1 && multiset(others) + multiset{sorted[i]} == multiset(dealt) && sorted[i] in dealt
    {
      LoadCopyHand();
      SortHand();
      DiscardSetup(dealt, i);
      tempSuit := handSuit[i];
      tempRank := handRank[i];
    }

    /** One pass of the outer loop of `getProbabilities`: the dealt hand is
        reloaded and sorted, the card in slot i is discarded and sampled
        against, and the count goes to the slot of the dealt hand holding
        that card. */
    method DiscardSlot(draws: seq<Card>, cursor: int, i: int, sampleNumber: int,
                       ghost dealt: seq<Card>, ghost kept: seq<Card>, ghost sorted: seq<Card>, ghost others: seq<Card>, ghost ref: Descriptor,
                       ghost hit: Card -> bool, ghost start: int, ghost stop: int)
      returns (next: int, slot: int, count: int)
      requires Valid() && 0 <= i < HAND_SIZE && 0 <= sampleNumber
      requires stop == Blocks(i + 1, sampleNumber)
      requires dealt == CopyHand() && ValidCards(dealt) && !HasRepeat(dealt) && ValidCards(draws)
      requires kept == Accepted(draws, dealt)
      requires 0 <= start && start + sampleNumber == stop <= Blocks(HAND_SIZE, sampleNumber) <= |kept|
      requires 0 <= cursor <= |draws| && Accepted(draws[..cursor], dealt) == kept[..start]
      requires ref == FromDigits(pokerHandID[..]) && WellFormed(ref)
      requires sorted == SortCards(dealt) && others == Without(sorted, i)
      requires forall c {:trigger Improves(ref, others, c)} :: hit(c) == Improves(ref, others, c)
      modifies handRank, handSuit, improvements
      ensures cursor <= next <= |draws|
      ensures Accepted(draws[..next], dealt) == kept[..stop]
      ensures 0 <= slot < HAND_SIZE && dealt[slot] == sorted[i]
      ensures improvements[..] == old(improvements[..])[slot := count]
      ensures count == CountTrue(Marks(hit, kept[start .. stop]))
      ensures Sorted(handRank[..])
      ensures multiset(Hand()) == HeldAfter(sorted, kept, i, sampleNumber)
    {
      var tempRank, tempSuit := PrepareDiscard(i, dealt, sorted, others);
      count, next := SampleSlot(draws, cursor, i, tempRank, tempSuit, sampleNumber, dealt, kept, sorted, others, ref, hit, start, stop);
      slot := StoreCount(tempRank, tempSuit, count, dealt);
    }

    /** Pass i of `getProbabilities`: the count for the card in canonical
        slot i is recorded in the slot that card had as dealt. */
    method DiscardPass(draws: seq<Card>, cursor: int, i: int, sampleNumber: int, ghost dealt: seq<Card>,
                       ghost kept: seq<Card>, ghost sorted: seq<Card>, ghost ref: Descriptor)
      returns (next: int)
      requires Valid() && 0 <= i < HAND_SIZE && 0 <= sampleNumber
      requires dealt == CopyHand() && ValidCards(dealt) && !HasRepeat(dealt) && ValidCards(draws)
      requires sorted == SortCards(dealt) && kept == Accepted(draws, dealt)
      requires Blocks(i, sampleNumber) <= Blocks(HAND_SIZE, sampleNumber) <= |kept|
      requires ref == FromDigits(pokerHandID[..]) && WellFormed(ref)
      requires 0 <= cursor <= |draws| && Accepted(draws[..cursor], dealt) == kept[..Blocks(i, sampleNumber)]
      requires Recorded(improvements[..], ref, sorted, dealt, kept, sampleNumber, i)
      modifies handRank, handSuit, improvements
      ensures cursor <= next <= |draws| && Blocks(i + 1, sampleNumber) <= Blocks(HAND_SIZE, sampleNumber)
      ensures Accepted(draws[..next], dealt) == kept[..Blocks(i + 1, sampleNumber)]
      ensures Recorded(improvements[..], ref, sorted, dealt, kept, sampleNumber, i + 1)
      ensures Sorted(handRank[..]) && multiset(Hand()) == HeldAfter(sorted, kept, i, sampleNumber)
    {
      BlockBounds(i, sampleNumber);
      var slot, numOfImprovements;
      ghost var imp0 := improvements[..];
      ghost var others := Without(sorted, i);
      ghost var hit := (c: Card) => Improves(ref, others, c);
      next, slot, numOfImprovements :=
        DiscardSlot(draws, cursor, i, sampleNumber, dealt, kept, sorted, others, ref, hit, Blocks(i, sampleNumber), Blocks(i + 1, sampleNumber));
      RecordStep(imp0, improvements[..], slot, numOfImprovements, ref, sorted, dealt, kept, sampleNumber, i, hit);
    }

    /** The five discard passes of `getProbabilities`, stated over the
        dealt hand `dealt`, its canonical order `sorted`, the kept draws
        `kept` and the dealt hand's descriptor `ref`. */
    method DiscardPasses(draws: seq<Card>, sampleNumber: int, ghost dealt: seq<Card>, ghost sorted: seq<Card>,
                         ghost kept: seq<Card>, ghost ref: Descriptor)
      returns (used: int)
      requires Valid() && dealt == CopyHand() && ValidCards(dealt) && !HasRepeat(dealt)
      requires ValidCards(draws) && 0 <= sampleNumber
      requires sorted == SortCards(dealt) && kept == Accepted(draws, dealt)
      requires Blocks(HAND_SIZE, sampleNumber) <= |kept|
      requires ref == FromDigits(pokerHandID[..]) && WellFormed(ref)
      modifies handRank, handSuit, improvements
      ensures 0 <= used <= |draws|
      ensures Accepted(draws[..used], dealt) == kept[..Blocks(HAND_SIZE, sampleNumber)]
      ensures Recorded(improvements[..], ref, sorted, dealt, kept, sampleNumber, HAND_SIZE)
      ensures Sorted(handRank[..])
      ensures multiset(Hand()) == HeldAfter(sorted, kept, HAND_SIZE - 1, sampleNumber)
    {
      ghost var d := 0;
      var cursor := 0;
      var i := 0;
      while i < HAND_SIZE
        invariant 0 <= i <= HAND_SIZE
        invariant 0 <= cursor <= |draws|
        invariant Blocks(i, sampleNumber) <= Blocks(HAND_SIZE, sampleNumber)
        invariant Accepted(draws[..cursor], dealt) == kept[..Blocks(i, sampleNumber)]
        invariant Recorded(improvements[..], ref, sorted, dealt, kept, sampleNumber, i)
        invariant i > 0 ==> d == i - 1 && Sorted(handRank[..])
        invariant i > 0 ==> multiset(Hand()) == HeldAfter(sorted, kept, d, sampleNumber)
      {
        cursor := DiscardPass(draws, cursor, i, sampleNumber, dealt, kept, sorted, ref);
        d := i;
        i := i + 1;
      }
      used := cursor;
    }

    /** `getProbabilities`: for each slot i of the hand in canonical order,
        that card is discarded and `sampleNumber` replacements are drawn in
        turn. A draw that repeats a card of the hand or is the discarded card
        is redrawn. After each draw the hand is sorted again, the slot where
        the drawn card ended up becomes the slot replaced next, and the hand
        is compared with the dealt hand's descriptor. The number of improving
        draws goes to the slot the discarded card had as dealt. The random
        cards are read from `draws`, of which the first `used` are consumed. */
    method GetProbabilities(draws: seq<Card>, sampleNumber: int) returns (used: int)
      requires Valid()
      requires ValidCards(CopyHand()) && !HasRepeat(CopyHand())
      requires ValidCards(draws) && 0 <= sampleNumber
      requires Blocks(HAND_SIZE, sampleNumber) <= |Accepted(draws, CopyHand())|
      requires WellFormed(FromDigits(pokerHandID[..]))
      modifies handRank, handSuit, improvements
      ensures 0 <= used <= |draws|
      ensures Accepted(draws[..used], CopyHand()) == Accepted(draws, CopyHand())[..Blocks(HAND_SIZE, sampleNumber)]
      ensures Recorded(improvements[..], FromDigits(pokerHandID[..]), SortCards(CopyHand()), CopyHand(),
                       Accepted(draws, CopyHand()), sampleNumber, HAND_SIZE)
      ensures forall j :: 0 <= j < HAND_SIZE ==> 0 <= improvements[j] <= sampleNumber
      ensures Sorted(handRank[..])
      ensures multiset(Hand()) == HeldAfter(SortCards(CopyHand()), Accepted(draws, CopyHand()), HAND_SIZE - 1, sampleNumber)
    {
      ghost var dealt := CopyHand();
      ghost var sorted := SortCards(dealt);
      ghost var kept := Accepted(draws, dealt);
      ghost var ref := FromDigits(pokerHandID[..]);
      used := DiscardPasses(draws, sampleNumber, dealt, sorted, kept, ref);
      RecordedBounds(improvements[..], ref, sorted, dealt, kept, sampleNumber);
    }

    /** The processing of a well-formed input line in `main`: the hand as
        read is copied as the dealt hand, sorted and classified, and then the
        improvement counts are estimated against its descriptor. */
    method EvaluateHand(draws: seq<Card>, sampleNumber: int) returns (used: int)
      requires Valid() && ValidCards(Hand()) && !HasRepeat(Hand())
      requires ValidCards(draws) && 0 <= sampleNumber
      requires Blocks(HAND_SIZE, sampleNumber) <= |Accepted(draws, Hand())|
      modifies handRank, handSuit, copyHandRank, copyHandSuit, pokerHandID, improvements
      ensures CopyHand() == old(Hand())
      ensures pokerHandID[..] == Digits(ClassifyCards(SortCards(old(Hand()))))
      ensures 0 <= used <= |draws|
      ensures Recorded(improvements[..], ClassifyCards(SortCards(old(Hand()))), SortCards(old(Hand())), old(Hand()),
                       Accepted(draws, old(Hand())), sampleNumber, HAND_SIZE)
      ensures forall j :: 0 <= j < HAND_SIZE ==> 0 <= improvements[j] <= sampleNumber
    {
      ghost var dealt := Hand();
      ghost var ref := ClassifyCards(SortCards(dealt));
      ClassifyHand(dealt, ref);
      used := GetProbabilities(draws, sampleNumber);
      assert CopyHand() == dealt && FromDigits(pokerHandID[..]) == ref;
    }

    /** The first steps for a well-formed line: copy, sort, classify. */
    method ClassifyHand(ghost dealt: seq<Card>, ghost ref: Descriptor)
      requires Valid() && dealt == Hand() && ref == ClassifyCards(SortCards(dealt))
      modifies handRank, handSuit, copyHandRank, copyHandSuit, pokerHandID
      ensures CopyHand() == dealt && Hand() == SortCards(dealt)
      ensures pokerHandID[..] == Digits(ref) && FromDigits(pokerHandID[..]) == ref && WellFormed(ref)
    {
      SaveCopyHand();
      assert CopyHand() == dealt;
      SortHand();
      GetHandRank();
      ZipColumns(handRank[..], handSuit[..]);
    }
  }
}

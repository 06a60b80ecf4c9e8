/** What `getProbabilities` counts, stated on values. The random cards it
    draws are given as a stream `draws`; a draw is kept when it is none of
    the five dealt cards (the rejection loop redraws a card that repeats one
    still in the hand or equals the discarded one). Discarding slot i of the
    hand in canonical order uses the i-th block of `sampleNumber` kept draws,
    and counts those that make the hand beat the dealt hand's descriptor. */
module Estimator {
  import opened Cards
  import opened Hands
  import opened Categories
  import opened Classifier

  /** The kept draws, in the order they were drawn. */
  function Accepted(draws: seq<Card>, dealt: seq<Card>): (kept: seq<Card>)
    ensures |kept| <= |draws|
  {
    if draws == [] then []
    else
      var init := draws[..|draws| - 1];
      var d := draws[|draws| - 1];
      assert draws == init + [d];
      Accepted(init, dealt) + (if d in dealt then [] else [d])
  }

  /** A card is kept exactly when it is drawn and is none of the dealt
      cards. */
  lemma {:induction false} AcceptedMembers(draws: seq<Card>, dealt: seq<Card>, c: Card)
    ensures c in Accepted(draws, dealt) <==> c in draws && c !in dealt
    decreases |draws|
  {
    if draws != [] {
      var init := draws[..|draws| - 1];
      AcceptedMembers(init, dealt, c);
      assert draws == init + [draws[|draws| - 1]];
    }
  }

  lemma AcceptedAll(draws: seq<Card>, dealt: seq<Card>)
    ensures Accepted(draws[..|draws|], dealt) == Accepted(draws, dealt)
  {
    assert draws[..|draws|] == draws;
  }

  /** While fewer draws have been kept than the stream holds, the stream
      is not used up. */
  lemma DrawsRemain(draws: seq<Card>, dealt: seq<Card>, next: int)
    requires 0 <= next <= |draws|
    requires |Accepted(draws[..next], dealt)| < |Accepted(draws, dealt)|
    ensures next < |draws|
  {
    AcceptedAll(draws, dealt);
  }

  /** One more draw: kept or not. */
  lemma AcceptedStep(draws: seq<Card>, dealt: seq<Card>, c: int)
    requires 0 <= c < |draws|
    ensures Accepted(draws[..c + 1], dealt) ==
      Accepted(draws[..c], dealt) + (if draws[c] in dealt then [] else [draws[c]])
  {
    assert draws[..c + 1][..c] == draws[..c];
  }

  /** The draws kept from a prefix of the stream are a prefix of those kept
      from the whole stream. */
  lemma {:induction false} AcceptedPrefix(draws: seq<Card>, dealt: seq<Card>, n: int)
    requires 0 <= n <= |draws|
    ensures |Accepted(draws[..n], dealt)| <= |Accepted(draws, dealt)|
    ensures Accepted(draws[..n], dealt) == Accepted(draws, dealt)[..|Accepted(draws[..n], dealt)|]
    decreases |draws|
  {
    if n == |draws| {
      assert draws[..n] == draws;
    } else {
      var init := draws[..|draws| - 1];
      assert init[..n] == draws[..n];
      AcceptedPrefix(init, dealt, n);
      AcceptedStep(draws, dealt, |draws| - 1);
      assert draws[..|draws|] == draws;
    }
  }

  /** A draw kept after the first n kept draws is kept draw number n. */
  lemma KeptNext(draws: seq<Card>, dealt: seq<Card>, m: int, n: int, d: Card)
    requires 0 <= m <= |draws| && 0 <= n <= |Accepted(draws, dealt)|
    requires Accepted(draws[..m], dealt) == Accepted(draws, dealt)[..n] + [d]
    ensures n < |Accepted(draws, dealt)| && Accepted(draws, dealt)[n] == d
    ensures Accepted(draws[..m], dealt) == Accepted(draws, dealt)[..n + 1]
  {
    AcceptedPrefix(draws, dealt, m);
    assert Accepted(draws[..m], dealt)[n] == d;
  }

  /** Whether the canonical hand with one card discarded (`others`) and the
      draw d added, put back in canonical order, beats the reference. */
  predicate Improves(ref: Descriptor, others: seq<Card>, d: Card)
    requires |others| == HAND_SIZE - 1
  {
    Greater(ClassifyCards(SortCards(others + [d])), ref)
  }

  /** For each draw of ds, whether it improves the hand. */
  function Outcomes(ref: Descriptor, others: seq<Card>, ds: seq<Card>): (hits: seq<bool>)
    requires |others| == HAND_SIZE - 1
    ensures |hits| == |ds|
  {
    seq(|ds|, k requires 0 <= k < |ds| => Improves(ref, others, ds[k]))
  }

  /** The number of hits: the `numOfImprovements` counter. */
  function CountTrue(hits: seq<bool>): (n: nat)
    ensures n <= |hits|
  {
    if hits == [] then 0
    else CountTrue(hits[..|hits| - 1]) + (if hits[|hits| - 1] then 1 else 0)
  }

  /** No hit is counted exactly when there is none, and all are counted
      exactly when every outcome is a hit. */
  lemma {:induction false} CountTrueMeaning(hits: seq<bool>)
    ensures CountTrue(hits) == 0 <==> forall k :: 0 <= k < |hits| ==> !hits[k]
    ensures CountTrue(hits) == |hits| <==> forall k :: 0 <= k < |hits| ==> hits[k]
    decreases |hits|
  {
    if hits != [] {
      var init := hits[..|hits| - 1];
      CountTrueMeaning(init);
      assert forall k :: 0 <= k < |init| ==> init[k] == hits[k];
    }
  }

  /** One more outcome: counted when it is a hit. */
  lemma CountTrueSnoc(hits: seq<bool>, b: bool)
    ensures CountTrue(hits + [b]) == CountTrue(hits) + (if b then 1 else 0)
  {
    assert (hits + [b])[..|hits|] == hits;
  }

  /** The number of draws in the first i blocks of n draws each, that is
      i * n, written so that it can be followed block by block. */
  function Blocks(i: nat, n: nat): nat {
    if i == 0 then 0 else Blocks(i - 1, n) + n
  }

  lemma {:induction false} BlocksProduct(i: nat, n: nat)
    ensures Blocks(i, n) == i * n
    decreases i
  {
    if i > 0 {
      BlocksProduct(i - 1, n);
    }
  }

  /** Block i lies within the five blocks. */
  lemma BlockBounds(i: int, n: nat)
    requires 0 <= i < HAND_SIZE
    ensures Blocks(i, n) + n == Blocks(i + 1, n) <= Blocks(HAND_SIZE, n)
  {
    assert Blocks(1, n) == n;
    assert Blocks(2, n) == Blocks(1, n) + n;
    assert Blocks(3, n) == Blocks(2, n) + n;
    assert Blocks(4, n) == Blocks(3, n) + n;
  }

  /** The dealt hand in canonical order with slot i discarded: the four
      cards kept and the discarded card make up the dealt hand. */
  lemma DiscardSetup(dealt: seq<Card>, i: int)
    requires |dealt| == HAND_SIZE && 0 <= i < HAND_SIZE && ValidCards(dealt)
    ensures |SortCards(dealt)| == HAND_SIZE && ValidCards(SortCards(dealt))
    ensures |Without(SortCards(dealt), i)| == HAND_SIZE - 1
    ensures multiset(Without(SortCards(dealt), i)) + multiset{SortCards(dealt)[i]} == multiset(dealt)
    ensures SortCards(dealt)[i] in dealt
  {
    var sorted := SortCards(dealt);
    WithoutMultiset(sorted, i);
    ValidCardsPermutation(dealt, sorted);
    assert sorted[i] in multiset(dealt);
  }

  /** For each draw of ds, whether `hit` holds of it: the outcomes of the
      draws under a test given as a value. */
  function Marks(hit: Card -> bool, ds: seq<Card>): (marks: seq<bool>)
    ensures |marks| == |ds|
  {
    seq(|ds|, k requires 0 <= k < |ds| => hit(ds[k]))
  }

  /** One more draw adds one to the count of marks exactly when it is marked. */
  lemma MarkStep(hit: Card -> bool, block: seq<Card>, d: Card, n: int)
    requires n == CountTrue(Marks(hit, block))
    ensures (if hit(d) then n + 1 else n) == CountTrue(Marks(hit, block + [d]))
  {
    assert Marks(hit, block + [d]) == Marks(hit, block) + [hit(d)];
    CountTrueSnoc(Marks(hit, block), hit(d));
  }

  /** Marking with the improvement test gives the outcomes. */
  lemma MarksImprove(ref: Descriptor, others: seq<Card>, hit: Card -> bool, ds: seq<Card>)
    requires |others| == HAND_SIZE - 1
    requires forall c :: hit(c) == Improves(ref, others, c)
    ensures Marks(hit, ds) == Outcomes(ref, others, ds)
  {
  }

  /** The number of improvements counted when slot i of the canonical hand
      is discarded: block i of n kept draws, tried one by one. */
  function Trial(ref: Descriptor, sorted: seq<Card>, kept: seq<Card>, i: int, n: nat): (count: nat)
    requires |sorted| == HAND_SIZE && 0 <= i < HAND_SIZE && Blocks(HAND_SIZE, n) <= |kept|
    ensures count <= n
  {
    BlockBounds(i, n);
    CountTrue(Outcomes(ref, Without(sorted, i), kept[Blocks(i, n) .. Blocks(i + 1, n)]))
  }

  /** The cards in hand once the pass for slot i is over: the hand in
      canonical order without slot i, and the last draw kept for that slot
      (the discarded card itself when no draw is made). */
  function HeldAfter(sorted: seq<Card>, kept: seq<Card>, i: int, n: nat): multiset<Card>
    requires |sorted| == HAND_SIZE && 0 <= i < HAND_SIZE && Blocks(HAND_SIZE, n) <= |kept|
  {
    BlockBounds(i, n);
    multiset(Without(sorted, i)) + multiset{if n == 0 then sorted[i] else kept[Blocks(i + 1, n) - 1]}
  }

  /** The hand left by the sample loop for slot i, described by the four
      cards kept and the last card drawn, is the one `HeldAfter` names. */
  lemma HeldAfterPass(sorted: seq<Card>, kept: seq<Card>, i: int, n: nat, last: Card, stop: int)
    requires |sorted| == HAND_SIZE && 0 <= i < HAND_SIZE && Blocks(HAND_SIZE, n) <= |kept|
    requires stop == Blocks(i + 1, n) <= |kept|
    requires last == if n == 0 then sorted[i] else kept[stop - 1]
    ensures multiset(Without(sorted, i)) + multiset{last} == HeldAfter(sorted, kept, i, n)
  {
  }

  /** Trial i is the number of marks in block i when the marks are those of
      the improvement test for slot i. */
  lemma TrialMarks(ref: Descriptor, sorted: seq<Card>, kept: seq<Card>, i: int, n: nat, hit: Card -> bool)
    requires |sorted| == HAND_SIZE && 0 <= i < HAND_SIZE && Blocks(HAND_SIZE, n) <= |kept|
    requires forall c :: hit(c) == Improves(ref, Without(sorted, i), c)
    ensures Blocks(i, n) + n <= |kept|
    ensures Trial(ref, sorted, kept, i, n) == CountTrue(Marks(hit, kept[Blocks(i, n) .. Blocks(i + 1, n)]))
  {
    BlockBounds(i, n);
    var block := kept[Blocks(i, n) .. Blocks(i + 1, n)];
    assert Trial(ref, sorted, kept, i, n) == CountTrue(Outcomes(ref, Without(sorted, i), block));
    MarksImprove(ref, Without(sorted, i), hit, block);
    assert Marks(hit, block) == Outcomes(ref, Without(sorted, i), block);
  }

  /** The `improvements` entries written by the first i passes: the count of
      pass ii sits in the slot of the dealt hand that holds the card in slot
      ii of the canonical hand. */
  ghost predicate Recorded(imp: seq<int>, ref: Descriptor, sorted: seq<Card>, dealt: seq<Card>,
                           kept: seq<Card>, n: nat, i: int)
    requires |sorted| == HAND_SIZE && Blocks(HAND_SIZE, n) <= |kept|
  {
    forall ii, j :: 0 <= ii < i && ii < HAND_SIZE && 0 <= j < |dealt| && j < |imp| && sorted[ii] == dealt[j] ==>
      imp[j] == Trial(ref, sorted, kept, ii, n)
  }

  /** Pass i stores the number of marks of its block, with the marks of the
      improvement test for slot i, in the dealt slot holding the card of
      slot i: the record then covers pass i too. No other dealt slot holds
      that card, and no earlier pass had it. */
  lemma RecordStep(imp0: seq<int>, imp1: seq<int>, slot: int, count: int, ref: Descriptor,
                   sorted: seq<Card>, dealt: seq<Card>, kept: seq<Card>, n: nat, i: int, hit: Card -> bool)
    requires |sorted| == HAND_SIZE && Blocks(HAND_SIZE, n) <= |kept| && 0 <= i < HAND_SIZE
    requires Blocks(i, n) <= Blocks(i + 1, n) <= |kept|
    requires |dealt| == |imp0| == HAND_SIZE && multiset(sorted) == multiset(dealt) && !HasRepeat(dealt)
    requires 0 <= slot < HAND_SIZE && dealt[slot] == sorted[i] && imp1 == imp0[slot := count]
    requires forall c :: hit(c) == Improves(ref, Without(sorted, i), c)
    requires count == CountTrue(Marks(hit, kept[Blocks(i, n) .. Blocks(i + 1, n)]))
    requires Recorded(imp0, ref, sorted, dealt, kept, n, i)
    ensures Recorded(imp1, ref, sorted, dealt, kept, n, i + 1)
  {
    TrialMarks(ref, sorted, kept, i, n, hit);
    NoRepeatSub(sorted, dealt);
    forall ii, j | 0 <= ii < i + 1 && ii < HAND_SIZE && 0 <= j < |dealt| && j < |imp1| && sorted[ii] == dealt[j]
      ensures imp1[j] == Trial(ref, sorted, kept, ii, n)
    {
      if j == slot && ii < i {
        assert false;
      } else if j != slot && ii == i {
        assert false;
      }
    }
  }

  /** Once all five passes are recorded, every entry is a count of at most n
      draws: every dealt card sits in some slot of the canonical hand. */
  lemma RecordedBounds(imp: seq<int>, ref: Descriptor, sorted: seq<Card>, dealt: seq<Card>, kept: seq<Card>, n: nat)
    requires |sorted| == HAND_SIZE && Blocks(HAND_SIZE, n) <= |kept| && |imp| == |dealt|
    requires sorted == SortCards(dealt)
    requires Recorded(imp, ref, sorted, dealt, kept, n, HAND_SIZE)
    ensures forall j :: 0 <= j < |imp| ==> 0 <= imp[j] <= n
  {
    forall j | 0 <= j < |imp| ensures 0 <= imp[j] <= n {
      SortCardsHolds(dealt, j);
      var ii :| 0 <= ii < HAND_SIZE && sorted[ii] == dealt[j];
      assert imp[j] == Trial(ref, sorted, kept, ii, n);
    }
  }

  /** With a hand that has no repeated card, putting d in slot k gives a
      repeated card or puts back the discarded card `out` exactly when d is
      one of the dealt cards: the rejection test of the draw loop. */
  lemma ReplacementRejected(h: seq<Card>, k: int, d: Card, out: Card, dealt: seq<Card>)
    requires 0 <= k < |h|
    requires multiset(Without(h, k)) + multiset{out} == multiset(dealt) && !HasRepeat(dealt)
    ensures HasRepeat(h[k := d]) || d == out <==> d in dealt
  {
    var rest := Without(h, k);
    NoRepeatSub(rest, dealt);
    ReplaceRepeat(h, k, d);
    assert d in dealt <==> d in multiset(dealt);
    assert d in rest <==> d in multiset(rest);
  }

  // ---------------------------------------------------------- the example

  /** The hand of the worked example, as dealt: 2D 2C 5H 2H 2S. */
  const EXAMPLE: seq<Card> :=
    [Card(2, 'D'), Card(2, 'C'), Card(5, 'H'), Card(2, 'H'), Card(2, 'S')]

  lemma ExampleRankColumn()
    ensures multiset(Ranks(EXAMPLE)) == multiset([2, 2, 2, 2, 5])
  {
    var r := Ranks(EXAMPLE);
    assert r == [2, 2, 5, 2, 2];
    assert multiset(r) == multiset{2, 2, 5, 2, 2};
    assert multiset([2, 2, 2, 2, 5]) == multiset{2, 2, 2, 2, 5};
  }

  lemma SortedFourDeuces(r: seq<int>)
    requires Sorted(r) && multiset(r) == multiset([2, 2, 2, 2, 5])
    ensures r == [2, 2, 2, 2, 5]
  {
    assert Sorted([2, 2, 2, 2, 5]);
    SortedPermutationEqual(r, [2, 2, 2, 2, 5]);
  }

  /** In canonical order the example's ranks are four deuces and a five. */
  lemma ExampleRanks(dealt: seq<Card>)
    requires multiset(dealt) == multiset(EXAMPLE)
    ensures |dealt| == HAND_SIZE
    ensures Ranks(SortCards(dealt)) == [2, 2, 2, 2, 5]
  {
    var sorted := SortCards(dealt);
    PermutationKeepsColumns(sorted, EXAMPLE);
    ExampleRankColumn();
    SortedFourDeuces(Ranks(sorted));
  }

  lemma ClassifyFourDeuces(r: seq<int>, s: seq<char>)
    requires r == [2, 2, 2, 2, 5]
    ensures Classify(r, s) == Descriptor(FOUR_OF_A_KIND, 2, 0)
  {
    assert RunAt(r, 0, 4);
    assert OfAKindValue(r, 4) == 2;
    assert StraightValue(r) == 0;
  }

  /** The example, dealt in any order, is four of a kind in deuces. */
  lemma ExampleRank(dealt: seq<Card>)
    requires multiset(dealt) == multiset(EXAMPLE)
    ensures |dealt| == HAND_SIZE
    ensures ClassifyCards(SortCards(dealt)) == Descriptor(FOUR_OF_A_KIND, 2, 0)
  {
    ExampleRanks(dealt);
    var sorted := SortCards(dealt);
    ClassifyFourDeuces(Ranks(sorted), Suits(sorted));
  }

  /** A pair in front and a change of rank in the middle rule out a
      straight and four of a kind. */
  lemma BelowFourOfAKind(r: seq<int>, s: seq<char>)
    requires |r| == HAND_SIZE && r[0] == r[1] && r[2] != r[3]
    ensures Classify(r, s).major < FOUR_OF_A_KIND
  {
    assert r != WHEEL by { assert WHEEL[0] != WHEEL[1]; }
    assert !Consecutive(r) by { assert r[0] + 1 != r[1]; }
    assert OfAKindValue(r, 4) == 0;
  }

  /** Three deuces, a five and another rank v: no four of a kind and no
      straight flush. */
  lemma ThreeDeucesNoBetter(r: seq<int>, s: seq<char>, v: int)
    requires 2 < v && Sorted(r) && multiset(r) == multiset([2, 2, 2, 5, v])
    ensures |r| == HAND_SIZE && Classify(r, s).major < FOUR_OF_A_KIND
  {
    ThreeDeucesSorted(r, v);
    BelowFourOfAKind(r, s);
  }

  /** In order, three deuces, a five and a higher rank v start with three
      deuces followed by a higher rank. */
  lemma ThreeDeucesSorted(r: seq<int>, v: int)
    requires 2 < v && Sorted(r) && multiset(r) == multiset([2, 2, 2, 5, v])
    ensures |r| == HAND_SIZE && r[0] == r[1] == r[2] == 2 < r[3]
  {
    if v < 5 {
      ThreeDeucesLow(r, v);
    } else {
      ThreeDeucesHigh(r, v);
    }
  }

  lemma ThreeDeucesLow(r: seq<int>, v: int)
    requires 2 < v < 5 && Sorted(r) && multiset(r) == multiset([2, 2, 2, 5, v])
    ensures r == [2, 2, 2, v, 5]
  {
    assert multiset([2, 2, 2, v, 5]) == multiset([2, 2, 2, 5, v]);
    SortedPermutationEqual(r, [2, 2, 2, v, 5]);
  }

  lemma ThreeDeucesHigh(r: seq<int>, v: int)
    requires 5 <= v && Sorted(r) && multiset(r) == multiset([2, 2, 2, 5, v])
    ensures r == [2, 2, 2, 5, v]
  {
    SortedPermutationEqual(r, [2, 2, 2, 5, v]);
  }

  /** Four deuces and another rank v above them: the same four of a kind. */
  lemma FourDeucesNoBetter(r: seq<int>, s: seq<char>, v: int)
    requires v > 2 && Sorted(r) && multiset(r) == multiset([2, 2, 2, 2, v])
    ensures |r| == HAND_SIZE && !Greater(Classify(r, s), Descriptor(FOUR_OF_A_KIND, 2, 0))
  {
    assert |r| == |multiset(r)| == HAND_SIZE;
    assert Sorted([2, 2, 2, 2, v]);
    SortedPermutationEqual(r, [2, 2, 2, 2, v]);
    assert r[1] != WHEEL[1] && r[0] + 1 != r[1];
    assert StraightValue(r) == 0;
    assert RunAt(r, 0, 4);
  }

  /** The ranks once slot i of the sorted example is replaced by d. */
  lemma ExampleReplaced(sorted: seq<Card>, i: int, d: Card)
    requires Ranks(sorted) == [2, 2, 2, 2, 5] && 0 <= i < HAND_SIZE
    ensures Ranks(Without(sorted, i) + [d]) ==
      if i < HAND_SIZE - 1 then [2, 2, 2, 5, d.rank] else [2, 2, 2, 2, d.rank]
  {
    assert forall k :: 0 <= k < HAND_SIZE ==> sorted[k].rank == [2, 2, 2, 2, 5][k];
  }

  /** The example holds all four deuces: a valid card outside it ranks
      higher. */
  lemma ExampleHoldsAllDeuces(dealt: seq<Card>, d: Card)
    requires multiset(dealt) == multiset(EXAMPLE) && ValidCard(d) && d !in dealt
    ensures d.rank > 2
  {
    assert d !in multiset(EXAMPLE);
    assert d.suit in SUIT_LIST;
    assert d.suit == 'C' || d.suit == 'D' || d.suit == 'H' || d.suit == 'S';
  }

  /** No card outside the example hand improves it, whichever card is
      discarded: three deuces and a five with a new card make at best a full
      house, four deuces with a new card are the same four of a kind. */
  lemma ExampleNoDrawImproves(dealt: seq<Card>, i: int, d: Card)
    requires multiset(dealt) == multiset(EXAMPLE)
    requires 0 <= i < HAND_SIZE && ValidCard(d) && d !in dealt
    ensures |dealt| == HAND_SIZE
    ensures !Improves(Descriptor(FOUR_OF_A_KIND, 2, 0), Without(SortCards(dealt), i), d)
  {
    ExampleRanks(dealt);
    var sorted := SortCards(dealt);
    var others := Without(sorted, i);
    var v := d.rank;
    ExampleHoldsAllDeuces(dealt, d);
    var h := SortCards(others + [d]);
    PermutationKeepsColumns(h, others + [d]);
    ExampleReplaced(sorted, i, d);
    if i < HAND_SIZE - 1 {
      ThreeDeucesNoBetter(Ranks(h), Suits(h), v);
    } else {
      FourDeucesNoBetter(Ranks(h), Suits(h), v);
    }
  }

  /** No draw among ds improves the example. */
  lemma ExampleNoneImproves(dealt: seq<Card>, ds: seq<Card>, i: int)
    requires multiset(dealt) == multiset(EXAMPLE) && 0 <= i < HAND_SIZE
    requires forall k :: 0 <= k < |ds| ==> ValidCard(ds[k]) && ds[k] !in dealt
    ensures |dealt| == HAND_SIZE
    ensures forall k :: 0 <= k < |ds| ==>
      !Improves(Descriptor(FOUR_OF_A_KIND, 2, 0), Without(SortCards(dealt), i), ds[k])
  {
    ExampleRanks(dealt);
    forall k | 0 <= k < |ds|
      ensures !Improves(Descriptor(FOUR_OF_A_KIND, 2, 0), Without(SortCards(dealt), i), ds[k])
    {
      ExampleNoDrawImproves(dealt, i, ds[k]);
    }
  }

  /** Every card of a run of kept draws is a valid card outside the hand. */
  lemma AcceptedSlice(draws: seq<Card>, dealt: seq<Card>, a: int, b: int)
    requires ValidCards(draws) && 0 <= a <= b <= |Accepted(draws, dealt)|
    ensures forall k :: 0 <= k < b - a ==>
      ValidCard(Accepted(draws, dealt)[a..b][k]) && Accepted(draws, dealt)[a..b][k] !in dealt
  {
    var kept := Accepted(draws, dealt);
    forall k | 0 <= k < b - a ensures ValidCard(kept[a..b][k]) && kept[a..b][k] !in dealt {
      assert kept[a..b][k] == kept[a + k];
      AcceptedMembers(draws, dealt, kept[a + k]);
    }
  }

  /** A block with no marked draw has a count of zero. */
  lemma NoMarks(hit: Card -> bool, block: seq<Card>)
    requires forall k :: 0 <= k < |block| ==> !hit(block[k])
    ensures CountTrue(Marks(hit, block)) == 0
  {
    CountTrueMeaning(Marks(hit, block));
  }

  /** No draw of a block outside the example is marked by the improvement
      test against the example's descriptor. */
  lemma ExampleMarksZero(dealt: seq<Card>, block: seq<Card>, i: int, hit: Card -> bool)
    requires multiset(dealt) == multiset(EXAMPLE) && 0 <= i < HAND_SIZE
    requires forall k :: 0 <= k < |block| ==> ValidCard(block[k]) && block[k] !in dealt
    requires |dealt| == HAND_SIZE
    requires forall c :: hit(c) == Improves(Descriptor(FOUR_OF_A_KIND, 2, 0), Without(SortCards(dealt), i), c)
    ensures CountTrue(Marks(hit, block)) == 0
  {
    ExampleNoneImproves(dealt, block, i);
    NoMarks(hit, block);
  }

  /** Against the example's descriptor, no block of draws counts. */
  lemma ExampleTrialZero(dealt: seq<Card>, draws: seq<Card>, n: nat, i: int)
    requires multiset(dealt) == multiset(EXAMPLE)
    requires ValidCards(draws) && Blocks(HAND_SIZE, n) <= |Accepted(draws, dealt)|
    requires 0 <= i < HAND_SIZE
    ensures |dealt| == HAND_SIZE
    ensures Trial(Descriptor(FOUR_OF_A_KIND, 2, 0), SortCards(dealt), Accepted(draws, dealt), i, n) == 0
  {
    var ref, sorted, kept := Descriptor(FOUR_OF_A_KIND, 2, 0), SortCards(dealt), Accepted(draws, dealt);
    BlockBounds(i, n);
    AcceptedSlice(draws, dealt, Blocks(i, n), Blocks(i + 1, n));
    var hit := (c: Card) => Improves(ref, Without(sorted, i), c);
    TrialMarks(ref, sorted, kept, i, n, hit);
    ExampleMarksZero(dealt, kept[Blocks(i, n) .. Blocks(i + 1, n)], i, hit);
  }

  /** Every count of the example is zero, whatever the draws: each card
      scores 0.0%. */
  lemma ExampleCountsZero(dealt: seq<Card>, draws: seq<Card>, n: nat, i: int)
    requires multiset(dealt) == multiset(EXAMPLE)
    requires ValidCards(draws) && Blocks(HAND_SIZE, n) <= |Accepted(draws, dealt)|
    requires 0 <= i < HAND_SIZE
    ensures |dealt| == HAND_SIZE
    ensures Trial(ClassifyCards(SortCards(dealt)), SortCards(dealt), Accepted(draws, dealt), i, n) == 0
  {
    ExampleRank(dealt);
    ExampleTrialZero(dealt, draws, n, i);
  }

  /** For the example hand every recorded count is zero, whatever the
      draws: the output line of the example shows 0.0% for each card. */
  lemma ExampleAllZero(imp: seq<int>, dealt: seq<Card>, draws: seq<Card>, n: nat)
    requires |dealt| == HAND_SIZE && multiset(dealt) == multiset(EXAMPLE)
    requires ValidCards(draws) && Blocks(HAND_SIZE, n) <= |Accepted(draws, dealt)| && |imp| == |dealt|
    requires Recorded(imp, ClassifyCards(SortCards(dealt)), SortCards(dealt), dealt, Accepted(draws, dealt), n, HAND_SIZE)
    ensures forall j :: 0 <= j < |imp| ==> imp[j] == 0
  {
    var ref, sorted, kept := ClassifyCards(SortCards(dealt)), SortCards(dealt), Accepted(draws, dealt);
    forall j | 0 <= j < |imp| ensures imp[j] == 0 {
      SortCardsHolds(dealt, j);
      var ii :| 0 <= ii < HAND_SIZE && sorted[ii] == dealt[j];
      assert imp[j] == Trial(ref, sorted, kept, ii, n);
      ExampleCountsZero(dealt, draws, n, ii);
    }
  }
}

/** Hands as sequences: the rank and suit columns, canonical (rank) order,
    rank multiplicities, repeated cards, and a reference sort used to name
    "the canonical form" of a set of cards. */
module Hands {
  import opened Cards

  /** The cards held in parallel rank and suit columns. */
  function Zip(r: seq<int>, s: seq<char>): (cs: seq<Card>)
    requires |r| == |s|
  {
    seq(|r|, k requires 0 <= k < |r| => Card(r[k], s[k]))
  }

  function Ranks(cs: seq<Card>): seq<int> {
    seq(|cs|, k requires 0 <= k < |cs| => cs[k].rank)
  }

  function Suits(cs: seq<Card>): seq<char> {
    seq(|cs|, k requires 0 <= k < |cs| => cs[k].suit)
  }

  /** Canonical order: ranks never decrease. */
  predicate Sorted(r: seq<int>) {
    forall i, j :: 0 <= i <= j < |r| ==> r[i] <= r[j]
  }

  predicate ValidRanks(r: seq<int>) {
    forall k :: 0 <= k < |r| ==> ValidRank(r[k])
  }

  predicate ValidCards(cs: seq<Card>) {
    forall k :: 0 <= k < |cs| ==> ValidCard(cs[k])
  }

  /** Two different slots hold the same card (same rank and same suit). */
  predicate HasRepeat(cs: seq<Card>) {
    exists i, j :: 0 <= i < j < |cs| && cs[i] == cs[j]
  }

  /** What a signed 8-bit C `char` keeps of an int. */
  function AsChar(v: int): (c: int)
    ensures -128 <= c < 128
    ensures -128 <= v < 128 ==> c == v
  {
    (v + 128) % 256 - 128
  }

  /** Slots a < b hold the same card, comparing the rank of slot a after it
      has been stored in a `char`. */
  predicate RepeatAt(r: seq<int>, s: seq<char>, a: int, b: int)
    requires |r| == |s|
  {
    0 <= a < b < |r| && AsChar(r[a]) == r[b] && s[a] == s[b]
  }

  /** How many cards of rank v the ranks hold. */
  function Count(r: seq<int>, v: int): nat {
    if r == [] then 0 else (if r[0] == v then 1 else 0) + Count(r[1..], v)
  }

  /** Count on a five-card hand, written out slot by slot. */
  lemma CountFive(r: seq<int>, v: int)
    requires |r| == 5
    ensures Count(r, v) == (if r[0] == v then 1 else 0) + (if r[1] == v then 1 else 0)
      + (if r[2] == v then 1 else 0) + (if r[3] == v then 1 else 0) + (if r[4] == v then 1 else 0)
  {
    assert r[4..][1..] == [];
    assert Count(r[4..], v) == (if r[4] == v then 1 else 0);
    assert r[3..][1..] == r[4..];
    assert Count(r[3..], v) == (if r[3] == v then 1 else 0) + Count(r[4..], v);
    assert r[2..][1..] == r[3..];
    assert Count(r[2..], v) == (if r[2] == v then 1 else 0) + Count(r[3..], v);
    assert r[1..][1..] == r[2..];
    assert Count(r[1..], v) == (if r[1] == v then 1 else 0) + Count(r[2..], v);
  }

  /** The cards of rank v, in the order they appear. */
  function FilterRank(cs: seq<Card>, v: int): seq<Card> {
    if cs == [] then []
    else (if cs[0].rank == v then [cs[0]] else []) + FilterRank(cs[1..], v)
  }

  lemma {:induction false} FilterRankAppend(a: seq<Card>, b: seq<Card>, v: int)
    ensures FilterRank(a + b, v) == FilterRank(a, v) + FilterRank(b, v)
    decreases |a|
  {
    if a == [] {
      assert a + b == b;
    } else {
      var head := if a[0].rank == v then [a[0]] else [];
      assert (a + b)[0] == a[0] && (a + b)[1..] == a[1..] + b;
      FilterRankAppend(a[1..], b, v);
      assert FilterRank(a + b, v) == head + (FilterRank(a[1..], v) + FilterRank(b, v));
    }
  }

  /** Exchanging two neighbouring cards of different ranks leaves the order
      of the cards of every rank as it was. */
  lemma SwapKeepsFilter(cs: seq<Card>, i: int, v: int)
    requires 0 <= i && i + 1 < |cs| && cs[i].rank != cs[i + 1].rank
    ensures FilterRank(cs[..i] + [cs[i + 1], cs[i]] + cs[i + 2..], v) == FilterRank(cs, v)
  {
    var x, y, pre, post := cs[i], cs[i + 1], cs[..i], cs[i + 2..];
    assert cs == pre + ([x] + ([y] + post));
    assert cs[..i] + [y, x] + cs[i + 2..] == pre + ([y] + ([x] + post));
    FilterRankAppend(pre, [x] + ([y] + post), v);
    FilterRankAppend(pre, [y] + ([x] + post), v);
    FilterRankCons(x, [y] + post, v);
    FilterRankCons(y, post, v);
    FilterRankCons(y, [x] + post, v);
    FilterRankCons(x, post, v);
    var rest := FilterRank(post, v);
    if x.rank == v {
      assert [] + rest == rest && [] + ([x] + rest) == [x] + rest;
    } else if y.rank == v {
      assert [] + rest == rest && [] + ([y] + rest) == [y] + rest;
    } else {
      assert [] + rest == rest && [] + ([] + rest) == rest;
    }
  }

  /** The neighbour exchange of bubble sort, on the rank and suit columns. */
  lemma SwapNeighbours(rs: seq<int>, ss: seq<char>, i: int)
    requires |rs| == |ss| && 0 <= i && i + 1 < |rs| && rs[i] != rs[i + 1]
    ensures forall v ::
      FilterRank(Zip(rs[i := rs[i + 1]][i + 1 := rs[i]], ss[i := ss[i + 1]][i + 1 := ss[i]]), v)
      == FilterRank(Zip(rs, ss), v)
  {
    var cs := Zip(rs, ss);
    assert Zip(rs[i := rs[i + 1]][i + 1 := rs[i]], ss[i := ss[i + 1]][i + 1 := ss[i]])
      == cs[..i] + [cs[i + 1], cs[i]] + cs[i + 2..];
    forall v {
      SwapKeepsFilter(cs, i, v);
    }
  }

  lemma SortedCons(c: Card, s: seq<Card>)
    requires Sorted(Ranks(s))
    requires forall k :: 0 <= k < |s| ==> c.rank <= s[k].rank
    ensures Sorted(Ranks([c] + s))
  {
    var r := Ranks([c] + s);
    forall i, j | 0 <= i <= j < |r| ensures r[i] <= r[j] {
      if i > 0 { assert r[i] == Ranks(s)[i - 1] && r[j] == Ranks(s)[j - 1]; }
    }
  }
  /** Insertion of c into a sorted hand after every card of rank <= c.rank. */
  function Insert(s: seq<Card>, c: Card): (t: seq<Card>)
    requires Sorted(Ranks(s))
    ensures Sorted(Ranks(t))
    ensures multiset(t) == multiset(s) + multiset{c}
    ensures |t| == |s| + 1
    ensures forall k :: 0 <= k < |t| ==> t[k] == c || t[k] in s
  {
    if s == [] || c.rank < s[0].rank then
      InsertFront(s, c);
      [c] + s
    else
      SortedTail(Ranks(s));
      assert Ranks(s[1..]) == Ranks(s)[1..];
      var t' := Insert(s[1..], c);
      InsertBehind(s, c, t');
      [s[0]] + t'
  }

  /** A card ranked below the whole hand goes in front. */
  lemma InsertFront(s: seq<Card>, c: Card)
    requires Sorted(Ranks(s)) && (s == [] || c.rank < s[0].rank)
    ensures Sorted(Ranks([c] + s))
  {
    forall k | 0 <= k < |s| ensures c.rank <= s[k].rank {
      assert Ranks(s)[0] <= Ranks(s)[k];
    }
    SortedCons(c, s);
  }

  /** Otherwise the first card stays in front of the insertion into the rest. */
  lemma InsertBehind(s: seq<Card>, c: Card, t': seq<Card>)
    requires Sorted(Ranks(s)) && s != [] && s[0].rank <= c.rank
    requires Sorted(Ranks(t')) && multiset(t') == multiset(s[1..]) + multiset{c}
    requires forall k :: 0 <= k < |t'| ==> t'[k] == c || t'[k] in s[1..]
    ensures Sorted(Ranks([s[0]] + t'))
    ensures multiset([s[0]] + t') == multiset(s) + multiset{c}
    ensures forall k :: 0 <= k < |[s[0]] + t'| ==> ([s[0]] + t')[k] == c || ([s[0]] + t')[k] in s
  {
    assert s == [s[0]] + s[1..];
    forall k | 0 <= k < |t'| ensures s[0].rank <= t'[k].rank {
      if t'[k] != c {
        var m :| 0 <= m < |s[1..]| && s[1..][m] == t'[k];
        assert Ranks(s)[0] <= Ranks(s)[m + 1];
      }
    }
    SortedCons(s[0], t');
  }

  /** A reference sort by rank: the canonical form of a collection of cards. */
  function SortCards(cs: seq<Card>): (t: seq<Card>)
    ensures Sorted(Ranks(t))
    ensures multiset(t) == multiset(cs)
    ensures |t| == |cs|
  {
    if cs == [] then []
    else
      assert cs == cs[..|cs| - 1] + [cs[|cs| - 1]];
      Insert(SortCards(cs[..|cs| - 1]), cs[|cs| - 1])
  }

  lemma ZipColumns(r: seq<int>, s: seq<char>)
    requires |r| == |s|
    ensures Ranks(Zip(r, s)) == r && Suits(Zip(r, s)) == s
  {
  }

  lemma FilterRankCons(c: Card, cs: seq<Card>, v: int)
    ensures FilterRank([c] + cs, v) == (if c.rank == v then [c] else []) + FilterRank(cs, v)
  {
    assert ([c] + cs)[1..] == cs;
  }

  /** Every card the filter keeps is a card of the hand with rank v. */
  lemma {:induction false} FilterRankMember(cs: seq<Card>, v: int, c: Card)
    requires c in FilterRank(cs, v)
    ensures c in cs && c.rank == v
    decreases |cs|
  {
    if c != cs[0] || cs[0].rank != v {
      FilterRankMember(cs[1..], v, c);
    }
  }

  lemma {:induction false} FilterRankNone(cs: seq<Card>, v: int)
    requires forall k :: 0 <= k < |cs| ==> cs[k].rank != v
    ensures FilterRank(cs, v) == []
    decreases |cs|
  {
    if cs != [] {
      FilterRankNone(cs[1..], v);
    }
  }

  /** Insert places c after the cards of its rank already in the hand. */
  lemma {:induction false} InsertStable(s: seq<Card>, c: Card, v: int)
    requires Sorted(Ranks(s))
    ensures FilterRank(Insert(s, c), v) == FilterRank(s, v) + FilterRank([c], v)
    decreases |s|
  {
    FilterRankCons(c, [], v);
    if s == [] || c.rank < s[0].rank {
      FilterRankCons(c, s, v);
      if c.rank == v {
        forall k | 0 <= k < |s| ensures s[k].rank != v {
          assert Ranks(s)[0] <= Ranks(s)[k];
        }
        FilterRankNone(s, v);
      }
    } else {
      assert Ranks(s[1..]) == Ranks(s)[1..];
      SortedTail(Ranks(s));
      InsertStable(s[1..], c, v);
      FilterRankCons(s[0], Insert(s[1..], c), v);
      FilterRankCons(s[0], s[1..], v);
      assert s == [s[0]] + s[1..];
    }
  }

  lemma SplitLast(cs: seq<Card>)
    requires cs != []
    ensures cs == cs[..|cs| - 1] + [cs[|cs| - 1]]
  {
  }

  /** The reference sort is stable: the cards of each rank keep their order. */
  lemma {:induction false} SortCardsStable(cs: seq<Card>, v: int)
    ensures FilterRank(SortCards(cs), v) == FilterRank(cs, v)
    decreases |cs|
  {
    if cs != [] {
      var init, last := cs[..|cs| - 1], cs[|cs| - 1];
      SplitLast(cs);
      assert SortCards(cs) == Insert(SortCards(init), last);
      SortCardsStable(init, v);
      InsertStable(SortCards(init), last, v);
      FilterRankAppend(init, [last], v);
    }
  }

  lemma FilterRankOfFirst(cs: seq<Card>)
    ensures cs != [] ==> FilterRank(cs, cs[0].rank) != []
  {
  }

  /** Two hands in canonical order that hold the cards of every rank in the
      same order are the same hand. */
  lemma {:induction false} StableSortUnique(a: seq<Card>, b: seq<Card>)
    requires Sorted(Ranks(a)) && Sorted(Ranks(b))
    requires forall v :: FilterRank(a, v) == FilterRank(b, v)
    ensures a == b
    decreases |a|
  {
    if a == [] || b == [] {
      FilterRankOfFirst(a);
      FilterRankOfFirst(b);
      if a != [] || b != [] {
        assert false;
      }
    } else {
      var va, vb := a[0].rank, b[0].rank;
      assert FilterRank(a, va)[0] == a[0];
      assert FilterRank(b, vb)[0] == b[0];
      var x := FilterRank(b, va)[0];
      FilterRankMember(b, va, x);
      var kx :| 0 <= kx < |b| && b[kx] == x;
      assert Ranks(b)[0] <= Ranks(b)[kx];
      var y := FilterRank(a, vb)[0];
      FilterRankMember(a, vb, y);
      var ky :| 0 <= ky < |a| && a[ky] == y;
      assert Ranks(a)[0] <= Ranks(a)[ky];
      assert va == vb;
      assert a[0] == b[0];
      assert a == [a[0]] + a[1..];
      assert b == [b[0]] + b[1..];
      forall v ensures FilterRank(a[1..], v) == FilterRank(b[1..], v) {
        assert FilterRank(a, v) == FilterRank(b, v);
        FilterRankCons(a[0], a[1..], v);
        FilterRankCons(b[0], b[1..], v);
        var head := if a[0].rank == v then [a[0]] else [];
        assert FilterRank(a[1..], v) == (head + FilterRank(a[1..], v))[|head|..];
        assert FilterRank(b[1..], v) == (head + FilterRank(b[1..], v))[|head|..];
      }
      assert Ranks(a[1..]) == Ranks(a)[1..];
      assert Ranks(b[1..]) == Ranks(b)[1..];
      SortedTail(Ranks(a));
      SortedTail(Ranks(b));
      StableSortUnique(a[1..], b[1..]);
    }
  }

  /** A hand already in canonical order is its own canonical form. */
  lemma SortCardsOfSorted(cs: seq<Card>)
    requires Sorted(Ranks(cs))
    ensures SortCards(cs) == cs
  {
    forall v ensures FilterRank(SortCards(cs), v) == FilterRank(cs, v) {
      SortCardsStable(cs, v);
    }
    StableSortUnique(SortCards(cs), cs);
  }

  lemma SortedTail(x: seq<int>)
    requires Sorted(x) && x != []
    ensures Sorted(x[1..])
  {
    forall i, j | 0 <= i <= j < |x| - 1 ensures x[1..][i] <= x[1..][j] {
      assert x[1..][i] == x[i + 1] && x[1..][j] == x[j + 1];
    }
  }
  lemma MultisetTail<T>(x: seq<T>)
    requires x != []
    ensures multiset(x[1..]) == multiset(x) - multiset{x[0]}
  {
    assert x == [x[0]] + x[1..];
    assert multiset(x) == multiset{x[0]} + multiset(x[1..]);
  }
  /** Two sorted integer sequences with the same elements are the same. */
  lemma {:induction false} SortedPermutationEqual(x: seq<int>, y: seq<int>)
    requires Sorted(x) && Sorted(y) && multiset(x) == multiset(y)
    ensures x == y
    decreases |x|
  {
    assert |x| == |multiset(x)| == |multiset(y)| == |y|;
    if x != [] {
      assert x[0] in y by { assert x[0] in multiset(y); }
      assert y[0] in x by { assert y[0] in multiset(x); }
      assert x[0] == y[0];
      MultisetTail(x);
      MultisetTail(y);
      SortedTail(x);
      SortedTail(y);
      SortedPermutationEqual(x[1..], y[1..]);
      assert x == [x[0]] + x[1..];
      assert y == [y[0]] + y[1..];
    }
  }

  lemma RanksAppend(a: seq<Card>, b: seq<Card>)
    ensures Ranks(a + b) == Ranks(a) + Ranks(b)
    ensures Suits(a + b) == Suits(a) + Suits(b)
  {
  }

  /** A permutation of the cards permutes their ranks and their suits. */
  lemma {:induction false} PermutationKeepsColumns(a: seq<Card>, b: seq<Card>)
    requires multiset(a) == multiset(b)
    ensures multiset(Ranks(a)) == multiset(Ranks(b))
    ensures multiset(Suits(a)) == multiset(Suits(b))
    decreases |a|
  {
    assert |a| == |multiset(a)| == |b|;
    if a != [] {
      assert a[0] in multiset(b);
      var k :| 0 <= k < |b| && b[k] == a[0];
      var rest := b[..k] + b[k + 1..];
      assert b == b[..k] + [b[k]] + b[k + 1..];
      assert a == [a[0]] + a[1..];
      assert multiset(b) == multiset(b[..k]) + multiset{b[k]} + multiset(b[k + 1..]);
      assert multiset(rest) == multiset(b[..k]) + multiset(b[k + 1..]);
      assert multiset(rest) == multiset(b) - multiset{a[0]};
      MultisetTail(a);
      PermutationKeepsColumns(a[1..], rest);
      RanksAppend([a[0]], a[1..]);
      RanksAppend(b[..k] + [b[k]], b[k + 1..]);
      RanksAppend(b[..k], [b[k]]);
      RanksAppend(b[..k], b[k + 1..]);
    }
  }

  /** The hand with slot i taken out. */
  function Without(cs: seq<Card>, i: int): (rest: seq<Card>)
    requires 0 <= i < |cs|
    ensures |rest| == |cs| - 1
  {
    cs[..i] + cs[i + 1..]
  }

  /** Taking a card out of the hand takes one copy of it out of the
      multiset. */
  lemma WithoutMultiset(cs: seq<Card>, i: int)
    requires 0 <= i < |cs|
    ensures multiset(Without(cs, i)) == multiset(cs) - multiset{cs[i]}
    ensures multiset(Without(cs, i)) + multiset{cs[i]} == multiset(cs)
  {
    assert cs == cs[..i] + [cs[i]] + cs[i + 1..];
  }

  /** Putting d in slot i: the other cards plus d. */
  lemma MultisetReplace(cs: seq<Card>, i: int, d: Card)
    requires 0 <= i < |cs|
    ensures multiset(cs[i := d]) == multiset(Without(cs, i)) + multiset{d}
  {
    assert cs[i := d] == cs[..i] + [d] + cs[i + 1..];
  }

  /** A card held in two slots is counted twice. */
  lemma RepeatCount(cs: seq<Card>, a: int, b: int)
    requires 0 <= a < b < |cs| && cs[a] == cs[b]
    ensures multiset(cs)[cs[a]] >= 2
  {
    assert cs == cs[..a] + [cs[a]] + cs[a + 1..b] + [cs[b]] + cs[b + 1..];
  }

  /** A card counted twice is held in two slots. */
  lemma CountRepeat(cs: seq<Card>, x: Card)
    requires multiset(cs)[x] >= 2
    ensures HasRepeat(cs)
  {
    assert x in multiset(cs);
    var a :| 0 <= a < |cs| && cs[a] == x;
    WithoutMultiset(cs, a);
    assert multiset(Without(cs, a))[x] >= 1;
    var b :| 0 <= b < |cs| - 1 && Without(cs, a)[b] == x;
    if b < a {
      assert cs[b] == x;
    } else {
      assert cs[b + 1] == x;
    }
  }

  /** Fewer copies of each card than a hand without repeats: no repeats. */
  lemma NoRepeatSub(x: seq<Card>, y: seq<Card>)
    requires multiset(x) <= multiset(y) && !HasRepeat(y)
    ensures !HasRepeat(x)
  {
    if HasRepeat(x) {
      var a, b :| 0 <= a < b < |x| && x[a] == x[b];
      RepeatCount(x, a, b);
      CountRepeat(y, x[a]);
    }
  }

  lemma ValidCardsPermutation(x: seq<Card>, y: seq<Card>)
    requires multiset(x) == multiset(y) && ValidCards(x)
    ensures ValidCards(y)
  {
    forall k | 0 <= k < |y| ensures ValidCard(y[k]) {
      assert y[k] in multiset(x);
    }
  }

  /** Where the card of slot a lands once slot k is taken out. */
  lemma WithoutAt(cs: seq<Card>, k: int, a: int)
    ensures 0 <= k < |cs| && 0 <= a < |cs| && a != k ==>
      Without(cs, k)[if a < k then a else a - 1] == cs[a]
  {
  }

  /** When the other cards hold no repeat, putting d in slot k makes a
      repeat exactly when d is among them. */
  lemma ReplaceRepeat(cs: seq<Card>, k: int, d: Card)
    requires 0 <= k < |cs| && !HasRepeat(Without(cs, k))
    ensures HasRepeat(cs[k := d]) <==> d in Without(cs, k)
  {
    var rest := Without(cs, k);
    var cs' := cs[k := d];
    if HasRepeat(cs') {
      var a, b :| 0 <= a < b < |cs'| && cs'[a] == cs'[b];
      if a == k {
        assert rest[b - 1] == d;
      } else if b == k {
        assert rest[a] == d;
      } else {
        WithoutAt(cs, k, a);
        WithoutAt(cs, k, b);
        assert false;
      }
    }
    if d in rest {
      var m :| 0 <= m < |rest| && rest[m] == d;
      if m < k {
        assert cs'[m] == cs'[k];
      } else {
        assert cs'[m + 1] == cs'[k];
      }
    }
  }

  /** Replacing the card of slot i leaves the other cards alone. */
  lemma WithoutReplace(cs: seq<Card>, i: int, d: Card)
    requires 0 <= i < |cs|
    ensures Without(cs[i := d], i) == Without(cs, i)
  {
    assert cs[i := d][..i] == cs[..i] && cs[i := d][i + 1..] == cs[i + 1..];
  }

  /** Writing a rank and a suit into slot k of the two columns writes that
      card into slot k of the hand. */
  lemma ZipUpdate(r: seq<int>, s: seq<char>, k: int, rank: int, suit: char)
    requires |r| == |s| && 0 <= k < |r|
    ensures Zip(r[k := rank], s[k := suit]) == Zip(r, s)[k := Card(rank, suit)]
  {
  }

  lemma ValidCardsRanks(r: seq<int>, s: seq<char>)
    requires |r| == |s| && ValidCards(Zip(r, s))
    ensures ValidRanks(r)
  {
    forall k | 0 <= k < |r| ensures ValidRank(r[k]) {
      assert ValidCard(Zip(r, s)[k]);
    }
  }

  lemma ValidCardsUpdate(cs: seq<Card>, k: int, c: Card)
    requires ValidCards(cs) && ValidCard(c) && 0 <= k < |cs|
    ensures ValidCards(cs[k := c])
  {
  }

  /** Two hands that agree outside slot k agree everywhere once the same
      card is put in slot k. */
  lemma SameOutside(a: seq<Card>, b: seq<Card>, k: int, d: Card)
    requires |a| == |b| && 0 <= k < |a| && Without(a, k) == Without(b, k)
    ensures a[k := d] == b[k := d]
  {
    forall m | 0 <= m < |a| && m != k ensures a[m] == b[m] {
      WithoutAt(a, k, m);
      WithoutAt(b, k, m);
    }
  }

  /** Every card of a hand has a slot in the hand sorted. */
  lemma SortCardsHolds(cs: seq<Card>, j: int)
    requires 0 <= j < |cs|
    ensures exists i :: 0 <= i < |cs| && SortCards(cs)[i] == cs[j]
  {
    assert cs[j] in multiset(SortCards(cs));
  }

  /** A slice one longer ends with the next element. */
  lemma SliceExtend(cs: seq<Card>, a: int, b: int)
    requires 0 <= a <= b < |cs|
    ensures cs[a .. b + 1] == cs[a .. b] + [cs[b]]
  {
  }
}

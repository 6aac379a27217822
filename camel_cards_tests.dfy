/**
 * The unit tests of `2023/day-07/src/main.rs` (lines 163-272), stated as lemmas about the
 * model in `camel_cards.dfy`: the parse of one line, the seven hand types, the joker hands
 * of the example, the order of the example's hands and their total winnings. The order of
 * the types (`enum_compare`) is `TypeOrder` in the model itself.
 */
module CamelCardsExamples {
  import opened Common
  import opened Text
  import opened CamelCards

  /** The parse test: `32T3K 765` is the hand 3, 2, T, 3, K with bid 765. */
  lemma ParseExample()
    ensures ParseHand("32T3K 765") == Some(Hand(765, [Three, Two, T, Three, K]))
  {
    var h := Hand(765, [Three, Two, T, Three, K]);
    forall j | 0 <= j < 5
      ensures CardsText(h.cards)[j] == "32T3K"[j]
    {
      CardsTextAt(h.cards, j);
    }
    assert CardsText(h.cards) == "32T3K";
    assert Decimal(765) == "765";
    assert FormatHand(h) == "32T3K 765";
    ParseHandRoundTrip(h);
  }

  lemma CountsOfTwo(a: Card, b: Card)
    ensures CountsOf([a, b]) == Bump(Bump(map[], a), b)
  {
    assert [a][..0] == [];
    assert CountsOf([a]) == Bump(map[], a);
    assert [a, b][..1] == [a];
  }

  lemma CountsOfThree(a: Card, b: Card, c: Card)
    ensures CountsOf([a, b, c]) == Bump(Bump(Bump(map[], a), b), c)
  {
    CountsOfTwo(a, b);
    assert [a, b, c][..2] == [a, b];
  }

  lemma CountsOfFour(a: Card, b: Card, c: Card, d: Card)
    ensures CountsOf([a, b, c, d]) == Bump(Bump(Bump(Bump(map[], a), b), c), d)
  {
    CountsOfThree(a, b, c);
    assert [a, b, c, d][..3] == [a, b, c];
  }

  /** Counting five cards is bumping the empty map five times, one card after the other. */
  lemma CountsOfFive(a: Card, b: Card, c: Card, d: Card, e: Card)
    ensures CountsOf([a, b, c, d, e]) == Bump(Bump(Bump(Bump(Bump(map[], a), b), c), d), e)
  {
    CountsOfFour(a, b, c, d);
    assert [a, b, c, d, e][..4] == [a, b, c, d];
  }

  /** A hand without jokers has the type its counts classify as. */
  lemma NoJokerType(cards: seq<Card>, items: map<Card, nat>, t: HandType)
    requires CountsOf(cards) == items && J !in items && Classify(items) == Some(t)
    ensures HandTypeOf(cards) == Some(t)
  {
  }

  /** A hand whose jokers all go to the strictly most frequent other kind `r`. */
  lemma JokerType(cards: seq<Card>, items: map<Card, nat>, r: Card, t: HandType)
    requires CountsOf(cards) == items && J in items && r in items && r != J
    requires forall c :: c in items && c != J && c != r ==> items[c] < items[r]
    requires Classify(GiveJokers(items, r)) == Some(t)
    ensures HandTypeOf(cards) == Some(t)
  {
    AllCardsComplete();
    JokersToBiggest(items, AllCards, r);
  }

  const CardsAAAAA: seq<Card> := [A, A, A, A, A]

  lemma CardsAAAAACounts()
    ensures CountsOf(CardsAAAAA) == map[A := 5]
  {
    CountsOfFive(A, A, A, A, A);
  }

  lemma CardsAAAAAClassify()
    ensures J !in map[A := 5]
    ensures Classify(map[A := 5]) == Some(FiveOfKind)
  {
  }

  /** `AAAAA` is a FiveOfKind. */
  lemma CardsAAAAAType()
    ensures HandTypeOf(CardsAAAAA) == Some(FiveOfKind)
    ensures |CardsAAAAA| == 5 && TypeOfFive(CardsAAAAA) == FiveOfKind
  {
    CardsAAAAACounts();
    CardsAAAAAClassify();
    NoJokerType(CardsAAAAA, map[A := 5], FiveOfKind);
  }

  const CardsAA8AA: seq<Card> := [A, A, Eight, A, A]

  lemma CardsAA8AACounts()
    ensures CountsOf(CardsAA8AA) == map[A := 4, Eight := 1]
  {
    CountsOfFive(A, A, Eight, A, A);
  }

  lemma CardsAA8AAClassify()
    ensures J !in map[A := 4, Eight := 1]
    ensures Classify(map[A := 4, Eight := 1]) == Some(FourOfKind)
  {
    var items := map[A := 4, Eight := 1];
    assert items[A] == 4;
  }

  /** `AA8AA` is a FourOfKind. */
  lemma CardsAA8AAType()
    ensures HandTypeOf(CardsAA8AA) == Some(FourOfKind)
    ensures |CardsAA8AA| == 5 && TypeOfFive(CardsAA8AA) == FourOfKind
  {
    CardsAA8AACounts();
    CardsAA8AAClassify();
    NoJokerType(CardsAA8AA, map[A := 4, Eight := 1], FourOfKind);
  }

  const Cards23332: seq<Card> := [Two, Three, Three, Three, Two]

  lemma Cards23332Counts()
    ensures CountsOf(Cards23332) == map[Two := 2, Three := 3]
  {
    CountsOfFive(Two, Three, Three, Three, Two);
  }

  lemma Cards23332Classify()
    ensures J !in map[Two := 2, Three := 3]
    ensures Classify(map[Two := 2, Three := 3]) == Some(FullHouse)
  {
    var items := map[Two := 2, Three := 3];
    assert items[Three] == 3;
  }

  /** `23332` is a FullHouse. */
  lemma Cards23332Type()
    ensures HandTypeOf(Cards23332) == Some(FullHouse)
    ensures |Cards23332| == 5 && TypeOfFive(Cards23332) == FullHouse
  {
    Cards23332Counts();
    Cards23332Classify();
    NoJokerType(Cards23332, map[Two := 2, Three := 3], FullHouse);
  }

  const CardsTTT98: seq<Card> := [T, T, T, Nine, Eight]

  lemma CardsTTT98Counts()
    ensures CountsOf(CardsTTT98) == map[T := 3, Nine := 1, Eight := 1]
  {
    CountsOfFive(T, T, T, Nine, Eight);
  }

  lemma CardsTTT98Classify()
    ensures J !in map[T := 3, Nine := 1, Eight := 1]
    ensures Classify(map[T := 3, Nine := 1, Eight := 1]) == Some(ThreeOfKind)
  {
    var items := map[T := 3, Nine := 1, Eight := 1];
    assert items[T] == 3;
  }

  /** `TTT98` is a ThreeOfKind. */
  lemma CardsTTT98Type()
    ensures HandTypeOf(CardsTTT98) == Some(ThreeOfKind)
    ensures |CardsTTT98| == 5 && TypeOfFive(CardsTTT98) == ThreeOfKind
  {
    CardsTTT98Counts();
    CardsTTT98Classify();
    NoJokerType(CardsTTT98, map[T := 3, Nine := 1, Eight := 1], ThreeOfKind);
  }

  const Cards23432: seq<Card> := [Two, Three, Four, Three, Two]

  lemma Cards23432Counts()
    ensures CountsOf(Cards23432) == map[Two := 2, Three := 2, Four := 1]
  {
    CountsOfFive(Two, Three, Four, Three, Two);
  }

  lemma Cards23432Classify()
    ensures J !in map[Two := 2, Three := 2, Four := 1]
    ensures Classify(map[Two := 2, Three := 2, Four := 1]) == Some(TwoPair)
  {
    var items := map[Two := 2, Three := 2, Four := 1];
    assert KindsCounted(items, 2) == {Two, Three};
  }

  /** `23432` is a TwoPair. */
  lemma Cards23432Type()
    ensures HandTypeOf(Cards23432) == Some(TwoPair)
    ensures |Cards23432| == 5 && TypeOfFive(Cards23432) == TwoPair
  {
    Cards23432Counts();
    Cards23432Classify();
    NoJokerType(Cards23432, map[Two := 2, Three := 2, Four := 1], TwoPair);
  }

  const CardsA23A4: seq<Card> := [A, Two, Three, A, Four]

  lemma CardsA23A4Counts()
    ensures CountsOf(CardsA23A4) == map[A := 2, Two := 1, Three := 1, Four := 1]
  {
    CountsOfFive(A, Two, Three, A, Four);
  }

  lemma CardsA23A4Classify()
    ensures J !in map[A := 2, Two := 1, Three := 1, Four := 1]
    ensures Classify(map[A := 2, Two := 1, Three := 1, Four := 1]) == Some(OnePair)
  {
    var items := map[A := 2, Two := 1, Three := 1, Four := 1];
    assert KindsCounted(items, 1) == {Two, Three, Four};
  }

  /** `A23A4` is a OnePair. */
  lemma CardsA23A4Type()
    ensures HandTypeOf(CardsA23A4) == Some(OnePair)
    ensures |CardsA23A4| == 5 && TypeOfFive(CardsA23A4) == OnePair
  {
    CardsA23A4Counts();
    CardsA23A4Classify();
    NoJokerType(CardsA23A4, map[A := 2, Two := 1, Three := 1, Four := 1], OnePair);
  }

  const Cards23456: seq<Card> := [Two, Three, Four, Five, Six]

  lemma Cards23456Counts()
    ensures CountsOf(Cards23456) == map[Two := 1, Three := 1, Four := 1, Five := 1, Six := 1]
  {
    CountsOfFive(Two, Three, Four, Five, Six);
  }

  lemma Cards23456Classify()
    ensures J !in map[Two := 1, Three := 1, Four := 1, Five := 1, Six := 1]
    ensures Classify(map[Two := 1, Three := 1, Four := 1, Five := 1, Six := 1]) == Some(HighCard)
  {
  }

  /** `23456` is a HighCard. */
  lemma Cards23456Type()
    ensures HandTypeOf(Cards23456) == Some(HighCard)
    ensures |Cards23456| == 5 && TypeOfFive(Cards23456) == HighCard
  {
    Cards23456Counts();
    Cards23456Classify();
    NoJokerType(Cards23456, map[Two := 1, Three := 1, Four := 1, Five := 1, Six := 1], HighCard);
  }

  const Cards32T3K: seq<Card> := [Three, Two, T, Three, K]

  lemma Cards32T3KCounts()
    ensures CountsOf(Cards32T3K) == map[Three := 2, Two := 1, T := 1, K := 1]
  {
    CountsOfFive(Three, Two, T, Three, K);
  }

  lemma Cards32T3KClassify()
    ensures J !in map[Three := 2, Two := 1, T := 1, K := 1]
    ensures Classify(map[Three := 2, Two := 1, T := 1, K := 1]) == Some(OnePair)
  {
    var items := map[Three := 2, Two := 1, T := 1, K := 1];
    assert KindsCounted(items, 1) == {Two, T, K};
  }

  /** `32T3K` is a OnePair. */
  lemma Cards32T3KType()
    ensures HandTypeOf(Cards32T3K) == Some(OnePair)
    ensures |Cards32T3K| == 5 && TypeOfFive(Cards32T3K) == OnePair
  {
    Cards32T3KCounts();
    Cards32T3KClassify();
    NoJokerType(Cards32T3K, map[Three := 2, Two := 1, T := 1, K := 1], OnePair);
  }

  const CardsKK677: seq<Card> := [K, K, Six, Seven, Seven]

  lemma CardsKK677Counts()
    ensures CountsOf(CardsKK677) == map[K := 2, Six := 1, Seven := 2]
  {
    CountsOfFive(K, K, Six, Seven, Seven);
  }

  lemma CardsKK677Classify()
    ensures J !in map[K := 2, Six := 1, Seven := 2]
    ensures Classify(map[K := 2, Six := 1, Seven := 2]) == Some(TwoPair)
  {
    var items := map[K := 2, Six := 1, Seven := 2];
    assert KindsCounted(items, 2) == {K, Seven};
  }

  /** `KK677` is a TwoPair. */
  lemma CardsKK677Type()
    ensures HandTypeOf(CardsKK677) == Some(TwoPair)
    ensures |CardsKK677| == 5 && TypeOfFive(CardsKK677) == TwoPair
  {
    CardsKK677Counts();
    CardsKK677Classify();
    NoJokerType(CardsKK677, map[K := 2, Six := 1, Seven := 2], TwoPair);
  }

  const CardsT55J5: seq<Card> := [T, Five, Five, J, Five]

  lemma CardsT55J5Counts()
    ensures CountsOf(CardsT55J5) == map[T := 1, Five := 3, J := 1]
  {
    CountsOfFive(T, Five, Five, J, Five);
  }

  lemma CardsT55J5Receiver()
    ensures J in map[T := 1, Five := 3, J := 1] && Five in map[T := 1, Five := 3, J := 1]
    ensures forall c :: c in map[T := 1, Five := 3, J := 1] && c != J && c != Five ==> map[T := 1, Five := 3, J := 1][c] < map[T := 1, Five := 3, J := 1][Five]
  {
  }

  lemma CardsT55J5Moved()
    ensures GiveJokers(map[T := 1, Five := 3, J := 1], Five) == map[T := 1, Five := 4]
  {
  }

  lemma CardsT55J5Classify()
    ensures Classify(map[T := 1, Five := 4]) == Some(FourOfKind)
  {
    var items := map[T := 1, Five := 4];
    assert items[Five] == 4;
  }

  /** `T55J5` is a FourOfKind: its jokers join the most frequent kind. */
  lemma CardsT55J5Type()
    ensures HandTypeOf(CardsT55J5) == Some(FourOfKind)
    ensures |CardsT55J5| == 5 && TypeOfFive(CardsT55J5) == FourOfKind
  {
    CardsT55J5Counts();
    CardsT55J5Receiver();
    CardsT55J5Moved();
    CardsT55J5Classify();
    JokerType(CardsT55J5, map[T := 1, Five := 3, J := 1], Five, FourOfKind);
  }

  const CardsQQQJA: seq<Card> := [Q, Q, Q, J, A]

  lemma CardsQQQJACounts()
    ensures CountsOf(CardsQQQJA) == map[Q := 3, J := 1, A := 1]
  {
    CountsOfFive(Q, Q, Q, J, A);
  }

  lemma CardsQQQJAReceiver()
    ensures J in map[Q := 3, J := 1, A := 1] && Q in map[Q := 3, J := 1, A := 1]
    ensures forall c :: c in map[Q := 3, J := 1, A := 1] && c != J && c != Q ==> map[Q := 3, J := 1, A := 1][c] < map[Q := 3, J := 1, A := 1][Q]
  {
  }

  lemma CardsQQQJAMoved()
    ensures GiveJokers(map[Q := 3, J := 1, A := 1], Q) == map[Q := 4, A := 1]
  {
  }

  lemma CardsQQQJAClassify()
    ensures Classify(map[Q := 4, A := 1]) == Some(FourOfKind)
  {
    var items := map[Q := 4, A := 1];
    assert items[Q] == 4;
  }

  /** `QQQJA` is a FourOfKind: its jokers join the most frequent kind. */
  lemma CardsQQQJAType()
    ensures HandTypeOf(CardsQQQJA) == Some(FourOfKind)
    ensures |CardsQQQJA| == 5 && TypeOfFive(CardsQQQJA) == FourOfKind
  {
    CardsQQQJACounts();
    CardsQQQJAReceiver();
    CardsQQQJAMoved();
    CardsQQQJAClassify();
    JokerType(CardsQQQJA, map[Q := 3, J := 1, A := 1], Q, FourOfKind);
  }

  const CardsKTJJT: seq<Card> := [K, T, J, J, T]

  lemma CardsKTJJTCounts()
    ensures CountsOf(CardsKTJJT) == map[K := 1, T := 2, J := 2]
  {
    CountsOfFive(K, T, J, J, T);
  }

  lemma CardsKTJJTReceiver()
    ensures J in map[K := 1, T := 2, J := 2] && T in map[K := 1, T := 2, J := 2]
    ensures forall c :: c in map[K := 1, T := 2, J := 2] && c != J && c != T ==> map[K := 1, T := 2, J := 2][c] < map[K := 1, T := 2, J := 2][T]
  {
  }

  lemma CardsKTJJTMoved()
    ensures GiveJokers(map[K := 1, T := 2, J := 2], T) == map[K := 1, T := 4]
  {
  }

  lemma CardsKTJJTClassify()
    ensures Classify(map[K := 1, T := 4]) == Some(FourOfKind)
  {
    var items := map[K := 1, T := 4];
    assert items[T] == 4;
  }

  /** `KTJJT` is a FourOfKind: its jokers join the most frequent kind. */
  lemma CardsKTJJTType()
    ensures HandTypeOf(CardsKTJJT) == Some(FourOfKind)
    ensures |CardsKTJJT| == 5 && TypeOfFive(CardsKTJJT) == FourOfKind
  {
    CardsKTJJTCounts();
    CardsKTJJTReceiver();
    CardsKTJJTMoved();
    CardsKTJJTClassify();
    JokerType(CardsKTJJT, map[K := 1, T := 2, J := 2], T, FourOfKind);
  }
}

/** The ordering and total-winnings tests of `2023/day-07/src/main.rs` (lines 235-271). */
module CamelCardsOrderExamples {
  import opened CamelCards
  import opened CamelCardsExamples
  import opened Orders

  /** The example's hands in the order the ordering test expects after sorting. */
  const ExampleSorted: seq<Hand> := [
    Hand(765, Cards32T3K),
    Hand(28, CardsKK677),
    Hand(684, CardsT55J5),
    Hand(483, CardsQQQJA),
    Hand(220, CardsKTJJT)
  ]

  /** The first cards of the three four-of-a-kind hands, which decide their order. */
  lemma ExampleLeads()
    ensures CardsT55J5[0] == T && CardsQQQJA[0] == Q && CardsKTJJT[0] == K
  {
  }

  lemma ExampleOrder0()
    ensures Below(ExampleSorted[0], ExampleSorted[1])
  {
    Cards32T3KType();
    CardsKK677Type();
    CompareByType(ExampleSorted[0], ExampleSorted[1]);
  }

  lemma ExampleOrder1()
    ensures Below(ExampleSorted[1], ExampleSorted[2])
  {
    CardsKK677Type();
    CardsT55J5Type();
    CompareByType(ExampleSorted[1], ExampleSorted[2]);
  }

  lemma ExampleOrder2()
    ensures Below(ExampleSorted[2], ExampleSorted[3])
  {
    CardsT55J5Type();
    CardsQQQJAType();
    ExampleLeads();
  }

  lemma ExampleOrder3()
    ensures Below(ExampleSorted[3], ExampleSorted[4])
  {
    CardsQQQJAType();
    CardsKTJJTType();
    ExampleLeads();
  }

  /**
   * The ordering test: the expected list is strictly increasing, so by `AscendingUnique`
   * it is the only order `sort` can leave the example's hands in.
   */
  lemma ExampleOrdering()
    ensures Ascending(ExampleSorted)
  {
    ExampleChained();
    AscendingByNeighbours(ExampleSorted);
  }

  lemma ExampleChained()
    ensures Chained(ExampleSorted, Below)
  {
    ExampleOrder0();
    ExampleOrder1();
    ExampleOrder2();
    ExampleOrder3();
  }

  /** Any strictly increasing arrangement of the example's hands is the expected list. */
  lemma ExampleSortedUnique(hands: seq<Hand>)
    requires multiset(hands) == multiset(ExampleSorted) && Ascending(hands)
    ensures hands == ExampleSorted
  {
    ExampleOrdering();
    AscendingUnique(hands, ExampleSorted);
  }

  /** The total-winnings test: the sorted example is worth 5905. */
  lemma ExampleWinnings()
    ensures TotalWinnings(ExampleSorted) == 5905
  {
    var h := ExampleSorted;
    assert Winnings(h, 1) == 765;
    assert Winnings(h, 2) == 821;
    assert Winnings(h, 3) == 2873;
    assert Winnings(h, 4) == 4805;
  }
}

/**
 * Camel Cards with jokers (2023, day 7): a hand of five cards and a bid. A hand's type
 * comes from how many kinds it holds and how often each occurs, after the jokers have
 * been added to the most frequent other kind. Hands are ordered by type, then card by
 * card; the total winnings of a sorted list weigh each bid by its rank.
 *
 * The `HashMap` that `get_type` builds is a `map<Card, nat>`. Its iteration order,
 * which the source leaves unspecified, is a parameter `order`; the type is proved not
 * to depend on it.
 */
module CamelCards {
  import opened Common
  import opened Text
  import opened Orders

  /** The card kinds. With jokers, `J` is the weakest card. */
  datatype Card = J | Two | Three | Four | Five | Six | Seven | Eight | Nine | T | Q | K | A

  /** The discriminant that the derived `PartialOrd` compares: `J` is 0 and `Two` is set to 2. */
  function CardRank(c: Card): nat
  {
    match c
    case J => 0
    case Two => 2
    case Three => 3
    case Four => 4
    case Five => 5
    case Six => 6
    case Seven => 7
    case Eight => 8
    case Nine => 9
    case T => 10
    case Q => 11
    case K => 12
    case A => 13
  }

  /** Every kind, weakest first. */
  const AllCards: seq<Card> := [J, Two, Three, Four, Five, Six, Seven, Eight, Nine, T, Q, K, A]

  /** Where a kind sits in `AllCards`. */
  function CardIndex(c: Card): (k: nat)
    ensures k < |AllCards| && AllCards[k] == c
  {
    if c == J then 0 else CardRank(c) - 1
  }

  /** The card order is J < 2 < ... < 9 < T < Q < K < A, and `AllCards` lists each kind once. */
  lemma CardOrder()
    ensures forall i, j :: 0 <= i < j < |AllCards| ==> CardRank(AllCards[i]) < CardRank(AllCards[j])
    ensures forall k :: 0 <= k < |AllCards| ==> CardIndex(AllCards[k]) == k
  {
  }

  lemma CardRankInjective(a: Card, b: Card)
    requires CardRank(a) == CardRank(b)
    ensures a == b
  {
  }

  datatype HandType = HighCard | OnePair | TwoPair | ThreeOfKind | FullHouse | FourOfKind | FiveOfKind

  /** The discriminant that the derived `PartialOrd` of `HandType` compares. */
  function TypeRank(t: HandType): nat
  {
    match t
    case HighCard => 0
    case OnePair => 1
    case TwoPair => 2
    case ThreeOfKind => 3
    case FullHouse => 4
    case FourOfKind => 5
    case FiveOfKind => 6
  }

  /** The type order runs from HighCard up to FiveOfKind. */
  lemma TypeOrder()
    ensures TypeRank(HighCard) < TypeRank(OnePair) < TypeRank(TwoPair) < TypeRank(ThreeOfKind)
    ensures TypeRank(ThreeOfKind) < TypeRank(FullHouse) < TypeRank(FourOfKind) < TypeRank(FiveOfKind)
    ensures forall s, t :: TypeRank(s) == TypeRank(t) ==> s == t
  {
  }

  // ---------------------------------------------------------------------------------
  // Parsing (`FromStr for Hand`)
  // ---------------------------------------------------------------------------------

  /** The one-character name that `EnumString` gives each kind. */
  function CardChar(c: Card): char
  {
    match c
    case J => 'J'
    case Two => '2'
    case Three => '3'
    case Four => '4'
    case Five => '5'
    case Six => '6'
    case Seven => '7'
    case Eight => '8'
    case Nine => '9'
    case T => 'T'
    case Q => 'Q'
    case K => 'K'
    case A => 'A'
  }

  /** `c.to_string().parse::<Card>()`: a kind's name gives the kind, any other character an error. */
  function CardOf(ch: char): (r: Option<Card>)
    ensures r.Some? ==> CardChar(r.value) == ch
  {
    match ch
    case 'J' => Some(J)
    case '2' => Some(Two)
    case '3' => Some(Three)
    case '4' => Some(Four)
    case '5' => Some(Five)
    case '6' => Some(Six)
    case '7' => Some(Seven)
    case '8' => Some(Eight)
    case '9' => Some(Nine)
    case 'T' => Some(T)
    case 'Q' => Some(Q)
    case 'K' => Some(K)
    case 'A' => Some(A)
    case _ => None
  }

  lemma CardOfChar(c: Card)
    ensures CardOf(CardChar(c)) == Some(c)
  {
  }

  lemma CardOfOther(ch: char)
    requires forall c: Card :: CardChar(c) != ch
    ensures CardOf(ch) == None
  {
  }

  /** The characters of the first word, each parsed as a card; any stranger fails the whole word. */
  function CardsOf(w: string): (r: Option<seq<Card>>)
    ensures r.Some? ==> |r.value| == |w|
  {
    if w == [] then Some([])
    else
      var init := CardsOf(w[..|w| - 1]);
      var c := CardOf(w[|w| - 1]);
      if init.Some? && c.Some? then Some(init.value + [c.value]) else None
  }

  function CardsText(cards: seq<Card>): (w: string)
    ensures |w| == |cards|
  {
    if cards == [] then [] else CardsText(cards[..|cards| - 1]) + [CardChar(cards[|cards| - 1])]
  }

  lemma {:induction false} CardsRoundTrip(cards: seq<Card>)
    ensures CardsOf(CardsText(cards)) == Some(cards)
  {
    if cards != [] {
      var init, last := cards[..|cards| - 1], cards[|cards| - 1];
      assert cards == init + [last];
      var w, v := CardsText(cards), CardsText(init);
      assert w == v + [CardChar(last)];
      assert w[..|w| - 1] == v;
      CardsRoundTrip(init);
      CardOfChar(last);
    }
  }

  /** A word that parses as cards is the cards' text. */
  lemma {:induction false} CardsOfText(w: string)
    requires CardsOf(w).Some?
    ensures CardsText(CardsOf(w).value) == w
  {
    if w != [] {
      var init := w[..|w| - 1];
      CardsOfText(init);
      var cards := CardsOf(w).value;
      assert cards[..|cards| - 1] == CardsOf(init).value;
      assert w == init + [w[|w| - 1]];
    }
  }

  /** One character that is no card's name makes the word fail. */
  lemma {:induction false} CardsOfBad(w: string, i: nat)
    requires i < |w| && CardOf(w[i]).None?
    ensures CardsOf(w).None?
  {
    if i < |w| - 1 {
      assert w[..|w| - 1][i] == w[i];
      CardsOfBad(w[..|w| - 1], i);
    }
  }

  /** A hand: its bid (a `u16`) and its five cards. */
  datatype Hand = Hand(points: nat, cards: seq<Card>)

  /**
   * `Hand::from_str`: the first whitespace-separated word must be exactly five card
   * characters, the second a `u16`; anything after them is ignored. Each failure is a
   * panic in the source and `None` here.
   */
  function ParseHand(s: string): (r: Option<Hand>)
    ensures r.Some? ==> |r.value.cards| == 5 && r.value.points <= U16_MAX
  {
    var words := SplitWhitespace(s);
    if |words| < 1 then None
    else
      var cards := CardsOf(words[0]);
      if cards.None? || |cards.value| != 5 || |words| < 2 then None
      else
        var points := ParseUnsigned(words[1], U16_MAX);
        if points.None? then None else Some(Hand(points.value, cards.value))
  }

  /** A hand written as the puzzle input writes it: its cards, a space, its bid. */
  function FormatHand(h: Hand): string
  {
    CardsText(h.cards) + " " + Decimal(h.points)
  }

  lemma {:induction false} CardsTextAt(cards: seq<Card>, j: nat)
    requires j < |cards|
    ensures CardsText(cards)[j] == CardChar(cards[j])
  {
    if j < |cards| - 1 {
      CardsTextAt(cards[..|cards| - 1], j);
    }
  }

  lemma CardsTextIsWord(cards: seq<Card>)
    requires |cards| > 0
    ensures IsWord(CardsText(cards))
  {
    var w := CardsText(cards);
    forall j | 0 <= j < |w|
      ensures !IsWhitespace(w[j])
    {
      CardsTextAt(cards, j);
      CardCharVisible(cards[j]);
    }
  }

  lemma CardCharVisible(c: Card)
    ensures !IsWhitespace(CardChar(c))
  {
  }

  /** Parsing a formatted hand of five cards and a `u16` bid gives the hand back. */
  lemma ParseHandRoundTrip(h: Hand)
    requires |h.cards| == 5 && h.points <= U16_MAX
    ensures ParseHand(FormatHand(h)) == Some(h)
  {
    var w0, w1 := CardsText(h.cards), Decimal(h.points);
    CardsTextIsWord(h.cards);
    DecimalIsWord(h.points);
    assert Join([w0, w1], " ") == FormatHand(h);
    SplitWhitespaceJoin([w0, w1]);
    CardsRoundTrip(h.cards);
    ParseDecimal(h.points, U16_MAX);
  }

  /**
   * What a parsed line holds: its first word is exactly the five cards' text and its
   * second word parses as the bid.
   */
  lemma ParseHandWords(s: string)
    requires ParseHand(s).Some?
    ensures var words, h := SplitWhitespace(s), ParseHand(s).value;
      |words| >= 2 && words[0] == CardsText(h.cards) && |words[0]| == 5
      && ParseUnsigned(words[1], U16_MAX) == Some(h.points)
  {
    CardsOfText(SplitWhitespace(s)[0]);
  }

  /** A first word of any length but five is rejected. */
  lemma ParseHandNotFive(s: string)
    requires |SplitWhitespace(s)| > 0 && |SplitWhitespace(s)[0]| != 5
    ensures ParseHand(s).None?
  {
  }

  // ---------------------------------------------------------------------------------
  // Counting the kinds and moving the jokers (`get_type`, lines 60-82)
  // ---------------------------------------------------------------------------------

  /** `items.entry(card).and_modify(|v| *v += 1).or_insert(1)`. */
  function Bump(items: map<Card, nat>, c: Card): (r: map<Card, nat>)
    ensures r.Keys == items.Keys + {c}
  {
    items[c := if c in items then items[c] + 1 else 1]
  }

  /** The map that the `for_each` at line 61 builds from the cards. */
  function CountsOf(cards: seq<Card>): map<Card, nat>
  {
    if cards == [] then map[] else Bump(CountsOf(cards[..|cards| - 1]), cards[|cards| - 1])
  }

  /** The map holds exactly the kinds of the hand, each with its number of occurrences. */
  lemma {:induction false} CountsMeans(cards: seq<Card>, c: Card)
    ensures c in CountsOf(cards) <==> c in multiset(cards)
    ensures c in CountsOf(cards) ==> CountsOf(cards)[c] == multiset(cards)[c]
  {
    if cards != [] {
      var init, last := cards[..|cards| - 1], cards[|cards| - 1];
      assert cards == init + [last];
      assert multiset(cards) == multiset(init) + multiset{last};
      CountsMeans(init, c);
    }
  }

  /** The counts depend only on the multiset of cards. */
  lemma CountsOnMultiset(a: seq<Card>, b: seq<Card>)
    requires multiset(a) == multiset(b)
    ensures CountsOf(a) == CountsOf(b)
  {
    forall c: Card
      ensures (c in CountsOf(a) <==> c in CountsOf(b)) && (c in CountsOf(a) ==> CountsOf(a)[c] == CountsOf(b)[c])
    {
      CountsMeans(a, c);
      CountsMeans(b, c);
    }
  }

  /** Every kind in the map has a positive count. */
  ghost predicate Positive(items: map<Card, nat>)
  {
    forall c :: c in items ==> items[c] >= 1
  }

  lemma CountsPositive(cards: seq<Card>)
    ensures Positive(CountsOf(cards))
  {
    forall c | c in CountsOf(cards)
      ensures CountsOf(cards)[c] >= 1
    {
      CountsMeans(cards, c);
    }
  }

  /** `order` lists every key of `items`: it stands for the `HashMap`'s iteration order. */
  ghost predicate Covers(items: map<Card, nat>, order: seq<Card>)
  {
    forall c :: c in items ==> c in order
  }

  /**
   * The `fold` at line 65, over the keys in the order `order` (kinds not in the map are
   * skipped): the first non-joker kind whose count beats every earlier one's, with its count.
   */
  function Biggest(items: map<Card, nat>, order: seq<Card>): (r: Option<(Card, nat)>)
    ensures r.Some? ==> r.value.0 in items && r.value.0 != J && r.value.1 == items[r.value.0]
  {
    if order == [] then None
    else
      var acc := Biggest(items, order[..|order| - 1]);
      var card := order[|order| - 1];
      if card !in items || card == J then acc
      else if acc.None? || items[card] > acc.value.1 then Some((card, items[card]))
      else acc
  }

  /** The fold finds a kind for every non-joker kind it visits, and no smaller a count. */
  lemma {:induction false} BiggestMax(items: map<Card, nat>, order: seq<Card>, i: nat)
    requires i < |order| && order[i] in items && order[i] != J
    ensures Biggest(items, order).Some? && items[order[i]] <= Biggest(items, order).value.1
  {
    var init := order[..|order| - 1];
    if i < |order| - 1 {
      assert init[i] == order[i];
      BiggestMax(items, init, i);
    }
  }

  /** Without a non-joker kind the fold finds nothing. */
  lemma {:induction false} BiggestNone(items: map<Card, nat>, order: seq<Card>)
    requires forall i :: 0 <= i < |order| ==> order[i] !in items || order[i] == J
    ensures Biggest(items, order).None?
  {
    if order != [] {
      BiggestNone(items, order[..|order| - 1]);
    }
  }

  /** Lines 79-80: the jokers' count is added to `card`, and the jokers leave the map. */
  function GiveJokers(items: map<Card, nat>, card: Card): (r: map<Card, nat>)
    requires card in items && J in items && card != J
    ensures r.Keys == items.Keys - {J}
    ensures r[card] == items[card] + items[J]
    ensures forall c :: c in r && c != card ==> r[c] == items[c]
  {
    items[card := items[card] + items[J]] - {J}
  }

  /** Lines 64-82: the map after the jokers have been handed to the fold's kind, if any. */
  function MoveJokers(items: map<Card, nat>, order: seq<Card>): map<Card, nat>
  {
    if J in items then
      var b := Biggest(items, order);
      if b.Some? then GiveJokers(items, b.value.0) else items
    else items
  }

  /**
   * Jokers go to a non-joker kind of greatest count, and then leave the map; without
   * jokers, or without any other kind, the map is kept as it is.
   */
  lemma JokersToBiggest(items: map<Card, nat>, order: seq<Card>, c: Card)
    requires Covers(items, order) && J in items && c in items && c != J
    ensures Biggest(items, order).Some?
    ensures var r := Biggest(items, order).value.0;
      items[c] <= items[r] && MoveJokers(items, order) == GiveJokers(items, r)
  {
    var i :| 0 <= i < |order| && order[i] == c;
    BiggestMax(items, order, i);
  }

  lemma JokersKept(items: map<Card, nat>, order: seq<Card>)
    requires J !in items || forall c :: c in items ==> c == J
    ensures MoveJokers(items, order) == items
  {
    if J in items {
      BiggestNone(items, order);
    }
  }

  // ---------------------------------------------------------------------------------
  // Classification (lines 83-99)
  // ---------------------------------------------------------------------------------

  /** The kinds that occur exactly `v` times. */
  function KindsCounted(items: map<Card, nat>, v: nat): set<Card>
  {
    set c | c in items && items[c] == v
  }

  /** How many kinds occur exactly `v` times: `filter(|(_, c)| **c == v).count()`. */
  function CountWith(items: map<Card, nat>, v: nat): nat
  {
    |KindsCounted(items, v)|
  }

  /** Some kind occurs exactly `v` times: `any(|(_, c)| *c == v)`. */
  predicate AnyWith(items: map<Card, nat>, v: nat)
  {
    exists c :: c in items && items[c] == v
  }

  /** Lines 83-99: the type from the number of kinds and their counts; `None` is the panic. */
  function Classify(items: map<Card, nat>): Option<HandType>
  {
    if |items| == 1 then Some(FiveOfKind)
    else if |items| == 2 && AnyWith(items, 4) then Some(FourOfKind)
    else if |items| == 2 && AnyWith(items, 3) then Some(FullHouse)
    else if |items| == 3 && AnyWith(items, 3) then Some(ThreeOfKind)
    else if |items| == 3 && CountWith(items, 2) == 2 then Some(TwoPair)
    else if |items| == 4 && CountWith(items, 1) == 3 then Some(OnePair)
    else if |items| == 5 then Some(HighCard)
    else None
  }

  /** `get_type` when the map's keys are visited in `order`. */
  function TypeIn(cards: seq<Card>, order: seq<Card>): Option<HandType>
  {
    Classify(MoveJokers(CountsOf(cards), order))
  }

  /** `get_type` with the keys visited weakest kind first; any other order gives the same type. */
  function HandTypeOf(cards: seq<Card>): Option<HandType>
  {
    TypeIn(cards, AllCards)
  }

  lemma AnyWithCount(items: map<Card, nat>, v: nat)
    ensures AnyWith(items, v) <==> CountWith(items, v) > 0
  {
    var s := KindsCounted(items, v);
    if AnyWith(items, v) {
      var c :| c in items && items[c] == v;
      assert c in s;
    } else {
      assert s == {};
    }
  }

  /** The counts of the kinds in `kinds` that the map holds, in that order. */
  function CountsOver(items: map<Card, nat>, kinds: seq<Card>): seq<nat>
  {
    if kinds == [] then []
    else (if kinds[0] in items then [items[kinds[0]]] else []) + CountsOver(items, kinds[1..])
  }

  /** The shape of a hand: the multiset of its kinds' counts. */
  function Shape(items: map<Card, nat>): multiset<nat>
  {
    multiset(CountsOver(items, AllCards))
  }

  ghost predicate Distinct(kinds: seq<Card>)
  {
    forall i, j :: 0 <= i < j < |kinds| ==> kinds[i] != kinds[j]
  }

  lemma DistinctTail(kinds: seq<Card>)
    requires Distinct(kinds) && kinds != []
    ensures Distinct(kinds[1..]) && kinds[0] !in kinds[1..]
  {
  }

  lemma AllCardsDistinct()
    ensures Distinct(AllCards)
  {
    CardOrder();
  }

  lemma SetAddOne<X>(s: set<X>, x: X)
    requires x !in s
    ensures |s + {x}| == |s| + 1
  {
  }

  /** The kinds of `kinds` that the map holds. */
  ghost function KindsIn(items: map<Card, nat>, kinds: seq<Card>): set<Card>
  {
    set c | c in items && c in kinds
  }

  /** The kinds of `kinds` that the map holds `v` times. */
  ghost function KindsWith(items: map<Card, nat>, kinds: seq<Card>, v: nat): set<Card>
  {
    set c | c in items && c in kinds && items[c] == v
  }

  lemma KindsStep(items: map<Card, nat>, kinds: seq<Card>, v: nat)
    requires Distinct(kinds) && kinds != []
    ensures var x, rest := kinds[0], kinds[1..];
      && x !in KindsIn(items, rest) && x !in KindsWith(items, rest, v)
      && KindsIn(items, kinds) == KindsIn(items, rest) + (if x in items then {x} else {})
      && KindsWith(items, kinds, v) == KindsWith(items, rest, v) + (if x in items && items[x] == v then {x} else {})
  {
    DistinctTail(kinds);
  }

  lemma KindsAll(items: map<Card, nat>, v: nat)
    ensures KindsIn(items, AllCards) == items.Keys
    ensures KindsWith(items, AllCards, v) == KindsCounted(items, v)
  {
    AllCardsComplete();
  }

  lemma {:induction false} CountsOverSize(items: map<Card, nat>, kinds: seq<Card>)
    requires Distinct(kinds)
    ensures |CountsOver(items, kinds)| == |KindsIn(items, kinds)|
  {
    if kinds != [] {
      DistinctTail(kinds);
      CountsOverSize(items, kinds[1..]);
      KindsStep(items, kinds, 0);
      if kinds[0] in items {
        SetAddOne(KindsIn(items, kinds[1..]), kinds[0]);
      }
    }
  }

  lemma {:induction false} CountsOverWith(items: map<Card, nat>, kinds: seq<Card>, v: nat)
    requires Distinct(kinds)
    ensures multiset(CountsOver(items, kinds))[v] == |KindsWith(items, kinds, v)|
  {
    if kinds != [] {
      DistinctTail(kinds);
      CountsOverWith(items, kinds[1..], v);
      KindsStep(items, kinds, v);
      var x := kinds[0];
      var h, t := if x in items then [items[x]] else [], CountsOver(items, kinds[1..]);
      assert CountsOver(items, kinds) == h + t;
      assert multiset(h + t) == multiset(h) + multiset(t);
      if x in items && items[x] == v {
        SetAddOne(KindsWith(items, kinds[1..], v), x);
      }
    }
  }

  /** The shape has one count per kind, and as many `v`s as there are kinds occurring `v` times. */
  lemma ShapeMeans(items: map<Card, nat>, v: nat)
    ensures |Shape(items)| == |items|
    ensures Shape(items)[v] == CountWith(items, v)
  {
    AllCardsDistinct();
    CountsOverSize(items, AllCards);
    CountsOverWith(items, AllCards, v);
    KindsAll(items, v);
  }

  lemma {:induction false} CountsOverPositive(items: map<Card, nat>, kinds: seq<Card>)
    requires Positive(items)
    ensures forall i :: 0 <= i < |CountsOver(items, kinds)| ==> CountsOver(items, kinds)[i] >= 1
  {
    if kinds != [] {
      CountsOverPositive(items, kinds[1..]);
    }
  }

  lemma SumOne(h: seq<nat>)
    requires |h| <= 1
    ensures Sum(h) == if h == [] then 0 else h[0]
  {
    if h != [] {
      assert h[1..] == [];
    }
  }

  lemma CountsOverCons(items: map<Card, nat>, kinds: seq<Card>)
    requires kinds != []
    ensures Sum(CountsOver(items, kinds))
      == (if kinds[0] in items then items[kinds[0]] else 0) + Sum(CountsOver(items, kinds[1..]))
  {
    var x := kinds[0];
    var h, t := if x in items then [items[x]] else [], CountsOver(items, kinds[1..]);
    assert CountsOver(items, kinds) == h + t;
    SumAppend(h, t);
    SumOne(h);
  }

  /** Setting one count changes the total by the difference. */
  lemma {:induction false} SumUpdate(items: map<Card, nat>, c: Card, x: nat, kinds: seq<Card>)
    requires Distinct(kinds)
    ensures Sum(CountsOver(items[c := x], kinds)) + (if c in items && c in kinds then items[c] else 0)
      == Sum(CountsOver(items, kinds)) + (if c in kinds then x else 0)
  {
    if kinds != [] {
      DistinctTail(kinds);
      SumUpdate(items, c, x, kinds[1..]);
      CountsOverCons(items[c := x], kinds);
      CountsOverCons(items, kinds);
    }
  }

  /** Removing a kind takes its count off the total. */
  lemma {:induction false} SumRemove(items: map<Card, nat>, c: Card, kinds: seq<Card>)
    requires Distinct(kinds)
    ensures Sum(CountsOver(items - {c}, kinds)) + (if c in items && c in kinds then items[c] else 0)
      == Sum(CountsOver(items, kinds))
  {
    if kinds != [] {
      DistinctTail(kinds);
      SumRemove(items, c, kinds[1..]);
      CountsOverCons(items - {c}, kinds);
      CountsOverCons(items, kinds);
    }
  }

  lemma {:induction false} CountsOverEmpty(kinds: seq<Card>)
    ensures CountsOver(map[], kinds) == []
  {
    if kinds != [] {
      CountsOverEmpty(kinds[1..]);
    }
  }

  /** The counts of a hand add up to its number of cards. */
  lemma {:induction false} CountsSum(cards: seq<Card>)
    ensures Sum(CountsOver(CountsOf(cards), AllCards)) == |cards|
  {
    if cards != [] {
      var init, last := cards[..|cards| - 1], cards[|cards| - 1];
      var m := CountsOf(init);
      var x := if last in m then m[last] + 1 else 1;
      assert CountsOf(cards) == m[last := x];
      CountsSum(init);
      AllCardsDistinct();
      AllCardsComplete();
      SumUpdate(m, last, x, AllCards);
      assert last in AllCards;
      var n := CountsOf(cards);
      assert Sum(CountsOver(n, AllCards)) == Sum(CountsOver(m[last := x], AllCards));
    } else {
      CountsOverEmpty(AllCards);
    }
  }

  /** Moving the jokers keeps the total and the counts positive. */
  lemma JokersSum(items: map<Card, nat>, order: seq<Card>)
    requires Positive(items)
    ensures Sum(CountsOver(MoveJokers(items, order), AllCards)) == Sum(CountsOver(items, AllCards))
    ensures Positive(MoveJokers(items, order))
  {
    var b := Biggest(items, order);
    if J in items && b.Some? {
      var r := b.value.0;
      var x := items[r] + items[J];
      var m := items[r := x];
      assert MoveJokers(items, order) == m - {J};
      AllCardsDistinct();
      AllCardsComplete();
      SumUpdate(items, r, x, AllCards);
      SumRemove(m, J, AllCards);
    }
  }

  lemma {:induction false} SumAtLeastLength(vs: seq<nat>)
    requires forall i :: 0 <= i < |vs| ==> vs[i] >= 1
    ensures Sum(vs) >= |vs|
  {
    if vs != [] {
      SumAtLeastLength(vs[1..]);
    }
  }

  /** The shape of five cards that each type stands for. */
  function ShapeOf(t: HandType): multiset<nat>
  {
    match t
    case FiveOfKind => multiset{5}
    case FourOfKind => multiset{4, 1}
    case FullHouse => multiset{3, 2}
    case ThreeOfKind => multiset{3, 1, 1}
    case TwoPair => multiset{2, 2, 1}
    case OnePair => multiset{2, 1, 1, 1}
    case HighCard => multiset{1, 1, 1, 1, 1}
  }

  /** Different types stand for different shapes. */
  lemma ShapeOfInjective(s: HandType, t: HandType)
    requires ShapeOf(s) == ShapeOf(t)
    ensures s == t
  {
    var m, n := ShapeOf(s), ShapeOf(t);
    assert m[1] == n[1] && m[2] == n[2] && m[3] == n[3] && m[4] == n[4];
  }

  /** `Classify`'s tests read off a shape with `n` counts. */
  function ClassifyCounts(n: nat, m: multiset<nat>): Option<HandType>
  {
    if n == 1 then Some(FiveOfKind)
    else if n == 2 && m[4] > 0 then Some(FourOfKind)
    else if n == 2 && m[3] > 0 then Some(FullHouse)
    else if n == 3 && m[3] > 0 then Some(ThreeOfKind)
    else if n == 3 && m[2] == 2 then Some(TwoPair)
    else if n == 4 && m[1] == 3 then Some(OnePair)
    else if n == 5 then Some(HighCard)
    else None
  }

  /** An element of a sequence of naturals is at most its sum. */
  lemma {:induction false} ElementAtMostSum(vs: seq<nat>, i: nat)
    requires i < |vs|
    ensures vs[i] <= Sum(vs)
  {
    SumNonNegative(vs[1..]);
    if i > 0 {
      ElementAtMostSum(vs[1..], i - 1);
    }
  }

  /** The length and the sum of counts between 1 and 5, tallied by value. */
  lemma {:induction false} Tally(vs: seq<nat>)
    requires forall i :: 0 <= i < |vs| ==> 1 <= vs[i] <= 5
    ensures var m := multiset(vs);
      |vs| == m[1] + m[2] + m[3] + m[4] + m[5]
      && Sum(vs) == m[1] + 2 * m[2] + 3 * m[3] + 4 * m[4] + 5 * m[5]
  {
    if vs != [] {
      var x, rest := vs[0], vs[1..];
      Tally(rest);
      assert vs == [x] + rest;
      var m, r := multiset(vs), multiset(rest);
      assert m == multiset{x} + r;
      assert Sum(vs) == x + Sum(rest);
      if x == 1 {
        assert m[1] == r[1] + 1 && m[2] == r[2] && m[3] == r[3] && m[4] == r[4] && m[5] == r[5];
      } else if x == 2 {
        assert m[1] == r[1] && m[2] == r[2] + 1 && m[3] == r[3] && m[4] == r[4] && m[5] == r[5];
      } else if x == 3 {
        assert m[1] == r[1] && m[2] == r[2] && m[3] == r[3] + 1 && m[4] == r[4] && m[5] == r[5];
      } else if x == 4 {
        assert m[1] == r[1] && m[2] == r[2] && m[3] == r[3] && m[4] == r[4] + 1 && m[5] == r[5];
      } else {
        assert m[1] == r[1] && m[2] == r[2] && m[3] == r[3] && m[4] == r[4] && m[5] == r[5] + 1;
      }
    }
  }

  /** A multiset of counts between 1 and 5 is the shape whose counts it has. */
  lemma ShapeByTally(m: multiset<nat>, t: HandType)
    requires forall v :: v < 1 || v > 5 ==> m[v] == 0
    requires m[1] == ShapeOf(t)[1] && m[2] == ShapeOf(t)[2] && m[3] == ShapeOf(t)[3]
    requires m[4] == ShapeOf(t)[4] && m[5] == ShapeOf(t)[5]
    ensures m == ShapeOf(t)
  {
    forall v
      ensures m[v] == ShapeOf(t)[v]
    {
      if v < 1 || v > 5 {
        assert ShapeOf(t)[v] == 0;
      }
    }
  }

  /** Counts between 1 and 5 that add up to five form one of the seven shapes, and the tests find it. */
  lemma ShapeOfTally(n: nat, m: multiset<nat>)
    requires forall v :: v < 1 || v > 5 ==> m[v] == 0
    requires n == m[1] + m[2] + m[3] + m[4] + m[5]
    requires 5 == m[1] + 2 * m[2] + 3 * m[3] + 4 * m[4] + 5 * m[5]
    ensures var t := ClassifyCounts(n, m); t.Some? && m == ShapeOf(t.value)
  {
    if m[5] == 1 {
      ShapeByTally(m, FiveOfKind);
    } else if m[4] == 1 {
      ShapeByTally(m, FourOfKind);
    } else if m[3] == 1 && m[2] == 1 {
      ShapeByTally(m, FullHouse);
    } else if m[3] == 1 {
      ShapeByTally(m, ThreeOfKind);
    } else if m[2] == 2 {
      ShapeByTally(m, TwoPair);
    } else if m[2] == 1 {
      ShapeByTally(m, OnePair);
    } else {
      ShapeByTally(m, HighCard);
    }
  }

  /** Positive counts adding up to five form one of the seven shapes, and `Classify`'s tests find its type. */
  lemma ShapesOfFive(vs: seq<nat>)
    requires forall i :: 0 <= i < |vs| ==> vs[i] >= 1
    requires Sum(vs) == 5
    ensures var t := ClassifyCounts(|vs|, multiset(vs)); t.Some? && multiset(vs) == ShapeOf(t.value)
  {
    forall i | 0 <= i < |vs|
      ensures vs[i] <= 5
    {
      ElementAtMostSum(vs, i);
    }
    Tally(vs);
    var m := multiset(vs);
    forall v | v < 1 || v > 5
      ensures m[v] == 0
    {
      assert v !in vs;
    }
    ShapeOfTally(|vs|, m);
  }

  /** `Classify` reads the number of kinds and the counts of each value off the shape. */
  lemma ClassifyShape(items: map<Card, nat>)
    ensures Classify(items) == ClassifyCounts(|items|, Shape(items))
  {
    var sh := Shape(items);
    ShapeMeans(items, 1);
    ShapeMeans(items, 2);
    ShapeMeans(items, 3);
    ShapeMeans(items, 4);
    AnyWithCount(items, 3);
    AnyWithCount(items, 4);
    ClassifyByCounts(items, sh);
  }

  lemma ClassifyByCounts(items: map<Card, nat>, sh: multiset<nat>)
    requires AnyWith(items, 4) == (sh[4] > 0) && AnyWith(items, 3) == (sh[3] > 0)
    requires CountWith(items, 2) == sh[2] && CountWith(items, 1) == sh[1]
    ensures Classify(items) == ClassifyCounts(|items|, sh)
  {
  }

  /** Positive counts adding up to five have one of the seven shapes, and `Classify` names it. */
  lemma ClassifyFive(items: map<Card, nat>)
    requires Positive(items) && Sum(CountsOver(items, AllCards)) == 5
    ensures Classify(items).Some? && Shape(items) == ShapeOf(Classify(items).value)
  {
    ClassifyShape(items);
    ShapeMeans(items, 0);
    CountsOverPositive(items, AllCards);
    ShapesOfFive(CountsOver(items, AllCards));
  }

  /**
   * For five cards and any iteration order the panic at line 98 is unreachable, and the
   * type is the one whose shape the counts have once the jokers have moved.
   */
  lemma NeverPanics(cards: seq<Card>, order: seq<Card>)
    requires |cards| == 5
    ensures TypeIn(cards, order).Some?
    ensures Shape(MoveJokers(CountsOf(cards), order)) == ShapeOf(TypeIn(cards, order).value)
  {
    var items := CountsOf(cards);
    CountsPositive(cards);
    CountsSum(cards);
    JokersSum(items, order);
    ClassifyFive(MoveJokers(items, order));
  }

  /** The type is decided by the shape: five cards have type `t` exactly when their shape is `t`'s. */
  lemma TypeByShape(cards: seq<Card>, order: seq<Card>, t: HandType)
    requires |cards| == 5
    ensures TypeIn(cards, order) == Some(t) <==> Shape(MoveJokers(CountsOf(cards), order)) == ShapeOf(t)
  {
    NeverPanics(cards, order);
    if Shape(MoveJokers(CountsOf(cards), order)) == ShapeOf(t) {
      ShapeOfInjective(TypeIn(cards, order).value, t);
    }
  }

  lemma SetMinusOne<X>(s: set<X>, x: X)
    ensures |s| == |s - {x}| + (if x in s then 1 else 0)
  {
    if x in s {
      assert s == (s - {x}) + {x};
    } else {
      assert s - {x} == s;
    }
  }

  lemma SwapOthers(m: map<Card, nat>, a: Card, b: Card, v: nat)
    requires a in m && b in m && a != b
    ensures var s, t := KindsCounted(m, v), KindsCounted(m[a := m[b]][b := m[a]], v);
      && s - {a} - {b} == t - {a} - {b}
      && (a in t <==> b in s) && (b in t <==> a in s)
  {
  }

  /** Swapping the counts of two kinds keeps how many kinds have each count. */
  lemma CountSwap(m: map<Card, nat>, a: Card, b: Card, v: nat)
    requires a in m && b in m && a != b
    ensures CountWith(m[a := m[b]][b := m[a]], v) == CountWith(m, v)
  {
    var n := m[a := m[b]][b := m[a]];
    var s, t := KindsCounted(m, v), KindsCounted(n, v);
    SetMinusOne(s, a);
    SetMinusOne(s - {a}, b);
    SetMinusOne(t, a);
    SetMinusOne(t - {a}, b);
    SwapOthers(m, a, b, v);
  }

  lemma ClassifySwap(m: map<Card, nat>, a: Card, b: Card)
    requires a in m && b in m && a != b
    ensures Classify(m[a := m[b]][b := m[a]]) == Classify(m)
  {
    var n := m[a := m[b]][b := m[a]];
    assert n.Keys == m.Keys;
    CountSwap(m, a, b, 1);
    CountSwap(m, a, b, 2);
    CountSwap(m, a, b, 3);
    CountSwap(m, a, b, 4);
    AnyWithCount(m, 3);
    AnyWithCount(m, 4);
    AnyWithCount(n, 3);
    AnyWithCount(n, 4);
  }

  /** Which of several tied kinds receives the jokers does not change the type. */
  lemma JokersAnyOrder(items: map<Card, nat>, o1: seq<Card>, o2: seq<Card>)
    requires Covers(items, o1) && Covers(items, o2)
    ensures Classify(MoveJokers(items, o1)) == Classify(MoveJokers(items, o2))
  {
    var b1, b2 := Biggest(items, o1), Biggest(items, o2);
    if J in items {
      if b1.Some? {
        JokersToBiggest(items, o2, b1.value.0);
      }
      if b2.Some? {
        JokersToBiggest(items, o1, b2.value.0);
      }
      if b1.Some? && b2.Some? && b1.value.0 != b2.value.0 {
        var r1, r2 := b1.value.0, b2.value.0;
        var m1, m2 := GiveJokers(items, r1), GiveJokers(items, r2);
        assert m2 == m1[r1 := m1[r2]][r2 := m1[r1]];
        ClassifySwap(m1, r1, r2);
      }
    }
  }

  /**
   * The type depends only on the multiset of cards, and not on the order in which the
   * map's keys are visited.
   */
  lemma TypeOfMultiset(a: seq<Card>, b: seq<Card>, o1: seq<Card>, o2: seq<Card>)
    requires multiset(a) == multiset(b)
    requires Covers(CountsOf(a), o1) && Covers(CountsOf(b), o2)
    ensures TypeIn(a, o1) == TypeIn(b, o2)
  {
    CountsOnMultiset(a, b);
    JokersAnyOrder(CountsOf(a), o1, o2);
  }

  /** A hand of jokers only keeps its one kind, jokers, and is FiveOfKind. */
  lemma AllJokers(cards: seq<Card>, order: seq<Card>)
    requires |cards| > 0 && forall i :: 0 <= i < |cards| ==> cards[i] == J
    ensures CountsOf(cards).Keys == {J}
    ensures MoveJokers(CountsOf(cards), order) == CountsOf(cards)
    ensures TypeIn(cards, order) == Some(FiveOfKind)
  {
    var items := CountsOf(cards);
    forall c: Card
      ensures c in items <==> c == J
    {
      CountsMeans(cards, c);
      if c == J {
        assert cards[0] in multiset(cards);
      } else {
        assert c !in cards;
      }
    }
    assert items.Keys == {J};
    JokersKept(items, order);
  }

  lemma AllCardsComplete()
    ensures forall c: Card :: c in AllCards
  {
    forall c: Card
      ensures c in AllCards
    {
      assert AllCards[CardIndex(c)] == c;
    }
  }

  /** Lines 60-63: one entry per kind, counting its cards. */
  method CountKinds(cards: seq<Card>) returns (items: map<Card, nat>)
    ensures items == CountsOf(cards)
  {
    items := map[];
    for k := 0 to |cards|
      invariant items == CountsOf(cards[..k])
    {
      assert cards[..k + 1][..k] == cards[..k];
      var card := cards[k];
      items := items[card := if card in items then items[card] + 1 else 1];
    }
    assert cards[..|cards|] == cards;
  }

  /**
   * `Hand::get_type` visits the map's keys in its iteration order `order`; any order that
   * lists every card gives a type, and the same one.
   */
  lemma TypeAnyOrder(cards: seq<Card>, order: seq<Card>)
    requires |cards| == 5
    requires forall c: Card :: c in order
    ensures TypeIn(cards, order).Some? && TypeIn(cards, order) == HandTypeOf(cards)
  {
    NeverPanics(cards, order);
    AllCardsComplete();
    TypeOfMultiset(cards, cards, order, AllCards);
  }

  method GetType(hand: Hand, order: seq<Card>) returns (t: HandType)
    requires |hand.cards| == 5
    requires forall c: Card :: c in order
    ensures Some(t) == TypeIn(hand.cards, order)
    ensures Some(t) == HandTypeOf(hand.cards)
  {
    var cards := hand.cards;
    var items := CountKinds(cards);
    if J in items {
      var jokerCount := items[J];
      var biggest := Biggest(items, order);
      if biggest.Some? {
        var card := biggest.value.0;
        items := items[card := items[card] + jokerCount];
        items := items - {J};
      }
    }
    assert items == MoveJokers(CountsOf(cards), order);
    TypeAnyOrder(cards, order);
    t := Classify(items).value;
  }

  // ---------------------------------------------------------------------------------
  // Ordering (`PartialOrd` and `Ord` for `Hand`)
  // ---------------------------------------------------------------------------------

  datatype Ordering = Less | Equal | Greater

  function Flip(o: Ordering): Ordering
  {
    match o
    case Less => Greater
    case Equal => Equal
    case Greater => Less
  }

  /** `partial_cmp` of two discriminants. */
  function CompareRanks(a: nat, b: nat): Ordering
  {
    if a < b then Less else if a > b then Greater else Equal
  }

  /** `partial_cmp` of the card arrays: the first card that differs decides. */
  function CompareCards(a: seq<Card>, b: seq<Card>): Ordering
  {
    if a == [] || b == [] then CompareRanks(|a|, |b|)
    else
      var o := CompareRanks(CardRank(a[0]), CardRank(b[0]));
      if o != Equal then o else CompareCards(a[1..], b[1..])
  }

  /** Equal prefixes followed by a weaker card make the first array smaller. */
  lemma {:induction false} CardsFirstDifference(a: seq<Card>, b: seq<Card>, i: nat)
    requires i < |a| && i < |b| && a[..i] == b[..i] && CardRank(a[i]) < CardRank(b[i])
    ensures CompareCards(a, b) == Less
  {
    if i > 0 {
      assert a[0] == a[..i][0] && b[0] == b[..i][0];
      assert a[1..][..i - 1] == a[..i][1..] && b[1..][..i - 1] == b[..i][1..];
      CardsFirstDifference(a[1..], b[1..], i - 1);
    }
  }

  lemma {:induction false} CardsFlip(a: seq<Card>, b: seq<Card>)
    ensures CompareCards(b, a) == Flip(CompareCards(a, b))
  {
    if a != [] && b != [] {
      CardsFlip(a[1..], b[1..]);
    }
  }

  lemma {:induction false} CardsEqual(a: seq<Card>, b: seq<Card>)
    ensures CompareCards(a, b) == Equal <==> a == b
  {
    if a != [] && b != [] {
      CardsEqual(a[1..], b[1..]);
      if CardRank(a[0]) == CardRank(b[0]) {
        CardRankInjective(a[0], b[0]);
        assert a == [a[0]] + a[1..] && b == [b[0]] + b[1..];
      } else {
        assert a[0] != b[0];
      }
    }
  }

  lemma {:induction false} CardsTransitive(a: seq<Card>, b: seq<Card>, c: seq<Card>)
    requires CompareCards(a, b) == Less && CompareCards(b, c) == Less
    ensures CompareCards(a, c) == Less
  {
    if a != [] && b != [] && c != [] {
      if CardRank(a[0]) == CardRank(b[0]) && CardRank(b[0]) == CardRank(c[0]) {
        CardsTransitive(a[1..], b[1..], c[1..]);
      }
    }
  }

  /** `NeverPanics` for the order the model visits the keys in, without the shape. */
  lemma AlwaysClassified(cards: seq<Card>)
    requires |cards| == 5
    ensures HandTypeOf(cards).Some?
  {
    NeverPanics(cards, AllCards);
  }

  /** The type of five cards. */
  function TypeOfFive(cards: seq<Card>): HandType
    requires |cards| == 5
  {
    AlwaysClassified(cards);
    HandTypeOf(cards).value
  }

  /**
   * `Hand::partial_cmp` (and `cmp`, which unwraps it): the types decide, and between
   * hands of one type the cards do. The bids play no part.
   */
  function CompareHands(a: Hand, b: Hand): Ordering
    requires |a.cards| == 5 && |b.cards| == 5
  {
    var o := CompareRanks(TypeRank(TypeOfFive(a.cards)), TypeRank(TypeOfFive(b.cards)));
    if o != Equal then o else CompareCards(a.cards, b.cards)
  }

  /** A stronger type wins whatever the cards. */
  lemma CompareByType(a: Hand, b: Hand)
    requires |a.cards| == 5 && |b.cards| == 5
    requires TypeRank(TypeOfFive(a.cards)) < TypeRank(TypeOfFive(b.cards))
    ensures CompareHands(a, b) == Less
  {
  }

  /** Between hands of one type, the first differing card decides. */
  lemma CompareByCards(a: Hand, b: Hand, i: nat)
    requires |a.cards| == 5 && |b.cards| == 5 && TypeOfFive(a.cards) == TypeOfFive(b.cards)
    requires i < 5 && a.cards[..i] == b.cards[..i] && CardRank(a.cards[i]) < CardRank(b.cards[i])
    ensures CompareHands(a, b) == Less
  {
    CardsFirstDifference(a.cards, b.cards, i);
  }

  lemma CompareFlip(a: Hand, b: Hand)
    requires |a.cards| == 5 && |b.cards| == 5
    ensures CompareHands(b, a) == Flip(CompareHands(a, b))
  {
    CardsFlip(a.cards, b.cards);
  }

  /** Two hands compare equal exactly when they hold the same cards in the same order. */
  lemma CompareEqual(a: Hand, b: Hand)
    requires |a.cards| == 5 && |b.cards| == 5
    ensures CompareHands(a, b) == Equal <==> a.cards == b.cards
  {
    CardsEqual(a.cards, b.cards);
    if TypeRank(TypeOfFive(a.cards)) == TypeRank(TypeOfFive(b.cards)) {
      TypeOrder();
    }
  }

  lemma CompareTransitive(a: Hand, b: Hand, c: Hand)
    requires |a.cards| == 5 && |b.cards| == 5 && |c.cards| == 5
    requires CompareHands(a, b) == Less && CompareHands(b, c) == Less
    ensures CompareHands(a, c) == Less
  {
    var ra, rb, rc := TypeRank(TypeOfFive(a.cards)), TypeRank(TypeOfFive(b.cards)), TypeRank(TypeOfFive(c.cards));
    if ra == rb && rb == rc {
      CardsTransitive(a.cards, b.cards, c.cards);
    }
  }

  /** `a` sorts strictly before `b`. */
  ghost predicate Below(a: Hand, b: Hand)
  {
    |a.cards| == 5 && |b.cards| == 5 && CompareHands(a, b) == Less
  }

  /** `Hand::cmp` is a strict order on hands of five cards, as `sort` needs. */
  lemma BelowStrict()
    ensures StrictOrder(Below)
  {
    forall x: Hand
      ensures !Below(x, x)
    {
      if |x.cards| == 5 {
        CompareEqual(x, x);
      }
    }
    forall x: Hand, y: Hand, z: Hand | Below(x, y) && Below(y, z)
      ensures Below(x, z)
    {
      CompareTransitive(x, y, z);
    }
  }

  /**
   * Hands in strictly increasing order, as `sort` leaves hands whose cards all differ
   * (hands with equal cards compare `Equal`, see `CompareEqual`).
   */
  ghost predicate Ascending(hands: seq<Hand>)
  {
    Increasing(hands, Below)
  }

  /** Each hand below the next one is enough, by transitivity. */
  lemma AscendingByNeighbours(hands: seq<Hand>)
    requires Chained(hands, Below)
    ensures Ascending(hands)
  {
    BelowStrict();
    IncreasingByChain(hands, Below);
  }

  /**
   * The sorted order is unique: two strictly increasing arrangements of the same hands
   * are the same list, so what `sort` returns is fixed by the hands alone.
   */
  lemma AscendingUnique(a: seq<Hand>, b: seq<Hand>)
    requires Ascending(a) && Ascending(b) && multiset(a) == multiset(b)
    ensures a == b
  {
    BelowStrict();
    IncreasingUnique(a, b, Below);
  }

  // ---------------------------------------------------------------------------------
  // Total winnings
  // ---------------------------------------------------------------------------------

  /** The accumulator of the `fold` in `get_total_winnings` after the first `k` hands. */
  function Winnings(hands: seq<Hand>, k: nat): nat
    requires k <= |hands|
  {
    if k == 0 then 0 else Winnings(hands, k - 1) + k * hands[k - 1].points
  }

  /** `get_total_winnings`. */
  function TotalWinnings(hands: seq<Hand>): nat
  {
    Winnings(hands, |hands|)
  }

  /** Each bid weighed by its rank, the position in the slice plus one. */
  function Weighted(hands: seq<Hand>): (w: seq<int>)
    ensures |w| == |hands|
    ensures forall i :: 0 <= i < |hands| ==> w[i] == (i + 1) * hands[i].points
  {
    seq(|hands|, i requires 0 <= i < |hands| => (i + 1) * hands[i].points)
  }

  /** The total winnings are the sum of the weighted bids. */
  lemma {:induction false} WinningsSum(hands: seq<Hand>, k: nat)
    requires k <= |hands|
    ensures Winnings(hands, k) == Sum(Weighted(hands)[..k])
  {
    if k > 0 {
      WinningsSum(hands, k - 1);
      var w := Weighted(hands);
      assert w[..k] == w[..k - 1] + [w[k - 1]];
      SumAppend(w[..k - 1], [w[k - 1]]);
    }
  }

  lemma TotalWinningsSum(hands: seq<Hand>)
    ensures TotalWinnings(hands) == Sum(Weighted(hands))
  {
    WinningsSum(hands, |hands|);
    assert Weighted(hands)[..|hands|] == Weighted(hands);
  }

  /** With `u16` bids, twice the winnings of `k` hands are at most k(k+1) times the largest bid. */
  lemma {:induction false} WinningsBound(hands: seq<Hand>, k: nat)
    requires k <= |hands|
    requires forall i :: 0 <= i < |hands| ==> hands[i].points <= U16_MAX
    ensures 2 * Winnings(hands, k) <= k * (k + 1) * U16_MAX
  {
    if k > 0 {
      WinningsBound(hands, k - 1);
      var p := hands[k - 1].points;
      assert k * p <= k * U16_MAX;
      assert k * (k + 1) * U16_MAX == (k - 1) * k * U16_MAX + 2 * k * U16_MAX;
    }
  }

  /** Up to 2^24 hands the `u64` sum of `get_total_winnings` cannot overflow. */
  lemma WinningsFitU64(hands: seq<Hand>)
    requires |hands| <= 0x100_0000
    requires forall i :: 0 <= i < |hands| ==> hands[i].points <= U16_MAX
    ensures TotalWinnings(hands) <= U64_MAX
  {
    var n := |hands|;
    WinningsBound(hands, n);
    MulMono(n, 0x100_0000, n + 1, 0x100_0001);
    MulMono(n * (n + 1), 0x100_0000 * 0x100_0001, U16_MAX, U16_MAX);
  }

  lemma MulMono(a: nat, b: nat, c: nat, d: nat)
    requires a <= b && c <= d
    ensures a * c <= b * d
  {
    assert (b - a) * c >= 0;
    assert b * (d - c) >= 0;
  }
}

/**
 * Scratchcards (2023, day 4): each card lists winning numbers and the numbers it has.
 * A card's matches are its winning numbers that it also has. Part one scores each card
 * by doubling per match; part two lets every copy of a card win one copy of each of the
 * next cards, as many as it has matches, and counts the copies.
 */
module Scratchcards {
  import opened Common
  import opened Text

  /** A card: its id, its winning numbers, its numbers and how many copies of it there are. */
  datatype Card = Card(id: nat, winning: seq<nat>, mine: seq<nat>, instances: nat)

  // ---------------------------------------------------------------------------
  // Matches

  /** The numbers of `w` that occur in `m`, in the order of `w`. */
  function Matches(w: seq<nat>, m: seq<nat>): (r: seq<nat>)
    ensures |r| <= |w|
  {
    if w == [] then [] else (if w[0] in m then [w[0]] else []) + Matches(w[1..], m)
  }

  /** `get_winning_nums`: the card's winning numbers that it has, in winning-list order. */
  function WinningNums(card: Card): (r: seq<nat>)
    ensures |r| <= |card.winning|
  {
    Matches(card.winning, card.mine)
  }

  /** Each number occurs in the matches as often as in `w` when `m` has it, and not at all otherwise. */
  lemma {:induction false} MatchesCount(w: seq<nat>, m: seq<nat>, x: nat)
    ensures multiset(Matches(w, m))[x] == if x in m then multiset(w)[x] else 0
  {
    if w != [] {
      var head: seq<nat> := if w[0] in m then [w[0]] else [];
      MatchesCount(w[1..], m, x);
      assert multiset(w)[x] == multiset([w[0]])[x] + multiset(w[1..])[x] by {
        assert w == [w[0]] + w[1..];
      }
      assert multiset(Matches(w, m))[x] == multiset(head)[x] + multiset(Matches(w[1..], m))[x] by {
        assert Matches(w, m) == head + Matches(w[1..], m);
      }
    }
  }

  /** Matching keeps the order of the winning list: it distributes over concatenation. */
  lemma {:induction false} MatchesAppend(a: seq<nat>, b: seq<nat>, m: seq<nat>)
    ensures Matches(a + b, m) == Matches(a, m) + Matches(b, m)
  {
    if a == [] {
      assert a + b == b;
    } else {
      var h: seq<nat> := if a[0] in m then [a[0]] else [];
      assert (a + b)[0] == a[0] && (a + b)[1..] == a[1..] + b;
      assert Matches(a + b, m) == h + Matches(a[1..] + b, m);
      MatchesAppend(a[1..], b, m);
      assert Matches(a, m) == h + Matches(a[1..], m);
    }
  }

  lemma MatchesMeans(w: seq<nat>, m: seq<nat>, x: nat)
    ensures x in Matches(w, m) <==> x in w && x in m
  {
    MatchesCount(w, m, x);
  }

  /** Number of matches of a card. */
  function Wins(card: Card): nat
  {
    |WinningNums(card)|
  }

  // ---------------------------------------------------------------------------
  // Points (part one)

  function Pow2(e: nat): (p: nat)
    ensures p >= 1
  {
    if e == 0 then 1 else 2 * Pow2(e - 1)
  }

  /** `checked_sub(1).map_or(0, |exp| 2.pow(exp))`: no points without matches, else 2^(k-1). */
  function Score(k: nat): nat
  {
    if k == 0 then 0 else Pow2(k - 1)
  }

  /** `get_points`: the sum of the scores of the match lists. */
  function Points(mw: seq<seq<nat>>): nat
  {
    if mw == [] then 0 else Score(|mw[0]|) + Points(mw[1..])
  }

  /** The first match is worth one point and each further match doubles the score. */
  lemma ScoreDoubles(k: nat)
    ensures Score(0) == 0 && Score(1) == 1
    ensures k >= 1 ==> Score(k + 1) == 2 * Score(k)
  {
  }

  lemma {:induction false} PointsAppend(a: seq<seq<nat>>, b: seq<seq<nat>>)
    ensures Points(a + b) == Points(a) + Points(b)
  {
    if a == [] {
      assert a + b == b;
    } else {
      assert (a + b)[1..] == a[1..] + b;
      PointsAppend(a[1..], b);
    }
  }

  /** The points are zero exactly when no card has a match. */
  lemma {:induction false} PointsZero(mw: seq<seq<nat>>)
    ensures Points(mw) == 0 <==> forall i :: 0 <= i < |mw| ==> mw[i] == []
  {
    if mw != [] {
      PointsZero(mw[1..]);
      assert forall i :: 1 <= i < |mw| ==> mw[i] == mw[1..][i - 1];
    }
  }

  lemma {:induction false} Pow2Mono(a: nat, b: nat)
    requires a <= b
    ensures Pow2(a) <= Pow2(b)
    decreases b
  {
    if a < b {
      Pow2Mono(a, b - 1);
    }
  }

  lemma {:induction false} Pow2Add(a: nat, b: nat)
    ensures Pow2(a + b) == Pow2(a) * Pow2(b)
  {
    if a > 0 {
      Pow2Add(a - 1, b);
    }
  }

  lemma Pow2Of16()
    ensures Pow2(16) == 0x1_0000
  {
    assert Pow2(8) == 0x100;
    Pow2Add(8, 8);
  }

  lemma Pow2Of32()
    ensures Pow2(32) == 0x1_0000_0000
  {
    Pow2Of16();
    Pow2Add(16, 16);
  }

  lemma Pow2Of63()
    ensures Pow2(63) == 0x8000_0000_0000_0000
  {
    Pow2Of32();
    Pow2Add(32, 32);
    assert Pow2(64) == 2 * Pow2(63);
  }

  /** With at most 64 matches the `u64` power does not overflow. */
  lemma ScoreFitsU64(k: nat)
    requires k <= 64
    ensures Score(k) <= U64_MAX
  {
    if k > 0 {
      Pow2Mono(k - 1, 63);
      Pow2Of63();
    }
  }

  // ---------------------------------------------------------------------------
  // Parsing

  /** Every word parsed as a `u8`; any failure is a panic. */
  function ParseNums(words: seq<string>): (r: Option<seq<nat>>)
    ensures r.Some? ==> |r.value| == |words|
    ensures r.Some? ==> forall i :: 0 <= i < |r.value| ==> r.value[i] <= U8_MAX
  {
    if words == [] then Some([])
    else
      var n := ParseUnsigned(words[0], U8_MAX);
      var rest := ParseNums(words[1..]);
      if n.None? || rest.None? then None else Some([n.value] + rest.value)
  }

  /**
   * `Card::from_str`: the second word before `:` is the id, and the text after it is
   * split on `|` into the winning numbers and the card's numbers, all `u8`. A missing
   * piece or a number that does not parse is a panic.
   */
  function ParseCard(s: string): (r: Option<Card>)
    ensures r.Some? ==> r.value.instances == 1 && r.value.id <= U8_MAX
    ensures r.Some? ==> forall i :: 0 <= i < |r.value.winning| ==> r.value.winning[i] <= U8_MAX
    ensures r.Some? ==> forall i :: 0 <= i < |r.value.mine| ==> r.value.mine[i] <= U8_MAX
  {
    var parts := Split(s, ":");
    var head := SplitWhitespace(parts[0]);
    if |head| < 2 then None
    else
      var id := ParseUnsigned(head[1], U8_MAX);
      if id.None? || |parts| < 2 then None
      else
        var nums := Split(parts[1], "|");
        if |nums| < 2 then None
        else
          var w := ParseNums(SplitWhitespace(nums[0]));
          var m := ParseNums(SplitWhitespace(nums[1]));
          if w.None? || m.None? then None else Some(Card(id.value, w.value, m.value, 1))
  }

  /** A card written as `Card <id>: <winning> | <numbers>`, numbers separated by single spaces. */
  function FormatCard(id: nat, w: seq<nat>, m: seq<nat>): string
  {
    "Card " + Decimal(id) + ":" + " " + Join(Decimals(w), " ") + " | " + Join(Decimals(m), " ")
  }

  predicate AllU8(ns: seq<nat>)
  {
    forall i :: 0 <= i < |ns| ==> ns[i] <= U8_MAX
  }

  lemma DecimalsTail(ns: seq<nat>)
    requires ns != []
    ensures Decimals(ns) != [] && Decimals(ns)[0] == Decimal(ns[0]) && Decimals(ns)[1..] == Decimals(ns[1..])
  {
  }

  lemma AllU8Tail(ns: seq<nat>)
    requires ns != [] && AllU8(ns)
    ensures AllU8(ns[1..])
  {
  }

  lemma {:induction false} ParseNumsDecimals(ns: seq<nat>)
    requires AllU8(ns)
    ensures ParseNums(Decimals(ns)) == Some(ns)
  {
    if ns != [] {
      DecimalsTail(ns);
      ParseDecimal(ns[0], U8_MAX);
      AllU8Tail(ns);
      ParseNumsDecimals(ns[1..]);
      assert ns == [ns[0]] + ns[1..];
    }
  }

  /** Numbers joined by spaces hold neither `:` nor `|`. */
  lemma JoinedFree(ns: seq<nat>)
    ensures ':' !in Join(Decimals(ns), " ") && '|' !in Join(Decimals(ns), " ")
  {
    forall k | 0 <= k < |ns|
      ensures ':' !in Decimals(ns)[k] && '|' !in Decimals(ns)[k]
    {
      DecimalsAt(ns, k);
      DecimalFree(ns[k], ':');
      DecimalFree(ns[k], '|');
    }
    JoinFree(Decimals(ns), " ", ':');
    JoinFree(Decimals(ns), " ", '|');
  }

  /** The head `Card <id>` gives the id back as its second word. */
  lemma HeadRoundTrip(id: nat)
    requires id <= U8_MAX
    ensures var head := SplitWhitespace("Card " + Decimal(id));
      |head| >= 2 && ParseUnsigned(head[1], U8_MAX) == Some(id)
  {
    DecimalIsWord(id);
    assert Join(["Card", Decimal(id)], " ") == "Card " + Decimal(id);
    SplitWhitespaceJoin(["Card", Decimal(id)]);
    ParseDecimal(id, U8_MAX);
  }

  /** The winning numbers, padded by a space on each side, give their words back. */
  lemma LeftList(w: seq<nat>)
    requires AllU8(w)
    ensures ParseNums(SplitWhitespace(" " + Join(Decimals(w), " ") + " ")) == Some(w)
  {
    var jw := Join(Decimals(w), " ");
    DecimalsAreWords(w);
    assert " " + jw + " " == " " + (jw + " ");
    SplitWhitespacePadded(" ", jw + " ");
    SplitWhitespaceTrailing(Decimals(w));
    ParseNumsDecimals(w);
  }

  /** The card's numbers, after a space, give their words back. */
  lemma RightList(m: seq<nat>)
    requires AllU8(m)
    ensures ParseNums(SplitWhitespace(" " + Join(Decimals(m), " "))) == Some(m)
  {
    DecimalsAreWords(m);
    SplitWhitespacePadded(" ", Join(Decimals(m), " "));
    SplitWhitespaceJoin(Decimals(m));
    ParseNumsDecimals(m);
  }

  /** The text after `:` splits on `|` into the two padded lists. */
  lemma ListsSplit(jw: string, jm: string)
    requires '|' !in jw && '|' !in jm
    ensures Split(" " + jw + " | " + jm, "|") == [" " + jw + " ", " " + jm]
  {
    var left, right := " " + jw + " ", " " + jm;
    assert Join([left, right], "|") == " " + jw + " | " + jm by {
      assert Join([right], "|") == right;
    }
    SplitJoin([left, right], '|');
  }

  /** The two lists around `|` parse back to the given numbers. */
  lemma ListsRoundTrip(w: seq<nat>, m: seq<nat>)
    requires AllU8(w) && AllU8(m)
    ensures var nums := Split(" " + Join(Decimals(w), " ") + " | " + Join(Decimals(m), " "), "|");
      |nums| >= 2 && ParseNums(SplitWhitespace(nums[0])) == Some(w) && ParseNums(SplitWhitespace(nums[1])) == Some(m)
  {
    JoinedFree(w);
    JoinedFree(m);
    ListsSplit(Join(Decimals(w), " "), Join(Decimals(m), " "));
    LeftList(w);
    RightList(m);
  }

  /** A formatted card with `u8` id and numbers parses back to that card, with one instance. */
  lemma ParseCardRoundTrip(id: nat, w: seq<nat>, m: seq<nat>)
    requires id <= U8_MAX && AllU8(w) && AllU8(m)
    ensures ParseCard(FormatCard(id, w, m)) == Some(Card(id, w, m, 1))
  {
    CardSplit(id, w, m);
    HeadRoundTrip(id);
    ListsRoundTrip(w, m);
  }

  /** A formatted card splits on `:` into its head and its two lists. */
  lemma CardSplit(id: nat, w: seq<nat>, m: seq<nat>)
    ensures Split(FormatCard(id, w, m), ":")
      == ["Card " + Decimal(id), " " + Join(Decimals(w), " ") + " | " + Join(Decimals(m), " ")]
  {
    CardFree(id, w, m);
    CardJoin(id, w, m);
    SplitJoin(["Card " + Decimal(id), " " + Join(Decimals(w), " ") + " | " + Join(Decimals(m), " ")], ':');
  }

  lemma CardFree(id: nat, w: seq<nat>, m: seq<nat>)
    ensures ':' !in "Card " + Decimal(id)
    ensures ':' !in " " + Join(Decimals(w), " ") + " | " + Join(Decimals(m), " ")
  {
    DecimalFree(id, ':');
    JoinedFree(w);
    JoinedFree(m);
  }

  lemma CardJoin(id: nat, w: seq<nat>, m: seq<nat>)
    ensures FormatCard(id, w, m)
      == Join(["Card " + Decimal(id), " " + Join(Decimals(w), " ") + " | " + Join(Decimals(m), " ")], [':'])
  {
    var head := "Card " + Decimal(id);
    var body := " " + Join(Decimals(w), " ") + " | " + Join(Decimals(m), " ");
    assert Join([body], ":") == body;
    assert Join([head, body], ":") == head + ":" + body;
  }

  /** A line without `:` has no number lists, so parsing it panics. */
  lemma ParseCardNoColon(s: string)
    requires ':' !in s
    ensures ParseCard(s).None?
  {
    var k := FindFrom(s, ":", 0);
    assert k < |s| ==> s[k..k + 1] == ":" && s[k] in s;
  }

  // ---------------------------------------------------------------------------
  // Copies (part two)

  /** Adds `amount` instances to every card at an index in `lo .. hi`. */
  function Bumped(cs: seq<Card>, lo: nat, hi: nat, amount: nat): (r: seq<Card>)
    ensures |r| == |cs|
  {
    seq(|cs|, k requires 0 <= k < |cs| =>
      if lo <= k < hi then cs[k].(instances := cs[k].instances + amount) else cs[k])
  }

  /** End of the window of card `i`: its matches, clamped at the last card. */
  function WindowEnd(cs: seq<Card>, i: nat): (hi: nat)
    requires i < |cs|
    ensures i + 1 <= hi <= |cs|
  {
    if i + 1 + Wins(cs[i]) <= |cs| then i + 1 + Wins(cs[i]) else |cs|
  }

  /** Processing card `i`: each of its copies adds one instance to each card of its window. */
  function Step(cs: seq<Card>, i: nat): (r: seq<Card>)
    requires i < |cs|
    ensures |r| == |cs|
  {
    Bumped(cs, i + 1, WindowEnd(cs, i), cs[i].instances)
  }

  /** The cards after the first `i` have been processed, in order. */
  function Prefix(cs: seq<Card>, i: nat): (r: seq<Card>)
    requires i <= |cs|
    ensures |r| == |cs|
  {
    if i == 0 then cs else Step(Prefix(cs, i - 1), i - 1)
  }

  /** `process_cards` as a function of the cards. */
  function Processed(cs: seq<Card>): (r: seq<Card>)
    ensures |r| == |cs|
  {
    Prefix(cs, |cs|)
  }

  /**
   * The rule of part two as a reference: a card has its own instances plus one copy
   * for each copy of every earlier card whose window reaches it.
   */
  function Copies(cs: seq<Card>, k: nat): nat
    requires k < |cs|
    decreases k, 1
  {
    cs[k].instances + CopiesIn(cs, k, k)
  }

  /** The copies card `k` wins from the cards before `j`. */
  function CopiesIn(cs: seq<Card>, k: nat, j: nat): nat
    requires j <= k < |cs|
    decreases j, 0
  {
    if j == 0 then 0
    else CopiesIn(cs, k, j - 1) + (if k <= j - 1 + Wins(cs[j - 1]) then Copies(cs, j - 1) else 0)
  }

  /** Processing changes only instance counts, and never lowers one. */
  ghost predicate SameCards(a: seq<Card>, b: seq<Card>)
  {
    |a| == |b| &&
    forall k :: 0 <= k < |a| ==>
      b[k].id == a[k].id && b[k].winning == a[k].winning && b[k].mine == a[k].mine &&
      b[k].instances >= a[k].instances
  }

  lemma {:induction false} PrefixSame(cs: seq<Card>, i: nat)
    requires i <= |cs|
    ensures SameCards(cs, Prefix(cs, i))
  {
    if i > 0 {
      PrefixSame(cs, i - 1);
    }
  }

  /** Once card `j` has been processed, later steps leave it as it is. */
  lemma {:induction false} PrefixSettled(cs: seq<Card>, i: nat, j: nat)
    requires j <= i <= |cs| && j < |cs|
    ensures Prefix(cs, i)[j] == Prefix(cs, j)[j]
  {
    if j < i {
      PrefixSettled(cs, i - 1, j);
    }
  }

  /** The instances card `k` has gained from the first `i` steps. */
  function Inflow(cs: seq<Card>, k: nat, i: nat): nat
    requires i <= |cs| && k < |cs|
  {
    if i == 0 then 0 else Inflow(cs, k, i - 1) + Gain(cs, k, i - 1)
  }

  /** What step `j` adds to card `k`: card `j`'s current instances when `k` is in its window. */
  function Gain(cs: seq<Card>, k: nat, j: nat): nat
    requires j < |cs| && k < |cs|
  {
    if j < k <= j + Wins(cs[j]) then Prefix(cs, j)[j].instances else 0
  }

  /** Processing leaves every card's number lists, and so its number of matches, as they are. */
  lemma {:induction false} PrefixLists(cs: seq<Card>, i: nat, k: nat)
    requires i <= |cs| && k < |cs|
    ensures Prefix(cs, i)[k].winning == cs[k].winning && Prefix(cs, i)[k].mine == cs[k].mine
    ensures Wins(Prefix(cs, i)[k]) == Wins(cs[k])
  {
    if i > 0 {
      PrefixLists(cs, i - 1, k);
    }
  }

  /** Step `i` adds card `i`'s instances to card `k` exactly when `k` is in its window. */
  lemma StepAt(cs: seq<Card>, i: nat, k: nat)
    requires i < |cs| && k < |cs|
    ensures Step(cs, i)[k].instances
      == cs[k].instances + (if i < k <= i + Wins(cs[i]) then cs[i].instances else 0)
  {
  }

  /** One step of processing, seen from the original cards. */
  lemma PrefixStepAt(cs: seq<Card>, i: nat, k: nat)
    requires 0 < i <= |cs| && k < |cs|
    ensures Prefix(cs, i)[k].instances == Prefix(cs, i - 1)[k].instances + Gain(cs, k, i - 1)
  {
    PrefixLists(cs, i - 1, i - 1);
    StepAt(Prefix(cs, i - 1), i - 1, k);
  }

  lemma {:induction false} PrefixInflow(cs: seq<Card>, i: nat, k: nat)
    requires i <= |cs| && k < |cs|
    ensures Prefix(cs, i)[k].instances == cs[k].instances + Inflow(cs, k, i)
  {
    if i > 0 {
      PrefixInflow(cs, i - 1, k);
      PrefixStepAt(cs, i, k);
    }
  }


  lemma {:induction false} DiagonalCopies(cs: seq<Card>, j: nat)
    requires j < |cs|
    ensures Prefix(cs, j)[j].instances == Copies(cs, j)
    decreases j, 1
  {
    PrefixInflow(cs, j, j);
    InflowCopies(cs, j, j);
  }

  lemma {:induction false} InflowCopies(cs: seq<Card>, k: nat, i: nat)
    requires i <= k < |cs|
    ensures Inflow(cs, k, i) == CopiesIn(cs, k, i)
    decreases i, 0
  {
    if i > 0 {
      InflowCopies(cs, k, i - 1);
      DiagonalCopies(cs, i - 1);
    }
  }

  /** Each processed card holds exactly the copies the rule of part two gives it. */
  lemma ProcessedCopies(cs: seq<Card>, k: nat)
    requires k < |cs|
    ensures Processed(cs)[k].instances == Copies(cs, k)
  {
    PrefixSettled(cs, |cs|, k);
    DiagonalCopies(cs, k);
  }

  /** Processing keeps the ids and number lists, never lowers a count, and leaves the first card as it is. */
  lemma ProcessedKeeps(cs: seq<Card>)
    ensures SameCards(cs, Processed(cs))
    ensures |cs| > 0 ==> Processed(cs)[0] == cs[0]
  {
    PrefixSame(cs, |cs|);
    if |cs| > 0 {
      PrefixSettled(cs, |cs|, 0);
    }
  }

  /** Adding to a window twice adds the sum. */
  lemma BumpedTwice(cs: seq<Card>, lo: nat, hi: nat, a: nat, b: nat)
    ensures Bumped(Bumped(cs, lo, hi, a), lo, hi, b) == Bumped(cs, lo, hi, a + b)
  {
  }

  /** The innermost loop: one more instance for each card in `lo .. hi`. */
  method BumpWindow(cards: array<Card>, lo: nat, hi: nat)
    requires lo <= hi <= cards.Length
    modifies cards
    ensures cards[..] == Bumped(old(cards[..]), lo, hi, 1)
  {
    for k := lo to hi
      invariant cards[..] == Bumped(old(cards[..]), lo, k, 1)
    {
      cards[k] := cards[k].(instances := cards[k].instances + 1);
    }
  }

  /** The middle loop: the window gets one instance per copy of the current card. */
  method AddCopies(cards: array<Card>, lo: nat, hi: nat, copies: nat)
    requires lo <= hi <= cards.Length
    modifies cards
    ensures cards[..] == Bumped(old(cards[..]), lo, hi, copies)
  {
    for r := 0 to copies
      invariant cards[..] == Bumped(old(cards[..]), lo, hi, r)
    {
      BumpWindow(cards, lo, hi);
      BumpedTwice(old(cards[..]), lo, hi, r, 1);
    }
  }

  /** `process_cards`: the cards in order, each copy of a card adding to its window. */
  method ProcessCards(cards: array<Card>)
    modifies cards
    ensures cards[..] == Processed(old(cards[..]))
  {
    for current := 0 to cards.Length
      invariant cards[..] == Prefix(old(cards[..]), current)
    {
      var wCards := |WinningNums(cards[current])|;
      var copies := cards[current].instances;
      var hi := if current + 1 + wCards <= cards.Length then current + 1 + wCards else cards.Length;
      ghost var before := cards[..];
      AddCopies(cards, current + 1, hi, copies);
      assert cards[..] == Step(before, current);
    }
  }

  /** The number of cards after processing, as `main` sums the instances. */
  function TotalInstances(cs: seq<Card>): nat
  {
    if cs == [] then 0 else cs[0].instances + TotalInstances(cs[1..])
  }

  /** Processing never lowers the total, so there are at least as many cards as before. */
  lemma {:induction false} TotalAtLeast(a: seq<Card>, b: seq<Card>)
    requires SameCards(a, b)
    ensures TotalInstances(b) >= TotalInstances(a)
  {
    if a != [] {
      TotalAtLeast(a[1..], b[1..]);
    }
  }
}

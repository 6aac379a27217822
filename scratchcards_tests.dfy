/**
 * The unit tests of 2023 day 4 (`2023/day-04/src/main.rs`, lines 97-245), stated as
 * lemmas about the model: parsing one line, the matches of the six example cards, the
 * points of the example and the copies after processing it.
 */
module ScratchcardsExamples {
  import opened Common
  import opened Text
  import opened Scratchcards

  const Card1: Card := Card(1, [41, 48, 83, 86, 17], [83, 86, 6, 31, 17, 9, 48, 53], 1)
  const Card2: Card := Card(2, [13, 32, 20, 16, 61], [61, 30, 68, 82, 17, 32, 24, 19], 1)
  const Card3: Card := Card(3, [1, 21, 53, 59, 44], [69, 82, 63, 72, 16, 21, 14, 1], 1)
  const Card4: Card := Card(4, [41, 92, 73, 84, 69], [59, 84, 76, 51, 58, 5, 54, 83], 1)
  const Card5: Card := Card(5, [87, 83, 26, 28, 32], [88, 30, 70, 12, 93, 22, 82, 36], 1)
  const Card6: Card := Card(6, [31, 18, 13, 56, 72], [74, 77, 10, 23, 35, 67, 36, 11], 1)

  /** The six cards of the example input, as they parse. */
  const ExampleCards: seq<Card> := [Card1, Card2, Card3, Card4, Card5, Card6]

  /** The test line `Card 13: 41 48 83 86 17 | 83 86  6 31 17  9 48 53`, in its three pieces. */
  const LineHead: string := "Card 13"
  const LineWinning: string := " 41 48 83 86 17 "
  const LineMine: string := " 83 86  6 31 17  9 48 53"
  const Line13: string := LineHead + ":" + LineWinning + "|" + LineMine

  lemma LineParts()
    ensures Split(Line13, ":") == [LineHead, LineWinning + "|" + LineMine]
  {
    assert Join([LineWinning + "|" + LineMine], ":") == LineWinning + "|" + LineMine;
    assert Join([LineHead, LineWinning + "|" + LineMine], [':']) == Line13;
    SplitJoin([LineHead, LineWinning + "|" + LineMine], ':');
  }

  lemma LineLists()
    ensures Split(LineWinning + "|" + LineMine, "|") == [LineWinning, LineMine]
  {
    assert Join([LineMine], "|") == LineMine;
    assert Join([LineWinning, LineMine], ['|']) == LineWinning + "|" + LineMine;
    SplitJoin([LineWinning, LineMine], '|');
  }

  /** One word after some whitespace, followed by more text. */
  lemma WordStep(pad: string, w: string, t: string)
    requires forall k :: 0 <= k < |pad| ==> IsWhitespace(pad[k])
    requires IsWord(w) && (t == [] || IsWhitespace(t[0]))
    ensures SplitWhitespace(pad + w + t) == [w] + SplitWhitespace(t)
  {
    assert pad + w + t == pad + (w + t);
    SplitWhitespacePadded(pad, w + t);
    SplitWhitespaceWord(w, t);
  }

  lemma LineId()
    ensures var head := SplitWhitespace(LineHead); |head| >= 2 && ParseUnsigned(head[1], U8_MAX) == Some(13)
  {
    assert LineHead == Spaced(["", " "], ["Card", "13"]) + "";
    SpacedWords(["", " "], ["Card", "13"], "");
    DecimalDigits(13, '1', '3');
    ParseDecimal(13, U8_MAX);
  }

  predicate Blank(pad: string)
  {
    forall k :: 0 <= k < |pad| ==> IsWhitespace(pad[k])
  }

  /** Each word preceded by its padding. */
  function Spaced(pads: seq<string>, words: seq<string>): string
    requires |pads| == |words|
  {
    if words == [] then "" else pads[0] + words[0] + Spaced(pads[1..], words[1..])
  }

  /** Words separated by nonempty whitespace split back into the words. */
  lemma {:induction false} SpacedWords(pads: seq<string>, words: seq<string>, tail: string)
    requires |pads| == |words| && Blank(tail)
    requires forall k :: 0 <= k < |pads| ==> Blank(pads[k])
    requires forall k :: 1 <= k < |pads| ==> pads[k] != []
    requires forall k :: 0 <= k < |words| ==> IsWord(words[k])
    ensures SplitWhitespace(Spaced(pads, words) + tail) == words
  {
    if words == [] {
      assert Spaced(pads, words) + tail == [] + tail;
      SplitWhitespacePadded(tail, []);
      assert [] + tail == tail && tail + [] == tail;
      assert SplitWhitespace([]) == [];
    } else {
      var rest := Spaced(pads[1..], words[1..]) + tail;
      assert Spaced(pads, words) + tail == pads[0] + words[0] + rest;
      if |words| > 1 {
        assert pads[1..][0] == pads[1];
        assert rest[0] == pads[1][0];
      } else if tail != [] {
        assert rest == tail;
      }
      WordStep(pads[0], words[0], rest);
      SpacedWords(pads[1..], words[1..], tail);
    }
  }

  lemma LineWinningWords()
    ensures SplitWhitespace(LineWinning) == ["41", "48", "83", "86", "17"]
  {
    var words := ["41", "48", "83", "86", "17"];
    var pads := [" ", " ", " ", " ", " "];
    assert LineWinning == Spaced(pads, words) + " ";
    SpacedWords(pads, words, " ");
  }

  /** The rendering of a number below 100, digit by digit. */
  lemma DecimalDigits(n: nat, a: char, b: char)
    requires n < 100
    requires if n < 10 then a == DigitChar(n) else a == DigitChar(n / 10) && b == DigitChar(n % 10)
    ensures Decimal(n) == if n < 10 then [a] else [a, b]
  {
    if n >= 10 {
      assert Decimal(n / 10) == [a];
    }
  }

  lemma LineWinningDecimals()
    ensures Decimals([41, 48, 83, 86, 17]) == ["41", "48", "83", "86", "17"]
  {
    var ns := [41, 48, 83, 86, 17];
    DecimalsAt(ns, 0);
    DecimalsAt(ns, 1);
    DecimalsAt(ns, 2);
    DecimalsAt(ns, 3);
    DecimalsAt(ns, 4);
    DecimalDigits(41, '4', '1');
    DecimalDigits(48, '4', '8');
    DecimalDigits(83, '8', '3');
    DecimalDigits(86, '8', '6');
    DecimalDigits(17, '1', '7');
  }

  lemma LineWinningNums()
    ensures ParseNums(SplitWhitespace(LineWinning)) == Some([41, 48, 83, 86, 17])
  {
    LineWinningWords();
    LineWinningDecimals();
    ParseNumsDecimals([41, 48, 83, 86, 17]);
  }

  const MineWords: seq<string> := ["83", "86", "6", "31", "17", "9", "48", "53"]
  const MinePads: seq<string> := [" ", " ", "  ", " ", " ", "  ", " ", " "]

  lemma MineSpaced()
    ensures LineMine == Spaced(MinePads, MineWords) + ""
  {
  }

  lemma MineWordsAreWords()
    ensures forall k :: 0 <= k < |MineWords| ==> IsWord(MineWords[k])
  {
  }

  lemma MinePadsBlank()
    ensures forall k :: 0 <= k < |MinePads| ==> Blank(MinePads[k])
    ensures forall k :: 1 <= k < |MinePads| ==> MinePads[k] != []
  {
  }

  lemma LineMineWords()
    ensures SplitWhitespace(LineMine) == MineWords
  {
    MineSpaced();
    MineWordsAreWords();
    MinePadsBlank();
    SpacedWords(MinePads, MineWords, "");
  }

  lemma LineMineDecimals()
    ensures Decimals([83, 86, 6, 31, 17, 9, 48, 53]) == MineWords
  {
    var ns := [83, 86, 6, 31, 17, 9, 48, 53];
    DecimalsAt(ns, 0);
    DecimalsAt(ns, 1);
    DecimalsAt(ns, 2);
    DecimalsAt(ns, 3);
    DecimalsAt(ns, 4);
    DecimalsAt(ns, 5);
    DecimalsAt(ns, 6);
    DecimalsAt(ns, 7);
    DecimalDigits(83, '8', '3');
    DecimalDigits(86, '8', '6');
    DecimalDigits(6, '6', ' ');
    DecimalDigits(31, '3', '1');
    DecimalDigits(17, '1', '7');
    DecimalDigits(9, '9', ' ');
    DecimalDigits(48, '4', '8');
    DecimalDigits(53, '5', '3');
  }

  lemma LineMineU8()
    ensures AllU8([83, 86, 6, 31, 17, 9, 48, 53])
  {
  }

  lemma LineMineNums()
    ensures ParseNums(SplitWhitespace(LineMine)) == Some([83, 86, 6, 31, 17, 9, 48, 53])
  {
    LineMineWords();
    LineMineDecimals();
    assert AllU8([83, 86, 6, 31, 17, 9, 48, 53]) by {
      LineMineU8();
    }
    ParseNumsDecimals([83, 86, 6, 31, 17, 9, 48, 53]);
  }

  /** Test `parse`: the line with id 13 parses to its id, both lists and one instance. */
  lemma ParseExample()
    ensures ParseCard(Line13) == Some(Card(13, [41, 48, 83, 86, 17], [83, 86, 6, 31, 17, 9, 48, 53], 1))
  {
    LineParts();
    LineId();
    LineLists();
    LineWinningNums();
    LineMineNums();
  }

  function Hit(x: nat, m: seq<nat>): seq<nat>
  {
    if x in m then [x] else []
  }

  lemma MatchesCons(x: nat, rest: seq<nat>, m: seq<nat>)
    ensures Matches([x] + rest, m) == Hit(x, m) + Matches(rest, m)
  {
    assert ([x] + rest)[0] == x && ([x] + rest)[1..] == rest;
  }

  /** Matching five winning numbers, one at a time. */
  lemma MatchesFive(a: nat, b: nat, c: nat, d: nat, e: nat, m: seq<nat>)
    ensures Matches([a, b, c, d, e], m) == Hit(a, m) + (Hit(b, m) + (Hit(c, m) + (Hit(d, m) + Hit(e, m))))
  {
    assert [a, b, c, d, e] == [a] + [b, c, d, e];
    assert [b, c, d, e] == [b] + [c, d, e];
    assert [c, d, e] == [c] + [d, e];
    assert [d, e] == [d] + [e];
    MatchesCons(a, [b, c, d, e], m);
    MatchesCons(b, [c, d, e], m);
    MatchesCons(c, [d, e], m);
    MatchesCons(d, [e], m);
    assert Matches([e], m) == Hit(e, m);
  }

  lemma Hits1()
    ensures Hit(41, Card1.mine) == [] && Hit(48, Card1.mine) == [48] && Hit(83, Card1.mine) == [83]
    ensures Hit(86, Card1.mine) == [86] && Hit(17, Card1.mine) == [17]
  {
    assert Card1.mine[0] == 83 && Card1.mine[1] == 86 && Card1.mine[4] == 17 && Card1.mine[6] == 48;
  }

  lemma Hits2()
    ensures Hit(13, Card2.mine) == [] && Hit(32, Card2.mine) == [32] && Hit(20, Card2.mine) == []
    ensures Hit(16, Card2.mine) == [] && Hit(61, Card2.mine) == [61]
  {
    assert Card2.mine[0] == 61 && Card2.mine[5] == 32;
  }

  lemma Hits3()
    ensures Hit(1, Card3.mine) == [1] && Hit(21, Card3.mine) == [] + [21] && Hit(53, Card3.mine) == []
    ensures Hit(59, Card3.mine) == [] && Hit(44, Card3.mine) == []
  {
    assert Card3.mine[5] == 21 && Card3.mine[7] == 1;
  }

  lemma Hits4()
    ensures Hit(41, Card4.mine) == [] && Hit(92, Card4.mine) == [] && Hit(73, Card4.mine) == []
    ensures Hit(84, Card4.mine) == [84] && Hit(69, Card4.mine) == []
  {
    assert Card4.mine[1] == 84;
  }

  lemma Hits5()
    ensures Hit(87, Card5.mine) == [] && Hit(83, Card5.mine) == [] && Hit(26, Card5.mine) == []
    ensures Hit(28, Card5.mine) == [] && Hit(32, Card5.mine) == []
  {
  }

  lemma Hits6()
    ensures Hit(31, Card6.mine) == [] && Hit(18, Card6.mine) == [] && Hit(13, Card6.mine) == []
    ensures Hit(56, Card6.mine) == [] && Hit(72, Card6.mine) == []
  {
  }

  /** Test `t1`. */
  lemma Winning1()
    ensures WinningNums(Card1) == [48, 83, 86, 17]
  {
    MatchesFive(41, 48, 83, 86, 17, Card1.mine);
    Hits1();
  }

  /** Test `t2`. */
  lemma Winning2()
    ensures WinningNums(Card2) == [32, 61]
  {
    MatchesFive(13, 32, 20, 16, 61, Card2.mine);
    Hits2();
  }

  /** Test `t3`. */
  lemma Winning3()
    ensures WinningNums(Card3) == [1, 21]
  {
    MatchesFive(1, 21, 53, 59, 44, Card3.mine);
    Hits3();
  }

  /** Test `t4`. */
  lemma Winning4()
    ensures WinningNums(Card4) == [84]
  {
    MatchesFive(41, 92, 73, 84, 69, Card4.mine);
    Hits4();
  }

  /** Test `t5`. */
  lemma Winning5()
    ensures WinningNums(Card5) == []
  {
    MatchesFive(87, 83, 26, 28, 32, Card5.mine);
    Hits5();
  }

  /** Test `t6`. */
  lemma Winning6()
    ensures WinningNums(Card6) == []
  {
    MatchesFive(31, 18, 13, 56, 72, Card6.mine);
    Hits6();
  }

  lemma Wins1()
    ensures Wins(Card1) == 4
  {
    Winning1();
  }

  lemma Wins2()
    ensures Wins(Card2) == 2
  {
    Winning2();
  }

  lemma Wins3()
    ensures Wins(Card3) == 2
  {
    Winning3();
  }

  lemma Wins4()
    ensures Wins(Card4) == 1
  {
    Winning4();
  }

  lemma Wins5()
    ensures Wins(Card5) == 0
  {
    Winning5();
  }

  lemma Wins6()
    ensures Wins(Card6) == 0
  {
    Winning6();
  }

  /** The match lists of the example, in card order. */
  const ExampleMatches: seq<seq<nat>> := [[48, 83, 86, 17], [32, 61], [1, 21], [84], [], []]

  /** The match lists of the example score 13 points. */
  lemma PointsOfMatches()
    ensures Points(ExampleMatches) == 13
  {
    var s := [Score(4), Score(2), Score(2), Score(1), Score(0), Score(0)];
    assert s == [8, 2, 2, 1, 0, 0];
    PointsAppend([ExampleMatches[0]], ExampleMatches[1..]);
    PointsAppend([ExampleMatches[1]], ExampleMatches[2..]);
    PointsAppend([ExampleMatches[2]], ExampleMatches[3..]);
    PointsAppend([ExampleMatches[3]], ExampleMatches[4..]);
    PointsAppend([ExampleMatches[4]], ExampleMatches[5..]);
  }

  /** Test `points`: the example cards score 13 points. */
  lemma PointsExample()
    ensures Points([WinningNums(Card1), WinningNums(Card2), WinningNums(Card3),
                    WinningNums(Card4), WinningNums(Card5), WinningNums(Card6)]) == 13
  {
    Winning1();
    Winning2();
    Winning3();
    Winning4();
    Winning5();
    Winning6();
    PointsOfMatches();
  }

  /** Six cards of one instance each, with 4, 2, 2, 1, 0 and 0 matches. */
  ghost predicate ExampleShape(cs: seq<Card>)
  {
    |cs| == 6 &&
    cs[0].instances == 1 && cs[1].instances == 1 && cs[2].instances == 1 &&
    cs[3].instances == 1 && cs[4].instances == 1 && cs[5].instances == 1 &&
    Wins(cs[0]) == 4 && Wins(cs[1]) == 2 && Wins(cs[2]) == 2 &&
    Wins(cs[3]) == 1 && Wins(cs[4]) == 0 && Wins(cs[5]) == 0
  }

  lemma ExampleIsShape()
    ensures ExampleShape(ExampleCards)
  {
    var cs := ExampleCards;
    assert cs[0] == Card1 && cs[1] == Card2 && cs[2] == Card3;
    assert cs[3] == Card4 && cs[4] == Card5 && cs[5] == Card6;
    Wins1();
    Wins2();
    Wins3();
    Wins4();
    Wins5();
    Wins6();
  }

  lemma Copies0(cs: seq<Card>)
    requires ExampleShape(cs)
    ensures Copies(cs, 0) == 1
  {
  }

  lemma Copies1(cs: seq<Card>)
    requires ExampleShape(cs)
    ensures Copies(cs, 1) == 2
  {
    Copies0(cs);
    assert CopiesIn(cs, 1, 1) == CopiesIn(cs, 1, 0) + Copies(cs, 0);
  }

  lemma Copies2(cs: seq<Card>)
    requires ExampleShape(cs)
    ensures Copies(cs, 2) == 4
  {
    Copies0(cs);
    Copies1(cs);
    assert CopiesIn(cs, 2, 1) == 1;
    assert CopiesIn(cs, 2, 2) == CopiesIn(cs, 2, 1) + Copies(cs, 1);
  }

  lemma Copies3(cs: seq<Card>)
    requires ExampleShape(cs)
    ensures Copies(cs, 3) == 8
  {
    Copies0(cs);
    Copies1(cs);
    Copies2(cs);
    assert CopiesIn(cs, 3, 1) == 1;
    assert CopiesIn(cs, 3, 2) == CopiesIn(cs, 3, 1) + Copies(cs, 1);
    assert CopiesIn(cs, 3, 3) == CopiesIn(cs, 3, 2) + Copies(cs, 2);
  }

  lemma Copies4(cs: seq<Card>)
    requires ExampleShape(cs)
    ensures Copies(cs, 4) == 14
  {
    Copies0(cs);
    Copies2(cs);
    Copies3(cs);
    assert CopiesIn(cs, 4, 1) == 1;
    assert CopiesIn(cs, 4, 2) == 1;
    assert CopiesIn(cs, 4, 3) == CopiesIn(cs, 4, 2) + Copies(cs, 2);
    assert CopiesIn(cs, 4, 4) == CopiesIn(cs, 4, 3) + Copies(cs, 3);
  }

  lemma Copies5(cs: seq<Card>)
    requires ExampleShape(cs)
    ensures Copies(cs, 5) == 1
  {
    assert CopiesIn(cs, 5, 1) == 0;
    assert CopiesIn(cs, 5, 2) == 0;
    assert CopiesIn(cs, 5, 3) == 0;
    assert CopiesIn(cs, 5, 4) == 0;
    assert CopiesIn(cs, 5, 5) == 0;
  }

  /** The example cards after processing. */
  const ExpectedCards: seq<Card> := [
    Card1.(instances := 1), Card2.(instances := 2), Card3.(instances := 4),
    Card4.(instances := 8), Card5.(instances := 14), Card6.(instances := 1)
  ]

  /** Card `k` after processing, given its number of copies. */
  lemma ProcessedAt(cs: seq<Card>, k: nat, n: nat)
    requires k < |cs| && Copies(cs, k) == n
    ensures Processed(cs)[k] == cs[k].(instances := n)
  {
    ProcessedKeeps(cs);
    ProcessedCopies(cs, k);
  }

  /** Any six cards shaped like the example end with 1, 2, 4, 8, 14 and 1 instances. */
  lemma ProcessShape(cs: seq<Card>)
    requires ExampleShape(cs)
    ensures Processed(cs) == [
      cs[0].(instances := 1), cs[1].(instances := 2), cs[2].(instances := 4),
      cs[3].(instances := 8), cs[4].(instances := 14), cs[5].(instances := 1)]
  {
    Copies0(cs);
    Copies1(cs);
    Copies2(cs);
    Copies3(cs);
    Copies4(cs);
    Copies5(cs);
    ProcessedAt(cs, 0, 1);
    ProcessedAt(cs, 1, 2);
    ProcessedAt(cs, 2, 4);
    ProcessedAt(cs, 3, 8);
    ProcessedAt(cs, 4, 14);
    ProcessedAt(cs, 5, 1);
  }

  /** Test `to_process_cards`: the instances become 1, 2, 4, 8, 14 and 1, and nothing else changes. */
  lemma ProcessExample()
    ensures Processed(ExampleCards) == ExpectedCards
  {
    ExampleIsShape();
    ProcessShape(ExampleCards);
  }

  /** Test `to_process_cards`: there are 30 cards in the end. */
  lemma TotalExample()
    ensures TotalInstances(Processed(ExampleCards)) == 30
  {
    ProcessExample();
    var e := ExpectedCards;
    assert e[5..][1..] == [] && e[4..][1..] == e[5..] && e[3..][1..] == e[4..];
    assert e[2..][1..] == e[3..] && e[1..][1..] == e[2..] && e[1..] == e[1..];
    assert TotalInstances(e[5..]) == 1;
    assert TotalInstances(e[4..]) == 15;
    assert TotalInstances(e[3..]) == 23;
    assert TotalInstances(e[2..]) == 27;
    assert TotalInstances(e[1..]) == 29;
  }
}

module TrebuchetExamples {
  import opened Common
  import opened Text
  import opened Trebuchet

  /** The names whose middle letter is `c`. */
  function Candidates(c: char): (r: seq<nat>)
    ensures forall k :: 0 <= k < |r| ==> r[k] < |WORDS|
  {
    match c
    case 'n' => [0, 8]
    case 'w' => [1]
    case 'r' => [2]
    case 'u' => [3]
    case 'v' => [4, 6]
    case 'i' => [5]
    case 'g' => [7]
    case _ => []
  }

  /** Every name is a candidate for its own middle letter. */
  lemma CandidatesCover(i: nat) returns (k: nat)
    requires i < |WORDS|
    ensures k < |Candidates(Name(i)[Mid(i)])| && Candidates(Name(i)[Mid(i)])[k] == i
  {
    k := if i == 6 || i == 8 then 1 else 0;
  }

  /** The letters in the middle of some name. */
  predicate IsMiddleLetter(c: char)
  {
    c == 'n' || c == 'w' || c == 'r' || c == 'u' || c == 'v' || c == 'i' || c == 'g'
  }

  /** No occurrence of name `i` has its middle at `j`. */
  predicate NotMiddleAt(s: string, i: nat, j: nat)
    requires i < |WORDS|
  {
    !(Mid(i) <= j && OccursAt(s, Name(i), j - Mid(i)))
  }

  /** A letter that is the middle of no name occurrence stays a letter. */
  lemma PlainAt(s: string, j: nat)
    requires j < |s| && !IsDigit(s[j])
    requires forall k :: 0 <= k < |Candidates(s[j])| ==> NotMiddleAt(s, Candidates(s[j])[k], j)
    ensures !IsDigit(Marked(s)[j])
  {
    forall i | 0 <= i < |WORDS| && Mid(i) <= j
      ensures !OccursAt(s, Name(i), j - Mid(i))
    {
      if OccursAt(s, Name(i), j - Mid(i)) {
        WordsShape(i);
        OccursChars(s, Name(i), j - Mid(i));
        assert s[j - Mid(i) + Mid(i)] == Name(i)[Mid(i)];
        var k := CandidatesCover(i);
        assert false;
      }
    }
    MarkedPlain(s, j);
  }

  /** A letter that is the middle of no name stays a letter. */
  lemma PlainLetterAt(s: string, j: nat)
    requires j < |s| && !IsDigit(s[j]) && !IsMiddleLetter(s[j])
    ensures !IsDigit(Marked(s)[j])
  {
    forall i | 0 <= i < |WORDS| && Mid(i) <= j
      ensures !OccursAt(s, Name(i), j - Mid(i))
    {
      if OccursAt(s, Name(i), j - Mid(i)) {
        WordsShape(i);
        OccursChars(s, Name(i), j - Mid(i));
        assert s[j - Mid(i) + Mid(i)] == Name(i)[Mid(i)];
        var k := CandidatesCover(i);
        assert false;
      }
    }
    MarkedPlain(s, j);
  }

  /** A digit of the line is the middle of no name. */
  lemma DigitAt(s: string, j: nat)
    requires j < |s| && IsDigit(s[j])
    ensures Marked(s)[j] == s[j]
  {
    forall i | 0 <= i < |WORDS| && Mid(i) <= j
      ensures !OccursAt(s, Name(i), j - Mid(i))
    {
      if OccursAt(s, Name(i), j - Mid(i)) {
        OccursChars(s, Name(i), j - Mid(i));
        WordsShape(i);
        assert false;
      }
    }
    MarkedPlain(s, j);
  }

  lemma PartOneFirst()
    ensures Calibration("1abc2") == 12
  {
    CalibrationDigits("1abc2", 0, 4);
  }

  lemma PartOneSecond()
    ensures Calibration("pqr3stu8vwx") == 38
  {
    CalibrationDigits("pqr3stu8vwx", 3, 7);
  }

  /** Position `k` holds a letter that is the middle of no name occurrence. */
  predicate Plain(s: string, k: nat)
    requires k < |s|
  {
    && !IsDigit(s[k])
    && (IsMiddleLetter(s[k]) ==> forall c :: 0 <= c < |Candidates(s[k])| ==> NotMiddleAt(s, Candidates(s[k])[c], k))
  }

  /** Position `k` shows digit `d` after the replacements: it is that digit, or the middle of that digit's name. */
  predicate Shows(s: string, k: nat, d: nat)
    requires k < |s|
  {
    || (IsDigit(s[k]) && DigitValue(s[k]) == d)
    || (1 <= d <= |WORDS| && Mid(d - 1) <= k && OccursAt(s, Name(d - 1), k - Mid(d - 1)))
  }

  lemma ShownDigit(s: string, k: nat, d: nat)
    requires k < |s| && Shows(s, k, d)
    ensures d < 10 && Marked(s)[k] == DigitChar(d)
  {
    if IsDigit(s[k]) && DigitValue(s[k]) == d {
      DigitAt(s, k);
    } else {
      MarkedName(s, k, d - 1);
    }
  }

  /** The part-two value of a line from where its first and last digits show up and which they are. */
  lemma FancyFrom(s: string, f: nat, l: nat, a: nat, b: nat)
    requires f <= l < |s| && Shows(s, f, a) && Shows(s, l, b)
    requires forall k :: 0 <= k < f ==> Plain(s, k)
    requires forall k :: l < k < |s| ==> Plain(s, k)
    ensures FancyValue(s) == 10 * a + b
  {
    ShownDigit(s, f, a);
    ShownDigit(s, l, b);
    forall k | 0 <= k < f
      ensures !IsDigit(Marked(s)[k])
    {
      assert Plain(s, k);
      if IsMiddleLetter(s[k]) {
        PlainAt(s, k);
      } else {
        PlainLetterAt(s, k);
      }
    }
    forall k | l < k < |s|
      ensures !IsDigit(Marked(s)[k])
    {
      assert Plain(s, k);
      if IsMiddleLetter(s[k]) {
        PlainAt(s, k);
      } else {
        PlainLetterAt(s, k);
      }
    }
    CalibrationDigits(Marked(s), f, l);
  }

  lemma PartOneThird()
    ensures Calibration("a1b2c3d4e5f") == 15
  {
    CalibrationDigits("a1b2c3d4e5f", 1, 9);
  }

  lemma PartOneFourth()
    ensures Calibration("treb7uchet") == 77
  {
    CalibrationSingleDigit("treb7uchet", 4);
  }

  lemma TwoOneNineEnds(s: string)
    requires s == "two1nine"
    ensures |s| == 8 && Shows(s, 1, 2) && Shows(s, 6, 9)
    ensures forall k :: 0 <= k < 1 ==> Plain(s, k)
    ensures forall k :: 6 < k < |s| ==> Plain(s, k)
  {
    assert OccursAt(s, Name(1), 0) && OccursAt(s, Name(8), 4);
    assert Plain(s, 0) && Plain(s, 7);
  }

  lemma TwoOneNine()
    ensures FancyValue("two1nine") == 29
  {
    var s := "two1nine";
    TwoOneNineEnds(s);
    FancyFrom(s, 1, 6, 2, 9);
  }

  lemma EightwothreeHead(s: string)
    requires s == "eightwothree"
    ensures forall k :: 0 <= k < 2 ==> Plain(s, k)
  {
    assert s[0] != Name(5)[0];
    assert Plain(s, 0) && Plain(s, 1);
  }

  lemma Eightwothree()
    ensures FancyValue("eightwothree") == 83
  {
    var s := "eightwothree";
    assert OccursAt(s, Name(7), 0) && OccursAt(s, Name(2), 7);
    EightwothreeHead(s);
    assert Plain(s, 10) && Plain(s, 11);
    FancyFrom(s, 2, 9, 8, 3);
  }

  lemma AbcHead(s: string)
    requires s == "abcone2threexyz"
    ensures forall k :: 0 <= k < 4 ==> Plain(s, k)
  {
    assert Plain(s, 0) && Plain(s, 1) && Plain(s, 2) && Plain(s, 3);
  }

  lemma AbcTail(s: string)
    requires s == "abcone2threexyz"
    ensures forall k :: 9 < k < 15 ==> Plain(s, k)
  {
    assert Plain(s, 10) && Plain(s, 11) && Plain(s, 12) && Plain(s, 13) && Plain(s, 14);
  }

  lemma AbcOneTwoThree()
    ensures FancyValue("abcone2threexyz") == 13
  {
    var s := "abcone2threexyz";
    assert OccursAt(s, Name(0), 3) && OccursAt(s, Name(2), 7);
    AbcHead(s);
    AbcTail(s);
    FancyFrom(s, 4, 9, 1, 3);
  }

  lemma XTwoOneThreeFour()
    ensures FancyValue("xtwone3four") == 24
  {
    var s := "xtwone3four";
    assert OccursAt(s, Name(1), 1) && OccursAt(s, Name(3), 7);
    assert Plain(s, 0) && Plain(s, 1);
    assert Plain(s, 10) by {
      assert 10 - Mid(2) + |Name(2)| > |s|;
    }
    FancyFrom(s, 2, 9, 2, 4);
  }

  lemma FourNineEightSevenTwo()
    ensures FancyValue("4nineeightseven2") == 42
  {
    FancyFrom("4nineeightseven2", 0, 15, 4, 2);
  }

  lemma ZOneEightTwoThreeFour()
    ensures FancyValue("zoneight234") == 14
  {
    var s := "zoneight234";
    assert OccursAt(s, Name(0), 1);
    assert Plain(s, 0) && Plain(s, 1);
    FancyFrom(s, 2, 10, 1, 4);
  }

  lemma SevenSixteen()
    ensures FancyValue("7pqrstsixteen") == 76
  {
    var s := "7pqrstsixteen";
    assert OccursAt(s, Name(5), 6);
    assert Plain(s, 8) && Plain(s, 9) && Plain(s, 10) && Plain(s, 11) && Plain(s, 12);
    FancyFrom(s, 0, 7, 7, 6);
  }

  /** The part-one example adds up to 142. */
  lemma PartOneExample()
    ensures CalibrationSum(["1abc2", "pqr3stu8vwx", "a1b2c3d4e5f", "treb7uchet"]) == 142
  {
    PartOneFirst();
    PartOneSecond();
    PartOneThird();
    PartOneFourth();
  }

  /** The part-two example adds up to 281. */
  lemma PartTwoExample()
    ensures FancySum(["two1nine", "eightwothree", "abcone2threexyz", "xtwone3four", "4nineeightseven2", "zoneight234", "7pqrstsixteen"]) == 281
  {
    TwoOneNine();
    Eightwothree();
    AbcOneTwoThree();
    XTwoOneThreeFour();
    FourNineEightSevenTwo();
    ZOneEightTwoThreeFour();
    SevenSixteen();
  }
}

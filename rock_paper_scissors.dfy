/**
 * Rock, paper, scissors tournament (2022, day 2). Each line of the strategy guide holds
 * the opponent's letter (A, B, C) and a second letter. In part one the second letter is
 * your hand (X, Y, Z); in part two it is the outcome you must reach (X lose, Y draw,
 * Z win) and you choose the hand that reaches it. A round scores the value of your hand
 * (1 to 3) plus the value of the outcome (0, 3 or 6).
 */
module RockPaperScissors {
  import opened Common
  import opened Text

  datatype Hand = Rock | Paper | Scissors

  datatype Outcome = Victory | Failure | Draw

  /** A game of part one: both hands are known. */
  datatype Game = Game(opponent: Hand, you: Hand)

  /** A game of part two: the opponent's hand and the outcome to reach. */
  datatype Game2 = Game2(opponent: Hand, expectedOutcome: Outcome)

  /** `Result<Game2, &str>`. */
  datatype Result<T> = Ok(value: T) | Err(message: string)

  /** The enum discriminant of a hand. */
  function HandValue(h: Hand): (v: nat)
    ensures 1 <= v <= 3
  {
    match h
    case Rock => 1
    case Paper => 2
    case Scissors => 3
  }

  /** The enum discriminant of an outcome. */
  function OutcomeValue(o: Outcome): (v: nat)
    ensures v == 0 || v == 3 || v == 6
  {
    match o
    case Victory => 6
    case Failure => 0
    case Draw => 3
  }

  /** The hand that `h` defeats. */
  function Beats(h: Hand): (r: Hand)
    ensures r != h
  {
    match h
    case Rock => Scissors
    case Paper => Rock
    case Scissors => Paper
  }

  /** The hand that defeats `h`. */
  function Beaten(h: Hand): (r: Hand)
    ensures r != h
  {
    match h
    case Scissors => Rock
    case Rock => Paper
    case Paper => Scissors
  }

  /** `beats` and `beaten` undo each other, so both are permutations of the three hands. */
  lemma BeatsBeatenInverse(h: Hand)
    ensures Beaten(Beats(h)) == h && Beats(Beaten(h)) == h
    ensures Beats(h) != Beaten(h)
  {
  }

  /** Two hands that `beats` (or `beaten`) sends to the same hand are equal. */
  lemma BeatsInjective(h: Hand, k: Hand)
    ensures Beats(h) == Beats(k) ==> h == k
    ensures Beaten(h) == Beaten(k) ==> h == k
  {
    BeatsBeatenInverse(h);
    BeatsBeatenInverse(k);
  }

  /** Every pair of hands is exactly one of: equal, the first beats the second, the second beats the first. */
  lemma Trichotomy(a: Hand, b: Hand)
    ensures (a == b) || (Beats(a) == b) || (Beats(b) == a)
    ensures !(Beats(a) == b && Beats(b) == a)
  {
  }

  /** The outcome of a game seen from your side. */
  function Play(g: Game): (o: Outcome)
    ensures o == Victory <==> Beats(g.you) == g.opponent
    ensures o == Failure <==> Beats(g.opponent) == g.you
    ensures o == Draw <==> g.you == g.opponent
  {
    Trichotomy(g.you, g.opponent);
    if Beats(g.you) == g.opponent then Victory
    else if Beats(g.opponent) == g.you then Failure
    else Draw
  }

  /** Swapping the players turns a victory into a failure and back, and keeps a draw. */
  lemma PlaySwapped(g: Game)
    ensures Play(Game(g.you, g.opponent)) == Flip(Play(g))
  {
  }

  /** The outcome for the other player. */
  function Flip(o: Outcome): (r: Outcome)
    ensures r == Draw <==> o == Draw
    ensures o != Draw ==> r != o
  {
    match o
    case Victory => Failure
    case Failure => Victory
    case Draw => Draw
  }

  /** The score of a part-one round: outcome value plus the value of your hand. */
  function Score(g: Game): (s: nat)
    ensures 1 <= s <= 9
    ensures s % 3 == HandValue(g.you) % 3
  {
    OutcomeValue(Play(g)) + HandValue(g.you)
  }

  /** A score determines the whole round result: your hand and the outcome. */
  lemma ScoreDetermines(g: Game, h: Game)
    requires Score(g) == Score(h)
    ensures g.you == h.you && Play(g) == Play(h)
  {
  }

  /** The opponent's column: A, B and C are rock, paper and scissors. */
  function OpponentHand(w: string): (r: Option<Hand>)
    ensures r.Some? <==> w in {"A", "B", "C"}
  {
    if w == "A" then Some(Rock)
    else if w == "B" then Some(Paper)
    else if w == "C" then Some(Scissors)
    else None
  }

  /** Your column in part one: X, Y and Z are rock, paper and scissors. */
  function YourHand(w: string): (r: Option<Hand>)
    ensures r.Some? <==> w in {"X", "Y", "Z"}
  {
    if w == "X" then Some(Rock)
    else if w == "Y" then Some(Paper)
    else if w == "Z" then Some(Scissors)
    else None
  }

  /** The outcome column in part two: X, Y and Z are lose, draw and win. */
  function ExpectedOutcome(w: string): (r: Option<Outcome>)
    ensures r.Some? <==> w in {"X", "Y", "Z"}
  {
    if w == "X" then Some(Failure)
    else if w == "Y" then Some(Draw)
    else if w == "Z" then Some(Victory)
    else None
  }

  /** `Game::from_string`: exactly two words, an opponent letter and a hand letter. */
  function GameFromString(strategy: string): (r: Option<Game>)
    ensures r.Some? <==> var hands := SplitWhitespace(strategy);
      |hands| == 2 && OpponentHand(hands[0]).Some? && YourHand(hands[1]).Some?
    ensures r.Some? ==> var hands := SplitWhitespace(strategy);
      OpponentHand(hands[0]) == Some(r.value.opponent) && YourHand(hands[1]) == Some(r.value.you)
  {
    var hands := SplitWhitespace(strategy);
    if |hands| != 2 then None
    else
      var opponent := OpponentHand(hands[0]);
      var you := YourHand(hands[1]);
      if you.Some? && opponent.Some? then Some(Game(opponent.value, you.value)) else None
  }

  /** The error `Game2::from_string` reports: the opponent letter is checked first. */
  function ErrorMessage(opponentValid: bool): string
  {
    if opponentValid then "Invalid expected_outcome" else "Invalid opponent input"
  }

  /**
   * `Game2::from_string`: the first two words are the opponent letter and the outcome
   * letter; further words are ignored. Fewer than two words index past the end, which is
   * a panic (`None`); an unknown letter is an `Err`, the opponent being checked first.
   */
  function Game2FromString(line: string): (r: Option<Result<Game2>>)
    ensures r.None? <==> |SplitWhitespace(line)| < 2
    ensures r.Some? ==> var round := SplitWhitespace(line);
      && (r.value.Ok? <==> OpponentHand(round[0]).Some? && ExpectedOutcome(round[1]).Some?)
      && (r.value.Ok? ==> OpponentHand(round[0]) == Some(r.value.value.opponent)
                          && ExpectedOutcome(round[1]) == Some(r.value.value.expectedOutcome))
      && (r.value.Err? ==> r.value.message == ErrorMessage(OpponentHand(round[0]).Some?))
  {
    var round := SplitWhitespace(line);
    if |round| < 2 then None
    else
      var opponent := OpponentHand(round[0]);
      var expectedOutcome := ExpectedOutcome(round[1]);
      if opponent.None? then Some(Err(ErrorMessage(false)))
      else if expectedOutcome.None? then Some(Err(ErrorMessage(true)))
      else Some(Ok(Game2(opponent.value, expectedOutcome.value)))
  }

  /** The hand part two plays: the opponent's for a draw, the one it beats to lose, the one that beats it to win. */
  function ChosenHand(g: Game2): (h: Hand)
    ensures Play(Game(g.opponent, h)) == g.expectedOutcome
  {
    match g.expectedOutcome
    case Draw => g.opponent
    case Failure => Beats(g.opponent)
    case Victory => Beaten(g.opponent)
  }

  /** The chosen hand is the only hand that reaches the expected outcome. */
  lemma ChosenHandUnique(g: Game2, h: Hand)
    requires Play(Game(g.opponent, h)) == g.expectedOutcome
    ensures h == ChosenHand(g)
  {
    BeatsBeatenInverse(g.opponent);
    BeatsInjective(h, Beaten(g.opponent));
  }

  /** `Game2::get_points`: the part-one score of the round played with the chosen hand. */
  function GetPoints(g: Game2): (p: nat)
    ensures 1 <= p <= 9
    ensures p == Score(Game(g.opponent, ChosenHand(g)))
  {
    HandValue(ChosenHand(g)) + OutcomeValue(g.expectedOutcome)
  }

  /** Part two scores whichever hand reaches the expected outcome, as part one would. */
  lemma GetPointsOfOutcome(g: Game2, h: Hand)
    requires Play(Game(g.opponent, h)) == g.expectedOutcome
    ensures GetPoints(g) == Score(Game(g.opponent, h))
  {
    ChosenHandUnique(g, h);
  }

  /** `filter_map(Game::from_string)`: the games of the lines that parse, in order; other lines are skipped. */
  function Games(lines: seq<string>): (gs: seq<Game>)
    ensures |gs| <= |lines|
  {
    if lines == [] then []
    else
      match GameFromString(lines[0])
      case Some(g) => [g] + Games(lines[1..])
      case None => Games(lines[1..])
  }

  /** When every line parses, the games are the parsed lines, one for one. */
  lemma {:induction false} GamesEach(lines: seq<string>, gs: seq<Game>)
    requires |lines| == |gs|
    requires forall i {:trigger GameFromString(lines[i])} :: 0 <= i < |lines| ==> GameFromString(lines[i]) == Some(gs[i])
    ensures Games(lines) == gs
  {
    if lines != [] {
      assert GameFromString(lines[0]) == Some(gs[0]);
      forall i | 0 <= i < |lines[1..]|
        ensures GameFromString(lines[1..][i]) == Some(gs[1..][i])
      {
        assert lines[1..][i] == lines[i + 1];
        assert GameFromString(lines[i + 1]) == Some(gs[i + 1]);
      }
      GamesEach(lines[1..], gs[1..]);
      assert gs == [gs[0]] + gs[1..];
    }
  }

  /** The sum of the round scores: between one and nine points per round. */
  function ScoreSum(gs: seq<Game>): (total: nat)
    ensures |gs| <= total <= 9 * |gs|
  {
    if gs == [] then 0 else Score(gs[0]) + ScoreSum(gs[1..])
  }

  /**
   * `filter_map(|line| Game2::from_string(line).ok())`: the rounds of the lines that
   * parse; a line with an unknown letter is skipped, and a line with fewer than two
   * words is a panic (`None`).
   */
  function Rounds(lines: seq<string>): (r: Option<seq<Game2>>)
    ensures r.Some? ==> |r.value| <= |lines|
  {
    if lines == [] then Some([])
    else
      var rest := Rounds(lines[1..]);
      match Game2FromString(lines[0])
      case None => None
      case Some(Err(_)) => rest
      case Some(Ok(g)) => if rest.None? then None else Some([g] + rest.value)
  }

  /** Part two has an answer exactly when every line has at least two words. */
  lemma {:induction false} RoundsDefined(lines: seq<string>)
    ensures Rounds(lines).Some? <==> forall i :: 0 <= i < |lines| ==> |SplitWhitespace(lines[i])| >= 2
  {
    if lines != [] {
      RoundsDefined(lines[1..]);
      assert forall i :: 1 <= i < |lines| ==> lines[i] == lines[1..][i - 1];
    }
  }

  /** When every line parses, the rounds are the parsed lines, one for one. */
  lemma {:induction false} RoundsEach(lines: seq<string>, gs: seq<Game2>)
    requires |lines| == |gs|
    requires forall i {:trigger Game2FromString(lines[i])} :: 0 <= i < |lines| ==> Game2FromString(lines[i]) == Some(Ok(gs[i]))
    ensures Rounds(lines) == Some(gs)
  {
    if lines != [] {
      assert Game2FromString(lines[0]) == Some(Ok(gs[0]));
      forall i | 0 <= i < |lines[1..]|
        ensures Game2FromString(lines[1..][i]) == Some(Ok(gs[1..][i]))
      {
        assert lines[1..][i] == lines[i + 1];
        assert Game2FromString(lines[i + 1]) == Some(Ok(gs[i + 1]));
      }
      RoundsEach(lines[1..], gs[1..]);
      assert gs == [gs[0]] + gs[1..];
    }
  }

  /** The sum of the part-two points: between one and nine points per round. */
  function PointsSum(gs: seq<Game2>): (total: nat)
    ensures |gs| <= total <= 9 * |gs|
  {
    if gs == [] then 0 else GetPoints(gs[0]) + PointsSum(gs[1..])
  }

  /** Part one over the puzzle input split at line feeds. */
  function PartOne(input: string): (total: nat)
    ensures total <= 9 * |SplitTerminator(input, "\n")|
  {
    ScoreSum(Games(SplitTerminator(input, "\n")))
  }

  /** Part two over the puzzle input split at line feeds; `None` where a line panics. */
  function PartTwo(input: string): (total: Option<nat>)
    ensures total.Some? ==> total.value <= 9 * |SplitTerminator(input, "\n")|
  {
    var rounds := Rounds(SplitTerminator(input, "\n"));
    if rounds.None? then None else Some(PointsSum(rounds.value))
  }

  /** The two letters of a part-one game. */
  function OpponentLetter(h: Hand): string
  {
    match h
    case Rock => "A"
    case Paper => "B"
    case Scissors => "C"
  }

  function YourLetter(h: Hand): string
  {
    match h
    case Rock => "X"
    case Paper => "Y"
    case Scissors => "Z"
  }

  function OutcomeLetter(o: Outcome): string
  {
    match o
    case Failure => "X"
    case Draw => "Y"
    case Victory => "Z"
  }

  lemma LettersAreWords(a: string, b: string)
    requires a in {"A", "B", "C", "X", "Y", "Z"} && b in {"A", "B", "C", "X", "Y", "Z"}
    ensures SplitWhitespace(a + " " + b) == [a, b]
  {
    assert IsWord(a) && IsWord(b);
    assert Join([a, b], " ") == a + " " + b by {
      assert [a, b][1..] == [b];
    }
    SplitWhitespaceJoin([a, b]);
  }

  /** A game written as its two letters parses back to the same game. */
  lemma GameRoundTrip(g: Game)
    ensures GameFromString(OpponentLetter(g.opponent) + " " + YourLetter(g.you)) == Some(g)
  {
    LettersAreWords(OpponentLetter(g.opponent), YourLetter(g.you));
  }

  /** A part-two round written as its two letters parses back to the same round. */
  lemma Game2RoundTrip(g: Game2)
    ensures Game2FromString(OpponentLetter(g.opponent) + " " + OutcomeLetter(g.expectedOutcome)) == Some(Ok(g))
  {
    LettersAreWords(OpponentLetter(g.opponent), OutcomeLetter(g.expectedOutcome));
  }

  /** The same line read by both parts: part two scores the hand that part one would have to play. */
  lemma PartsAgree(g: Game, o: Outcome)
    requires Play(g) == o
    ensures GetPoints(Game2(g.opponent, o)) == Score(g)
  {
    GetPointsOfOutcome(Game2(g.opponent, o), g.you);
  }

  /** A line of two letters read as a part-one game and as a part-two round. */
  lemma LetterLine(line: string, opponent: Hand, you: Hand, outcome: Outcome)
    requires line == OpponentLetter(opponent) + " " + YourLetter(you)
    requires OutcomeLetter(outcome) == YourLetter(you)
    ensures GameFromString(line) == Some(Game(opponent, you))
    ensures Game2FromString(line) == Some(Ok(Game2(opponent, outcome)))
  {
    GameRoundTrip(Game(opponent, you));
    Game2RoundTrip(Game2(opponent, outcome));
  }

  /** The lines of the puzzle's example guide read as part-one games. */
  lemma ExampleGameLines()
    ensures GameFromString("A Y") == Some(Game(Rock, Paper))
    ensures GameFromString("B X") == Some(Game(Paper, Rock))
    ensures GameFromString("C Z") == Some(Game(Scissors, Scissors))
  {
    LetterLine("A Y", Rock, Paper, Draw);
    LetterLine("B X", Paper, Rock, Failure);
    LetterLine("C Z", Scissors, Scissors, Victory);
  }

  /** The same lines read as part-two rounds. */
  lemma ExampleRoundLines()
    ensures Game2FromString("A Y") == Some(Ok(Game2(Rock, Draw)))
    ensures Game2FromString("B X") == Some(Ok(Game2(Paper, Failure)))
    ensures Game2FromString("C Z") == Some(Ok(Game2(Scissors, Victory)))
  {
    LetterLine("A Y", Rock, Paper, Draw);
    LetterLine("B X", Paper, Rock, Failure);
    LetterLine("C Z", Scissors, Scissors, Victory);
  }

  /** Three lines that parse as games. */
  lemma Games3(a: string, b: string, c: string, ga: Game, gb: Game, gc: Game)
    requires GameFromString(a) == Some(ga) && GameFromString(b) == Some(gb) && GameFromString(c) == Some(gc)
    ensures Games([a, b, c]) == [ga, gb, gc]
  {
    var lines := [a, b, c];
    forall i | 0 <= i < 3
      ensures GameFromString(lines[i]) == Some([ga, gb, gc][i])
    {
    }
    GamesEach(lines, [ga, gb, gc]);
  }

  /** Three lines that parse as rounds. */
  lemma Rounds3(a: string, b: string, c: string, ga: Game2, gb: Game2, gc: Game2)
    requires Game2FromString(a) == Some(Ok(ga)) && Game2FromString(b) == Some(Ok(gb)) && Game2FromString(c) == Some(Ok(gc))
    ensures Rounds([a, b, c]) == Some([ga, gb, gc])
  {
    var lines := [a, b, c];
    forall i | 0 <= i < 3
      ensures Game2FromString(lines[i]) == Some(Ok([ga, gb, gc][i]))
    {
    }
    RoundsEach(lines, [ga, gb, gc]);
  }

  /** The example guide "A Y", "B X", "C Z" read as part-one games. */
  lemma ExampleGames()
    ensures Games(["A Y", "B X", "C Z"]) == [Game(Rock, Paper), Game(Paper, Rock), Game(Scissors, Scissors)]
  {
    ExampleGameLines();
    Games3("A Y", "B X", "C Z", Game(Rock, Paper), Game(Paper, Rock), Game(Scissors, Scissors));
  }

  /** The example scores 8 + 1 + 6 = 15 in part one. */
  lemma ExamplePartOne()
    ensures ScoreSum(Games(["A Y", "B X", "C Z"])) == 15
  {
    ExampleGames();
    var gs := [Game(Rock, Paper), Game(Paper, Rock), Game(Scissors, Scissors)];
    assert gs[1..] == [Game(Paper, Rock), Game(Scissors, Scissors)] && gs[1..][1..] == [Game(Scissors, Scissors)];
  }

  /** The example guide read as part-two rounds. */
  lemma ExampleRounds()
    ensures Rounds(["A Y", "B X", "C Z"]) == Some([Game2(Rock, Draw), Game2(Paper, Failure), Game2(Scissors, Victory)])
  {
    ExampleRoundLines();
    Rounds3("A Y", "B X", "C Z", Game2(Rock, Draw), Game2(Paper, Failure), Game2(Scissors, Victory));
  }

  /** The example scores 4 + 1 + 7 = 12 in part two. */
  lemma ExamplePartTwo()
    ensures Rounds(["A Y", "B X", "C Z"]).Some?
    ensures PointsSum(Rounds(["A Y", "B X", "C Z"]).value) == 12
  {
    ExampleRounds();
    var gs := [Game2(Rock, Draw), Game2(Paper, Failure), Game2(Scissors, Victory)];
    assert gs[1..] == [Game2(Paper, Failure), Game2(Scissors, Victory)] && gs[1..][1..] == [Game2(Scissors, Victory)];
  }
}

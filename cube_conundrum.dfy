/**
 * Cube games (2023, day 2): each game line names an id and a sequence of sets of
 * coloured cubes drawn from a bag. A game is possible against a bag when no set shows
 * more cubes of a colour than the bag holds; the power of a game is the product of the
 * fewest cubes of each colour that make it possible.
 */
module CubeConundrum {
  import opened Common
  import opened Text

  /** Counts of red, green and blue cubes (`u8` fields in the source). */
  datatype GameSet = GameSet(red: nat, green: nat, blue: nat)

  datatype Cubes = Red | Green | Blue

  datatype Game = Game(id: nat, sets: seq<GameSet>)

  datatype GameResult = Possible | Impossible

  /** Every count fits in a `u8`. */
  predicate IsU8Set(s: GameSet)
  {
    s.red <= U8_MAX && s.green <= U8_MAX && s.blue <= U8_MAX
  }

  function ColourName(c: Cubes): string
  {
    match c
    case Red => "red"
    case Green => "green"
    case Blue => "blue"
  }

  /** The colour a word names, if any. */
  function ColourOf(w: string): (r: Option<Cubes>)
    ensures r.Some? <==> w in {"red", "green", "blue"}
    ensures r.Some? ==> ColourName(r.value) == w
  {
    if w == "red" then Some(Red)
    else if w == "green" then Some(Green)
    else if w == "blue" then Some(Blue)
    else None
  }

  /**
   * One `n colour` item of a set: the first word parsed as a `u8`, the second naming a
   * colour; further words are ignored. A missing word, a count that is not a `u8` and an
   * unknown colour are panics.
   */
  function ParseItem(s: string): (r: Option<(nat, Cubes)>)
    ensures r.Some? ==> r.value.0 <= U8_MAX
  {
    var words := SplitWhitespace(s);
    if |words| < 2 then None
    else
      var n := ParseUnsigned(words[0], U8_MAX);
      var c := ColourOf(words[1]);
      if n.Some? && c.Some? then Some((n.value, c.value)) else None
  }

  /** The items of the first `k` pieces, or `None` when one of them does not parse. */
  function ParseItems(pieces: seq<string>, k: nat): (r: Option<seq<(nat, Cubes)>>)
    requires k <= |pieces|
    ensures r.Some? ==> |r.value| == k
  {
    if k == 0 then Some([])
    else
      var init := ParseItems(pieces, k - 1);
      var item := ParseItem(pieces[k - 1]);
      if init.Some? && item.Some? then Some(init.value + [item.value]) else None
  }

  /** The count the items give last for colour `c`, or 0 when they never name it. */
  function Latest(items: seq<(nat, Cubes)>, c: Cubes): nat
  {
    if items == [] then 0
    else if items[|items| - 1].1 == c then items[|items| - 1].0
    else Latest(items[..|items| - 1], c)
  }

  /** The set described by a sequence of items: for each colour its latest count, else 0. */
  function SetOf(items: seq<(nat, Cubes)>): GameSet
  {
    GameSet(Latest(items, Red), Latest(items, Green), Latest(items, Blue))
  }

  /** The set with one colour's count replaced. */
  function Assign(s: GameSet, item: (nat, Cubes)): GameSet
  {
    match item.1
    case Red => s.(red := item.0)
    case Green => s.(green := item.0)
    case Blue => s.(blue := item.0)
  }

  /** `GameSet::from_str` as a function of its input. */
  function ParseGameSet(s: string): Option<GameSet>
  {
    var pieces := Split(s, ",");
    var items := ParseItems(pieces, |pieces|);
    if items.Some? then Some(SetOf(items.value)) else None
  }

  /**
   * A colour's count is 0 when no item names it, and otherwise the count of the last
   * item that names it.
   */
  lemma LatestMeans(items: seq<(nat, Cubes)>, c: Cubes)
    ensures (forall i :: 0 <= i < |items| ==> items[i].1 != c) ==> Latest(items, c) == 0
    ensures forall i :: 0 <= i < |items| && items[i].1 == c && (forall j :: i < j < |items| ==> items[j].1 != c) ==>
      Latest(items, c) == items[i].0
  {
    if forall i :: 0 <= i < |items| ==> items[i].1 != c {
      LatestAbsent(items, c);
    }
    forall i | 0 <= i < |items| && items[i].1 == c && (forall j :: i < j < |items| ==> items[j].1 != c) {
      LatestLast(items, c, i);
    }
  }

  lemma {:induction false} LatestAbsent(items: seq<(nat, Cubes)>, c: Cubes)
    requires forall i :: 0 <= i < |items| ==> items[i].1 != c
    ensures Latest(items, c) == 0
  {
    if items != [] {
      LatestAbsent(items[..|items| - 1], c);
    }
  }

  lemma {:induction false} LatestLast(items: seq<(nat, Cubes)>, c: Cubes, i: nat)
    requires i < |items| && items[i].1 == c
    requires forall j :: i < j < |items| ==> items[j].1 != c
    ensures Latest(items, c) == items[i].0
    decreases |items|
  {
    if i < |items| - 1 {
      var init := items[..|items| - 1];
      assert init[i] == items[i];
      LatestLast(init, c, i);
    }
  }

  /** Counts parsed as `u8` stay within `u8`. */
  lemma {:induction false} LatestBound(items: seq<(nat, Cubes)>, c: Cubes)
    requires forall i :: 0 <= i < |items| ==> items[i].0 <= U8_MAX
    ensures Latest(items, c) <= U8_MAX
  {
    if items != [] {
      LatestBound(items[..|items| - 1], c);
    }
  }

  lemma {:induction false} ItemsFailBeyond(pieces: seq<string>, k: nat, n: nat)
    requires k <= n <= |pieces| && ParseItems(pieces, k).None?
    ensures ParseItems(pieces, n).None?
    decreases n
  {
    if n > k {
      ItemsFailBeyond(pieces, k, n - 1);
    }
  }

  lemma SetOfStep(items: seq<(nat, Cubes)>, item: (nat, Cubes))
    ensures SetOf(items + [item]) == Assign(SetOf(items), item)
  {
    assert (items + [item])[..|items|] == items;
  }

  /**
   * `GameSet::from_str`: starting from no cubes, each comma-separated item sets its
   * colour's count, so an absent colour stays 0 and a repeated colour keeps its last
   * count. An item that does not parse is a panic (`None`).
   */
  method GameSetFromStr(s: string) returns (r: Option<GameSet>)
    ensures r == ParseGameSet(s)
    ensures r.Some? ==> IsU8Set(r.value)
  {
    var pieces := Split(s, ",");
    var gameSet := GameSet(0, 0, 0);
    ghost var items: seq<(nat, Cubes)> := [];
    for k := 0 to |pieces|
      invariant SetState(pieces, k, items, gameSet)
    {
      var item := ParseItem(pieces[k]);
      if item.None? {
        ItemsFailBeyond(pieces, k + 1, |pieces|);
        return None;
      }
      SetStateStep(pieces, k, items, gameSet);
      gameSet, items := Assign(gameSet, item.value), items + [item.value];
    }
    SetStateDone(pieces, items, gameSet);
    return Some(gameSet);
  }

  /** After `k` pieces: they parsed as `items`, and the set holds what they describe. */
  ghost predicate SetState(pieces: seq<string>, k: nat, items: seq<(nat, Cubes)>, gameSet: GameSet)
  {
    k <= |pieces| && ParseItems(pieces, k) == Some(items) && gameSet == SetOf(items)
    && forall i :: 0 <= i < |items| ==> items[i].0 <= U8_MAX
  }

  lemma SetStateStep(pieces: seq<string>, k: nat, items: seq<(nat, Cubes)>, gameSet: GameSet)
    requires SetState(pieces, k, items, gameSet) && k < |pieces| && ParseItem(pieces[k]).Some?
    ensures SetState(pieces, k + 1, items + [ParseItem(pieces[k]).value], Assign(gameSet, ParseItem(pieces[k]).value))
  {
    SetOfStep(items, ParseItem(pieces[k]).value);
  }

  lemma SetStateDone(pieces: seq<string>, items: seq<(nat, Cubes)>, gameSet: GameSet)
    requires SetState(pieces, |pieces|, items, gameSet)
    ensures IsU8Set(gameSet)
  {
    LatestBound(items, Red);
    LatestBound(items, Green);
    LatestBound(items, Blue);
  }

  /**
   * The `find_map` of `Game::from_str`: the first word that parses as a `u32`. When
   * there is one, every word before it fails to parse.
   */
  function FirstU32(words: seq<string>): (r: Option<nat>)
    ensures r.Some? ==> r.value <= U32_MAX
  {
    if words == [] then None
    else
      var n := ParseUnsigned(words[0], U32_MAX);
      if n.Some? then n else FirstU32(words[1..])
  }

  /** `FirstU32` fails exactly when no word parses as a `u32`. */
  lemma {:induction false} FirstU32None(words: seq<string>)
    ensures FirstU32(words).None? <==> forall i :: 0 <= i < |words| ==> ParseUnsigned(words[i], U32_MAX).None?
  {
    if words != [] && ParseUnsigned(words[0], U32_MAX).None? {
      var rest := words[1..];
      FirstU32None(rest);
      assert forall i :: 1 <= i < |words| ==> rest[i - 1] == words[i];
    }
  }

  /** The number `FirstU32` finds is that of the first word that parses as a `u32`. */
  lemma {:induction false} FirstU32At(words: seq<string>, i: nat)
    requires i < |words| && ParseUnsigned(words[i], U32_MAX).Some?
    requires forall j :: 0 <= j < i ==> ParseUnsigned(words[j], U32_MAX).None?
    ensures FirstU32(words) == ParseUnsigned(words[i], U32_MAX)
  {
    if i > 0 {
      var rest := words[1..];
      assert ParseUnsigned(words[0], U32_MAX).None?;
      assert forall j :: 0 <= j < i - 1 ==> rest[j] == words[j + 1];
      FirstU32At(rest, i - 1);
    }
  }

  /** The sets of the pieces, each trimmed and parsed, or `None` when one fails. */
  function ParseSets(pieces: seq<string>): (r: Option<seq<GameSet>>)
    ensures r.Some? ==> |r.value| == |pieces|
  {
    if pieces == [] then Some([])
    else
      var init := ParseSets(pieces[..|pieces| - 1]);
      var gameSet := ParseGameSet(Trim(pieces[|pieces| - 1]));
      if init.Some? && gameSet.Some? then Some(init.value + [gameSet.value]) else None
  }

  /**
   * `Game::from_str`: the id is the first `u32` word before the first `:`, and the sets
   * are the `;`-separated pieces of the text between the first and second `:`. A missing
   * id, a missing `:` and a set that does not parse are panics.
   */
  function ParseGame(line: string): Option<Game>
  {
    var parts := Split(line, ":");
    var id := FirstU32(SplitWhitespace(parts[0]));
    if id.None? || |parts| < 2 then None
    else
      var sets := ParseSets(Split(parts[1], ";"));
      if sets.Some? then Some(Game(id.value, sets.value)) else None
  }

  /** Some colour of the set exceeds the bag. */
  predicate Exceeds(s: GameSet, to: GameSet)
  {
    s.red > to.red || s.blue > to.blue || s.green > to.green
  }

  /** The `any` of `check`. */
  predicate AnyExceeds(sets: seq<GameSet>, to: GameSet)
  {
    sets != [] && (Exceeds(sets[0], to) || AnyExceeds(sets[1..], to))
  }

  /** `Game::check`: impossible exactly when some set shows more of a colour than the bag holds. */
  function Check(game: Game, to: GameSet): (r: GameResult)
    ensures r == Impossible <==> exists i :: 0 <= i < |game.sets| && Exceeds(game.sets[i], to)
  {
    AnyExceedsMeans(game.sets, to);
    if AnyExceeds(game.sets, to) then Impossible else Possible
  }

  lemma {:induction false} AnyExceedsMeans(sets: seq<GameSet>, to: GameSet)
    ensures AnyExceeds(sets, to) <==> exists i :: 0 <= i < |sets| && Exceeds(sets[i], to)
  {
    if sets != [] {
      AnyExceedsMeans(sets[1..], to);
      if Exceeds(sets[0], to) {
        assert Exceeds(sets[0], to);
      }
      assert forall i :: 1 <= i < |sets| ==> sets[1..][i - 1] == sets[i];
    }
  }

  /** Componentwise at most. */
  predicate Within(s: GameSet, to: GameSet)
  {
    s.red <= to.red && s.green <= to.green && s.blue <= to.blue
  }

  function MaxSet(a: GameSet, b: GameSet): GameSet
  {
    GameSet(Max(a.red, b.red), Max(a.green, b.green), Max(a.blue, b.blue))
  }

  /** The componentwise maximum over the sets, starting from no cubes. */
  function MinimumOf(sets: seq<GameSet>): GameSet
  {
    if sets == [] then GameSet(0, 0, 0) else MaxSet(MinimumOf(sets[..|sets| - 1]), sets[|sets| - 1])
  }

  /** `Game::minimum`: each colour raised to the largest count any set shows. */
  method Minimum(game: Game) returns (m: GameSet)
    ensures m == MinimumOf(game.sets)
  {
    m := GameSet(0, 0, 0);
    for k := 0 to |game.sets|
      invariant m == MinimumOf(game.sets[..k])
    {
      assert game.sets[..k + 1][..k] == game.sets[..k];
      var s := game.sets[k];
      m := GameSet(Max(m.red, s.red), Max(m.green, s.green), Max(m.blue, s.blue));
    }
    assert game.sets[..|game.sets|] == game.sets;
  }

  /**
   * The minimum is the least set covering every set: it is componentwise at least every
   * set, and at most any set that is so. With no sets it is all zeros.
   */
  lemma {:induction false} MinimumMeans(sets: seq<GameSet>)
    ensures sets == [] ==> MinimumOf(sets) == GameSet(0, 0, 0)
    ensures forall i :: 0 <= i < |sets| ==> Within(sets[i], MinimumOf(sets))
    ensures forall b :: (forall i :: 0 <= i < |sets| ==> Within(sets[i], b)) ==> Within(MinimumOf(sets), b)
  {
    if sets != [] {
      var init := sets[..|sets| - 1];
      MinimumMeans(init);
      assert forall i :: 0 <= i < |init| ==> init[i] == sets[i];
      forall b | forall i :: 0 <= i < |sets| ==> Within(sets[i], b)
        ensures Within(MinimumOf(sets), b)
      {
        assert forall i :: 0 <= i < |init| ==> Within(init[i], b);
        assert Within(sets[|sets| - 1], b);
        assert Within(MinimumOf(init), b);
      }
    }
  }

  /** A game is possible against a bag exactly when its minimum fits in the bag. */
  lemma CheckMinimum(game: Game, to: GameSet)
    ensures Check(game, to) == Possible <==> Within(MinimumOf(game.sets), to)
  {
    MinimumMeans(game.sets);
  }

  /** `GameSet::power`: the product of the three counts, taken in `u64`. */
  function Power(s: GameSet): (p: nat)
    ensures p == 0 <==> s.red == 0 || s.green == 0 || s.blue == 0
  {
    s.red * s.green * s.blue
  }

  /** The product of three `u8` counts never overflows `u64`. */
  lemma PowerFits(s: GameSet)
    requires IsU8Set(s)
    ensures Power(s) <= U64_MAX
  {
    assert s.red * s.green <= U8_MAX * U8_MAX by {
      MulMono(s.red, U8_MAX, s.green, U8_MAX);
    }
    MulMono(s.red * s.green, U8_MAX * U8_MAX, s.blue, U8_MAX);
  }

  lemma MulMono(a: nat, a': nat, b: nat, b': nat)
    requires a <= a' && b <= b'
    ensures a * b <= a' * b'
  {
    assert a * b <= a' * b;
    assert a' * b <= a' * b';
  }

  /** The minimum of the sets of `u8` counts is itself a set of `u8` counts. */
  lemma MinimumFits(sets: seq<GameSet>)
    requires forall i :: 0 <= i < |sets| ==> IsU8Set(sets[i])
    ensures IsU8Set(MinimumOf(sets))
  {
    MinimumMeans(sets);
    assert forall i :: 0 <= i < |sets| ==> Within(sets[i], GameSet(U8_MAX, U8_MAX, U8_MAX));
  }

  /** The third example game needs 20 red, 13 green and 6 blue cubes, of power 1560. */
  lemma PowerExample()
    ensures MinimumOf([GameSet(20, 8, 6), GameSet(4, 13, 5), GameSet(1, 5, 0)]) == GameSet(20, 13, 6)
    ensures Power(GameSet(20, 13, 6)) == 1560
  {
    var sets := [GameSet(20, 8, 6), GameSet(4, 13, 5), GameSet(1, 5, 0)];
    assert sets[..2][..1] == [GameSet(20, 8, 6)] && sets[..1][..0] == [];
    assert MinimumOf(sets[..1]) == GameSet(20, 8, 6);
    assert MinimumOf(sets[..2]) == GameSet(20, 13, 6);
  }

  /** An item written as the puzzle input writes it: `n colour`. */
  function FormatItem(item: (nat, Cubes)): string
  {
    Join([Decimal(item.0), ColourName(item.1)], " ")
  }

  /** The items of a set, the second and later ones after a space. */
  function ItemPieces(items: seq<(nat, Cubes)>): (r: seq<string>)
    ensures |r| == |items|
  {
    seq(|items|, i requires 0 <= i < |items| => (if i == 0 then "" else " ") + FormatItem(items[i]))
  }

  /** A set written as the puzzle input writes it: `3 blue, 4 red`. */
  function FormatSet(items: seq<(nat, Cubes)>): string
  {
    Join(ItemPieces(items), ",")
  }

  /** A game line: `Game <id>:` and then the sets, each after a space, separated by `;`. */
  function FormatGame(id: nat, sets: seq<seq<(nat, Cubes)>>): string
  {
    Join(["Game " + Decimal(id), Join(SetPieces(sets), ";")], ":")
  }

  /** The sets of a game line, each after a space. */
  function SetPieces(sets: seq<seq<(nat, Cubes)>>): (r: seq<string>)
    ensures |r| == |sets|
  {
    if sets == [] then [] else SetPieces(sets[..|sets| - 1]) + [" " + FormatSet(sets[|sets| - 1])]
  }

  predicate ValidItems(items: seq<(nat, Cubes)>)
  {
    |items| >= 1 && forall i :: 0 <= i < |items| ==> items[i].0 <= U8_MAX
  }

  lemma FormatItemShape(item: (nat, Cubes))
    ensures var f := FormatItem(item);
      ',' !in f && ';' !in f && ':' !in f && |f| > 0 && IsDigit(f[0]) && IsAsciiAlphabetic(f[|f| - 1])
  {
    var d := Decimal(item.0);
    DecimalFree(item.0, ',');
    DecimalFree(item.0, ';');
    DecimalFree(item.0, ':');
    JoinFree([d, ColourName(item.1)], " ", ',');
    JoinFree([d, ColourName(item.1)], " ", ';');
    JoinFree([d, ColourName(item.1)], " ", ':');
    JoinEnds([d, ColourName(item.1)], " ");
  }

  /** An item reads back as itself, whatever whitespace precedes it. */
  lemma ItemRoundTrip(pad: string, item: (nat, Cubes))
    requires item.0 <= U8_MAX && forall k :: 0 <= k < |pad| ==> IsWhitespace(pad[k])
    ensures ParseItem(pad + FormatItem(item)) == Some(item)
  {
    var d, name := Decimal(item.0), ColourName(item.1);
    SplitWhitespacePadded(pad, FormatItem(item));
    assert IsWord(d) by {
      forall j | 0 <= j < |d|
        ensures !IsWhitespace(d[j])
      {
        assert IsDigit(d[j]);
      }
    }
    SplitWhitespaceJoin([d, name]);
    ParseDecimal(item.0, U8_MAX);
  }

  lemma ItemsRoundTrip(items: seq<(nat, Cubes)>, k: nat)
    requires k <= |items| && forall i :: 0 <= i < |items| ==> items[i].0 <= U8_MAX
    ensures ParseItems(ItemPieces(items), k) == Some(items[..k])
  {
    var pieces := ItemPieces(items);
    forall i | 0 <= i < k
      ensures ParseItem(pieces[i]) == Some(items[i])
    {
      var pad := if i == 0 then "" else " ";
      assert pieces[i] == pad + FormatItem(items[i]);
      assert forall j :: 0 <= j < |pad| ==> pad[j] == ' ';
      ItemRoundTrip(pad, items[i]);
    }
    ParseItemsEach(pieces, items, k);
  }

  /** Pieces that parse one by one to the items parse together to them. */
  lemma {:induction false} ParseItemsEach(pieces: seq<string>, items: seq<(nat, Cubes)>, k: nat)
    requires k <= |pieces| && k <= |items|
    requires forall i {:trigger ParseItem(pieces[i])} :: 0 <= i < k ==> ParseItem(pieces[i]) == Some(items[i])
    ensures ParseItems(pieces, k) == Some(items[..k])
  {
    if k > 0 {
      var init, item := items[..k - 1], items[k - 1];
      assert ParseItems(pieces, k - 1) == Some(init) by {
        ParseItemsEach(pieces, items, k - 1);
      }
      assert ParseItem(pieces[k - 1]) == Some(item);
      assert items[..k] == init + [item];
    }
  }

  lemma FormatSetShape(items: seq<(nat, Cubes)>)
    requires |items| >= 1
    ensures var f := FormatSet(items);
      ';' !in f && ':' !in f && |f| > 0 && IsDigit(f[0]) && IsAsciiAlphabetic(f[|f| - 1])
  {
    var pieces := ItemPieces(items);
    forall k | 0 <= k < |items|
      ensures ';' !in pieces[k] && ':' !in pieces[k] && |pieces[k]| > 0
      ensures IsAsciiAlphabetic(pieces[k][|pieces[k]| - 1])
    {
      FormatItemShape(items[k]);
    }
    FormatItemShape(items[0]);
    assert pieces[0] == FormatItem(items[0]);
    JoinFree(pieces, ",", ';');
    JoinFree(pieces, ",", ':');
    JoinEnds(pieces, ",");
  }

  /** A set reads back as the set its items describe. */
  lemma SetRoundTrip(items: seq<(nat, Cubes)>)
    requires ValidItems(items)
    ensures ParseGameSet(FormatSet(items)) == Some(SetOf(items))
  {
    var pieces := ItemPieces(items);
    forall k | 0 <= k < |items|
      ensures ',' !in pieces[k]
    {
      FormatItemShape(items[k]);
    }
    SplitJoin(pieces, ',');
    ItemsRoundTrip(items, |items|);
    assert items[..|items|] == items;
  }

  /** The set described by each set's items. */
  function SetsOf(sets: seq<seq<(nat, Cubes)>>): (r: seq<GameSet>)
    ensures |r| == |sets|
  {
    if sets == [] then [] else SetsOf(sets[..|sets| - 1]) + [SetOf(sets[|sets| - 1])]
  }

  lemma {:induction false} SetPiecesShape(sets: seq<seq<(nat, Cubes)>>)
    requires forall i :: 0 <= i < |sets| ==> |sets[i]| >= 1
    ensures forall k :: 0 <= k < |sets| ==> ';' !in SetPieces(sets)[k] && ':' !in SetPieces(sets)[k]
  {
    if sets != [] {
      SetPiecesShape(sets[..|sets| - 1]);
      FormatSetShape(sets[|sets| - 1]);
    }
  }

  lemma {:induction false} SetsRoundTrip(sets: seq<seq<(nat, Cubes)>>)
    requires forall i :: 0 <= i < |sets| ==> ValidItems(sets[i])
    ensures ParseSets(SetPieces(sets)) == Some(SetsOf(sets))
  {
    if sets != [] {
      var init, last := sets[..|sets| - 1], sets[|sets| - 1];
      SetsRoundTrip(init);
      FormatSetShape(last);
      TrimPadded(" ", FormatSet(last));
      SetRoundTrip(last);
      assert SetPieces(sets)[..|sets| - 1] == SetPieces(init);
    }
  }

  /**
   * A game line written as the puzzle input writes it reads back as that game: its id,
   * and for each set the counts it names.
   */
  lemma GameRoundTrip(id: nat, sets: seq<seq<(nat, Cubes)>>)
    requires id <= U32_MAX && |sets| >= 1 && forall i :: 0 <= i < |sets| ==> ValidItems(sets[i])
    ensures ParseGame(FormatGame(id, sets)) == Some(Game(id, SetsOf(sets)))
  {
    var parts := Split(FormatGame(id, sets), ":");
    GameSplit(id, sets);
    GameHead(id);
    assert FirstU32(SplitWhitespace(parts[0])) == Some(id);
    SplitJoin(SetPieces(sets), ';');
    assert Split(parts[1], ";") == SetPieces(sets);
    SetsRoundTrip(sets);
  }

  /** A game line splits at its one `:` into the head and the sets. */
  lemma GameSplit(id: nat, sets: seq<seq<(nat, Cubes)>>)
    requires forall i :: 0 <= i < |sets| ==> |sets[i]| >= 1
    ensures Split(FormatGame(id, sets), ":") == ["Game " + Decimal(id), Join(SetPieces(sets), ";")]
    ensures forall k :: 0 <= k < |sets| ==> ';' !in SetPieces(sets)[k]
  {
    var pieces := SetPieces(sets);
    SetPiecesShape(sets);
    JoinFree(pieces, ";", ':');
    HeadFree(id);
    SplitJoin(["Game " + Decimal(id), Join(pieces, ";")], ':');
  }

  lemma HeadFree(id: nat)
    ensures ':' !in "Game " + Decimal(id)
  {
    DecimalFree(id, ':');
    var g := "Game ";
    assert forall k :: 0 <= k < |g| ==> g[k] != ':';
    assert ':' !in g;
  }

  lemma GameHead(id: nat)
    requires id <= U32_MAX
    ensures FirstU32(SplitWhitespace("Game " + Decimal(id))) == Some(id)
  {
    assert "Game " + Decimal(id) == Join(["Game", Decimal(id)], " ");
    assert IsWord(Decimal(id)) by {
      forall j | 0 <= j < |Decimal(id)|
        ensures !IsWhitespace(Decimal(id)[j])
      {
        assert IsDigit(Decimal(id)[j]);
      }
    }
    SplitWhitespaceJoin(["Game", Decimal(id)]);
    ParseDecimal(id, U32_MAX);
    assert ParseUnsigned("Game", U32_MAX).None?;
  }

  /**
   * The first line of the example input, `Game 11: 3 blue, 4 red; 1 red, 2 green, 6 blue; 2 green`,
   * written as the concatenation of its pieces.
   */
  const ExampleLineText: string :=
    "Game 11" + ":" + (" 3 blue, 4 red" + ";" + (" 1 red, 2 green, 6 blue" + ";" + " 2 green"))

  /** The first line of the example reads as game 11 with sets (4, 0, 3), (1, 2, 6) and (0, 2, 0). */
  lemma ParseExample()
    ensures ParseGame(ExampleLineText) ==
      Some(Game(11, [GameSet(4, 0, 3), GameSet(1, 2, 6), GameSet(0, 2, 0)]))
  {
    var sets: seq<seq<(nat, Cubes)>> := [[(3, Blue), (4, Red)], [(1, Red), (2, Green), (6, Blue)], [(2, Green)]];
    ExampleLine();
    ExampleSets();
    assert ValidItems(sets[0]) && ValidItems(sets[1]) && ValidItems(sets[2]);
    GameRoundTrip(11, sets);
  }

  lemma ExampleSets()
    ensures SetsOf([[(3, Blue), (4, Red)], [(1, Red), (2, Green), (6, Blue)], [(2, Green)]]) ==
      [GameSet(4, 0, 3), GameSet(1, 2, 6), GameSet(0, 2, 0)]
  {
    var sets: seq<seq<(nat, Cubes)>> := [[(3, Blue), (4, Red)], [(1, Red), (2, Green), (6, Blue)], [(2, Green)]];
    assert sets[..2][..1] == sets[..1] && sets[..1][..0] == [];
    var a, b := sets[0], sets[1];
    LatestMeans(a, Red);
    LatestMeans(a, Green);
    LatestMeans(a, Blue);
    assert SetOf(a) == GameSet(4, 0, 3);
    LatestMeans(b, Red);
    LatestMeans(b, Green);
    LatestMeans(b, Blue);
    assert SetOf(b) == GameSet(1, 2, 6);
    assert SetOf(sets[2]) == GameSet(0, 2, 0);
    assert SetsOf(sets[..1]) == [GameSet(4, 0, 3)];
    assert SetsOf(sets[..2]) == [GameSet(4, 0, 3), GameSet(1, 2, 6)];
  }

  lemma ExampleLine()
    ensures FormatGame(11, [[(3, Blue), (4, Red)], [(1, Red), (2, Green), (6, Blue)], [(2, Green)]]) == ExampleLineText
  {
    var a, b, c := [(3, Blue), (4, Red)], [(1, Red), (2, Green), (6, Blue)], [(2, Green)];
    FormatGameThree(11, a, b, c);
    ExampleSet1();
    ExamplePiece2();
    ExampleSet3();
    assert "Game " + Decimal(11) == "Game 11";
  }

  lemma FormatGameThree(id: nat, a: seq<(nat, Cubes)>, b: seq<(nat, Cubes)>, c: seq<(nat, Cubes)>)
    ensures FormatGame(id, [a, b, c]) ==
      "Game " + Decimal(id) + ":" + ((" " + FormatSet(a)) + ";" + ((" " + FormatSet(b)) + ";" + (" " + FormatSet(c))))
  {
    SetPiecesThree(a, b, c);
    var p := [" " + FormatSet(a), " " + FormatSet(b), " " + FormatSet(c)];
    JoinThree(p[0], p[1], p[2], ";");
    var parts := ["Game " + Decimal(id), Join(p, ";")];
    assert parts[1..] == [Join(p, ";")];
    assert Join(parts, ":") == parts[0] + ":" + Join(parts[1..], ":");
    assert Join(SetPieces([a, b, c]), ";") == Join(p, ";");
  }

  lemma JoinThree(x: string, y: string, z: string, sep: string)
    ensures Join([x, y, z], sep) == x + sep + (y + sep + z)
  {
    var p := [x, y, z];
    assert p[1..] == [y, z] && p[1..][1..] == [z];
    assert Join(p[1..], sep) == y + sep + Join([z], sep);
    assert Join(p, sep) == x + sep + Join(p[1..], sep);
  }

  lemma SetPiecesThree(a: seq<(nat, Cubes)>, b: seq<(nat, Cubes)>, c: seq<(nat, Cubes)>)
    ensures SetPieces([a, b, c]) == [" " + FormatSet(a), " " + FormatSet(b), " " + FormatSet(c)]
  {
    var sets := [a, b, c];
    assert sets[..2] == [a, b] && sets[..2][..1] == [a] && [a][..0] == [];
    assert SetPieces([a]) == [" " + FormatSet(a)];
    assert SetPieces([a, b]) == SetPieces([a]) + [" " + FormatSet(b)];
    assert SetPieces(sets) == SetPieces([a, b]) + [" " + FormatSet(c)];
  }

  /** A one-digit count and its colour name, with a space between. */
  lemma DigitItem(n: nat, c: Cubes, s: string)
    requires n < 10 && s == [DigitChar(n)] + " " + ColourName(c)
    ensures FormatItem((n, c)) == s
  {
    var parts := [Decimal(n), ColourName(c)];
    assert parts[1..] == [ColourName(c)];
    assert Join(parts, " ") == Decimal(n) + " " + ColourName(c);
    assert Decimal(n) == [DigitChar(n)];
  }

  lemma ExampleSet1()
    ensures FormatSet([(3, Blue), (4, Red)]) == "3 blue, 4 red"
    ensures " " + FormatSet([(3, Blue), (4, Red)]) == " 3 blue, 4 red"
  {
    SetTwo((3, Blue), (4, Red));
    DigitItem(3, Blue, "3 blue");
    DigitItem(4, Red, "4 red");
    ExampleSpace1(FormatSet([(3, Blue), (4, Red)]));
  }

  lemma ExampleSpace1(s: string)
    requires s == "3 blue" + ", " + "4 red"
    ensures s == "3 blue, 4 red" && " " + s == " 3 blue, 4 red"
  {
  }

  /** A set of two items: the two items with a comma and a space between them. */
  lemma SetTwo(a: (nat, Cubes), b: (nat, Cubes))
    ensures FormatSet([a, b]) == FormatItem(a) + ", " + FormatItem(b)
  {
    var p, x, y := ItemPieces([a, b]), FormatItem(a), FormatItem(b);
    assert p[0] == "" + x == x;
    assert p[1] == " " + y;
    assert p[1..] == [" " + y];
    assert Join(p, ",") == x + "," + (" " + y);
    assert x + "," + (" " + y) == x + ", " + y;
  }

  /** A set of three items, separated by a comma and a space. */
  lemma SetThree(a: (nat, Cubes), b: (nat, Cubes), c: (nat, Cubes))
    ensures FormatSet([a, b, c]) == FormatItem(a) + ", " + FormatItem(b) + ", " + FormatItem(c)
  {
    var p, x, y, z := ItemPieces([a, b, c]), FormatItem(a), FormatItem(b), FormatItem(c);
    assert p[0] == "" + x == x;
    assert p[1] == " " + y && p[2] == " " + z;
    assert p[1..][0] == " " + y && p[1..][1..] == [" " + z];
    assert Join(p[1..], ",") == " " + y + "," + (" " + z);
    assert Join(p, ",") == x + "," + (" " + y + "," + (" " + z));
    assert x + "," + (" " + y + "," + (" " + z)) == x + ", " + y + ", " + z;
  }

  lemma ExamplePiece2()
    ensures " " + FormatSet([(1, Red), (2, Green), (6, Blue)]) == " 1 red, 2 green, 6 blue"
  {
    ExampleSet2();
    ExampleSpace2(FormatSet([(1, Red), (2, Green), (6, Blue)]));
  }

  lemma ExampleSpace2(s: string)
    requires s == "1 red, 2 green, 6 blue"
    ensures " " + s == " 1 red, 2 green, 6 blue"
  {
  }

  lemma ExampleSet2()
    ensures FormatSet([(1, Red), (2, Green), (6, Blue)]) == "1 red, 2 green, 6 blue"
  {
    SetThree((1, Red), (2, Green), (6, Blue));
    DigitItem(1, Red, "1 red");
    DigitItem(2, Green, "2 green");
    DigitItem(6, Blue, "6 blue");
    ExampleJoin2("1 red", "2 green", "6 blue");
  }

  lemma ExampleJoin2(x: string, y: string, z: string)
    requires x == "1 red" && y == "2 green" && z == "6 blue"
    ensures x + ", " + y + ", " + z == "1 red, 2 green, 6 blue"
  {
  }

  lemma ExampleSet3()
    ensures FormatSet([(2, Green)]) == "2 green"
    ensures " " + FormatSet([(2, Green)]) == " 2 green"
  {
    var p := ItemPieces([(2, Green)]);
    assert p[0] == "2 green";
    assert p == ["2 green"];
  }
}

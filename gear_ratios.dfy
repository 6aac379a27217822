/**
 * The engine schematic of 2023, day 3: a parser that turns each line into tokens
 * (numbers carrying an id from a counter that runs across lines, symbols with a gear
 * flag, and empty cells), a sparse matrix of tokens built line by line, the scan for
 * symbols and the collection of the distinct numbers around a symbol.
 *
 * The matrix (the `matrix` crate's `Compressed`) is a map from positions to tokens in
 * which an absent position reads as the zero token `Empty`.
 */
module GearRatios {
  import opened Common
  import opened Text
  import opened Grid

  /** `Token`; `Empty` is the source's `Token::None`, the matrix's zero element. */
  datatype Token = Empty | Symbol(isGear: bool) | Number(id: nat, value: nat, len: nat)

  /** The number of cells `insert_line` gives a token. */
  function Width(t: Token): nat
  {
    if t.Number? then t.len else 1
  }

  /** The token of one character that is not a digit. */
  function CharToken(c: char): Token
  {
    if c == '.' then Empty else Symbol(c == '*')
  }

  /** The end of the run of digits that starts at `i`. */
  function RunEnd(line: string, i: nat): (k: nat)
    requires i <= |line|
    ensures i <= k <= |line|
    ensures forall j :: i <= j < k ==> IsDigit(line[j])
    ensures k < |line| ==> !IsDigit(line[k])
    decreases |line| - i
  {
    if i == |line| || !IsDigit(line[i]) then i else RunEnd(line, i + 1)
  }

  /** A run of digits ended by a non-digit or by the end of the line is the run `RunEnd` finds. */
  lemma {:induction false} RunEndUnique(line: string, i: nat, k: nat)
    requires i <= k <= |line|
    requires forall j :: i <= j < k ==> IsDigit(line[j])
    requires k < |line| ==> !IsDigit(line[k])
    ensures RunEnd(line, i) == k
    decreases k - i
  {
    if i < k {
      RunEndUnique(line, i + 1, k);
    }
  }

  lemma RunDigits(line: string, i: nat, k: nat)
    requires i <= k <= |line|
    requires forall j :: i <= j < k ==> IsDigit(line[j])
    ensures AllDigits(line[i..k])
  {
    assert forall j :: 0 <= j < k - i ==> line[i..k][j] == line[i + j];
  }

  /** The start of the run of digits that ends at `x`. */
  function RunStart(line: string, x: nat): (s: nat)
    requires x < |line|
    ensures s <= x
    ensures s == 0 || !IsDigit(line[s - 1])
  {
    if x == 0 || !IsDigit(line[x - 1]) then x else RunStart(line, x - 1)
  }

  lemma {:induction false} RunStartAt(line: string, s: nat, x: nat)
    requires s <= x < |line|
    requires s == 0 || !IsDigit(line[s - 1])
    requires forall j :: s <= j < x ==> IsDigit(line[j])
    ensures RunStart(line, x) == s
    decreases x - s
  {
    if s < x {
      RunStartAt(line, s, x - 1);
    }
  }

  /**
   * The tokens `parse_line` produces for `line[i..]` while its counter stands at `id`:
   * a run of digits is one number, every other character one token of its own.
   */
  function Tokens(line: string, i: nat, id: nat): seq<Token>
    requires i <= |line|
    decreases |line| - i
  {
    if i == |line| then []
    else if IsDigit(line[i]) then
      var k := RunEnd(line, i);
      RunDigits(line, i, k);
      [Number(id, DigitsValue(line[i..k]), k - i)] + Tokens(line, k, id + 1)
    else [CharToken(line[i])] + Tokens(line, i + 1, id)
  }

  function NumberCount(t: seq<Token>): nat
  {
    if t == [] then 0 else (if t[0].Number? then 1 else 0) + NumberCount(t[1..])
  }

  lemma {:induction false} NumberCountAppend(a: seq<Token>, b: seq<Token>)
    ensures NumberCount(a + b) == NumberCount(a) + NumberCount(b)
  {
    if a == [] {
      assert a + b == b;
    } else {
      assert (a + b)[1..] == a[1..] + b;
      NumberCountAppend(a[1..], b);
    }
  }

  /** Every number value fits in a `u32`: otherwise `parse::<u32>().unwrap()` panics. */
  predicate FitsU32(t: seq<Token>)
  {
    forall k :: 0 <= k < |t| && t[k].Number? ==> t[k].value <= U32_MAX
  }

  /**
   * Token `t` read at offset `o` of `line`: a number is a nonempty run of digits that
   * ends at a non-digit or at the end of the line and has the run's decimal value;
   * any other token is the token of the non-digit character at `o`.
   */
  predicate Fits(line: string, o: nat, t: Token)
  {
    match t
    case Number(_, v, len) =>
      0 < len && o + len <= |line| && AllDigits(line[o..o + len]) && v == DigitsValue(line[o..o + len])
      && (o + len == |line| || !IsDigit(line[o + len]))
    case _ => o < |line| && !IsDigit(line[o]) && t == CharToken(line[o])
  }

  /**
   * The tokens `t` tile `line[o..]`, each fitting where the previous one ends, and the
   * numbers among them carry the ids `id`, `id + 1`, ... in order.
   */
  predicate Tiles(line: string, t: seq<Token>, o: nat, id: nat)
    decreases |t|
  {
    if t == [] then o == |line|
    else
      Fits(line, o, t[0]) && (t[0].Number? ==> t[0].id == id)
      && Tiles(line, t[1..], o + Width(t[0]), if t[0].Number? then id + 1 else id)
  }

  /** The parser's tokens tile the line. */
  lemma {:induction false} TokensTile(line: string, i: nat, id: nat)
    requires i <= |line|
    ensures Tiles(line, Tokens(line, i, id), i, id)
    decreases |line| - i
  {
    if i < |line| {
      var t := Tokens(line, i, id);
      if IsDigit(line[i]) {
        var k := RunEnd(line, i);
        RunDigits(line, i, k);
        assert t[0] == Number(id, DigitsValue(line[i..k]), k - i);
        assert Fits(line, i, t[0]);
        assert t[1..] == Tokens(line, k, id + 1);
        TokensTile(line, k, id + 1);
      } else {
        assert t[0] == CharToken(line[i]) && !t[0].Number?;
        assert t[1..] == Tokens(line, i + 1, id);
        TokensTile(line, i + 1, id);
      }
    }
  }

  /** ... and they are the only tokens that do: tiling determines the tokens. */
  lemma {:induction false} TilesUnique(line: string, t: seq<Token>, i: nat, id: nat)
    requires i <= |line|
    requires Tiles(line, t, i, id)
    ensures t == Tokens(line, i, id)
    decreases |t|
  {
    if t != [] {
      if t[0].Number? {
        var k := i + t[0].len;
        assert forall j :: i <= j < k ==> IsDigit(line[j]) by {
          assert forall j :: i <= j < k ==> line[j] == line[i..k][j - i];
        }
        RunEndUnique(line, i, k);
        TilesUnique(line, t[1..], k, id + 1);
      } else {
        TilesUnique(line, t[1..], i + 1, id);
      }
    }
  }

  /** Every character is consumed by exactly one token: the widths add up to the line. */
  lemma {:induction false} TilesCover(line: string, t: seq<Token>, o: nat, id: nat)
    requires Tiles(line, t, o, id)
    ensures o + |Expand(t)| == |line|
    decreases |t|
  {
    if t != [] {
      TilesCover(line, t[1..], o + Width(t[0]), if t[0].Number? then id + 1 else id);
    }
  }

  /** Numbers in a tiling carry ids from `id` up, strictly increasing, one per number. */
  lemma {:induction false} TilesIds(line: string, t: seq<Token>, o: nat, id: nat)
    requires Tiles(line, t, o, id)
    ensures forall a :: 0 <= a < |t| && t[a].Number? ==> id <= t[a].id < id + NumberCount(t)
    ensures forall a, b :: 0 <= a < b < |t| && t[a].Number? && t[b].Number? ==> t[a].id < t[b].id
    decreases |t|
  {
    if t != [] {
      var id' := if t[0].Number? then id + 1 else id;
      TilesIds(line, t[1..], o + Width(t[0]), id');
      assert forall a :: 0 < a < |t| ==> t[a] == t[1..][a - 1];
    }
  }

  /** The tokens of a parsed line, laid out cell by cell as `insert_line` writes them. */
  function Expand(t: seq<Token>): (r: seq<Token>)
  {
    if t == [] then [] else Piece(t[0]) + Expand(t[1..])
  }

  function Piece(t: Token): (r: seq<Token>)
    ensures |r| == Width(t)
    ensures forall j :: 0 <= j < |r| ==> r[j] == t
  {
    if t.Number? then seq(t.len, _ => t) else [t]
  }

  lemma {:induction false} ExpandAppend(a: seq<Token>, b: seq<Token>)
    ensures Expand(a + b) == Expand(a) + Expand(b)
  {
    if a == [] {
      assert a + b == b;
    } else {
      assert (a + b)[1..] == a[1..] + b;
      ExpandAppend(a[1..], b);
    }
  }

  /**
   * Cell by cell, a tiling shows a number exactly over the digits of the line, and the
   * character's own token everywhere else.
   */
  lemma {:induction false} TilesCells(line: string, t: seq<Token>, o: nat, id: nat)
    requires Tiles(line, t, o, id)
    ensures o + |Expand(t)| == |line|
    ensures forall j :: 0 <= j < |Expand(t)| ==> (Expand(t)[j].Number? <==> IsDigit(line[o + j]))
    ensures forall j :: 0 <= j < |Expand(t)| && !IsDigit(line[o + j]) ==> Expand(t)[j] == CharToken(line[o + j])
    decreases |t|
  {
    TilesCover(line, t, o, id);
    if t != [] {
      var w := Width(t[0]);
      TilesCells(line, t[1..], o + w, if t[0].Number? then id + 1 else id);
      var e := Expand(t);
      assert e == Piece(t[0]) + Expand(t[1..]);
      forall j | 0 <= j < |e|
        ensures (e[j].Number? <==> IsDigit(line[o + j]))
        ensures !IsDigit(line[o + j]) ==> e[j] == CharToken(line[o + j])
      {
        if j < w {
          if t[0].Number? {
            assert line[o + j] == line[o..o + w][j];
          }
        } else {
          assert e[j] == Expand(t[1..])[j - w];
        }
      }
    }
  }

  /** An offset where no run of digits continues across. */
  predicate Boundary(line: string, o: nat)
  {
    o == 0 || o >= |line| || !IsDigit(line[o - 1]) || !IsDigit(line[o])
  }

  /** Cell `x` of the line lies in number `c`, which is the maximal run of digits through `x`. */
  predicate NumberAt(line: string, x: nat, c: Token)
  {
    x < |line| && x < RunStart(line, x) + Width(c) && Fits(line, RunStart(line, x), c)
  }

  /** Inside a number that starts at a boundary, every cell belongs to that number's run. */
  lemma PieceValue(line: string, o: nat, t: Token, j: nat)
    requires t.Number? && Fits(line, o, t) && Boundary(line, o) && j < t.len
    ensures NumberAt(line, o + j, t)
  {
    assert forall k :: o <= k < o + j ==> IsDigit(line[k]) by {
      assert forall k :: o <= k < o + j ==> line[k] == line[o..o + t.len][k - o];
    }
    assert IsDigit(line[o]) by {
      assert line[o] == line[o..o + t.len][0];
    }
    RunStartAt(line, o, o + j);
  }

  /**
   * In a tiling from a boundary, a cell showing a number shows the number of the
   * maximal run of digits through that cell.
   */
  lemma TilesValues(line: string, t: seq<Token>, o: nat, id: nat)
    requires Tiles(line, t, o, id) && Boundary(line, o)
    ensures forall j :: 0 <= j < |Expand(t)| && Expand(t)[j].Number? ==> NumberAt(line, o + j, Expand(t)[j])
  {
    forall j | 0 <= j < |Expand(t)| && Expand(t)[j].Number?
      ensures NumberAt(line, o + j, Expand(t)[j])
    {
      TilesValueAt(line, t, o, id, o + j, Expand(t)[j]);
    }
  }

  /** The cell at position `x` of the line, covered by the tiling from `o`, shows token `c`. */
  lemma {:induction false} TilesValueAt(line: string, t: seq<Token>, o: nat, id: nat, x: nat, c: Token)
    requires Tiles(line, t, o, id) && Boundary(line, o)
    requires o <= x < o + |Expand(t)| && c == Expand(t)[x - o] && c.Number?
    ensures NumberAt(line, x, c)
    decreases |t|
  {
    assert t != [];
    var w := Width(t[0]);
    var rest := Expand(t[1..]);
    assert Expand(t) == Piece(t[0]) + rest;
    assert Fits(line, o, t[0]) && Tiles(line, t[1..], o + w, if t[0].Number? then id + 1 else id);
    if x < o + w {
      assert c == t[0];
      PieceValue(line, o, t[0], x - o);
    } else {
      var o' := o + w;
      assert Boundary(line, o') by {
        if !t[0].Number? {
          assert line[o' - 1] == line[o];
        }
      }
      assert c == rest[x - o'];
      TilesValueAt(line, t[1..], o', if t[0].Number? then id + 1 else id, x, c);
    }
  }

  /** The parser's state after the tokens of `line[..i]`, read from a counter that started at `id0`. */
  ghost predicate ParseState(line: string, id0: nat, tokens: seq<Token>, i: nat, id: nat)
  {
    i <= |line| && tokens + Tokens(line, i, id) == Tokens(line, 0, id0)
    && id == id0 + NumberCount(tokens) && FitsU32(tokens)
  }

  /** The next token of the line starts at `i`; the rest of the line follows it. */
  lemma NextToken(line: string, i: nat, id: nat)
    requires i < |line|
    ensures Tokens(line, i, id) != []
    ensures var t := Tokens(line, i, id)[0];
      i + Width(t) <= |line|
      && Tokens(line, i, id) == [t] + Tokens(line, i + Width(t), if t.Number? then id + 1 else id)
      && (t.Number? <==> IsDigit(line[i]))
      && (t.Number? ==> t.id == id && i + t.len == RunEnd(line, i))
  {
  }

  /** Taking the next token, if it fits, keeps the parser's state. */
  lemma ParseStep(line: string, id0: nat, tokens: seq<Token>, i: nat, id: nat)
    requires ParseState(line, id0, tokens, i, id) && i < |line|
    requires (NextToken(line, i, id); Tokens(line, i, id)[0].Number? ==> Tokens(line, i, id)[0].value <= U32_MAX)
    ensures var t := Tokens(line, i, id)[0];
      ParseState(line, id0, tokens + [t], i + Width(t), if t.Number? then id + 1 else id)
  {
    NextToken(line, i, id);
    var t := Tokens(line, i, id)[0];
    var rest := Tokens(line, i + Width(t), if t.Number? then id + 1 else id);
    NumberCountAppend(tokens, [t]);
    FitsAppend(tokens, t);
    AppendOne(tokens, t, rest);
  }

  lemma AppendOne(a: seq<Token>, t: Token, b: seq<Token>)
    ensures (a + [t]) + b == a + ([t] + b)
  {
  }

  lemma FitsAppend(tokens: seq<Token>, t: Token)
    requires FitsU32(tokens) && (t.Number? ==> t.value <= U32_MAX)
    ensures FitsU32(tokens + [t])
  {
    var s := tokens + [t];
    forall k | 0 <= k < |s| && s[k].Number?
      ensures s[k].value <= U32_MAX
    {
      if k < |tokens| {
        assert s[k] == tokens[k];
      }
    }
  }

  /** A number that does not fit makes the whole line fail. */
  lemma ParseOverflow(line: string, id0: nat, tokens: seq<Token>, i: nat, id: nat)
    requires ParseState(line, id0, tokens, i, id) && i < |line|
    requires (NextToken(line, i, id); Tokens(line, i, id)[0].Number? && Tokens(line, i, id)[0].value > U32_MAX)
    ensures !FitsU32(Tokens(line, 0, id0))
  {
    NextToken(line, i, id);
    assert Tokens(line, 0, id0)[|tokens|] == Tokens(line, i, id)[0];
  }

  /** `Parser`: the id counter persists from one line to the next. */
  class Parser {
    var currentId: nat

    /** `Parser::default()`. */
    constructor ()
      ensures currentId == 0
    {
      currentId := 0;
    }

    /**
     * `Parser::parse_line`. It fails (the source panics) exactly when a number does not
     * fit in a `u32`; otherwise it returns the line's tokens and advances the counter by
     * the number of numbers.
     */
    method ParseLine(line: string) returns (ok: bool, tokens: seq<Token>)
      modifies this
      ensures ok <==> FitsU32(Tokens(line, 0, old(currentId)))
      ensures ok ==> tokens == Tokens(line, 0, old(currentId))
      ensures ok ==> currentId == old(currentId) + NumberCount(tokens)
    {
      ghost var id0 := currentId;
      var id := currentId;
      tokens := [];
      var i := 0;
      assert ParseState(line, id0, tokens, i, id);
      while i < |line|
        invariant ParseState(line, id0, tokens, i, id)
        decreases |line| - i
      {
        var fits, t := NextTokenOf(line, i, id);
        if !fits {
          ParseOverflow(line, id0, tokens, i, id);
          ok := false;
          return;
        }
        ParseStep(line, id0, tokens, i, id);
        tokens, id, i := tokens + [t], if t.Number? then id + 1 else id, i + Width(t);
      }
      currentId := id;
      ok := true;
    }
  }

  /** One step of `parse_line`: the token starting at `i`, unless it is a number beyond `u32`. */
  method NextTokenOf(line: string, i: nat, id: nat) returns (fits: bool, t: Token)
    requires i < |line|
    ensures Tokens(line, i, id) != []
    ensures fits <==> !(Tokens(line, i, id)[0].Number? && Tokens(line, i, id)[0].value > U32_MAX)
    ensures t == Tokens(line, i, id)[0]
  {
    NextToken(line, i, id);
    if IsDigit(line[i]) {
      var j := DigitRun(line, i);
      RunDigits(line, i, j);
      var value := DigitsValue(line[i..j]);
      t := Number(id, value, j - i);
      fits := value <= U32_MAX;
    } else {
      t := CharToken(line[i]);
      fits := true;
    }
  }

  /** Collecting characters while they are digits. */
  method DigitRun(line: string, i: nat) returns (j: nat)
    requires i <= |line|
    ensures j == RunEnd(line, i)
  {
    j := i;
    while j < |line| && IsDigit(line[j])
      invariant i <= j <= |line|
      invariant forall k :: i <= k < j ==> IsDigit(line[k])
    {
      j := j + 1;
    }
    RunEndUnique(line, i, j);
  }

  /** The token the sparse matrix holds at `p`: the zero token where nothing was set. */
  function Cell(cells: map<Pos, Token>, p: Pos): Token
  {
    if p in cells then cells[p] else Empty
  }

  /** The entries one expanded line sets in row `y`: every cell that is not `Empty`. */
  function RowCells(y: nat, row: seq<Token>): map<Pos, Token>
  {
    if row == [] then map[]
    else
      var m := RowCells(y, row[..|row| - 1]);
      if row[|row| - 1] == Empty then m else m[(y, |row| - 1) := row[|row| - 1]]
  }

  lemma {:induction false} RowCellsAt(y: nat, row: seq<Token>, p: Pos)
    ensures p in RowCells(y, row) <==> p.0 == y && p.1 < |row| && row[p.1] != Empty
    ensures p in RowCells(y, row) ==> RowCells(y, row)[p] == row[p.1]
  {
    if row != [] {
      var front := row[..|row| - 1];
      RowCellsAt(y, front, p);
      if p.1 < |front| {
        assert front[p.1] == row[p.1];
      }
    }
  }

  lemma RowCellsEmpty(y: nat, row: seq<Token>)
    ensures RowCells(y, row + [Empty]) == RowCells(y, row)
  {
    assert (row + [Empty])[..|row|] == row;
  }

  lemma RowCellsSet(m: map<Pos, Token>, y: nat, row: seq<Token>, t: Token)
    requires t != Empty
    ensures m + RowCells(y, row + [t]) == (m + RowCells(y, row))[(y, |row|) := t]
  {
    assert (row + [t])[..|row|] == row;
    assert RowCells(y, row + [t]) == RowCells(y, row)[(y, |row|) := t];
  }

  /** Setting one more cell of a number's run. */
  lemma RunStep(base: map<Pos, Token>, y: nat, done: seq<Token>, t: Token, j: nat)
    requires t.Number? && j < t.len
    ensures (base + RowCells(y, done + Piece(t)[..j]))[(y, |done| + j) := t]
         == base + RowCells(y, done + Piece(t)[..j + 1])
  {
    var run := Piece(t);
    var before := done + run[..j];
    RowCellsSet(base, y, before, t);
    assert before + [t] == done + run[..j + 1] by {
      assert run[..j + 1] == run[..j] + [run[j]];
    }
  }

  /** `EngineSchematic`: a `Compressed` matrix of tokens with its dimensions. */
  class EngineSchematic {
    var rows: nat
    var columns: nat
    var cells: map<Pos, Token>

    /** `EngineSchematic::new`: a matrix of the given size holding only zero tokens. */
    constructor (size: (nat, nat))
      ensures rows == size.0 && columns == size.1 && cells == map[]
    {
      rows := size.0;
      columns := size.1;
      cells := map[];
    }

    /**
     * `EngineSchematic::insert_line`: row `lineNum` receives the line's tokens laid out
     * cell by cell, a number over as many cells as it has digits; empty tokens leave
     * their cell as it was.
     */
    method InsertLine(lineNum: nat, line: seq<Token>)
      requires forall k :: 0 <= k < |line| && line[k].Number? ==> line[k].len > 0
      modifies this
      ensures rows == old(rows) && columns == old(columns)
      ensures cells == old(cells) + RowCells(lineNum, Expand(line))
    {
      var idx := 0;
      for k := 0 to |line|
        invariant idx == |Expand(line[..k])|
        invariant cells == old(cells) + RowCells(lineNum, Expand(line[..k]))
        invariant rows == old(rows) && columns == old(columns)
      {
        var token := line[k];
        ghost var done := Expand(line[..k]);
        ghost var next := Expand(line[..k + 1]);
        assert line[..k + 1] == line[..k] + [token];
        ExpandAppend(line[..k], [token]);
        assert Expand([token]) == Piece(token) + Expand([]);
        assert next == done + Piece(token);
        match token {
          case Empty =>
            RowCellsEmpty(lineNum, done);
          case Symbol(_) =>
            RowCellsSet(old(cells), lineNum, done, token);
            cells := cells[(lineNum, idx) := token];
          case Number(_, _, len) =>
            idx := SetRun(lineNum, idx, token, old(cells), done);
            idx := idx - 1;
        }
        assert cells == old(cells) + RowCells(lineNum, next);
        idx := idx + 1;
      }
      assert line[..|line|] == line;
    }

    /** The inner loop of `insert_line`: a number is set into `len` cells from `idx` on. */
    method SetRun(lineNum: nat, idx: nat, token: Token, ghost base: map<Pos, Token>, ghost done: seq<Token>)
        returns (idx': nat)
      requires token.Number? && idx == |done| && cells == base + RowCells(lineNum, done)
      modifies this
      ensures rows == old(rows) && columns == old(columns)
      ensures idx' == idx + token.len
      ensures cells == base + RowCells(lineNum, done + Piece(token))
    {
      idx' := idx;
      assert done + Piece(token)[..0] == done;
      for j := 0 to token.len
        invariant idx' == |done| + j
        invariant cells == base + RowCells(lineNum, done + Piece(token)[..j])
        invariant rows == old(rows) && columns == old(columns)
      {
        RunStep(base, lineNum, done, token, j);
        cells := cells[(lineNum, idx') := token];
        idx' := idx' + 1;
      }
      assert Piece(token)[..token.len] == Piece(token);
    }
    /** `EngineSchematic::symbols`: the symbol cells, scanning row by row, left to right. */
    method Symbols() returns (symbols: seq<SymbolCell>)
      ensures symbols == SymbolsOf(cells, rows, columns)
    {
      symbols := [];
      for x := 0 to rows
        invariant symbols == SymbolsOf(cells, x, columns)
      {
        for y := 0 to columns
          invariant symbols == SymbolsOf(cells, x, columns) + RowSymbols(cells, x, y)
        {
          match Cell(cells, (x, y)) {
            case Symbol(isGear) =>
              symbols := symbols + [SymbolCell((x, y), isGear)];
            case _ =>
          }
        }
      }
    }

    /**
     * `EngineSchematic::get_adjacent_numbers`: the value of every number met in the
     * symbol's scan window, scanning row by row, each distinct id once.
     */
    method GetAdjacentNumbers(symbol: SymbolCell) returns (numbers: seq<nat>)
      ensures numbers == Values(Distinct(WindowNumbers(cells, Window(symbol, rows, columns))))
    {
      numbers := NumbersIn(Window(symbol, rows, columns));
    }

    /**
     * `get_adjacent_numbers` as evidently intended: the same scan over the symbol's
     * neighbourhood, whatever the symbol's row (see `NeighbourNumbers`).
     */
    method AdjacentNumbers(symbol: SymbolCell) returns (numbers: seq<nat>)
      ensures numbers == Values(Distinct(WindowNumbers(cells, Neighbourhood(symbol))))
    {
      numbers := NumbersIn(Neighbourhood(symbol));
    }

    /** The scan that both the source's window and the intended neighbourhood go through. */
    method NumbersIn(w: Bounds) returns (numbers: seq<nat>)
      ensures numbers == Values(Distinct(WindowNumbers(cells, w)))
    {
      numbers := [];
      var ids: seq<nat> := [];
      var x := w.xStart;
      while x <= w.xEnd
        invariant w.xStart <= x && (x == w.xStart || x <= w.xEnd + 1)
        invariant ScanState(cells, w, x, w.yStart, ids, numbers)
        decreases w.xEnd + 1 - x
      {
        var ids', numbers' := NumbersInRow(w, x, ids, numbers);
        ids, numbers, x := ids', numbers', x + 1;
      }
      ScanDone(cells, w, x, ids, numbers);
    }

    /** The inner loop of the scan: one row of the window, left to right. */
    method NumbersInRow(w: Bounds, x: nat, ids0: seq<nat>, numbers0: seq<nat>) returns (ids: seq<nat>, numbers: seq<nat>)
      requires w.xStart <= x && ScanState(cells, w, x, w.yStart, ids0, numbers0)
      ensures ScanState(cells, w, x + 1, w.yStart, ids, numbers)
    {
      ids, numbers := ids0, numbers0;
      var y := w.yStart;
      while y <= w.yEnd
        invariant w.yStart <= y && (y == w.yStart || y <= w.yEnd + 1)
        invariant ScanState(cells, w, x, y, ids, numbers)
        decreases w.yEnd + 1 - y
      {
        var token := Cell(cells, (x, y));
        ScanCell(cells, w, x, y, ids, numbers);
        if token.Number? && token.id !in ids {
          ids, numbers := ids + [token.id], numbers + [token.value];
        }
        y := y + 1;
      }
      ScanNextRow(cells, w, x, y, ids, numbers);
    }

    /**
     * `EngineSchematic::get_input_size`: one more than the length of the first line of
     * the trimmed input, and the number of lines of the trimmed input. Input that is
     * only whitespace has no first line and panics.
     */
    static function InputSize(input: string): (r: Option<(nat, nat)>)
      ensures r.None? <==> Trim(input) == []
    {
      var lines := Lines(Trim(input));
      LinesEmpty(Trim(input));
      if lines == [] then None else Some((|lines[0]| + 1, |lines|))
    }

    /**
     * `EngineSchematic::from`: a matrix of the input's size into which every line of the
     * input is parsed and inserted, in order, with one parser counting ids across lines.
     * It panics on whitespace-only input and on a number beyond `u32`.
     */
    static method From(input: string) returns (r: Option<EngineSchematic>)
      ensures r.None? <==> Trim(input) == [] || !Parsable(Lines(input), |Lines(input)|)
      ensures r.Some? ==> fresh(r.value) && InputSize(input) == Some((r.value.rows, r.value.columns))
      ensures r.Some? ==> r.value.cells == LayoutOf(Lines(input), |Lines(input)|).cells
    {
      var size := InputSize(input);
      if size.None? {
        return None;
      }
      r := InsertAll(Lines(input), size.value);
    }

    /** The loop of `from`: each line is parsed and inserted at its line number. */
    static method InsertAll(lines: seq<string>, size: (nat, nat)) returns (r: Option<EngineSchematic>)
      ensures r.None? <==> !Parsable(lines, |lines|)
      ensures r.Some? ==> fresh(r.value) && (r.value.rows, r.value.columns) == size
      ensures r.Some? ==> r.value.cells == LayoutOf(lines, |lines|).cells
    {
      var parser := new Parser();
      var matrix := new EngineSchematic(size);
      for num := 0 to |lines|
        invariant FromState(lines, num, parser.currentId, matrix.cells)
        invariant (matrix.rows, matrix.columns) == size
        invariant fresh(matrix) && fresh(parser)
      {
        ghost var id := parser.currentId;
        var ok, tokens := parser.ParseLine(lines[num]);
        if !ok {
          FromFail(lines, num, id, matrix.cells);
          return None;
        }
        FromStep(lines, num, id, matrix.cells);
        matrix.InsertLine(num, tokens);
      }
      return Some(matrix);
    }
  }

  /** The matrix and the parser's counter once the first `n` lines are inserted. */
  datatype Layout = Layout(cells: map<Pos, Token>, nextId: nat)

  function LayoutOf(lines: seq<string>, n: nat): Layout
    requires n <= |lines|
  {
    if n == 0 then Layout(map[], 0) else AddLine(LayoutOf(lines, n - 1), lines[n - 1], n - 1)
  }

  /** Line `line` parsed with the layout's counter and laid out as row `y`. */
  function AddLine(l: Layout, line: string, y: nat): Layout
  {
    var t := Tokens(line, 0, l.nextId);
    Layout(l.cells + RowCells(y, Expand(t)), l.nextId + NumberCount(t))
  }

  /** No number in the first `n` lines is beyond `u32`. */
  predicate Parsable(lines: seq<string>, n: nat)
    requires n <= |lines|
  {
    n == 0 || (Parsable(lines, n - 1) && FitsU32(Tokens(lines[n - 1], 0, LayoutOf(lines, n - 1).nextId)))
  }

  /** The state of `from` after `num` lines: the parser's counter and the matrix so far. */
  ghost predicate FromState(lines: seq<string>, num: nat, id: nat, cells: map<Pos, Token>)
  {
    num <= |lines| && Parsable(lines, num)
    && id == LayoutOf(lines, num).nextId && cells == LayoutOf(lines, num).cells
  }

  lemma FromStep(lines: seq<string>, num: nat, id: nat, cells: map<Pos, Token>)
    requires FromState(lines, num, id, cells) && num < |lines|
    requires FitsU32(Tokens(lines[num], 0, id))
    ensures var t := Tokens(lines[num], 0, id);
      FromState(lines, num + 1, id + NumberCount(t), cells + RowCells(num, Expand(t)))
      && forall k :: 0 <= k < |t| && t[k].Number? ==> t[k].len > 0
  {
    TokensPositive(lines[num], 0, id);
  }

  lemma FromFail(lines: seq<string>, num: nat, id: nat, cells: map<Pos, Token>)
    requires FromState(lines, num, id, cells) && num < |lines|
    requires !FitsU32(Tokens(lines[num], 0, id))
    ensures !Parsable(lines, |lines|)
  {
    NotParsableBeyond(lines, num + 1, |lines|);
  }

  /** Once a line fails to parse, so does the whole input. */
  lemma {:induction false} NotParsableBeyond(lines: seq<string>, m: nat, n: nat)
    requires m <= n <= |lines|
    requires !Parsable(lines, m)
    ensures !Parsable(lines, n)
    decreases n
  {
    if m < n {
      NotParsableBeyond(lines, m, n - 1);
    }
  }

  /** The parser never makes a number of no digits. */
  lemma {:induction false} TokensPositive(line: string, i: nat, id: nat)
    requires i <= |line|
    ensures forall k :: 0 <= k < |Tokens(line, i, id)| && Tokens(line, i, id)[k].Number? ==> Tokens(line, i, id)[k].len > 0
    decreases |line| - i
  {
    if i < |line| {
      var t := Tokens(line, i, id);
      if IsDigit(line[i]) {
        TokensPositive(line, RunEnd(line, i), id + 1);
        assert forall k :: 0 < k < |t| ==> t[k] == Tokens(line, RunEnd(line, i), id + 1)[k - 1];
      } else {
        TokensPositive(line, i + 1, id);
        assert forall k :: 0 < k < |t| ==> t[k] == Tokens(line, i + 1, id)[k - 1];
      }
    }
  }

  /**
   * What column `x` of a line shows once the line is parsed and inserted: a number
   * exactly over a digit, namely the number of the maximal run of digits through it;
   * the character's own token over any other character; the zero token beyond the line.
   */
  ghost predicate LineMatches(line: string, x: nat, c: Token)
  {
    if x < |line| then
      (c.Number? <==> IsDigit(line[x]))
      && (!IsDigit(line[x]) ==> c == CharToken(line[x]))
      && (c.Number? ==> NumberAt(line, x, c))
    else c == Empty
  }

  /** The cell at column `x` of a laid-out row, the zero token beyond it. */
  function RowAt(row: seq<Token>, x: nat): Token
  {
    if x < |row| then row[x] else Empty
  }

  /** One cell of a parsed line laid out. */
  lemma LineCell(line: string, id: nat, x: nat)
    ensures |Expand(Tokens(line, 0, id))| == |line|
    ensures LineMatches(line, x, RowAt(Expand(Tokens(line, 0, id)), x))
  {
    TokensTile(line, 0, id);
    TilesCells(line, Tokens(line, 0, id), 0, id);
    TilesValues(line, Tokens(line, 0, id), 0, id);
    if x < |line| {
      assert line[0 + x] == line[x];
    }
  }

  /**
   * The matrix that `from` builds after `n` lines, cell by cell: row `y < n` shows
   * line `y` as `LineMatches` describes; rows from `n` on hold only the zero token.
   */
  lemma LayoutCell(lines: seq<string>, n: nat, p: Pos)
    requires n <= |lines|
    ensures p.0 < n ==> LineMatches(lines[p.0], p.1, Cell(LayoutOf(lines, n).cells, p))
    ensures p.0 >= n ==> Cell(LayoutOf(lines, n).cells, p) == Empty
  {
    LayoutFineOf(lines, n);
  }

  /** Every row below `n` shows its line, and every row from `n` on is unset. */
  ghost predicate LayoutFine(lines: seq<string>, n: nat, l: Layout)
    requires n <= |lines|
  {
    forall p: Pos ::
      && (p.0 < n ==> LineMatches(lines[p.0], p.1, Cell(l.cells, p)))
      && (p.0 >= n ==> Cell(l.cells, p) == Empty)
  }

  lemma {:induction false} LayoutFineOf(lines: seq<string>, n: nat)
    requires n <= |lines|
    ensures LayoutFine(lines, n, LayoutOf(lines, n))
  {
    if n > 0 {
      var prev := LayoutOf(lines, n - 1);
      LayoutFineOf(lines, n - 1);
      LayoutFineStep(lines, n, prev);
      LayoutStep(lines, n);
    }
  }

  /** Adding line `n - 1` as row `n - 1` to a matrix that shows the lines before it. */
  lemma LayoutFineStep(lines: seq<string>, n: nat, l: Layout)
    requires 0 < n <= |lines| && LayoutFine(lines, n - 1, l)
    ensures LayoutFine(lines, n, AddLine(l, lines[n - 1], n - 1))
  {
    forall p: Pos
      ensures p.0 < n ==> LineMatches(lines[p.0], p.1, Cell(AddLine(l, lines[n - 1], n - 1).cells, p))
      ensures p.0 >= n ==> Cell(AddLine(l, lines[n - 1], n - 1).cells, p) == Empty
    {
      if p.0 == n - 1 {
        LayoutRowCell(l, lines[n - 1], n - 1, p);
      } else {
        AddLineOther(l, lines[n - 1], n - 1, p);
      }
    }
  }

  /** The matrix after `n` lines is the one after `n - 1` lines with line `n - 1` added. */
  lemma LayoutStep(lines: seq<string>, n: nat)
    requires 0 < n <= |lines|
    ensures LayoutOf(lines, n) == AddLine(LayoutOf(lines, n - 1), lines[n - 1], n - 1)
  {
  }

  /** Adding a line as row `y` leaves the cells of every other row as they were. */
  lemma AddLineOther(l: Layout, line: string, y: nat, p: Pos)
    requires p.0 != y
    ensures Cell(AddLine(l, line, y).cells, p) == Cell(l.cells, p)
  {
    RowCellsOther(l.cells, y, Expand(Tokens(line, 0, l.nextId)), p);
  }

  /** Cells that the right-hand map does not set read as in the left-hand map. */
  lemma MapUnionLeft(a: map<Pos, Token>, b: map<Pos, Token>, p: Pos)
    requires p !in b
    ensures Cell(a + b, p) == Cell(a, p)
  {
  }

  /** Laying out row `y` leaves the cells of every other row as they were. */
  lemma RowCellsOther(cells: map<Pos, Token>, y: nat, e: seq<Token>, p: Pos)
    requires p.0 != y
    ensures Cell(cells + RowCells(y, e), p) == Cell(cells, p)
  {
    RowCellsAt(y, e, p);
    MapUnionLeft(cells, RowCells(y, e), p);
  }

  /** Cells that the right-hand map sets read as there. */
  lemma MapUnionRight(a: map<Pos, Token>, b: map<Pos, Token>, p: Pos)
    requires p in b
    ensures Cell(a + b, p) == b[p]
  {
  }

  /** The cells of the row that line `n - 1` fills, over cells that were still unset. */
  lemma LayoutRowCell(l: Layout, line: string, y: nat, p: Pos)
    requires p.0 == y && Cell(l.cells, p) == Empty
    ensures LineMatches(line, p.1, Cell(AddLine(l, line, y).cells, p))
  {
    var e := Expand(Tokens(line, 0, l.nextId));
    var rc := RowCells(y, e);
    RowCellsAt(y, e, p);
    if p in rc {
      MapUnionRight(l.cells, rc, p);
    } else {
      MapUnionLeft(l.cells, rc, p);
    }
    LineCellIs(line, l.nextId, p.1, Cell(l.cells + rc, p));
  }

  lemma LineCellIs(line: string, id: nat, x: nat, c: Token)
    requires c == RowAt(Expand(Tokens(line, 0, id)), x)
    ensures LineMatches(line, x, c)
  {
    LineCell(line, id, x);
  }

  /** `Symbol`: the position of a symbol token and whether it is a gear. */
  datatype SymbolCell = SymbolCell(coordinates: Pos, isGear: bool)

  /** The symbols among the first `n` cells of row `x`, left to right. */
  function RowSymbols(cells: map<Pos, Token>, x: nat, n: nat): seq<SymbolCell>
  {
    if n == 0 then []
    else
      RowSymbols(cells, x, n - 1)
      + (match Cell(cells, (x, n - 1)) case Symbol(g) => [SymbolCell((x, n - 1), g)] case _ => [])
  }

  /** The symbols of the first `m` rows of a matrix with `columns` columns, row by row. */
  function SymbolsOf(cells: map<Pos, Token>, m: nat, columns: nat): seq<SymbolCell>
  {
    if m == 0 then [] else SymbolsOf(cells, m - 1, columns) + RowSymbols(cells, m - 1, columns)
  }

  /** Row-major order of positions. */
  predicate Before(p: Pos, q: Pos)
  {
    p.0 < q.0 || (p.0 == q.0 && p.1 < q.1)
  }

  predicate ScanOrdered(s: seq<SymbolCell>)
  {
    forall a, b :: 0 <= a < b < |s| ==> Before(s[a].coordinates, s[b].coordinates)
  }

  lemma {:induction false} RowSymbolsMeans(cells: map<Pos, Token>, x: nat, n: nat)
    ensures forall s :: s in RowSymbols(cells, x, n) <==>
      s.coordinates.0 == x && s.coordinates.1 < n && Cell(cells, s.coordinates) == Symbol(s.isGear)
    ensures ScanOrdered(RowSymbols(cells, x, n))
  {
    if n > 0 {
      RowSymbolsMeans(cells, x, n - 1);
    }
  }

  /**
   * `symbols` finds exactly the symbol cells inside the matrix's dimensions, each once,
   * in row-major order.
   */
  lemma {:induction false} SymbolsMeans(cells: map<Pos, Token>, m: nat, columns: nat)
    ensures forall s :: s in SymbolsOf(cells, m, columns) <==>
      InGrid(s.coordinates, m, columns) && Cell(cells, s.coordinates) == Symbol(s.isGear)
    ensures ScanOrdered(SymbolsOf(cells, m, columns))
  {
    if m > 0 {
      SymbolsMeans(cells, m - 1, columns);
      RowSymbolsMeans(cells, m - 1, columns);
      var a, b := SymbolsOf(cells, m - 1, columns), RowSymbols(cells, m - 1, columns);
      assert forall i :: 0 <= i < |a| ==> a[i] in a;
      assert forall j :: 0 <= j < |b| ==> b[j] in b;
      assert forall i :: |a| <= i < |a + b| ==> (a + b)[i] == b[i - |a|];
    }
  }

  /** Inclusive bounds of a scan window: rows `xStart..=xEnd`, columns `yStart..=yEnd`. */
  datatype Bounds = Bounds(xStart: nat, xEnd: nat, yStart: nat, yEnd: nat)

  predicate InBounds(p: Pos, w: Bounds)
  {
    w.xStart <= p.0 <= w.xEnd && w.yStart <= p.1 <= w.yEnd
  }

  /**
   * The window of `get_adjacent_numbers` as the source computes it: one row and one
   * column either side of the symbol, not below 0; but both ends are chosen by comparing
   * the symbol's row with the number of columns, and when they are equal the window
   * reaches from the symbol's row minus one to that row and over to column `rows`.
   */
  function Window(symbol: SymbolCell, rows: nat, columns: nat): (w: Bounds)
    ensures symbol.coordinates.0 != columns ==> w == Neighbourhood(symbol)
  {
    var (x, y) := symbol.coordinates;
    Bounds(if x == 0 then 0 else x - 1, if x == columns then columns else x + 1,
           if y == 0 then 0 else y - 1, if x == columns then rows else y + 1)
  }

  /** The eight cells around the symbol and the symbol's own cell, not below row and column 0. */
  function Neighbourhood(symbol: SymbolCell): (w: Bounds)
    ensures forall p: Pos :: InBounds(p, w) <==>
      -1 <= p.0 - symbol.coordinates.0 <= 1 && -1 <= p.1 - symbol.coordinates.1 <= 1
  {
    var (x, y) := symbol.coordinates;
    Bounds(if x == 0 then 0 else x - 1, x + 1, if y == 0 then 0 else y - 1, y + 1)
  }

  /** The numbers of row `x` at columns `y0` up to `n - 1`, left to right. */
  function ScanRow(cells: map<Pos, Token>, x: nat, y0: nat, n: nat): (r: seq<Token>)
    ensures AllNumbers(r)
  {
    if n <= y0 then []
    else ScanRow(cells, x, y0, n - 1) + (if Cell(cells, (x, n - 1)).Number? then [Cell(cells, (x, n - 1))] else [])
  }

  /** The numbers of the window's rows above row `n`, row by row. */
  function ScanRows(cells: map<Pos, Token>, w: Bounds, n: nat): (r: seq<Token>)
    ensures AllNumbers(r)
  {
    if n <= w.xStart then [] else ScanRows(cells, w, n - 1) + ScanRow(cells, n - 1, w.yStart, w.yEnd + 1)
  }

  /** Every number token met scanning the window, in scan order and with repetitions. */
  function WindowNumbers(cells: map<Pos, Token>, w: Bounds): (r: seq<Token>)
    ensures AllNumbers(r)
  {
    ScanRows(cells, w, w.xEnd + 1)
  }

  predicate AllNumbers(t: seq<Token>)
  {
    forall k :: 0 <= k < |t| ==> t[k].Number?
  }

  function Ids(t: seq<Token>): seq<nat>
    requires AllNumbers(t)
  {
    if t == [] then [] else Ids(t[..|t| - 1]) + [t[|t| - 1].id]
  }

  function Values(t: seq<Token>): seq<nat>
    requires AllNumbers(t)
  {
    if t == [] then [] else Values(t[..|t| - 1]) + [t[|t| - 1].value]
  }

  /** The numbers of `t` whose id has not been met before, in order. */
  function Distinct(t: seq<Token>): (d: seq<Token>)
    requires AllNumbers(t)
    ensures AllNumbers(d)
  {
    if t == [] then []
    else
      var d := Distinct(t[..|t| - 1]);
      if t[|t| - 1].id in Ids(d) then d else d + [t[|t| - 1]]
  }

  /** The scan after rows `w.xStart..x` and the first cells of row `x`, up to column `y`. */
  ghost predicate ScanState(cells: map<Pos, Token>, w: Bounds, x: nat, y: nat, ids: seq<nat>, numbers: seq<nat>)
  {
    var seen := ScanRows(cells, w, x) + ScanRow(cells, x, w.yStart, y);
    ids == Ids(Distinct(seen)) && numbers == Values(Distinct(seen))
  }

  /** Meeting one more number: it is kept exactly when its id is new. */
  lemma DistinctStep(seen: seq<Token>, t: Token)
    requires AllNumbers(seen) && t.Number?
    ensures Distinct(seen + [t]) == if t.id in Ids(Distinct(seen)) then Distinct(seen) else Distinct(seen) + [t]
    ensures Ids(Distinct(seen) + [t]) == Ids(Distinct(seen)) + [t.id]
    ensures Values(Distinct(seen) + [t]) == Values(Distinct(seen)) + [t.value]
  {
    assert (seen + [t])[..|seen|] == seen;
    var d := Distinct(seen);
    assert (d + [t])[..|d|] == d;
  }

  lemma ScanNew(cells: map<Pos, Token>, w: Bounds, x: nat, y: nat, ids: seq<nat>, numbers: seq<nat>)
    requires w.yStart <= y && ScanState(cells, w, x, y, ids, numbers)
    requires Cell(cells, (x, y)).Number? && Cell(cells, (x, y)).id !in ids
    ensures ScanState(cells, w, x, y + 1, ids + [Cell(cells, (x, y)).id], numbers + [Cell(cells, (x, y)).value])
  {
    var t := Cell(cells, (x, y));
    var seen := ScanRows(cells, w, x) + ScanRow(cells, x, w.yStart, y);
    assert seen + [t] == ScanRows(cells, w, x) + ScanRow(cells, x, w.yStart, y + 1);
    DistinctStep(seen, t);
  }

  lemma ScanSkip(cells: map<Pos, Token>, w: Bounds, x: nat, y: nat, ids: seq<nat>, numbers: seq<nat>)
    requires w.yStart <= y && ScanState(cells, w, x, y, ids, numbers)
    requires !(Cell(cells, (x, y)).Number? && Cell(cells, (x, y)).id !in ids)
    ensures ScanState(cells, w, x, y + 1, ids, numbers)
  {
    var t := Cell(cells, (x, y));
    var seen := ScanRows(cells, w, x) + ScanRow(cells, x, w.yStart, y);
    if t.Number? {
      assert seen + [t] == ScanRows(cells, w, x) + ScanRow(cells, x, w.yStart, y + 1);
      DistinctStep(seen, t);
    } else {
      assert seen == ScanRows(cells, w, x) + ScanRow(cells, x, w.yStart, y + 1);
    }
  }

  /** One cell of the inner loop: a number is kept exactly when its id is new. */
  lemma ScanCell(cells: map<Pos, Token>, w: Bounds, x: nat, y: nat, ids: seq<nat>, numbers: seq<nat>)
    requires w.yStart <= y && ScanState(cells, w, x, y, ids, numbers)
    ensures var t := Cell(cells, (x, y));
      if t.Number? && t.id !in ids then ScanState(cells, w, x, y + 1, ids + [t.id], numbers + [t.value])
      else ScanState(cells, w, x, y + 1, ids, numbers)
  {
    var t := Cell(cells, (x, y));
    if t.Number? && t.id !in ids {
      ScanNew(cells, w, x, y, ids, numbers);
    } else {
      ScanSkip(cells, w, x, y, ids, numbers);
    }
  }

  lemma ScanNextRow(cells: map<Pos, Token>, w: Bounds, x: nat, y: nat, ids: seq<nat>, numbers: seq<nat>)
    requires w.xStart <= x && w.yStart <= y && w.yEnd < y
    requires y == w.yStart || y == w.yEnd + 1
    requires ScanState(cells, w, x, y, ids, numbers)
    ensures ScanState(cells, w, x + 1, w.yStart, ids, numbers)
  {
    assert ScanRow(cells, x, w.yStart, y) == ScanRow(cells, x, w.yStart, w.yEnd + 1);
    assert ScanRows(cells, w, x + 1) == ScanRows(cells, w, x) + ScanRow(cells, x, w.yStart, w.yEnd + 1);
    assert ScanRows(cells, w, x + 1) + ScanRow(cells, x + 1, w.yStart, w.yStart) == ScanRows(cells, w, x + 1);
  }

  lemma ScanDone(cells: map<Pos, Token>, w: Bounds, x: nat, ids: seq<nat>, numbers: seq<nat>)
    requires x == w.xEnd + 1 || (x == w.xStart && x > w.xEnd)
    requires ScanState(cells, w, x, w.yStart, ids, numbers)
    ensures numbers == Values(Distinct(WindowNumbers(cells, w)))
  {
    assert ScanRows(cells, w, x) + ScanRow(cells, x, w.yStart, w.yStart) == ScanRows(cells, w, x);
    if x != w.xEnd + 1 {
      assert ScanRows(cells, w, x) == [] == ScanRows(cells, w, w.xEnd + 1);
    }
  }

  lemma {:induction false} IdsMeans(t: seq<Token>)
    requires AllNumbers(t)
    ensures |Ids(t)| == |t| && forall k :: 0 <= k < |t| ==> Ids(t)[k] == t[k].id
  {
    if t != [] {
      IdsMeans(t[..|t| - 1]);
    }
  }

  lemma {:induction false} ValuesMeans(t: seq<Token>)
    requires AllNumbers(t)
    ensures |Values(t)| == |t| && forall k :: 0 <= k < |t| ==> Values(t)[k] == t[k].value
  {
    if t != [] {
      ValuesMeans(t[..|t| - 1]);
    }
  }

  predicate NoDuplicates(s: seq<nat>)
  {
    forall i, j :: 0 <= i < j < |s| ==> s[i] != s[j]
  }

  /**
   * The `ids.contains` filter: the kept numbers have pairwise different ids, each is one
   * of the scanned numbers, and every scanned number's id is kept.
   */
  lemma {:induction false} DistinctMeans(t: seq<Token>)
    requires AllNumbers(t)
    ensures NoDuplicates(Ids(Distinct(t)))
    ensures forall u :: u in Distinct(t) ==> u in t
    ensures forall u :: u in t ==> u.id in Ids(Distinct(t))
  {
    if t != [] {
      var s := t[..|t| - 1];
      var last := t[|t| - 1];
      var d := Distinct(s);
      DistinctMeans(s);
      assert t == s + [last];
      DistinctStep(s, last);
      if last.id !in Ids(d) {
        var e := Ids(d) + [last.id];
        assert forall i :: 0 <= i < |Ids(d)| ==> e[i] == Ids(d)[i];
      }
    }
  }

  /** A row scan meets exactly the number cells of its columns. */
  lemma {:induction false} ScanRowMeans(cells: map<Pos, Token>, x: nat, y0: nat, n: nat, t: Token)
    ensures t in ScanRow(cells, x, y0, n) <==> t.Number? && exists y :: y0 <= y < n && Cell(cells, (x, y)) == t
  {
    if n > y0 {
      ScanRowMeans(cells, x, y0, n - 1, t);
    }
  }

  lemma {:induction false} ScanRowsMeans(cells: map<Pos, Token>, w: Bounds, n: nat, t: Token)
    ensures t in ScanRows(cells, w, n) <==>
      t.Number? && exists x, y :: w.xStart <= x < n && w.yStart <= y <= w.yEnd && Cell(cells, (x, y)) == t
  {
    if n > w.xStart {
      ScanRowsMeans(cells, w, n - 1, t);
      ScanRowMeans(cells, n - 1, w.yStart, w.yEnd + 1, t);
    }
  }

  /** The window's scan meets exactly the number cells inside the window. */
  lemma WindowNumbersMeans(cells: map<Pos, Token>, w: Bounds, t: Token)
    ensures t in WindowNumbers(cells, w) <==> t.Number? && exists p: Pos :: InBounds(p, w) && Cell(cells, p) == t
  {
    ScanRowsMeans(cells, w, w.xEnd + 1, t);
    if t in WindowNumbers(cells, w) {
      var x, y :| w.xStart <= x < w.xEnd + 1 && w.yStart <= y <= w.yEnd && Cell(cells, (x, y)) == t;
      assert InBounds((x, y), w);
    }
  }

  /** `p` touches the symbol: at most one row and one column away, diagonals included. */
  predicate Adjacent(p: Pos, symbol: SymbolCell)
  {
    -1 <= p.0 - symbol.coordinates.0 <= 1 && -1 <= p.1 - symbol.coordinates.1 <= 1
  }

  /**
   * The numbers of the symbol's neighbourhood: no id twice, each one a number touching
   * the symbol, and every number touching the symbol present by its id.
   */
  lemma NeighbourNumbers(cells: map<Pos, Token>, symbol: SymbolCell)
    ensures var d := Distinct(WindowNumbers(cells, Neighbourhood(symbol)));
      && NoDuplicates(Ids(d))
      && (forall u :: u in d ==> u.Number? && exists p: Pos :: Adjacent(p, symbol) && Cell(cells, p) == u)
      && (forall p: Pos :: Adjacent(p, symbol) && Cell(cells, p).Number? ==> Cell(cells, p).id in Ids(d))
  {
    var w := Neighbourhood(symbol);
    var t := WindowNumbers(cells, w);
    DistinctMeans(t);
    forall u | u in Distinct(t)
      ensures u.Number? && exists p: Pos :: Adjacent(p, symbol) && Cell(cells, p) == u
    {
      WindowNumbersMeans(cells, w, u);
    }
    forall p: Pos | Adjacent(p, symbol) && Cell(cells, p).Number?
      ensures Cell(cells, p).id in Ids(Distinct(t))
    {
      WindowNumbersMeans(cells, w, Cell(cells, p));
    }
  }

  /**
   * The window quirk on one line: for the input `"\n*.5"` the matrix is 4 rows by 1 column,
   * the gear sits at row 1 whose index equals the number of columns, so the window reaches
   * to column 4 and takes in the 5 two columns away, which the neighbourhood leaves out.
   */
  lemma WindowQuirk()
    ensures EngineSchematic.InputSize("\n*.5") == Some((4, 1))
    ensures Lines("\n*.5") == ["", "*.5"]
    ensures var symbol := SymbolCell((1, 0), true);
      var cells := LayoutOf(["", "*.5"], 2).cells;
      && Cell(cells, (1, 0)) == Symbol(true)
      && Values(Distinct(WindowNumbers(cells, Window(symbol, 4, 1)))) == [5]
      && Values(Distinct(WindowNumbers(cells, Neighbourhood(symbol)))) == []
  {
    QuirkInput();
    QuirkLayout();
    QuirkScan();
  }

  lemma QuirkInput()
    ensures EngineSchematic.InputSize("\n*.5") == Some((4, 1))
    ensures Lines("\n*.5") == ["", "*.5"]
  {
    QuirkTrim();
    QuirkLine();
    QuirkLines();
  }

  lemma QuirkTrim()
    ensures Trim("\n*.5") == "*.5"
  {
    var s := "\n*.5";
    assert s[1..] == "*.5";
    assert !IsWhitespace('*') && !IsWhitespace('5');
    assert TrimStart(s[1..]) == "*.5";
    assert TrimEnd("*.5") == "*.5";
  }

  lemma QuirkLine()
    ensures Lines("*.5") == ["*.5"]
  {
    QuirkSplitLine();
    assert StripCarriageReturn("*.5") == "*.5";
  }

  lemma QuirkSplitLine()
    ensures Split("*.5", "\n") == ["*.5"]
  {
    var t := "*.5";
    assert t[2..3][0] == '5' && FindFrom(t, "\n", 2) == 3;
    assert t[1..2][0] == '.' && FindFrom(t, "\n", 1) == 3;
    assert t[0..1][0] == '*' && FindFrom(t, "\n", 0) == 3;
  }

  lemma QuirkLines()
    ensures Lines("\n*.5") == ["", "*.5"]
  {
    var s := "\n*.5";
    QuirkSplitLine();
    assert FindFrom(s, "\n", 0) == 0;
    assert s[..0] == [] && s[1..] == "*.5";
    assert Split(s, "\n") == [[]] + Split("*.5", "\n");
    assert StripCarriageReturn([]) == [] && StripCarriageReturn("*.5") == "*.5";
  }

  lemma QuirkTokens()
    ensures Tokens("*.5", 0, 0) == [Symbol(true), Empty, Number(0, 5, 1)]
  {
    var line := "*.5";
    assert RunEnd(line, 2) == 3;
    assert line[2..3] == ['5'];
    assert DigitsValue(['5']) == 5;
    assert Tokens(line, 2, 0) == [Number(0, 5, 1)];
  }

  lemma QuirkLayout()
    ensures LayoutOf(["", "*.5"], 2).cells == map[(1, 0) := Symbol(true), (1, 2) := Number(0, 5, 1)]
  {
    var lines := ["", "*.5"];
    QuirkFirstLine(lines);
    QuirkRow();
    LayoutSecond(lines, LayoutOf(lines, 1));
    EmptyUnion(RowCells(1, Expand(Tokens("*.5", 0, 0))));
  }

  lemma LayoutSecond(lines: seq<string>, l: Layout)
    requires |lines| == 2 && LayoutOf(lines, 1) == l
    ensures LayoutOf(lines, 2).cells == l.cells + RowCells(1, Expand(Tokens(lines[1], 0, l.nextId)))
  {
  }

  lemma EmptyUnion(m: map<Pos, Token>)
    ensures map[] + m == m
  {
  }

  lemma QuirkFirstLine(lines: seq<string>)
    requires lines == ["", "*.5"]
    ensures LayoutOf(lines, 1) == Layout(map[], 0)
  {
    assert Tokens(lines[0], 0, 0) == [];
    assert RowCells(0, Expand([])) == map[];
  }

  lemma QuirkRow()
    ensures RowCells(1, Expand(Tokens("*.5", 0, 0))) == map[(1, 0) := Symbol(true), (1, 2) := Number(0, 5, 1)]
  {
    QuirkTokens();
    var t := [Symbol(true), Empty, Number(0, 5, 1)];
    assert Expand(t[2..]) == [Number(0, 5, 1)];
    assert Expand(t[1..]) == [Empty, Number(0, 5, 1)];
    assert Expand(t) == t;
    assert t[..2][..1] == t[..1] && t[..1][..0] == [];
    assert RowCells(1, t[..1]) == map[(1, 0) := Symbol(true)];
    assert RowCells(1, t[..2]) == map[(1, 0) := Symbol(true)];
  }

  lemma QuirkScan()
    ensures var symbol := SymbolCell((1, 0), true);
      var cells := map[(1, 0) := Symbol(true), (1, 2) := Number(0, 5, 1)];
      && Cell(cells, (1, 0)) == Symbol(true)
      && Values(Distinct(WindowNumbers(cells, Window(symbol, 4, 1)))) == [5]
      && Values(Distinct(WindowNumbers(cells, Neighbourhood(symbol)))) == []
  {
    var cells := map[(1, 0) := Symbol(true), (1, 2) := Number(0, 5, 1)];
    var symbol := SymbolCell((1, 0), true);
    assert Window(symbol, 4, 1) == Bounds(0, 1, 0, 4);
    assert Neighbourhood(symbol) == Bounds(0, 2, 0, 1);
    QuirkWindowScan();
    QuirkNeighbourScan();
  }

  /** The window of the quirk takes in the 5 two columns to the right of the gear. */
  lemma QuirkWindowScan()
    ensures Values(Distinct(WindowNumbers(map[(1, 0) := Symbol(true), (1, 2) := Number(0, 5, 1)], Bounds(0, 1, 0, 4)))) == [5]
  {
    var cells := map[(1, 0) := Symbol(true), (1, 2) := Number(0, 5, 1)];
    var n := Number(0, 5, 1);
    var w := Bounds(0, 1, 0, 4);
    assert ScanRow(cells, 0, 0, 5) == [];
    assert ScanRow(cells, 1, 0, 2) == [];
    assert ScanRow(cells, 1, 0, 5) == [n];
    assert ScanRows(cells, w, 1) == [];
    assert WindowNumbers(cells, w) == [n];
    assert Distinct([n]) == [n];
  }

  /** The neighbourhood of the quirk's gear holds no number. */
  lemma QuirkNeighbourScan()
    ensures Values(Distinct(WindowNumbers(map[(1, 0) := Symbol(true), (1, 2) := Number(0, 5, 1)], Bounds(0, 2, 0, 1)))) == []
  {
    var cells := map[(1, 0) := Symbol(true), (1, 2) := Number(0, 5, 1)];
    var v := Bounds(0, 2, 0, 1);
    assert ScanRow(cells, 0, 0, 2) == [];
    assert ScanRow(cells, 1, 0, 2) == [];
    assert ScanRow(cells, 2, 0, 2) == [];
    assert ScanRows(cells, v, 2) == [];
    assert WindowNumbers(cells, v) == [];
  }

  /** The tokens of the line `617*..63..`, as `parse_line` gives them. */
  lemma ParseExample()
    ensures Tokens("617*..63..", 0, 0) ==
      [Number(0, 617, 3), Symbol(true), Empty, Empty, Number(1, 63, 2), Empty, Empty]
  {
    var line := "617*..63..";
    assert Tokens(line, 8, 2) == [Empty, Empty];
    assert RunEnd(line, 6) == 8 && line[6..8] == "63";
    assert DigitsValue("63") == 63 by { assert "63"[..1] == "6"; }
    assert Tokens(line, 6, 1) == [Number(1, 63, 2), Empty, Empty];
    assert Tokens(line, 3, 1) == [Symbol(true), Empty, Empty, Number(1, 63, 2), Empty, Empty];
    assert RunEnd(line, 0) == 3 && line[0..3] == "617";
    assert DigitsValue("617") == 617 by { assert "617"[..2] == "61" && "61"[..1] == "6"; }
  }

  /** Two symbols on the diagonal of a 2 by 2 matrix, found in scan order. */
  lemma SymbolsExample()
    ensures SymbolsOf(map[(0, 0) := Symbol(false), (1, 1) := Symbol(false)], 2, 2) ==
      [SymbolCell((0, 0), false), SymbolCell((1, 1), false)]
  {
    var cells := map[(0, 0) := Symbol(false), (1, 1) := Symbol(false)];
    assert RowSymbols(cells, 0, 2) == [SymbolCell((0, 0), false)];
    assert RowSymbols(cells, 1, 1) == [];
    assert RowSymbols(cells, 1, 2) == [SymbolCell((1, 1), false)];
  }

  /** A symbol in the middle of a 3 by 3 matrix: `12` over two cells counts once, then `3`. */
  lemma AdjacentExample()
    ensures var cells := map[(1, 1) := Symbol(false), (0, 0) := Number(0, 12, 2),
                             (1, 0) := Number(0, 12, 2), (2, 1) := Number(1, 3, 1)];
      Values(Distinct(WindowNumbers(cells, Window(SymbolCell((1, 1), false), 3, 3)))) == [12, 3]
  {
    var cells := map[(1, 1) := Symbol(false), (0, 0) := Number(0, 12, 2),
                     (1, 0) := Number(0, 12, 2), (2, 1) := Number(1, 3, 1)];
    AdjacentExampleScan();
    assert Window(SymbolCell((1, 1), false), 3, 3) == Bounds(0, 2, 0, 2);
    AdjacentExampleDistinct();
  }

  lemma AdjacentExampleDistinct()
    ensures Values(Distinct([Number(0, 12, 2), Number(0, 12, 2), Number(1, 3, 1)])) == [12, 3]
  {
    DistinctRepeat(Number(0, 12, 2), Number(1, 3, 1));
  }

  /** A number met twice and then a number with another id: both are kept once. */
  lemma DistinctRepeat(a: Token, b: Token)
    requires a.Number? && b.Number? && a.id != b.id
    ensures Values(Distinct([a, a, b])) == [a.value, b.value]
  {
    var none: seq<Token> := [];
    DistinctStep(none, a);
    assert [a] == none + [a];
    DistinctStep([a], a);
    assert [a, a] == [a] + [a];
    DistinctStep([a, a], b);
    assert [a, a, b] == [a, a] + [b];
  }

  lemma AdjacentExampleScan()
    ensures var cells := map[(1, 1) := Symbol(false), (0, 0) := Number(0, 12, 2),
                             (1, 0) := Number(0, 12, 2), (2, 1) := Number(1, 3, 1)];
      WindowNumbers(cells, Bounds(0, 2, 0, 2)) == [Number(0, 12, 2), Number(0, 12, 2), Number(1, 3, 1)]
  {
    var cells := map[(1, 1) := Symbol(false), (0, 0) := Number(0, 12, 2),
                     (1, 0) := Number(0, 12, 2), (2, 1) := Number(1, 3, 1)];
    var a, b := Number(0, 12, 2), Number(1, 3, 1);
    var w := Bounds(0, 2, 0, 2);
    assert ScanRow(cells, 0, 0, 3) == [a];
    assert ScanRow(cells, 1, 0, 3) == [a];
    assert ScanRow(cells, 2, 0, 1) == [];
    assert ScanRow(cells, 2, 0, 3) == [b];
    assert ScanRows(cells, w, 2) == [a, a];
  }
}

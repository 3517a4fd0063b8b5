/**
  The screen buffer: a grid of cells cut from a text template, into which
  smaller grids (the board, the shop) are stamped.

  The template is a parameter here; the source embeds it at compile time.
 */
module UiDisplay {
  import opened Wrappers
  import opened SeqUtil
  import opened Ui

  /** The display: its size (row width, row count), its cells, and the board size the template leaves room for. */
  datatype Display = Display(displaySize: (nat, nat), display: Grid<string>, boardSize: (nat, nat))

  /** The ways the source's template parsing panics. */
  datatype TemplateError =
    | NoNewline            // the part before `#` has no newline
    | NoSecondPlus         // the part before `#` has fewer than two `+`
    | BoardSideUnderflow   // the second `+` sits at byte offset 1, so `offset / 2 - 1` underflows

  // ------------------------------------------------------- string scanning

  /** `chars().take_while(|&c| c != stop)`: the longest prefix of `s` without `stop`. */
  function TakeWhileNot(s: string, stop: char): (r: string)
    ensures |r| <= |s| && r == s[..|r|]
    ensures stop !in r
    ensures |r| < |s| ==> s[|r|] == stop
  {
    if |s| == 0 || s[0] == stop then [] else [s[0]] + TakeWhileNot(s[1..], stop)
  }

  /** `chars().position(|x| x == c)`: the index of the first `c`. */
  function Position(s: string, c: char): (r: Option<nat>)
    ensures r.None? <==> c !in s
    ensures r.Some? ==> r.value < |s| && s[r.value] == c && c !in s[..r.value]
  {
    if |s| == 0 then None
    else if s[0] == c then Some(0)
    else
      match Position(s[1..], c)
      case None => None
      case Some(i) =>
        assert s[..i + 1] == [s[0]] + s[1..][..i];
        Some(i + 1)
  }

  /** The index of the second `c` in `s`. */
  function SecondPosition(s: string, c: char): (r: Option<nat>)
    ensures r.None? <==> (Position(s, c).None? || c !in s[Position(s, c).value + 1..])
    ensures r.Some? ==>
      && Position(s, c).Some? && Position(s, c).value < r.value < |s|
      && s[r.value] == c && c !in s[Position(s, c).value + 1..r.value]
  {
    match Position(s, c)
    case None => None
    case Some(first) =>
      match Position(s[first + 1..], c)
      case None => None
      case Some(k) =>
        assert s[first + 1..][..k] == s[first + 1..first + 1 + k];
        Some(first + 1 + k)
  }

  /** The number of bytes UTF-8 needs for a character. */
  function Utf8Length(c: char): nat
  {
    if c as int < 0x80 then 1 else if c as int < 0x800 then 2 else if c as int < 0x10000 then 3 else 4
  }

  /** The byte offset of character `i` of `s` (what `char_indices` reports). */
  function ByteOffset(s: string, i: nat): (r: nat)
    requires i <= |s|
    ensures r >= i
  {
    if i == 0 then 0 else ByteOffset(s, i - 1) + Utf8Length(s[i - 1])
  }

  /** In an ASCII string byte offsets are character indices. */
  lemma {:induction false} AsciiByteOffset(s: string, i: nat)
    requires i <= |s|
    requires forall k :: 0 <= k < |s| ==> s[k] as int < 0x80
    ensures ByteOffset(s, i) == i
    decreases i
  {
    if i > 0 {
      AsciiByteOffset(s, i - 1);
    }
  }

  // ------------------------------------------------------------- Display

  /**
    `Display::new`: keeps the template up to its first `#`; the row width is
    the index of the first newline plus one, the row count the number of
    newlines; the board side is the byte offset of the second `+`, halved,
    minus one; and the cells are that prefix cut into rows of the width.
   */
  function New(template: string): (r: Result<Display, TemplateError>)
    ensures var prefix := TakeWhileNot(template, '#');
      && (r == Failure(NoNewline) <==> '\n' !in prefix)
      && ('\n' in prefix ==>
            (r == Failure(NoSecondPlus) <==> SecondPosition(prefix, '+').None?))
      && (r.Success? ==>
            var width := r.value.displaySize.0;
            var d := r.value;
            && 0 < width <= |prefix| && prefix[width - 1] == '\n' && '\n' !in prefix[..width - 1]
            && d.displaySize.1 == Count(prefix, '\n')
            && Concat(Concat(d.display)) == prefix
            && (forall i :: 0 <= i < |d.display| - 1 ==> |d.display[i]| == width)
            && d.display == ToGrid(prefix, width)
            && d.boardSize.0 == d.boardSize.1
            && SecondPosition(prefix, '+').Some?
            && var offset := ByteOffset(prefix, SecondPosition(prefix, '+').value);
               2 * (d.boardSize.0 + 1) <= offset < 2 * (d.boardSize.0 + 2))
  {
    var prefix := TakeWhileNot(template, '#');
    match Position(prefix, '\n')
    case None => Failure(NoNewline)
    case Some(newline) =>
      var displaySize := (newline + 1, Count(prefix, '\n'));
      match SecondPosition(prefix, '+')
      case None => Failure(NoSecondPlus)
      case Some(second) =>
        var offset := ByteOffset(prefix, second);
        if offset / 2 == 0 then Failure(BoardSideUnderflow)
        else
          var boardLength := offset / 2 - 1;
          Success(Display(displaySize, ToGrid(prefix, displaySize.0), (boardLength, boardLength)))
  }

  /** The underflow can only happen when the second `+` is at byte offset 1, right after the first. */
  lemma UnderflowOnlyAtOffsetOne(template: string)
    requires New(template) == Failure(BoardSideUnderflow)
    ensures var prefix := TakeWhileNot(template, '#');
      SecondPosition(prefix, '+') == Some(1) && prefix[0] == '+'
  {
    var prefix := TakeWhileNot(template, '#');
    var second := SecondPosition(prefix, '+').value;
    assert ByteOffset(prefix, second) < 2;
    assert second == 1;
  }

  /** A display built from a template has at least one row, the one the first newline ends. */
  lemma NewHasRows(template: string)
    requires New(template).Success?
    ensures New(template).value.displaySize.1 > 0
  {
    var prefix := TakeWhileNot(template, '#');
    CountZero(prefix, '\n');
  }

  /** `board_size`: the (width, height) of the board the template leaves room for. */
  function BoardSize(d: Display): (r: (nat, nat))
    ensures r == d.boardSize
  {
    d.boardSize
  }

  /** A display built from a template has a square board. */
  lemma NewBoardIsSquare(template: string)
    requires New(template).Success?
    ensures BoardSize(New(template).value).0 == BoardSize(New(template).value).1
  {
  }

  // ------------------------------------------------------------- stamping

  /** The zip in `stamp_row`: the first cells take the row's strings, as far as both go. */
  function Overwrite(cells: seq<string>, row: seq<string>): (r: seq<string>)
    ensures |r| == |cells|
    ensures forall k :: 0 <= k < |r| ==> r[k] == if k < |row| then row[k] else cells[k]
  {
    if |cells| == 0 || |row| == 0 then cells else [row[0]] + Overwrite(cells[1..], row[1..])
  }

  /**
    One display row with `row` stamped from column `x`: cell `x + k` takes
    `row[k]` while both exist; the row keeps its length and its other cells.
   */
  function StampCells(cells: seq<string>, row: seq<string>, x: nat): (r: seq<string>)
    ensures |r| == |cells|
    ensures forall k :: 0 <= k < |r| ==> r[k] == if x <= k < x + |row| then row[k - x] else cells[k]
  {
    if x >= |cells| then cells else cells[..x] + Overwrite(cells[x..], row)
  }

  /**
    `Display::stamp_row`: stamps `row` into display row `start.1` from column
    `start.0`; it panics when that display row does not exist. Every other
    row and the sizes are unchanged.
   */
  function StampRow(d: Display, row: seq<string>, start: (nat, nat)): (r: Display)
    requires start.1 < |d.display|
    ensures r.displaySize == d.displaySize && r.boardSize == d.boardSize
    ensures |r.display| == |d.display|
    ensures forall i :: 0 <= i < |d.display| && i != start.1 ==> r.display[i] == d.display[i]
    ensures |r.display[start.1]| == |d.display[start.1]|
    ensures forall k :: 0 <= k < |d.display[start.1]| ==>
      r.display[start.1][k] == if start.0 <= k < start.0 + |row| then row[k - start.0] else d.display[start.1][k]
  {
    d.(display := d.display[start.1 := StampCells(d.display[start.1], row, start.0)])
  }

  /**
    `Display::stamp`: stamps the rows of `grid` one after another, row `i` at
    display row `topLeft.1 + i`. Since those rows are distinct, each display
    row is stamped at most once: rows outside the window are unchanged.
   */
  function Stamp(d: Display, grid: Grid<string>, topLeft: (nat, nat)): (r: Display)
    requires |grid| > 0 ==> topLeft.1 + |grid| <= |d.display|
    ensures r.displaySize == d.displaySize && r.boardSize == d.boardSize
    ensures |r.display| == |d.display|
    ensures forall i :: 0 <= i < |d.display| && !(topLeft.1 <= i < topLeft.1 + |grid|) ==>
      r.display[i] == d.display[i]
    ensures forall i :: 0 <= i < |grid| ==>
      r.display[topLeft.1 + i] == StampCells(d.display[topLeft.1 + i], grid[i], topLeft.0)
    decreases |grid|
  {
    if |grid| == 0 then d
    else
      var d1 := StampRow(d, grid[0], topLeft);
      assert d1.display[topLeft.1] == StampCells(d.display[topLeft.1], grid[0], topLeft.0);
      var r := Stamp(d1, grid[1..], (topLeft.0, topLeft.1 + 1));
      assert forall i :: 1 <= i < |grid| ==> grid[1..][i - 1] == grid[i];
      r
  }

  // ------------------------------------------------------------ rendering

  /**
    `Display::to_string`: each row's cells joined, then the rows joined;
    that is every cell of every row, in order.
   */
  function ToString(d: Display): (r: string)
    ensures r == Concat(Concat(d.display))
  {
    RowStringsConcat(d.display);
    Concat(RowStrings(d.display))
  }

  function RowStrings(g: Grid<string>): (r: seq<string>)
    ensures |r| == |g|
    ensures forall i :: 0 <= i < |g| ==> r[i] == Concat(g[i])
  {
    seq(|g|, i requires 0 <= i < |g| => Concat(g[i]))
  }

  lemma {:induction false} RowStringsConcat(g: Grid<string>)
    ensures Concat(RowStrings(g)) == Concat(Concat(g))
    decreases |g|
  {
    if |g| > 0 {
      RowStringsConcat(g[1..]);
      assert RowStrings(g)[1..] == RowStrings(g[1..]);
      ConcatAppend(g[0], Concat(g[1..]));
    }
  }

  /** Rendering a freshly built display gives back the template up to its first `#`. */
  lemma NewToString(template: string)
    requires New(template).Success?
    ensures ToString(New(template).value) == TakeWhileNot(template, '#')
  {
  }
}

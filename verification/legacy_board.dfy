/**
  The older board with `u8` coordinates and an `i8` cursor step.

  Flowers are an opaque type `F`. The flower context the source stores in
  the board is used only for printing, which is not modelled.
 */
module LegacyBoard {
  import opened Wrappers
  import opened SeqUtil
  import opened Ui

  type I8 = x: int | -128 <= x < 128

  /** The board (row `y`, column `x`), its size (width, height) and the cursor position (x, y). */
  datatype Board<F> = Board(board: Grid<Option<F>>, boardSize: (U8, U8), cursorPos: (U8, U8))

  /** `u as i8`: the same eight bits read as a two's-complement number. */
  function AsI8(u: U8): (r: I8)
    ensures (r - u) % 256 == 0
  {
    if u < 128 then u else u - 256
  }

  predicate WellShaped<F>(b: Board<F>)
  {
    && |b.board| == b.boardSize.1
    && forall y :: 0 <= y < |b.board| ==> |b.board[y]| == b.boardSize.0
  }

  predicate InBounds<F>(b: Board<F>, x: U8, y: U8)
  {
    y < |b.board| && x < |b.board[y]|
  }

  /** `Board::new`: `None` for a zero dimension, otherwise an empty board with the cursor at (0, 0). */
  function New<F>(width: U8, height: U8): (r: Option<Board<F>>)
    ensures r.None? <==> width == 0 || height == 0
    ensures r.Some? ==> WellShaped(r.value) && r.value.boardSize == (width, height) && r.value.cursorPos == (0, 0)
    ensures r.Some? ==> forall y, x :: 0 <= y < height && 0 <= x < width ==> r.value.board[y][x] == None
  {
    if width == 0 || height == 0 then None
    else
      var emptyRow: seq<Option<F>> := seq(width, _ => None);
      Some(Board(seq(height, _ => emptyRow), (width, height), (0, 0)))
  }

  /** `get_flower`: the cell at (x, y), or `None` off the board. */
  function GetFlower<F>(b: Board<F>, x: U8, y: U8): (r: Option<Option<F>>)
    ensures r.None? <==> !InBounds(b, x, y)
    ensures r.Some? ==> r.value == b.board[y][x]
  {
    if y < |b.board| && x < |b.board[y]| then Some(b.board[y][x]) else None
  }

  /** `set_flower`: overwrites the cell at (x, y); off the board it does nothing. */
  function SetFlower<F>(b: Board<F>, x: U8, y: U8, flower: Option<F>): (r: Board<F>)
    ensures r.boardSize == b.boardSize && r.cursorPos == b.cursorPos
    ensures |r.board| == |b.board|
    ensures forall j :: 0 <= j < |b.board| ==> |r.board[j]| == |b.board[j]|
    ensures forall j, i :: 0 <= j < |b.board| && 0 <= i < |b.board[j]| ==>
      r.board[j][i] == if (i, j) == (x, y) then flower else b.board[j][i]
    ensures !InBounds(b, x, y) ==> r == b
  {
    if InBounds(b, x, y) then b.(board := b.board[y := b.board[y][x := flower]]) else b
  }

  /** Reading a cell after writing one sees the write exactly at the written position. */
  lemma GetAfterSet<F>(b: Board<F>, x: U8, y: U8, x': U8, y': U8, flower: Option<F>)
    ensures GetFlower(SetFlower(b, x, y, flower), x', y') ==
      if (x, y) == (x', y') && InBounds(b, x, y) then Some(flower) else GetFlower(b, x', y')
  {
  }

  /** `set_cursor`: stores the position as given, on the board or not. */
  function SetCursor<F>(b: Board<F>, pos: (U8, U8)): (r: Board<F>)
    ensures r.cursorPos == pos && r.board == b.board && r.boardSize == b.boardSize
  {
    b.(cursorPos := pos)
  }

  /**
    When `move_cursor` runs without an `i8` overflow panic: each dimension
    read as `i8`, minus one, must be a valid `clamp` bound (1..=127), and the
    cursor read as `i8` plus the step must stay within `i8`.
   */
  predicate MoveCursorDefined<F>(b: Board<F>, delta: (I8, I8))
  {
    && 1 <= b.boardSize.0 <= 127 && 1 <= b.boardSize.1 <= 127
    && -128 <= AsI8(b.cursorPos.0) + delta.0 < 128
    && -128 <= AsI8(b.cursorPos.1) + delta.1 < 128
  }

  /**
    `move_cursor`: each coordinate, read as `i8`, moves by the step and is
    clamped to the board; the cursor always ends on the board.
   */
  function MoveCursor<F>(b: Board<F>, delta: (I8, I8)): (r: Board<F>)
    requires MoveCursorDefined(b, delta)
    ensures r.board == b.board && r.boardSize == b.boardSize
    ensures r.cursorPos.0 < b.boardSize.0 && r.cursorPos.1 < b.boardSize.1
    ensures r.cursorPos.0 == Clamp(AsI8(b.cursorPos.0) + delta.0, 0, b.boardSize.0 - 1)
    ensures r.cursorPos.1 == Clamp(AsI8(b.cursorPos.1) + delta.1, 0, b.boardSize.1 - 1)
  {
    var newX := Clamp(AsI8(b.cursorPos.0) + delta.0, 0, AsI8(b.boardSize.0) - 1);
    var newY := Clamp(AsI8(b.cursorPos.1) + delta.1, 0, AsI8(b.boardSize.1) - 1);
    b.(cursorPos := (newX, newY))
  }

  /** From a cursor on a board, `move_cursor` is the clamped step. */
  lemma MoveCursorOnBoard<F>(b: Board<F>, delta: (I8, I8))
    requires 1 <= b.boardSize.0 <= 127 && 1 <= b.boardSize.1 <= 127
    requires b.cursorPos.0 < b.boardSize.0 && b.cursorPos.1 < b.boardSize.1
    requires b.cursorPos.0 + delta.0 < 128 && b.cursorPos.1 + delta.1 < 128
    ensures MoveCursorDefined(b, delta)
    ensures MoveCursor(b, delta).cursorPos ==
      (Clamp(b.cursorPos.0 + delta.0, 0, b.boardSize.0 - 1), Clamp(b.cursorPos.1 + delta.1, 0, b.boardSize.1 - 1))
  {
  }

  /**
    A cursor parked past column 127 by `set_cursor` reads as a negative
    `i8`, so a step to the right sends it to column 0.
   */
  lemma MoveAfterFarSetCursor<F>(b: Board<F>)
    requires b.boardSize == (5, 5)
    ensures MoveCursor(SetCursor(b, (200, 0)), (1, 0)).cursorPos == (0, 0)
  {
  }
}

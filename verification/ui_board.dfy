/**
  The planting board of the UI: a grid of optional flowers with a cursor.

  Flowers are an opaque type `F`; how a flower renders itself is the
  parameter `render`.
 */
module UiBoard {
  import opened Wrappers
  import opened SeqUtil
  import opened Ui
  import Terminal

  /** The board (row `y`, column `x`), its size (width, height) and the cursor position (x, y). */
  datatype Board<F> = Board(board: Grid<Option<F>>, boardSize: (nat, nat), cursorPos: (nat, nat))

  /** The board has `boardSize.1` rows of `boardSize.0` cells. */
  predicate WellShaped<F>(b: Board<F>)
  {
    && |b.board| == b.boardSize.1
    && forall y :: 0 <= y < |b.board| ==> |b.board[y]| == b.boardSize.0
  }

  predicate InBounds<F>(b: Board<F>, pos: (nat, nat))
  {
    pos.1 < |b.board| && pos.0 < |b.board[pos.1]|
  }

  /** The cursor lies on the board. */
  predicate CursorOnBoard<F>(b: Board<F>)
  {
    b.cursorPos.0 < b.boardSize.0 && b.cursorPos.1 < b.boardSize.1
  }

  /** Background colour 236 marks the cell under the cursor. */
  function SelectedBlueprint(): (r: Terminal.TextBlueprint)
    ensures r.textColor.None? && r.effects == []
    ensures r.backgroundColor == Some(Terminal.FromCode(236))
  {
    Terminal.WithBackgroundColor(Terminal.NewBlueprint(), Terminal.FromCode(236))
  }

  /**
    `Board::new`: `None` for a zero width or height; otherwise `height` rows
    of `width` empty cells with the cursor in the corner.
   */
  function New<F>(size: (nat, nat)): (r: Option<Board<F>>)
    ensures r.None? <==> size.0 == 0 || size.1 == 0
    ensures r.Some? ==> WellShaped(r.value) && r.value.boardSize == size
    ensures r.Some? ==> r.value.cursorPos == (0, 0) && CursorOnBoard(r.value)
    ensures r.Some? ==> forall y, x :: 0 <= y < size.1 && 0 <= x < size.0 ==> r.value.board[y][x] == None
  {
    if size.0 == 0 || size.1 == 0 then None
    else
      var (width, height) := size;
      var emptyRow: seq<Option<F>> := seq(width, _ => None);
      Some(Board(seq(height, _ => emptyRow), size, (0, 0)))
  }

  /** `get_flower`: the cell at `pos`, or `None` when `pos` is off the board. */
  function GetFlower<F>(b: Board<F>, pos: (nat, nat)): (r: Option<Option<F>>)
    ensures r.None? <==> !InBounds(b, pos)
    ensures r.Some? ==> r.value == b.board[pos.1][pos.0]
  {
    if pos.1 < |b.board| && pos.0 < |b.board[pos.1]| then Some(b.board[pos.1][pos.0]) else None
  }

  /** `set_flower`: overwrites the cell at `pos`; off the board it does nothing. */
  function SetFlower<F>(b: Board<F>, pos: (nat, nat), flower: Option<F>): (r: Board<F>)
    ensures r.boardSize == b.boardSize && r.cursorPos == b.cursorPos
    ensures |r.board| == |b.board|
    ensures forall y :: 0 <= y < |b.board| ==> |r.board[y]| == |b.board[y]|
    ensures forall y, x :: 0 <= y < |b.board| && 0 <= x < |b.board[y]| ==>
      r.board[y][x] == if (x, y) == pos then flower else b.board[y][x]
    ensures !InBounds(b, pos) ==> r == b
  {
    if InBounds(b, pos) then b.(board := b.board[pos.1 := b.board[pos.1][pos.0 := flower]]) else b
  }

  /** Reading a cell after writing one sees the write exactly at the written position. */
  lemma GetAfterSet<F>(b: Board<F>, p: (nat, nat), q: (nat, nat), flower: Option<F>)
    ensures GetFlower(SetFlower(b, p, flower), q) ==
      if p == q && InBounds(b, p) then Some(flower) else GetFlower(b, q)
  {
  }

  /** `set_flower_at_cursor`: `set_flower` at the cursor position. */
  function SetFlowerAtCursor<F>(b: Board<F>, flower: Option<F>): (r: Board<F>)
    ensures r == SetFlower(b, b.cursorPos, flower)
  {
    SetFlower(b, b.cursorPos, flower)
  }

  /**
    `move_cursor`: each coordinate moves by the delta and is clamped to the
    board; `clamp` panics on an empty dimension. The cells do not change.
   */
  function MoveCursor<F>(b: Board<F>, delta: (int, int)): (r: Board<F>)
    requires b.boardSize.0 > 0 && b.boardSize.1 > 0
    ensures r.board == b.board && r.boardSize == b.boardSize
    ensures CursorOnBoard(r)
    ensures r.cursorPos.0 == Clamp(b.cursorPos.0 + delta.0, 0, b.boardSize.0 - 1)
    ensures r.cursorPos.1 == Clamp(b.cursorPos.1 + delta.1, 0, b.boardSize.1 - 1)
  {
    var newX := Clamp(b.cursorPos.0 + delta.0, 0, b.boardSize.0 - 1);
    var newY := Clamp(b.cursorPos.1 + delta.1, 0, b.boardSize.1 - 1);
    b.(cursorPos := (newX, newY))
  }

  /** Moving from a cell by a step that stays on the board lands exactly on the target cell. */
  lemma MoveCursorWithinBoard<F>(b: Board<F>, delta: (int, int))
    requires b.boardSize.0 > 0 && b.boardSize.1 > 0
    requires 0 <= b.cursorPos.0 + delta.0 < b.boardSize.0
    requires 0 <= b.cursorPos.1 + delta.1 < b.boardSize.1
    ensures MoveCursor(b, delta).cursorPos == (b.cursorPos.0 + delta.0, b.cursorPos.1 + delta.1)
  {
  }

  /** `blank_flower`: an empty cell renders as `-` in grey 12 (palette index 244). */
  function BlankFlower(): (r: string)
    ensures r == Terminal.Csi + "38;5;244m-" + Terminal.Reset()
  {
    var grey := Terminal.FromGrayValue(12);
    var bp := Terminal.WithTextColor(Terminal.NewBlueprint(), grey.value);
    Terminal.TextColorOnlyAnsi(grey.value);
    assert Terminal.DecimalString(2) == "2";
    assert Terminal.DecimalString(24) == "2" + "4";
    assert Terminal.DecimalString(244) == "24" + "4";
    Terminal.Apply(bp, "-")
  }

  /**
    `flower_string`: the flower rendered (an empty cell as `BlankFlower`),
    wrapped in the selection blueprint exactly when `position` is the cursor.
   */
  function FlowerString<F>(b: Board<F>, f: Option<F>, position: (nat, nat), render: F -> string): (r: string)
    ensures var plain := if f.Some? then render(f.value) else BlankFlower();
      r == if position == b.cursorPos then Terminal.Apply(SelectedBlueprint(), plain) else plain
  {
    var unselected := if f.None? then BlankFlower() else render(f.value);
    if b.cursorPos == position then Terminal.Apply(SelectedBlueprint(), unselected) else unselected
  }

  /** The zip with an endless `" "` and the `[s2, s1]` flat map: a space before every cell. */
  function SpaceBefore(cells: seq<string>): (r: seq<string>)
    ensures |r| == 2 * |cells|
    ensures forall k :: 0 <= k < |cells| ==> r[2 * k] == " " && r[2 * k + 1] == cells[k]
  {
    if |cells| == 0 then []
    else
      var rest := SpaceBefore(cells[1..]);
      var r := [" ", cells[0]] + rest;
      forall k | 1 <= k < |cells|
        ensures r[2 * k] == " " && r[2 * k + 1] == cells[k]
      {
        assert r[2 * k] == rest[2 * (k - 1)] && r[2 * k + 1] == rest[2 * (k - 1) + 1];
      }
      r
  }

  /** The rendered cells of board row `y`, before spacing. */
  function RenderRow<F>(b: Board<F>, y: nat, render: F -> string): (r: seq<string>)
    requires y < |b.board|
    ensures |r| == |b.board[y]|
    ensures forall x :: 0 <= x < |r| ==> r[x] == FlowerString(b, b.board[y][x], (x, y), render)
  {
    seq(|b.board[y]|, x requires 0 <= x < |b.board[y]| => FlowerString(b, b.board[y][x], (x, y), render))
  }

  /**
    `Board::to_grid`: the rows top to bottom from the last board row to the
    first, each cell preceded by a space: output row `i` shows board row
    `h - 1 - i` as `[" ", c0, " ", c1, ...]`.
   */
  function ToGrid<F>(b: Board<F>, render: F -> string): (r: Grid<string>)
    ensures |r| == |b.board|
    ensures forall i :: 0 <= i < |r| ==> |r[i]| == 2 * |b.board[|b.board| - 1 - i]|
    ensures forall i, x :: 0 <= i < |r| && 0 <= x < |b.board[|b.board| - 1 - i]| ==>
      var y := |b.board| - 1 - i;
      r[i][2 * x] == " " && r[i][2 * x + 1] == FlowerString(b, b.board[y][x], (x, y), render)
  {
    var rows := seq(|b.board|, y requires 0 <= y < |b.board| => SpaceBefore(RenderRow(b, y, render)));
    var r := Reverse(rows);
    assert forall i :: 0 <= i < |r| ==> r[i] == SpaceBefore(RenderRow(b, |b.board| - 1 - i, render));
    r
  }
}

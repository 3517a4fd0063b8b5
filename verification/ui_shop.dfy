/**
  The seed shop of the UI: the seed rows of the flower catalogue, a cursor
  whose y axis points up the screen, and a two-row scrolling view.

  Flowers are an opaque type `F`; how a flower renders itself is the
  parameter `render`.
 */
module UiShop {
  import opened SeqUtil
  import opened Ui
  import opened Wrappers
  import Terminal
  import UiBoard

  /** The shop rows (the seed rows, last first), the size (width of row 0, row count) and the cursor (x, y). */
  datatype Shop<F> = Shop(shopGrid: Grid<F>, shopSize: (nat, nat), cursorPos: (nat, nat))

  /** The cursor names a cell of the shop. */
  predicate CursorInShop<F>(s: Shop<F>)
  {
    s.cursorPos.1 < |s.shopGrid| && s.cursorPos.0 < |s.shopGrid[s.cursorPos.1]|
  }

  /** Every row is as wide as `shopSize.0`, and there are `shopSize.1` rows. */
  predicate WellShaped<F>(s: Shop<F>)
  {
    && |s.shopGrid| == s.shopSize.1
    && forall y :: 0 <= y < |s.shopGrid| ==> |s.shopGrid[y]| == s.shopSize.0
  }

  /**
    `Shop::new`: the seed rows in reverse order, sized by the first of them;
    indexing row 0 panics when there are no seed rows.
   */
  function New<F>(seeds: Grid<F>): (r: Shop<F>)
    requires |seeds| > 0
    ensures |r.shopGrid| == |seeds|
    ensures forall y :: 0 <= y < |seeds| ==> r.shopGrid[y] == seeds[|seeds| - 1 - y]
    ensures r.shopSize == (|seeds[|seeds| - 1]|, |seeds|)
    ensures r.cursorPos == (0, 0)
  {
    var shopGrid := Reverse(seeds);
    Shop(shopGrid, (|shopGrid[0]|, |shopGrid|), (0, 0))
  }

  /** Seed rows of one width give a well-shaped shop, and then its cursor starts on a seed unless the rows are empty. */
  lemma NewWellShaped<F>(seeds: Grid<F>)
    requires |seeds| > 0
    requires forall y :: 0 <= y < |seeds| ==> |seeds[y]| == |seeds[0]|
    ensures WellShaped(New(seeds))
    ensures CursorInShop(New(seeds)) <==> |seeds[0]| > 0
  {
    var s := New(seeds);
    forall y | 0 <= y < |seeds|
      ensures |s.shopGrid[y]| == s.shopSize.0
    {
      assert s.shopGrid[y] == seeds[|seeds| - 1 - y];
    }
  }

  /**
    `move_cursor`: x moves by `delta.0` and y by minus `delta.1`, each clamped
    to the shop (`clamp` panics on an empty dimension): rows are stored last
    seed row first, so "up" is towards row 0.
   */
  function MoveCursor<F>(s: Shop<F>, delta: (int, int)): (r: Shop<F>)
    requires s.shopSize.0 > 0 && s.shopSize.1 > 0
    ensures r.shopGrid == s.shopGrid && r.shopSize == s.shopSize
    ensures r.cursorPos.0 < s.shopSize.0 && r.cursorPos.1 < s.shopSize.1
    ensures r.cursorPos.0 == Clamp(s.cursorPos.0 + delta.0, 0, s.shopSize.0 - 1)
    ensures r.cursorPos.1 == Clamp(s.cursorPos.1 - delta.1, 0, s.shopSize.1 - 1)
  {
    var newX := Clamp(s.cursorPos.0 + delta.0, 0, s.shopSize.0 - 1);
    var newY := Clamp(s.cursorPos.1 - delta.1, 0, s.shopSize.1 - 1);
    s.(cursorPos := (newX, newY))
  }

  /** In a well-shaped shop the cursor lands on a seed after any move. */
  lemma MoveCursorStaysInShop<F>(s: Shop<F>, delta: (int, int))
    requires s.shopSize.0 > 0 && s.shopSize.1 > 0
    requires WellShaped(s)
    ensures CursorInShop(MoveCursor(s, delta))
  {
  }

  /** A step up (`(0, 1)`) from a row other than the first moves to the row before it, in the same column. */
  lemma MoveUpIsPreviousRow<F>(s: Shop<F>)
    requires s.shopSize.0 > 0 && s.shopSize.1 > 0
    requires 0 < s.cursorPos.1 < s.shopSize.1 && s.cursorPos.0 < s.shopSize.0
    ensures MoveCursor(s, (0, 1)).cursorPos == (s.cursorPos.0, s.cursorPos.1 - 1)
  {
  }

  /** `selected_flower`: the seed under the cursor, or `None` when the cursor is off the shop. */
  function SelectedFlower<F>(s: Shop<F>): (r: Option<F>)
    ensures r.Some? <==> CursorInShop(s)
    ensures r.Some? ==> r.value == s.shopGrid[s.cursorPos.1][s.cursorPos.0]
  {
    if CursorInShop(s) then Some(s.shopGrid[s.cursorPos.1][s.cursorPos.0]) else None
  }

  /** A new shop offers the first seed of the last seed row. */
  lemma NewSelectsLastRowFirstSeed<F>(seeds: Grid<F>)
    requires |seeds| > 0 && |seeds[|seeds| - 1]| > 0
    ensures SelectedFlower(New(seeds)) == Some(seeds[|seeds| - 1][0])
  {
  }

  // ------------------------------------------------------------- rendering

  /** The first shown row: the cursor row, kept low enough that two rows fit when there are two. */
  function FirstRowIndex<F>(s: Shop<F>): (r: nat)
    requires |s.shopGrid| > 0
    ensures r < |s.shopGrid|
    ensures |s.shopGrid| >= 2 ==> r + 1 < |s.shopGrid|
  {
    Clamp(s.cursorPos.1, 0, if |s.shopGrid| >= 2 then |s.shopGrid| - 2 else 0)
  }

  /** How many shop rows the view shows. */
  function ShownRows<F>(s: Shop<F>): nat
  {
    if |s.shopGrid| >= 2 then 2 else 1
  }

  /** The view always includes the cursor row when the cursor is on a row. */
  lemma CursorRowShown<F>(s: Shop<F>)
    requires |s.shopGrid| > 0
    requires s.cursorPos.1 < |s.shopGrid|
    ensures FirstRowIndex(s) <= s.cursorPos.1 < FirstRowIndex(s) + ShownRows(s)
  {
  }

  /** The cell for seed (x, y): highlighted with the selection blueprint exactly when (x, y) is the cursor. */
  function RenderCell<F>(s: Shop<F>, x: nat, y: nat, render: F -> string): string
    requires y < |s.shopGrid| && x < |s.shopGrid[y]|
  {
    var plain := render(s.shopGrid[y][x]);
    if (x, y) == s.cursorPos then Terminal.Apply(UiBoard.SelectedBlueprint(), plain) else plain
  }

  function RenderRow<F>(s: Shop<F>, y: nat, render: F -> string): (r: seq<string>)
    requires y < |s.shopGrid|
    ensures |r| == |s.shopGrid[y]|
    ensures forall x :: 0 <= x < |r| ==> r[x] == RenderCell(s, x, y, render)
  {
    seq(|s.shopGrid[y]|, x requires 0 <= x < |s.shopGrid[y]| => RenderCell(s, x, y, render))
  }

  /** The zip with an endless `" "` and the `[s1, s2]` flat map: a space after every cell. */
  function SpaceAfter(cells: seq<string>): (r: seq<string>)
    ensures |r| == 2 * |cells|
    ensures forall k :: 0 <= k < |cells| ==> r[2 * k] == cells[k] && r[2 * k + 1] == " "
  {
    if |cells| == 0 then []
    else
      var rest := SpaceAfter(cells[1..]);
      var r := [cells[0], " "] + rest;
      forall k | 1 <= k < |cells|
        ensures r[2 * k] == cells[k] && r[2 * k + 1] == " "
      {
        assert r[2 * k] == rest[2 * (k - 1)] && r[2 * k + 1] == rest[2 * (k - 1) + 1];
      }
      r
  }

  /**
    Output row `out` shows shop row `y`: each seed's cell then a space, and,
    when `pad` is set, a trailing pair of spaces.
   */
  predicate ShowsRow<F>(out: seq<string>, s: Shop<F>, y: nat, pad: bool, render: F -> string)
    requires y < |s.shopGrid|
  {
    var w := |s.shopGrid[y]|;
    && |out| == 2 * (w + if pad then 1 else 0)
    && (forall x :: 0 <= x < w ==> out[2 * x] == RenderCell(s, x, y, render) && out[2 * x + 1] == " ")
    && (pad ==> out[2 * w] == " " && out[2 * w + 1] == " ")
  }

  /** Whether the rows are padded: the first shown row has fewer than four seeds. */
  predicate PadShop<F>(s: Shop<F>)
    requires |s.shopGrid| > 0
  {
    |s.shopGrid[FirstRowIndex(s)]| < 4
  }

  /** The padding step: one more blank cell when `pad` is set. */
  function PadRow(cells: seq<string>, pad: bool): seq<string>
  {
    if pad then cells + [" "] else cells
  }

  /** A rendered shop row, padded and spaced, shows that row. */
  lemma SpacedRowShows<F>(s: Shop<F>, y: nat, pad: bool, render: F -> string)
    requires y < |s.shopGrid|
    ensures ShowsRow(SpaceAfter(PadRow(RenderRow(s, y, render), pad)), s, y, pad, render)
  {
    var cells := RenderRow(s, y, render);
    var padded := PadRow(cells, pad);
    assert forall x :: 0 <= x < |cells| ==> padded[x] == cells[x];
  }

  /** The blank row: three blank cells, padded and spaced, all blank. */
  function BlankRow(pad: bool): (r: seq<string>)
    ensures |r| == 2 * (3 + if pad then 1 else 0)
    ensures forall k :: 0 <= k < |r| ==> r[k] == " "
  {
    var cells := PadRow(EmptyStringGrid((3, 1))[0], pad);
    assert forall k :: 0 <= k < |cells| ==> cells[k] == " ";
    SpaceAfter(cells)
  }

  /**
    `Shop::to_grid`: the shown rows with a blank row of three cells inserted
    after the first; every row gets one more blank cell when the first shown
    row has fewer than four seeds; then each cell is followed by a space.
   */
  function ToGrid<F>(s: Shop<F>, render: F -> string): (r: Grid<string>)
    requires |s.shopGrid| > 0
    ensures |r| == ShownRows(s) + 1
  {
    var f := FirstRowIndex(s);
    var pad := PadShop(s);
    var shown := seq(ShownRows(s), i requires 0 <= i < ShownRows(s) => PadRow(RenderRow(s, f + i, render), pad));
    var rows := [shown[0], PadRow(EmptyStringGrid((3, 1))[0], pad)] + shown[1..];
    seq(|rows|, i requires 0 <= i < |rows| => SpaceAfter(rows[i]))
  }

  /** Output row 0 of `to_grid` shows shop row `FirstRowIndex`. */
  lemma ToGridFirstRow<F>(s: Shop<F>, render: F -> string)
    requires |s.shopGrid| > 0
    ensures ShowsRow(ToGrid(s, render)[0], s, FirstRowIndex(s), PadShop(s), render)
  {
    var f := FirstRowIndex(s);
    assert ToGrid(s, render)[0] == SpaceAfter(PadRow(RenderRow(s, f, render), PadShop(s)));
    SpacedRowShows(s, f, PadShop(s), render);
  }

  /** Output row 1 of `to_grid` is the blank row. */
  lemma ToGridBlankRow<F>(s: Shop<F>, render: F -> string)
    requires |s.shopGrid| > 0
    ensures ToGrid(s, render)[1] == BlankRow(PadShop(s))
  {
  }

  /** With two or more shop rows, output row 2 of `to_grid` shows the shop row after the first shown one. */
  lemma ToGridSecondRow<F>(s: Shop<F>, render: F -> string)
    requires |s.shopGrid| >= 2
    ensures ShowsRow(ToGrid(s, render)[2], s, FirstRowIndex(s) + 1, PadShop(s), render)
  {
    var f := FirstRowIndex(s);
    assert ToGrid(s, render)[2] == SpaceAfter(PadRow(RenderRow(s, f + 1, render), PadShop(s)));
    SpacedRowShows(s, f + 1, PadShop(s), render);
  }
}

/**
  The game context: the display, the planting board, the seed shop and the
  key buffer, and the per-frame update that dispatches the pressed keys.

  The mutex around the key buffer, the input thread and the terminal
  refresh are not modelled; the flower catalogue enters only through the
  parameter `render`.
 */
module GameContext {
  import opened Wrappers
  import opened SeqUtil
  import Terminal
  import UiDisplay
  import UiBoard
  import UiShop

  datatype Context<F> = Context(
    display: UiDisplay.Display,
    board: UiBoard.Board<F>,
    shop: UiShop.Shop<F>,
    keys: Terminal.KeyStackInner)

  /**
    What the context the program builds guarantees and the key handlers
    rely on: both cursors' `clamp` bounds are valid, the shop has a row,
    and the display has room for the board below row 1 and for the shop
    view (at most three rows) below row 3.
   */
  predicate Ready<F>(c: Context<F>)
  {
    && c.board.boardSize.0 > 0 && c.board.boardSize.1 > 0
    && c.shop.shopSize.0 > 0 && c.shop.shopSize.1 > 0
    && |c.shop.shopGrid| > 0
    && 1 + |c.board.board| <= |c.display.display|
    && 6 <= |c.display.display|
  }

  /** The keys that act on the board: `w`, `a`, `s`, `d`, space and `c`. */
  predicate IsBoardKey(k: Terminal.Key)
  {
    k.Char? && k.c in {'w', 'a', 's', 'd', ' ', 'c'}
  }

  /** The keys that move the shop cursor: the four arrows. */
  predicate IsShopKey(k: Terminal.Key)
  {
    k.Up? || k.Down? || k.Left? || k.Right?
  }

  /**
    One step of `handle_keys`: `w`/`a`/`s`/`d` move the board cursor up,
    left, down and right; the arrows move the shop cursor the same ways;
    space plants the selected seed at the board cursor and `c` clears that
    cell; every other key does nothing.
   */
  function HandleKey<F>(c: Context<F>, key: Terminal.Key): (r: Context<F>)
    requires Ready(c)
    ensures Ready(r)
    ensures r.display == c.display && r.keys == c.keys
    ensures !IsShopKey(key) ==> r.shop == c.shop
    ensures !IsBoardKey(key) ==> r.board == c.board
    ensures r.board.board == c.board.board || key in {Terminal.Char(' '), Terminal.Char('c')}
    ensures UiBoard.CursorOnBoard(c.board) ==> UiBoard.CursorOnBoard(r.board)
    ensures key == Terminal.Char(' ') && UiBoard.InBounds(c.board, c.board.cursorPos) ==>
      UiBoard.GetFlower(r.board, c.board.cursorPos) == Some(UiShop.SelectedFlower(c.shop))
    ensures key == Terminal.Char('c') && UiBoard.InBounds(c.board, c.board.cursorPos) ==>
      UiBoard.GetFlower(r.board, c.board.cursorPos) == Some(None)
    ensures key == Terminal.Char('w') ==> r.board.cursorPos.1 == Clamp(c.board.cursorPos.1 + 1, 0, c.board.boardSize.1 - 1)
    ensures key == Terminal.Char('s') ==> r.board.cursorPos.1 == Clamp(c.board.cursorPos.1 - 1, 0, c.board.boardSize.1 - 1)
    ensures key == Terminal.Char('a') ==> r.board.cursorPos.0 == Clamp(c.board.cursorPos.0 - 1, 0, c.board.boardSize.0 - 1)
    ensures key == Terminal.Char('d') ==> r.board.cursorPos.0 == Clamp(c.board.cursorPos.0 + 1, 0, c.board.boardSize.0 - 1)
    ensures key == Terminal.Up ==> r.shop.cursorPos.1 == Clamp(c.shop.cursorPos.1 - 1, 0, c.shop.shopSize.1 - 1)
    ensures key == Terminal.Down ==> r.shop.cursorPos.1 == Clamp(c.shop.cursorPos.1 + 1, 0, c.shop.shopSize.1 - 1)
    ensures key == Terminal.Left ==> r.shop.cursorPos.0 == Clamp(c.shop.cursorPos.0 - 1, 0, c.shop.shopSize.0 - 1)
    ensures key == Terminal.Right ==> r.shop.cursorPos.0 == Clamp(c.shop.cursorPos.0 + 1, 0, c.shop.shopSize.0 - 1)
    ensures key in {Terminal.Char('w'), Terminal.Char('s')} ==>
      r.board.cursorPos.0 == Clamp(c.board.cursorPos.0, 0, c.board.boardSize.0 - 1)
    ensures key in {Terminal.Char('a'), Terminal.Char('d')} ==>
      r.board.cursorPos.1 == Clamp(c.board.cursorPos.1, 0, c.board.boardSize.1 - 1)
    ensures key in {Terminal.Char('w'), Terminal.Char('a'), Terminal.Char('s'), Terminal.Char('d')} ==>
      UiBoard.CursorOnBoard(r.board) && r.board.boardSize == c.board.boardSize
    ensures key in {Terminal.Up, Terminal.Down} ==>
      r.shop.cursorPos.0 == Clamp(c.shop.cursorPos.0, 0, c.shop.shopSize.0 - 1)
    ensures key in {Terminal.Left, Terminal.Right} ==>
      r.shop.cursorPos.1 == Clamp(c.shop.cursorPos.1, 0, c.shop.shopSize.1 - 1)
    ensures IsShopKey(key) ==>
      && r.shop.shopGrid == c.shop.shopGrid && r.shop.shopSize == c.shop.shopSize
      && r.shop.cursorPos.0 < c.shop.shopSize.0 && r.shop.cursorPos.1 < c.shop.shopSize.1
    ensures key in {Terminal.Char(' '), Terminal.Char('c')} ==>
      && r.board.cursorPos == c.board.cursorPos && r.board.boardSize == c.board.boardSize
      && (forall p :: p != c.board.cursorPos ==> UiBoard.GetFlower(r.board, p) == UiBoard.GetFlower(c.board, p))
    ensures key == Terminal.Char(' ') ==> r.board == UiBoard.SetFlowerAtCursor(c.board, UiShop.SelectedFlower(c.shop))
    ensures key == Terminal.Char('c') ==> r.board == UiBoard.SetFlowerAtCursor(c.board, None)
  {
    match key
    case Char('w') => c.(board := UiBoard.MoveCursor(c.board, (0, 1)))
    case Char('a') => c.(board := UiBoard.MoveCursor(c.board, (-1, 0)))
    case Char('s') => c.(board := UiBoard.MoveCursor(c.board, (0, -1)))
    case Char('d') => c.(board := UiBoard.MoveCursor(c.board, (1, 0)))
    case Up => c.(shop := UiShop.MoveCursor(c.shop, (0, 1)))
    case Left => c.(shop := UiShop.MoveCursor(c.shop, (-1, 0)))
    case Down => c.(shop := UiShop.MoveCursor(c.shop, (0, -1)))
    case Right => c.(shop := UiShop.MoveCursor(c.shop, (1, 0)))
    case Char(' ') => c.(board := UiBoard.SetFlowerAtCursor(c.board, UiShop.SelectedFlower(c.shop)))
    case Char('c') => c.(board := UiBoard.SetFlowerAtCursor(c.board, None))
    case _ => c
  }

  /** `handle_keys`: the keys dispatched one after another, oldest first. */
  function HandleKeys<F>(c: Context<F>, keys: seq<Terminal.Key>): (r: Context<F>)
    requires Ready(c)
    ensures Ready(r)
    ensures r.display == c.display && r.keys == c.keys
    ensures UiBoard.CursorOnBoard(c.board) ==> UiBoard.CursorOnBoard(r.board)
    decreases |keys|
  {
    if |keys| == 0 then c else HandleKeys(HandleKey(c, keys[0]), keys[1..])
  }

  /** Handling two batches of keys is handling the first, then the second. */
  lemma {:induction false} HandleKeysAppend<F>(c: Context<F>, k1: seq<Terminal.Key>, k2: seq<Terminal.Key>)
    requires Ready(c)
    ensures HandleKeys(c, k1 + k2) == HandleKeys(HandleKeys(c, k1), k2)
    decreases |k1|
  {
    if |k1| > 0 {
      assert (k1 + k2)[0] == k1[0] && (k1 + k2)[1..] == k1[1..] + k2;
      assert HandleKeys(c, k1 + k2) == HandleKeys(HandleKey(c, k1[0]), k1[1..] + k2);
      assert HandleKeys(c, k1) == HandleKeys(HandleKey(c, k1[0]), k1[1..]);
      HandleKeysAppend(HandleKey(c, k1[0]), k1[1..], k2);
    } else {
      assert k1 + k2 == k2;
    }
  }

  /** Keys that are not arrows leave the shop as it was. */
  lemma {:induction false} BoardKeysLeaveShop<F>(c: Context<F>, keys: seq<Terminal.Key>)
    requires Ready(c)
    requires forall i :: 0 <= i < |keys| ==> !IsShopKey(keys[i])
    ensures HandleKeys(c, keys).shop == c.shop
    decreases |keys|
  {
    if |keys| > 0 {
      BoardKeysLeaveShop(HandleKey(c, keys[0]), keys[1..]);
    }
  }

  /** Keys other than `w`, `a`, `s`, `d`, space and `c` leave the board as it was. */
  lemma {:induction false} ShopKeysLeaveBoard<F>(c: Context<F>, keys: seq<Terminal.Key>)
    requires Ready(c)
    requires forall i :: 0 <= i < |keys| ==> !IsBoardKey(keys[i])
    ensures HandleKeys(c, keys).board == c.board
    decreases |keys|
  {
    if |keys| > 0 {
      ShopKeysLeaveBoard(HandleKey(c, keys[0]), keys[1..]);
    }
  }

  /** Without space or `c`, the planted flowers stay as they were; only cursors move. */
  lemma {:induction false} MovesKeepPlanting<F>(c: Context<F>, keys: seq<Terminal.Key>)
    requires Ready(c)
    requires forall i :: 0 <= i < |keys| ==> keys[i] != Terminal.Char(' ') && keys[i] != Terminal.Char('c')
    ensures HandleKeys(c, keys).board.board == c.board.board
    decreases |keys|
  {
    if |keys| > 0 {
      MovesKeepPlanting(HandleKey(c, keys[0]), keys[1..]);
    }
  }

  /** The key buffer plays no part in handling keys. */
  lemma {:induction false} HandleKeysIgnoresBuffer<F>(c: Context<F>, keys: seq<Terminal.Key>, ks: Terminal.KeyStackInner)
    requires Ready(c)
    ensures HandleKeys(c.(keys := ks), keys) == HandleKeys(c, keys).(keys := ks)
    decreases |keys|
  {
    if |keys| > 0 {
      assert HandleKey(c.(keys := ks), keys[0]) == HandleKey(c, keys[0]).(keys := ks);
      HandleKeysIgnoresBuffer(HandleKey(c, keys[0]), keys[1..], ks);
    }
  }

  /**
    The redraw in `update`: the board stamped at (1, 1) and then the shop
    view at (22, 3). The display keeps its size, and only the board's rows
    (from row 1) and the shop's rows (3 to 5) can change: the template's
    other rows, row 0 among them, stay as they were.
   */
  function Redraw<F>(c: Context<F>, render: F -> string): (r: UiDisplay.Display)
    requires Ready(c)
    ensures r.displaySize == c.display.displaySize && r.boardSize == c.display.boardSize
    ensures |r.display| == |c.display.display|
    ensures forall i :: 0 <= i < |c.display.display| && !(1 <= i < 1 + |c.board.board|) && !(3 <= i < 6) ==>
      r.display[i] == c.display.display[i]
    ensures r == UiDisplay.Stamp(UiDisplay.Stamp(c.display, UiBoard.ToGrid(c.board, render), (1, 1)),
                                 UiShop.ToGrid(c.shop, render), (22, 3))
  {
    var boardGrid := UiBoard.ToGrid(c.board, render);
    var shopGrid := UiShop.ToGrid(c.shop, render);
    assert |boardGrid| == |c.board.board|;
    assert |shopGrid| <= 3;
    var d1 := UiDisplay.Stamp(c.display, boardGrid, (1, 1));
    UiDisplay.Stamp(d1, shopGrid, (22, 3))
  }

  /**
    `update`: when the key buffer says quit, reports `true` and touches
    nothing; otherwise it takes the pending keys and, if there were any,
    dispatches them and redraws, then reports `false`.
   */
  function Update<F>(c: Context<F>, render: F -> string): (r: (bool, Context<F>))
    requires Ready(c)
    ensures r.0 <==> Terminal.ShouldQuit(c.keys)
    ensures r.0 ==> r.1 == c
    ensures !r.0 ==> r.1.keys == Terminal.KeyStackInner([], false)
    ensures !r.0 ==> r.1.board == HandleKeys(c, c.keys.keys).board && r.1.shop == HandleKeys(c, c.keys.keys).shop
    ensures Ready(r.1)
    ensures |c.keys.keys| == 0 ==> r.1.display == c.display
    ensures !r.0 && |c.keys.keys| > 0 ==> r.1.display == Redraw(HandleKeys(c, c.keys.keys), render)
  {
    if Terminal.ShouldQuit(c.keys) then (true, c)
    else
      var (keys, rest) := Terminal.PollKeys(c.keys);
      var c1 := c.(keys := rest);
      HandleKeysIgnoresBuffer(c, keys, rest);
      if |keys| != 0 then
        var c2 := HandleKeys(c1, keys);
        (false, c2.(display := Redraw(c2, render)))
      else
        (false, c1)
  }

  /** Up then Down on the board (`w` then `s`) returns the cursor when there is a row above it. */
  lemma UpDownReturns<F>(c: Context<F>)
    requires Ready(c) && UiBoard.CursorOnBoard(c.board)
    requires c.board.cursorPos.1 + 1 < c.board.boardSize.1
    ensures HandleKeys(c, [Terminal.Char('w'), Terminal.Char('s')]).board == c.board
  {
    var c1 := HandleKey(c, Terminal.Char('w'));
    assert HandleKeys(c, [Terminal.Char('w'), Terminal.Char('s')]) == HandleKeys(c1, [Terminal.Char('s')]);
  }

  /** In the shop, Down then Up returns the cursor when there is a row after it. */
  lemma ShopDownUpReturns<F>(c: Context<F>)
    requires Ready(c) && UiShop.CursorInShop(c.shop) && UiShop.WellShaped(c.shop)
    requires c.shop.cursorPos.1 + 1 < c.shop.shopSize.1
    ensures HandleKeys(c, [Terminal.Down, Terminal.Up]).shop == c.shop
  {
    var c1 := HandleKey(c, Terminal.Down);
    assert HandleKeys(c, [Terminal.Down, Terminal.Up]) == HandleKeys(c1, [Terminal.Up]);
  }

  /** Right after an update that did not quit, another update finds no keys and changes nothing. */
  lemma UpdateSettles<F>(c: Context<F>, render: F -> string)
    requires Ready(c) && !Terminal.ShouldQuit(c.keys)
    ensures Update(Update(c, render).1, render) == (false, Update(c, render).1)
  {
  }
}

/** Grids of display cells: cutting a string into rows of one-character cells. */
module Ui {
  import opened SeqUtil

  /** `Grid<T>`: rows of cells. */
  type Grid<T> = seq<seq<T>>

  /** Every character of `cs` as its own one-character string (`chunks(1)`). */
  function Cells(cs: string): (r: seq<string>)
    ensures |r| == |cs|
    ensures forall i :: 0 <= i < |cs| ==> r[i] == [cs[i]]
    ensures Concat(r) == cs
  {
    if |cs| == 0 then [] else [[cs[0]]] + Cells(cs[1..])
  }

  /**
    `to_grid`: the characters of `s` in rows of `rowLength` one-character
    cells, the last row holding the remainder; `chunks(0)` panics, so
    `rowLength` is positive. Reading the cells back in row order gives `s`.
   */
  function ToGrid(s: string, rowLength: nat): (r: Grid<string>)
    requires rowLength > 0
    ensures Concat(Concat(r)) == s
    ensures forall i :: 0 <= i < |r| ==> forall j :: 0 <= j < |r[i]| ==> |r[i][j]| == 1
    ensures forall i :: 0 <= i < |r| - 1 ==> |r[i]| == rowLength
    ensures |r| > 0 ==> 0 < |r[|r| - 1]| <= rowLength
    ensures |r| == 0 <==> |s| == 0
    ensures CellsOf(r, s, rowLength)
    decreases |s|
  {
    if |s| == 0 then []
    else if |s| <= rowLength then
      assert [Cells(s)][1..] == [];
      assert Concat([Cells(s)]) == Cells(s);
      [Cells(s)]
    else
      var first := Cells(s[..rowLength]);
      var rest := ToGrid(s[rowLength..], rowLength);
      ConcatAppend([first], rest);
      ConcatAppend(first, Concat(rest));
      assert s == s[..rowLength] + s[rowLength..];
      CellsShift(s, rowLength, first, rest);
      [first] + rest
  }

  /** Cell `j` of row `i` of `g` holds character `i * k + j` of `s`. */
  predicate CellsOf(g: Grid<string>, s: string, k: nat)
  {
    forall i, j :: 0 <= i < |g| && 0 <= j < |g[i]| ==> CellAt(g, s, k, i, j)
  }

  predicate CellAt(g: Grid<string>, s: string, k: nat, i: nat, j: nat)
    requires i < |g| && j < |g[i]|
  {
    i * k + j < |s| && g[i][j] == [s[i * k + j]]
  }

  /** Putting the first row in front of the rows of the rest of the string shifts each of them down by one row. */
  lemma CellsShift(s: string, k: nat, first: seq<string>, rest: Grid<string>)
    requires 0 < k < |s|
    requires first == Cells(s[..k])
    requires CellsOf(rest, s[k..], k)
    ensures CellsOf([first] + rest, s, k)
  {
    var r := [first] + rest;
    forall i, j | 0 <= i < |r| && 0 <= j < |r[i]|
      ensures CellAt(r, s, k, i, j)
    {
      if i == 0 {
        assert r[i][j] == [s[..k][j]];
      } else {
        assert r[i] == rest[i - 1];
        assert CellAt(rest, s[k..], k, i - 1, j);
        assert (i - 1) * k + j + k == i * k + j;
      }
    }
  }

  /** `empty_string_grid((w, h))`: `h` rows of `w` cells, each a single space. */
  function EmptyStringGrid(size: (nat, nat)): (r: Grid<string>)
    ensures |r| == size.1
    ensures forall i :: 0 <= i < size.1 ==> |r[i]| == size.0
    ensures forall i, j :: 0 <= i < size.1 && 0 <= j < size.0 ==> r[i][j] == " "
  {
    seq(size.1, _ => seq(size.0, _ => " "))
  }
}

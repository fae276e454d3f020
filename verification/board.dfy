/**
 * One bingo board: 24 sampled phrases laid out row by row around the
 * sentinel, cut into five rows of five.
 */
module Board {
  import opened Seqs
  import opened Catalog

  /** A board as rows of cells, top to bottom, each row left to right. */
  type Grid = seq<seq<string>>

  const Width: nat := 5
  const Cells: nat := 25
  /** Row-major index of the centre cell (row 2, column 2). */
  const Centre: nat := 12

  /** Five rows of five cells. */
  predicate Shaped(b: Grid) {
    |b| == Width && forall r :: 0 <= r < |b| ==> |b[r]| == Width
  }

  /** A selection a board can be built from: 24 distinct phrases of `pool`. */
  predicate ValidSelection(selected: seq<string>, pool: seq<string>) {
    |selected| == BoardPhrases && Distinct(selected) && DrawnFrom(selected, pool)
  }

  /**
   * The board invariant: five rows of five, the sentinel in the centre,
   * every other cell a phrase of `pool`, and no cell repeated anywhere
   * (so, with the sentinel outside the pool, it appears only in the centre).
   */
  predicate ValidBoard(b: Grid, pool: seq<string>) {
    && Shaped(b)
    && |Flatten(b)| == Cells
    && Flatten(b)[Centre] == FreeSpace
    && Distinct(Flatten(b))
    && (forall k :: 0 <= k < Cells && k != Centre ==> Flatten(b)[k] in pool)
  }

  /** The rows `flat[i..i+5]` for i = start, start+5, ... below 25. */
  function Rows(flat: seq<string>, start: nat): (rows: Grid)
    requires |flat| == Cells && start <= Cells && start % Width == 0
    ensures |rows| == (Cells - start) / Width
    ensures forall r :: 0 <= r < |rows| ==> |rows[r]| == Width
    ensures Flatten(rows) == flat[start..]
    decreases Cells - start
  {
    if start >= Cells then []
    else
      var rows := [flat[start..start + Width]] + Rows(flat, start + Width);
      assert rows[1..] == Rows(flat, start + Width);
      assert flat[start..] == flat[start..start + Width] + flat[start + Width..];
      rows
  }

  /**
   * The 25 cells in reading order: the first 12 phrases keep their places,
   * the sentinel takes the centre, and the last 12 move one place on.
   */
  function CellOrder(selected: seq<string>): (cells: seq<string>)
    requires |selected| == BoardPhrases
    ensures |cells| == Cells && cells[Centre] == FreeSpace
    ensures forall k :: 0 <= k < Centre ==> cells[k] == selected[k]
    ensures forall k :: Centre <= k < BoardPhrases ==> cells[k + 1] == selected[k]
  {
    selected[..Centre] + [FreeSpace] + selected[Centre..]
  }

  /** The board built from a selection of 24 phrases. */
  function Arrange(selected: seq<string>): (b: Grid)
    requires |selected| == BoardPhrases
    ensures Shaped(b)
    ensures Flatten(b) == selected[..Centre] + [FreeSpace] + selected[Centre..]
  {
    Rows(CellOrder(selected), 0)
  }

  /** The phrases of a board in reading order, sentinel removed. */
  function Unarrange(b: Grid): (selected: seq<string>)
    requires Shaped(b)
    ensures |selected| == BoardPhrases
  {
    FlattenShaped(b);
    Flatten(b)[..Centre] + Flatten(b)[Centre + 1..]
  }

  /** A grid of five-cell rows reads as 5 cells per row, cell (r, c) at 5r + c. */
  lemma {:induction false} FlattenCell(rows: Grid, r: nat, c: nat)
    requires forall k :: 0 <= k < |rows| ==> |rows[k]| == Width
    requires r < |rows| && c < Width
    ensures |Flatten(rows)| == Width * |rows|
    ensures Flatten(rows)[Width * r + c] == rows[r][c]
    decreases |rows|
  {
    FlattenLength(rows);
    if r > 0 {
      FlattenCell(rows[1..], r - 1, c);
      FlattenLength(rows[1..]);
    }
  }

  /** A grid of five-cell rows flattens to five cells per row. */
  lemma {:induction false} FlattenLength(rows: Grid)
    requires forall k :: 0 <= k < |rows| ==> |rows[k]| == Width
    ensures |Flatten(rows)| == Width * |rows|
    decreases |rows|
  {
    if |rows| > 0 {
      FlattenLength(rows[1..]);
    }
  }

  /** A board of five rows of five flattens to 25 cells. */
  lemma FlattenShaped(b: Grid)
    requires Shaped(b)
    ensures |Flatten(b)| == Cells
  {
    FlattenLength(b);
  }

  /** Cell (r, c) of a board is cell 5r + c of its reading order. */
  lemma BoardCell(b: Grid, r: nat, c: nat)
    requires Shaped(b) && r < Width && c < Width
    ensures |Flatten(b)| == Cells
    ensures Flatten(b)[Width * r + c] == b[r][c]
  {
    FlattenCell(b, r, c);
  }

  /** Two boards of the same shape with the same reading order are the same board. */
  lemma FlattenInjective(a: Grid, b: Grid)
    requires Shaped(a) && Shaped(b) && Flatten(a) == Flatten(b)
    ensures a == b
  {
    forall r | 0 <= r < Width
      ensures a[r] == b[r]
    {
      forall c | 0 <= c < Width
        ensures a[r][c] == b[r][c]
      {
        BoardCell(a, r, c);
        BoardCell(b, r, c);
      }
    }
  }

  /** Arranging and then reading back the phrases returns the selection. */
  lemma UnarrangeArrange(selected: seq<string>)
    requires |selected| == BoardPhrases
    ensures Unarrange(Arrange(selected)) == selected
  {
    var flat := Flatten(Arrange(selected));
    assert flat[..Centre] == selected[..Centre];
    assert flat[Centre + 1..] == selected[Centre..];
  }

  /** A board with the sentinel in its centre is the arrangement of its own phrases. */
  lemma ArrangeUnarrange(b: Grid)
    requires Shaped(b)
    requires |Flatten(b)| == Cells && Flatten(b)[Centre] == FreeSpace
    ensures Arrange(Unarrange(b)) == b
  {
    var s := Unarrange(b);
    var flat := Flatten(b);
    assert s[..Centre] == flat[..Centre];
    assert s[Centre..] == flat[Centre + 1..];
    assert flat == flat[..Centre] + [FreeSpace] + flat[Centre + 1..];
    FlattenInjective(Arrange(s), b);
  }

  /** The centre cell is the sentinel. */
  lemma CentreIsFreeSpace(selected: seq<string>)
    requires |selected| == BoardPhrases
    ensures Arrange(selected)[2][2] == FreeSpace
  {
    BoardCell(Arrange(selected), 2, 2);
  }

  /**
   * Arranging 24 distinct phrases of a pool that does not contain the
   * sentinel yields a valid board.
   */
  lemma ArrangeValid(selected: seq<string>, pool: seq<string>)
    requires ValidSelection(selected, pool) && FreeSpace !in pool
    ensures ValidBoard(Arrange(selected), pool)
  {
    var flat := Flatten(Arrange(selected));
    assert forall k :: 0 <= k < Centre ==> flat[k] == selected[k];
    assert forall k :: Centre < k < Cells ==> flat[k] == selected[k - 1];
    forall i, j | 0 <= i < j < Cells
      ensures flat[i] != flat[j]
    {
      if i == Centre {
        assert flat[j] in selected;
      } else if j == Centre {
        assert flat[i] in selected;
      }
    }
  }

  /**
   * Conversely, every valid board is the arrangement of a valid selection:
   * the boards `Arrange` builds are exactly the valid boards.
   */
  lemma ValidBoardIsArranged(b: Grid, pool: seq<string>)
    requires ValidBoard(b, pool)
    ensures ValidSelection(Unarrange(b), pool)
    ensures Arrange(Unarrange(b)) == b
  {
    ArrangeUnarrange(b);
    var s := Unarrange(b);
    var flat := Flatten(b);
    assert forall k :: 0 <= k < Centre ==> s[k] == flat[k];
    assert forall k :: Centre <= k < BoardPhrases ==> s[k] == flat[k + 1];
    forall i, j | 0 <= i < j < BoardPhrases
      ensures s[i] != s[j]
    {
      var fi := if i < Centre then i else i + 1;
      var fj := if j < Centre then j else j + 1;
      assert s[i] == flat[fi] && s[j] == flat[fj];
    }
    forall x | x in s
      ensures x in pool
    {
      var i :| 0 <= i < |s| && s[i] == x;
      if i < Centre {
        assert flat[i] == x;
      } else {
        assert flat[i + 1] == x;
      }
    }
  }

  /**
   * The board invariant read cell by cell: off the centre every cell is a
   * pool phrase, and the sentinel sits at (2, 2) and nowhere else.
   */
  lemma ValidBoardCells(b: Grid, pool: seq<string>)
    requires ValidBoard(b, pool)
    ensures forall r, c :: 0 <= r < Width && 0 <= c < Width && !(r == 2 && c == 2) ==> b[r][c] in pool
    ensures forall r, c :: 0 <= r < Width && 0 <= c < Width ==> (b[r][c] == FreeSpace <==> r == 2 && c == 2)
  {
    forall r, c | 0 <= r < Width && 0 <= c < Width
      ensures !(r == 2 && c == 2) ==> b[r][c] in pool
      ensures b[r][c] == FreeSpace <==> r == 2 && c == 2
    {
      BoardCell(b, r, c);
    }
  }

  /** On a valid board, two different cells never hold the same text. */
  lemma ValidBoardCellsDistinct(b: Grid, pool: seq<string>)
    requires ValidBoard(b, pool)
    ensures forall r1, c1, r2, c2 ::
      0 <= r1 < Width && 0 <= c1 < Width && 0 <= r2 < Width && 0 <= c2 < Width && (r1 != r2 || c1 != c2)
      ==> b[r1][c1] != b[r2][c2]
  {
    var flat := Flatten(b);
    forall r1, c1, r2, c2 |
      0 <= r1 < Width && 0 <= c1 < Width && 0 <= r2 < Width && 0 <= c2 < Width && (r1 != r2 || c1 != c2)
      ensures b[r1][c1] != b[r2][c2]
    {
      BoardCell(b, r1, c1);
      BoardCell(b, r2, c2);
      var i, j := Width * r1 + c1, Width * r2 + c2;
      assert i != j;
      if i < j {
        assert flat[i] != flat[j];
      } else {
        assert flat[j] != flat[i];
      }
    }
  }
}

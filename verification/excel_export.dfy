/**
 * The sheets the spreadsheet exporter creates: one per board, titled
 * "Board 1", "Board 2", ..., and for each cell of a board one write at its
 * 1-based row and column, together with the column letter whose width the
 * loop sets. Fonts, borders, alignment, the width and height values and the
 * file itself are not modelled.
 */
module ExcelExport {
  import opened Seqs
  import opened Decimal
  import opened Board

  /**
   * One cell assignment: 1-based row and column, the code point of the
   * column letter (64 + column, so column 1 is 'A'), and the text written.
   */
  datatype CellWrite = CellWrite(row: nat, column: nat, letterCode: nat, value: string)

  /** A worksheet: its title and its cell writes in the order they happen. */
  datatype Sheet = Sheet(title: string, writes: seq<CellWrite>)

  datatype Option<T> = None | Some(value: T)

  const SheetPrefix: string := "Board "

  /**
   * The title of the sheet numbered `i` (numbering starts at 1): the prefix
   * followed by a decimal numeral that reads back as `i`.
   */
  function SheetTitle(i: nat): (title: string)
    ensures |title| > |SheetPrefix| && title[..|SheetPrefix|] == SheetPrefix
    ensures forall k :: |SheetPrefix| <= k < |title| ==> IsDigit(title[k])
    ensures ParseNat(title[|SheetPrefix|..]) == i
  {
    ParseNatToString(i);
    var title := SheetPrefix + NatToString(i);
    assert title[|SheetPrefix|..] == NatToString(i);
    title
  }

  /** The writes for one row, numbered `r`, whose first cell sits in column `c`. */
  function RowWrites(row: seq<string>, r: nat, c: nat): (writes: seq<CellWrite>)
    ensures |writes| == |row|
    ensures forall k :: 0 <= k < |row| ==> writes[k] == CellWrite(r, c + k, 64 + c + k, row[k])
    decreases |row|
  {
    if |row| == 0 then []
    else [CellWrite(r, c, 64 + c, row[0])] + RowWrites(row[1..], r, c + 1)
  }

  /**
   * The writes for a grid whose first row is numbered `r`, row after row:
   * one write per cell, carrying the cells' texts in reading order, all in
   * the grid's rows.
   */
  function GridWrites(rows: Grid, r: nat): (writes: seq<CellWrite>)
    ensures |writes| == |Flatten(rows)|
    ensures forall k :: 0 <= k < |writes| ==> writes[k].value == Flatten(rows)[k]
    ensures forall k :: 0 <= k < |writes| ==> r <= writes[k].row < r + |rows|
    decreases |rows|
  {
    if |rows| == 0 then []
    else
      var head := RowWrites(rows[0], r, 1);
      var tail := GridWrites(rows[1..], r + 1);
      assert forall k :: |head| <= k < |head| + |tail| ==> (head + tail)[k] == tail[k - |head|];
      head + tail
  }

  /** The text a sheet shows at (r, c): the last write there, if any. */
  function CellValue(writes: seq<CellWrite>, r: nat, c: nat): Option<string> {
    if |writes| == 0 then None
    else
      var w := writes[|writes| - 1];
      if w.row == r && w.column == c then Some(w.value)
      else CellValue(writes[..|writes| - 1], r, c)
  }

  /** A write that no later write overwrites is what the cell shows. */
  lemma {:induction false} LastWriteWins(writes: seq<CellWrite>, p: nat)
    requires p < |writes|
    requires forall q :: p < q < |writes| ==> writes[q].row != writes[p].row || writes[q].column != writes[p].column
    ensures CellValue(writes, writes[p].row, writes[p].column) == Some(writes[p].value)
    decreases |writes|
  {
    if p < |writes| - 1 {
      var front := writes[..|writes| - 1];
      assert forall q :: p < q < |front| ==> front[q] == writes[q];
      LastWriteWins(front, p);
    }
  }

  /** A cell nobody wrote to shows nothing. */
  lemma {:induction false} UnwrittenCellIsEmpty(writes: seq<CellWrite>, r: nat, c: nat)
    requires forall q :: 0 <= q < |writes| ==> writes[q].row != r || writes[q].column != c
    ensures CellValue(writes, r, c) == None
    decreases |writes|
  {
    if |writes| > 0 {
      var front := writes[..|writes| - 1];
      assert forall q :: 0 <= q < |front| ==> front[q] == writes[q];
      UnwrittenCellIsEmpty(front, r, c);
    }
  }

  /**
   * For rows of five cells, write 5i + k goes to row r + i, column k + 1,
   * whose letter is the (k+1)-th of A..E.
   */
  lemma {:induction false} GridWritesPositions(rows: Grid, r: nat)
    requires forall i :: 0 <= i < |rows| ==> |rows[i]| == Width
    ensures |GridWrites(rows, r)| == Width * |rows|
    ensures forall i, k :: 0 <= i < |rows| && 0 <= k < Width ==>
      GridWrites(rows, r)[Width * i + k] == CellWrite(r + i, k + 1, 65 + k, rows[i][k])
    decreases |rows|
  {
    if |rows| > 0 {
      var tail := rows[1..];
      GridWritesPositions(tail, r + 1);
      var all := GridWrites(rows, r);
      var head := RowWrites(rows[0], r, 1);
      assert all == head + GridWrites(tail, r + 1);
      forall i, k | 0 <= i < |rows| && 0 <= k < Width
        ensures all[Width * i + k] == CellWrite(r + i, k + 1, 65 + k, rows[i][k])
      {
        if i == 0 {
          assert all[k] == head[k];
        } else {
          assert all[Width * i + k] == GridWrites(tail, r + 1)[Width * (i - 1) + k];
          assert tail[i - 1] == rows[i];
        }
      }
    }
  }

  /** The column letters of a five-wide board. */
  const Letters: string := "ABCDE"

  /** Write q of a board's sheet goes to row q / 5 + 1 and column q % 5 + 1. */
  lemma BoardWrite(b: Grid, q: nat)
    requires Shaped(b) && q < Cells
    ensures |GridWrites(b, 1)| == Cells
    ensures GridWrites(b, 1)[q] == CellWrite(q / Width + 1, q % Width + 1, 65 + q % Width, b[q / Width][q % Width])
  {
    GridWritesPositions(b, 1);
    var i, k := q / Width, q % Width;
    assert q == Width * i + k && 0 <= i < Width && 0 <= k < Width;
  }

  /** Cell (r, c) of a board's sheet, counted from 1, holds the board's cell (r-1, c-1). */
  lemma SheetCellReadsBack(b: Grid, r: nat, c: nat)
    requires Shaped(b) && 1 <= r <= Width && 1 <= c <= Width
    ensures CellValue(GridWrites(b, 1), r, c) == Some(b[r - 1][c - 1])
  {
    var writes := GridWrites(b, 1);
    var p := Width * (r - 1) + (c - 1);
    BoardWrite(b, p);
    forall q | p < q < |writes|
      ensures writes[q].row != r || writes[q].column != c
    {
      BoardWrite(b, q);
    }
    LastWriteWins(writes, p);
  }

  /**
   * A board's sheet shows the board: cell (r, c), counted from 1, holds the
   * board's cell (r-1, c-1).
   */
  lemma SheetReadsBack(b: Grid)
    requires Shaped(b)
    ensures forall r: nat, c: nat :: 1 <= r <= Width && 1 <= c <= Width ==> CellValue(GridWrites(b, 1), r, c) == Some(b[r - 1][c - 1])
  {
    forall r: nat, c: nat | 1 <= r <= Width && 1 <= c <= Width
      ensures CellValue(GridWrites(b, 1), r, c) == Some(b[r - 1][c - 1])
    {
      SheetCellReadsBack(b, r, c);
    }
  }

  /** A board's sheet writes nothing outside rows 1..5 and columns 1..5. */
  lemma SheetHasNoOtherCells(b: Grid)
    requires Shaped(b)
    ensures forall r: nat, c: nat :: !(1 <= r <= Width && 1 <= c <= Width) ==> CellValue(GridWrites(b, 1), r, c) == None
  {
    var writes := GridWrites(b, 1);
    BoardWrite(b, 0);
    forall r: nat, c: nat | !(1 <= r <= Width && 1 <= c <= Width)
      ensures CellValue(writes, r, c) == None
    {
      forall q | 0 <= q < |writes|
        ensures writes[q].row != r || writes[q].column != c
      {
        BoardWrite(b, q);
      }
      UnwrittenCellIsEmpty(writes, r, c);
    }
  }

  /** Write q of a board's sheet sets the width of its own column's letter. */
  lemma WriteColumnLetter(b: Grid, q: nat)
    requires Shaped(b) && q < Cells
    ensures |GridWrites(b, 1)| == Cells
    ensures 1 <= GridWrites(b, 1)[q].column <= Width
    ensures GridWrites(b, 1)[q].letterCode == Letters[GridWrites(b, 1)[q].column - 1] as int
  {
    BoardWrite(b, q);
    assert Letters[q % Width] as int == 65 + q % Width;
  }

  /**
   * A board's sheet receives its 25 writes, each setting the width of the
   * column lettered A..E that it falls in.
   */
  lemma SheetColumnLetters(b: Grid)
    requires Shaped(b)
    ensures |GridWrites(b, 1)| == Cells
    ensures forall q :: 0 <= q < |GridWrites(b, 1)| ==>
      1 <= GridWrites(b, 1)[q].column <= Width && GridWrites(b, 1)[q].letterCode == Letters[GridWrites(b, 1)[q].column - 1] as int
  {
    var writes := GridWrites(b, 1);
    BoardWrite(b, 0);
    forall q | 0 <= q < |writes|
      ensures 1 <= writes[q].column <= Width && writes[q].letterCode == Letters[writes[q].column - 1] as int
    {
      WriteColumnLetter(b, q);
    }
  }

  /** The text a sheet shows at (r, c), empty where nothing was written. */
  function CellText(writes: seq<CellWrite>, r: nat, c: nat): string {
    match CellValue(writes, r, c)
    case Some(v) => v
    case None => ""
  }

  /** The five-by-five grid a sheet shows in rows 1..5 and columns A..E. */
  function ReadGrid(writes: seq<CellWrite>): (g: Grid)
    ensures Shaped(g)
  {
    seq(Width, r requires 0 <= r < Width => seq(Width, c requires 0 <= c < Width => CellText(writes, r + 1, c + 1)))
  }

  /** Cell (r, c) of the grid read from a sheet is what the sheet shows at (r+1, c+1). */
  lemma ReadGridCell(writes: seq<CellWrite>, r: nat, c: nat)
    requires r < Width && c < Width
    ensures ReadGrid(writes)[r][c] == CellText(writes, r + 1, c + 1)
  {
  }

  /** Reading a board's sheet back gives the board. */
  lemma ReadGridRoundTrip(b: Grid)
    requires Shaped(b)
    ensures ReadGrid(GridWrites(b, 1)) == b
  {
    var writes := GridWrites(b, 1);
    var g := ReadGrid(writes);
    forall r | 0 <= r < Width
      ensures g[r] == b[r]
    {
      forall c | 0 <= c < Width
        ensures g[r][c] == b[r][c]
      {
        SheetCellReadsBack(b, r + 1, c + 1);
        ReadGridCell(writes, r, c);
      }
    }
  }

  /** Different sheet numbers give different titles. */
  lemma SheetTitlesDistinct(i: nat, j: nat)
    requires i != j
    ensures SheetTitle(i) != SheetTitle(j)
  {
    assert SheetTitle(i)[|SheetPrefix|..] == NatToString(i);
    assert SheetTitle(j)[|SheetPrefix|..] == NatToString(j);
    NatToStringInjective(i, j);
  }

  /**
   * The exporter's loop: starting from a workbook with its default sheet
   * removed, sheet i (from 1) is created titled "Board i" and receives the
   * writes of board i.
   */
  method BuildWorkbook(boards: seq<Grid>) returns (sheets: seq<Sheet>)
    ensures |sheets| == |boards|
    ensures forall i :: 0 <= i < |boards| ==> sheets[i].title == SheetTitle(i + 1)
    ensures forall i :: 0 <= i < |boards| ==> sheets[i].writes == GridWrites(boards[i], 1)
    ensures forall i, j :: 0 <= i < j < |sheets| ==> sheets[i].title != sheets[j].title
    ensures (forall i :: 0 <= i < |boards| ==> Shaped(boards[i])) ==>
      forall i :: 0 <= i < |boards| ==> ReadGrid(sheets[i].writes) == boards[i]
  {
    sheets := [];
    var i := 1;
    while i <= |boards|
      invariant 1 <= i <= |boards| + 1
      invariant |sheets| == i - 1
      invariant forall k :: 0 <= k < i - 1 ==> sheets[k] == Sheet(SheetTitle(k + 1), GridWrites(boards[k], 1))
    {
      sheets := sheets + [Sheet(SheetTitle(i), GridWrites(boards[i - 1], 1))];
      i := i + 1;
    }
    forall a, b | 0 <= a < b < |sheets|
      ensures sheets[a].title != sheets[b].title
    {
      SheetTitlesDistinct(a + 1, b + 1);
    }
    forall k | 0 <= k < |boards| && Shaped(boards[k])
      ensures ReadGrid(sheets[k].writes) == boards[k]
    {
      ReadGridRoundTrip(boards[k]);
    }
  }
}

# Yu-Gi-Oh! Excuses Bingo, modelled in Dafny

The program prints bingo cards of excuses Yu-Gi-Oh! players make after a loss.
It has a fixed catalog of phrases. Each board is a 5x5 card: 24 phrases sampled
without replacement from the catalog, laid out row by row around a "FREE SPACE"
centre. A run generates a requested number of boards once and exports the same
board set to a spreadsheet (one sheet per board), a PDF (one titled table per
page) or both.

This project models that core as pure functions over sequences:

- `seqs.dfy` (`Seqs`): distinctness, membership and row-major flattening.
- `catalog.dfy` (`Catalog`): the phrase list exactly as the program spells it,
  which has 27 entries because one separator is missing. It also holds the
  intended 28-entry list and the `FREE SPACE` sentinel.
- `sampling.dfy` (`Sampling`): the standard library's sampling routine. It
  rejects a sample larger than the population, or a negative one, with the
  routine's `ValueError` message. Otherwise it draws without replacement
  using the routine's pool scheme: pick an index below the current pool size,
  take that entry and move the last entry into the hole. The random index
  draws are an input stream.
- `board.dfy` (`Board`): the layout
  `selected[:12] + ["FREE SPACE"] + selected[12:]`, cut into five rows of five.
  It also holds the board invariant and the inverse reading `Unarrange`.
- `generator.dfy` (`Generator`): one board per call, and a board set of
  `count` boards in order. Each board reads its own draw stream. A failed
  sample ends the run.
- `pdf_export.dfy` (`PdfExport`): the element list handed to the PDF builder.
  It holds one titled block per board, with a page break between consecutive
  boards. Pages are read off the element list.
- `excel_export.dfy` (`ExcelExport`), `decimal.dfy` (`Decimal`): sheets titled
  "Board 1", "Board 2", .... Each cell of a board is written at its 1-based
  row and column, together with the column letter `chr(64 + c)` whose width
  the loop sets. A sheet is read back as "last write wins".
- `cli.dfy` (`Cli`): which exporters the `--excel` / `--both` flags select, in
  order, and a run from generation to the documents. The `--pdf` flag is never
  consulted. It only documents the default: `--pdf --excel` writes no PDF.

## Model

| member | source | states |
|---|---|---|
| Catalog.ExcusesDistinct | ygo_excuse_bingo.py:11-40 | no phrase of the catalog as written appears twice |
| Catalog.ExcusesUsable | ygo_excuse_bingo.py:11-40 | the catalog as written has 27 entries, all distinct, none of them the sentinel, and enough for a board of 24 |
| Catalog.IntendedExcusesDistinct | ygo_excuse_bingo.py:11-40 | no phrase of the restored 28-phrase catalog appears twice |
| Catalog.IntendedExcusesUsable | ygo_excuse_bingo.py:11-40 | the restored catalog has 28 distinct phrases, none of them the sentinel, enough for a board |
| Catalog.MissingSeparatorFusesTwoPhrases | ygo_excuse_bingo.py:28-31 | the catalog as written is the intended one with its 18th and 19th phrases joined into one entry; every other phrase keeps its place |
| Catalog.FusedPhrasesNeverDrawn | ygo_excuse_bingo.py:29-30 | neither of the two joined phrases is in the catalog, so no board can show them, while the joined text is a phrase the intended catalog lacks |
| Sampling.Take | ygo_excuse_bingo.py:45 | taking entry j shortens the pool by one and introduces no new item |
| Sampling.TakeRemovesOne | ygo_excuse_bingo.py:45 | from a pool of distinct items, taking entry j removes exactly that item: the taken item is gone, every other item stays, and the rest stays distinct |
| Sampling.Draw | ygo_excuse_bingo.py:45 | drawing k items yields k items, all from the pool |
| Sampling.DrawDistinct | ygo_excuse_bingo.py:45 | drawing from distinct items never yields an item twice |
| Sampling.Sample | ygo_excuse_bingo.py:45 | the sample succeeds exactly when 0 <= k <= population size, then has k items from the population; otherwise it fails with the ValueError message |
| Sampling.SampleDistinct | ygo_excuse_bingo.py:45 | a successful sample of distinct items has no repeats |
| Sampling.DrawReachesEverySelection | ygo_excuse_bingo.py:45 | for every repeat-free ordered selection of pool items there is a draw stream that draws exactly that selection |
| Sampling.SampleReachesEverySelection | ygo_excuse_bingo.py:45 | every repeat-free ordered selection of k population items is a possible sample, so sampling produces exactly those selections |
| Board.Rows | ygo_excuse_bingo.py:47 | cutting 25 cells into slices of five from a start gives rows of width five whose concatenation is the cells from that start |
| Board.CellOrder | ygo_excuse_bingo.py:46 | the 25 cells in reading order: the first 12 phrases keep their places, the centre (index 12) is "FREE SPACE", and the last 12 phrases move one place on |
| Board.Arrange | ygo_excuse_bingo.py:46-47 | the board has five rows of five, and read row by row it is the first 12 phrases, the sentinel, then the last 12 |
| Board.Unarrange | ygo_excuse_bingo.py:46-47 | reading a 5x5 board without its centre gives 24 phrases |
| Board.BoardCell | ygo_excuse_bingo.py:47 | cell (r, c) of a 5x5 board is cell 5r + c of its row-by-row reading |
| Board.FlattenInjective | ygo_excuse_bingo.py:47 | two 5x5 boards with the same row-by-row reading are equal |
| Board.UnarrangeArrange | ygo_excuse_bingo.py:46-47 | reading back the phrases of an arranged board returns the selection, in order |
| Board.ArrangeUnarrange | ygo_excuse_bingo.py:46-47 | a 5x5 board with the sentinel in the centre is the arrangement of its own phrases |
| Board.CentreIsFreeSpace | ygo_excuse_bingo.py:46-47 | cell (2, 2) of every arranged board is "FREE SPACE" |
| Board.ArrangeValid | ygo_excuse_bingo.py:45-47 | 24 distinct pool phrases, drawn from a pool without the sentinel, arrange into a valid board: 5x5, sentinel in the centre, every other cell from the pool, no cell repeated |
| Board.ValidBoardIsArranged | ygo_excuse_bingo.py:45-47 | every valid board is the arrangement of a valid selection, its own phrases, so valid boards are exactly what arranging produces |
| Board.ValidBoardCells | ygo_excuse_bingo.py:46-47 | on any valid board every cell off the centre is a pool phrase, and "FREE SPACE" is at (2, 2) and nowhere else |
| Board.ValidBoardCellsDistinct | ygo_excuse_bingo.py:45-47 | on a valid board, two different cells never hold the same text |
| Generator.GenerateBoard | ygo_excuse_bingo.py:43-47 | one board succeeds exactly when the pool has at least 24 entries, otherwise it fails with the sampling error; a success is 5x5, and valid when the pool is distinct and free of the sentinel |
| Generator.SampledBoardValid | ygo_excuse_bingo.py:45-47 | from a distinct pool of at least 24 phrases without the sentinel, the sample succeeds and its arrangement is a valid board |
| Generator.Collect | ygo_excuse_bingo.py:51 | evaluating the boards in order succeeds exactly when every board does, with each value in its place; otherwise it reports the first failure |
| Generator.GenerateMultipleBoards | ygo_excuse_bingo.py:49-51 | the set has max(count, 0) boards and fails only when a board is needed and the pool is under 24; every board is 5x5, and valid for a distinct sentinel-free pool |
| Generator.CollectedBoards | ygo_excuse_bingo.py:49-51 | collecting board outcomes that each keep the single-board promise keeps it for the whole set |
| Generator.BoardSetIsIndependentBoards | ygo_excuse_bingo.py:49-51 | board i of the set is the single board generated from its own draws, whatever the other boards drew |
| Generator.GenerateReachesEveryValidBoard | ygo_excuse_bingo.py:43-47 | every valid board of a usable pool is produced by some draw stream |
| Generator.ExcusesAlwaysGenerate | ygo_excuse_bingo.py:11-51 | with the catalog as written, generation never fails and every board satisfies the board invariant |
| Generator.IntendedExcusesAlwaysGenerate | ygo_excuse_bingo.py:11-51 | the same holds with the restored 28-phrase catalog |
| PdfExport.Pages | ygo_excuse_bingo.py:103-106 | every element list falls on at least one page |
| PdfExport.OnePerPage | ygo_excuse_bingo.py:103 | one page per board, holding only that board's titled block |
| PdfExport.LayoutPositions | ygo_excuse_bingo.py:92-106 | the layout has 2n-1 elements (none for n = 0): block i at position 2i, a page break at every odd position |
| PdfExport.LayoutTables | ygo_excuse_bingo.py:92-106 | the tables of the layout's blocks are the boards, in order |
| PdfExport.LayoutBreakCount | ygo_excuse_bingo.py:105-106 | the layout holds max(n-1, 0) page breaks |
| PdfExport.PagesOfBlock | ygo_excuse_bingo.py:103 | a lone block is a single page holding it |
| PdfExport.PagesAfterBreak | ygo_excuse_bingo.py:103-106 | a break followed by a block adds exactly one page, holding just that block |
| PdfExport.LayoutPages | ygo_excuse_bingo.py:92-106 | every board gets a page to itself and no blank page trails the last board; no boards give one empty page |
| PdfExport.LayoutGrows | ygo_excuse_bingo.py:92-106 | the layout of one more board appends a break, unless it is the first board, then that board's block |
| PdfExport.BuildElements | ygo_excuse_bingo.py:92-106 | the exporter's loop yields n blocks in board order, each titled "Yu-Gi-Oh! Excuses Bingo", with max(n-1, 0) breaks between them and none after the last; the pages are one per board |
| ExcelExport.SheetTitle | ygo_excuse_bingo.py:66 | a sheet title is "Board " followed by decimal digits that read back as the sheet's number |
| ExcelExport.RowWrites | ygo_excuse_bingo.py:68-73 | the k-th cell of a row is written at column c + k, with letter code 64 + c + k |
| ExcelExport.GridWrites | ygo_excuse_bingo.py:67-69 | a grid's writes are one per cell, carry the cells' texts in reading order, and stay within the grid's rows, numbered from r |
| ExcelExport.LastWriteWins | ygo_excuse_bingo.py:69 | a write that no later write to the same cell overrides is what the cell shows |
| ExcelExport.UnwrittenCellIsEmpty | ygo_excuse_bingo.py:69 | a cell never written shows nothing |
| ExcelExport.GridWritesPositions | ygo_excuse_bingo.py:67-73 | for rows of five, write 5i + k goes to row r + i, column k + 1, letter A..E, with that cell's text |
| ExcelExport.BoardWrite | ygo_excuse_bingo.py:67-69 | a board's sheet gets 25 writes; write q is row q / 5 + 1, column q % 5 + 1, holding board cell (q / 5, q % 5) |
| ExcelExport.SheetCellReadsBack | ygo_excuse_bingo.py:67-69 | one sheet cell (r, c), counted from 1, shows board cell (r-1, c-1) |
| ExcelExport.SheetReadsBack | ygo_excuse_bingo.py:67-69 | sheet cell (r, c), counted from 1, shows board cell (r-1, c-1) |
| ExcelExport.SheetHasNoOtherCells | ygo_excuse_bingo.py:67-69 | a board's sheet shows nothing outside rows 1..5 and columns 1..5 |
| ExcelExport.SheetColumnLetters | ygo_excuse_bingo.py:73 | every write of a board's sheet is in columns 1..5, and the letter whose width it sets is that column's letter in "ABCDE" |
| ExcelExport.ReadGrid | ygo_excuse_bingo.py:67-69 | what a sheet shows in rows 1..5 and columns A..E is a 5x5 grid |
| ExcelExport.ReadGridRoundTrip | ygo_excuse_bingo.py:65-72 | reading back the sheet of a 5x5 board gives the board |
| ExcelExport.SheetTitlesDistinct | ygo_excuse_bingo.py:66 | different sheet numbers give different titles |
| ExcelExport.BuildWorkbook | ygo_excuse_bingo.py:65-74 | one sheet per board, in order; sheet i is titled "Board i+1" and gets board i's writes; titles are pairwise distinct; each sheet reads back as its board |
| Decimal.DigitChar | ygo_excuse_bingo.py:66 | a digit's character is a decimal digit whose offset from '0' is that digit |
| Decimal.NatToString | ygo_excuse_bingo.py:66 | a number's numeral is non-empty, all digits, with no leading zero |
| Decimal.ParseNatToString | ygo_excuse_bingo.py:66 | reading a rendered number gives the number back |
| Decimal.NatToStringInjective | ygo_excuse_bingo.py:66 | different numbers render to different numerals |
| Cli.Exports | ygo_excuse_bingo.py:123-129 | a spreadsheet is written exactly when `--both` or `--excel` is set, a PDF exactly when `--both` is set or `--excel` is not; never twice; the spreadsheet comes first |
| Cli.PdfFlagIgnored | ygo_excuse_bingo.py:115-129 | `--pdf` changes nothing: with `--excel` and without `--both`, no PDF is written |
| Cli.Export | ygo_excuse_bingo.py:123-129 | an exporter writes its own kind of document under its default file name; a workbook has one sheet per board; for 5x5 boards the document carries exactly the board set |
| Cli.ExportSelected | ygo_excuse_bingo.py:123-129 | one document per selected exporter, in order, each of its kind, each workbook with one sheet per board, and each carrying the board set |
| Cli.Run | ygo_excuse_bingo.py:120-129 | generation fails exactly when boards are requested from a pool under 24, and then no document is produced; otherwise there is one document per selected exporter, each carrying the same generated boards, and a workbook has max(count, 0) sheets |

## Left out

- Randomness is not modelled. The generator's index draws are an input: one stream per board, read as `Head % |pool|`. A stream that runs dry reads as zeros. Splitting one shared generator's output into per-board chunks gives one stream per board, so no outcome of the program is lost. Uniformity of the draws is not stated.
- Sampling.Sample: models only the pool-based branch of the standard library sampler. The set-based branch is used only for populations far larger than any pool here; for 27 or 28 phrases and k = 24 the pool branch is always taken. The exact index sequence the generator would produce is not modelled.
- Generator.GenerateMultipleBoards: "boards past the end of the stream list draw zeros" is a modelling convention. The program always has fresh randomness.
- ExcelExport.BuildWorkbook: cell font, alignment and border, the column width of 25 and the row height of 60 are not modelled. Removing the default sheet is modelled by starting from no sheets, so the workbook holds exactly one sheet per board; with no boards it holds no sheets at all. The column letter is kept as the code point `64 + c`. That it lands in "A".."E" is proved for 5x5 boards only, the only boards the program produces.
- PdfExport.BuildElements: paragraph wrapping, fonts, table column widths and row heights, colours, landscape letter page size and `KeepTogether` grouping are rendering details and are not modelled. Page layout is read off the element list. Content overflowing a page is not modelled.
- Cli.Run: argument parsing is not modelled, so `--num` arrives as an integer (its default of 5 included) and malformed values are left to the parser. Printing the "saved" messages and writing the files are not modelled: a document is its file name plus the sheets or elements written to it.
- Cli.Run: saving a workbook with no sheets fails in the spreadsheet library, so a count of zero or below with `--excel` or `--both` ends the program with an error at the save. The model stops at the document: it proves that such a workbook has no sheets, but reports the run as successful. The PDF builder's handling of an empty element list is not modelled either.
- PdfExport.Pages: that an empty element list makes one empty page is a modelling convention, not behaviour the PDF library is known to have; `PdfExport.LayoutPages` inherits it for zero boards.

## Findings

| source | as written | input that shows it | evidently intended | confidence | as-written member | corrected member |
|---|---|---|---|---|---|---|
| ygo_excuse_bingo.py:29-30 | two adjacent string literals with no comma between them, which the language joins into one list entry | the catalog itself: its 18th entry is "Your topdecks were crazyMy deck isn’t finished", and the list has 27 entries instead of 28 | two separate phrases, "Your topdecks were crazy" and "My deck isn’t finished", giving 28 | high; not executed | Catalog.MissingSeparatorFusesTwoPhrases | Catalog.IntendedExcusesUsable |

Generation and export are written for any pool. `Generator.ExcusesAlwaysGenerate`
states the program's behaviour with the catalog as written.
`Generator.IntendedExcusesAlwaysGenerate` proves the same guarantees for the
restored 28-phrase catalog. `Catalog.FusedPhrasesNeverDrawn` shows the visible
effect: the two intended phrases never appear on a board.

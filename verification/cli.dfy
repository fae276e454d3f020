/**
 * The program's entry point once its arguments are parsed: generate the
 * boards once, then hand the same board set to the exporters the flags
 * select. Argument parsing, printing and writing the files are not
 * modelled; a document is the file name with the sheets or elements that
 * would be written to it.
 */
module Cli {
  import opened Seqs
  import opened Catalog
  import opened Sampling
  import opened Board
  import opened Generator
  import opened ExcelExport
  import opened PdfExport

  const SpreadsheetFile: string := "bingo_boards.xlsx"
  const PdfFile: string := "bingo_boards.pdf"

  datatype Format = Spreadsheet | Pdf

  /** What one exporter produces. */
  datatype Document =
    | Workbook(file: string, sheets: seq<Sheet>)
    | PdfDocument(file: string, elements: seq<Element<Grid>>)

  /**
   * The exporters run for the flags, in order. `--both` runs the
   * spreadsheet and then the PDF export, `--excel` only the spreadsheet,
   * and anything else only the PDF. The `--pdf` flag is never consulted.
   */
  function Exports(pdf: bool, excel: bool, both: bool): (formats: seq<Format>)
    ensures Spreadsheet in formats <==> both || excel
    ensures Pdf in formats <==> both || !excel
    ensures Distinct(formats)
    ensures Spreadsheet in formats && Pdf in formats ==> formats == [Spreadsheet, Pdf]
  {
    if both then [Spreadsheet, Pdf]
    else if excel then [Spreadsheet]
    else [Pdf]
  }

  /** The `--pdf` flag changes nothing: with `--excel` and no `--both`, no PDF is written. */
  lemma PdfFlagIgnored(excel: bool, both: bool)
    ensures Exports(true, excel, both) == Exports(false, excel, both)
    ensures excel && !both ==> Pdf !in Exports(true, excel, both)
  {
  }

  /** The boards a document carries, read back from it. */
  function DocumentBoards(d: Document): seq<Grid> {
    match d
    case Workbook(_, sheets) => seq(|sheets|, i requires 0 <= i < |sheets| => ReadGrid(sheets[i].writes))
    case PdfDocument(_, elements) => Tables(elements)
  }

  /**
   * One exporter run on a board set. For boards of five rows of five, the
   * document carries exactly those boards, in order.
   */
  method Export(format: Format, boards: seq<Grid>) returns (d: Document)
    ensures d.Workbook? <==> format == Spreadsheet
    ensures d.file == if format == Spreadsheet then SpreadsheetFile else PdfFile
    ensures d.Workbook? ==> |d.sheets| == |boards|
    ensures (forall i :: 0 <= i < |boards| ==> Shaped(boards[i])) ==> DocumentBoards(d) == boards
  {
    if format == Spreadsheet {
      var sheets := BuildWorkbook(boards);
      d := Workbook(SpreadsheetFile, sheets);
    } else {
      var elements := BuildElements(boards);
      d := PdfDocument(PdfFile, elements);
    }
  }

  /**
   * The exporters the flags select, run in order on one board set: one
   * document per selected format, each carrying the boards when they are
   * five rows of five.
   */
  method ExportSelected(pdf: bool, excel: bool, both: bool, boards: seq<Grid>) returns (documents: seq<Document>)
    ensures |documents| == |Exports(pdf, excel, both)|
    ensures forall i :: 0 <= i < |documents| ==>
      (documents[i].Workbook? <==> Exports(pdf, excel, both)[i] == Spreadsheet)
    ensures forall i :: 0 <= i < |documents| && documents[i].Workbook? ==> |documents[i].sheets| == |boards|
    ensures (forall i :: 0 <= i < |boards| ==> Shaped(boards[i])) ==>
      forall i :: 0 <= i < |documents| ==> DocumentBoards(documents[i]) == boards
  {
    if both {
      var workbook := Export(Spreadsheet, boards);
      var document := Export(Pdf, boards);
      documents := [workbook, document];
    } else if excel {
      var workbook := Export(Spreadsheet, boards);
      documents := [workbook];
    } else {
      var document := Export(Pdf, boards);
      documents := [document];
    }
  }

  /**
   * One run. Generation fails only when boards are requested from a pool
   * smaller than a board needs, and then nothing is written; otherwise one
   * document per selected format, each carrying exactly the generated boards.
   * A workbook has one sheet per board, so a count of zero or below leaves
   * it with no sheets at all.
   */
  method Run(pool: seq<string>, count: int, pdf: bool, excel: bool, both: bool, rngs: seq<seq<nat>>)
    returns (r: Outcome<seq<Document>>)
    ensures r.Ok? <==> count <= 0 || |pool| >= BoardPhrases
    ensures r.ValueError? ==> r.message == SampleTooLarge
    ensures r.Ok? ==> |r.value| == |Exports(pdf, excel, both)|
    ensures r.Ok? ==> forall i :: 0 <= i < |r.value| ==>
      (r.value[i].Workbook? <==> Exports(pdf, excel, both)[i] == Spreadsheet)
    ensures r.Ok? ==> forall i :: 0 <= i < |r.value| && r.value[i].Workbook? ==>
      |r.value[i].sheets| == if count <= 0 then 0 else count
    ensures r.Ok? ==> forall i :: 0 <= i < |r.value| ==>
      DocumentBoards(r.value[i]) == GenerateMultipleBoards(pool, count, rngs).value
  {
    var generated := GenerateMultipleBoards(pool, count, rngs);
    if generated.ValueError? {
      return ValueError(generated.message);
    }
    var documents := ExportSelected(pdf, excel, both, generated.value);
    return Ok(documents);
  }
}

/**
 * The element list the PDF exporter hands to the document builder: one
 * titled table per board, kept together, with a page break between
 * consecutive boards. Fonts, sizes, colours and the rendering itself are
 * not modelled; the element list is generic in what a table holds (for
 * the program, a board's grid of cell texts).
 */
module PdfExport {

  /** The heading printed above every board. */
  const Title: string := "Yu-Gi-Oh! Excuses Bingo"

  /** A document element: a heading with its table, or a page break. */
  datatype Element<T> = Block(heading: string, table: T) | PageBreak

  /** The tables of the blocks, in document order. */
  function Tables<T>(elements: seq<Element<T>>): seq<T> {
    if |elements| == 0 then []
    else
      var last := elements[|elements| - 1];
      Tables(elements[..|elements| - 1]) + (if last.Block? then [last.table] else [])
  }

  /** How many page breaks the elements hold. */
  function BreakCount<T>(elements: seq<Element<T>>): nat {
    if |elements| == 0 then 0
    else BreakCount(elements[..|elements| - 1]) + (if elements[|elements| - 1].PageBreak? then 1 else 0)
  }

  /** The pages the elements fall on: a page break ends the current page. */
  function Pages<T>(elements: seq<Element<T>>): (pages: seq<seq<Element<T>>>)
    ensures |pages| >= 1
  {
    if |elements| == 0 then [[]]
    else
      var before := Pages(elements[..|elements| - 1]);
      var last := elements[|elements| - 1];
      if last.PageBreak? then before + [[]]
      else before[..|before| - 1] + [before[|before| - 1] + [last]]
  }

  /** One page per board, holding that board's block and nothing else. */
  function OnePerPage<T>(boards: seq<T>): (pages: seq<seq<Element<T>>>)
    ensures |pages| == |boards|
    ensures forall k :: 0 <= k < |boards| ==> pages[k] == [Block(Title, boards[k])]
  {
    if |boards| == 0 then [] else OnePerPage(boards[..|boards| - 1]) + [[Block(Title, boards[|boards| - 1])]]
  }

  /**
   * Reference layout: the blocks of the boards in order, each block after
   * the first preceded by a page break.
   */
  function Layout<T>(boards: seq<T>): seq<Element<T>> {
    if |boards| == 0 then []
    else if |boards| == 1 then [Block(Title, boards[0])]
    else Layout(boards[..|boards| - 1]) + [PageBreak, Block(Title, boards[|boards| - 1])]
  }

  /** The layout puts block `i` at position 2i and breaks at the odd positions. */
  lemma {:induction false} LayoutPositions<T>(boards: seq<T>)
    ensures |Layout(boards)| == if |boards| == 0 then 0 else 2 * |boards| - 1
    ensures forall i :: 0 <= i < |boards| ==> Layout(boards)[2 * i] == Block(Title, boards[i])
    ensures forall i :: 0 <= i < |boards| - 1 ==> Layout(boards)[2 * i + 1] == PageBreak
    decreases |boards|
  {
    if |boards| > 1 {
      var front := boards[..|boards| - 1];
      LayoutPositions(front);
      var l := Layout(boards);
      assert forall k :: 0 <= k < |Layout(front)| ==> l[k] == Layout(front)[k];
      assert forall i :: 0 <= i < |front| ==> front[i] == boards[i];
    }
  }

  /** Reading the blocks of the layout back gives the boards, in order. */
  lemma {:induction false} LayoutTables<T>(boards: seq<T>)
    ensures Tables(Layout(boards)) == boards
    decreases |boards|
  {
    if |boards| == 1 {
      assert Layout(boards)[..0] == [];
    } else if |boards| > 1 {
      var front := boards[..|boards| - 1];
      var l := Layout(boards);
      LayoutTables(front);
      assert l[..|l| - 1] == Layout(front) + [PageBreak];
      assert (Layout(front) + [PageBreak])[..|Layout(front)|] == Layout(front);
      assert boards == front + [boards[|boards| - 1]];
    }
  }

  /** The layout holds one break fewer than it has boards, and none for no boards. */
  lemma {:induction false} LayoutBreakCount<T>(boards: seq<T>)
    ensures BreakCount(Layout(boards)) == if |boards| == 0 then 0 else |boards| - 1
    decreases |boards|
  {
    if |boards| == 1 {
      assert Layout(boards)[..0] == [];
    } else if |boards| > 1 {
      var front := boards[..|boards| - 1];
      var l := Layout(boards);
      LayoutBreakCount(front);
      assert l[..|l| - 1] == Layout(front) + [PageBreak];
      assert (Layout(front) + [PageBreak])[..|Layout(front)|] == Layout(front);
    }
  }

  /** A lone block makes a single page holding it. */
  lemma PagesOfBlock<T>(block: Element<T>)
    requires block.Block?
    ensures Pages([block]) == [[block]]
  {
    var before: seq<seq<Element<T>>> := [[]];
    assert [block][..0] == [];
    assert Pages([block][..0]) == before;
    assert Pages([block]) == before[..0] + [before[0] + [block]];
    assert before[0] + [block] == [block];
  }

  /** A break followed by a block opens one new page holding just that block. */
  lemma PagesAfterBreak<T>(elements: seq<Element<T>>, block: Element<T>)
    requires block.Block?
    ensures Pages(elements + [PageBreak, block]) == Pages(elements) + [[block]]
  {
    var broken := elements + [PageBreak];
    var all := broken + [block];
    assert elements + [PageBreak, block] == all;
    assert broken[..|broken| - 1] == elements;
    assert all[..|all| - 1] == broken;
    var before := Pages(broken);
    assert before == Pages(elements) + [[]];
    assert Pages(all) == before[..|before| - 1] + [before[|before| - 1] + [block]];
    assert before[..|before| - 1] == Pages(elements);
    assert before[|before| - 1] + [block] == [block];
  }

  /**
   * Every board gets a page of its own and no blank page follows the last
   * one; with no boards the document is a single empty page.
   */
  lemma {:induction false} LayoutPages<T>(boards: seq<T>)
    ensures Pages(Layout(boards)) == if |boards| == 0 then [[]] else OnePerPage(boards)
    decreases |boards|
  {
    if |boards| == 1 {
      PagesOfBlock(Block(Title, boards[0]));
      assert OnePerPage(boards[..0]) == [];
    } else if |boards| > 1 {
      var front := boards[..|boards| - 1];
      LayoutPages(front);
      PagesAfterBreak(Layout(front), Block(Title, boards[|boards| - 1]));
    }
  }

  /** The layout of one more board appends that board's block after a break. */
  lemma LayoutGrows<T>(boards: seq<T>, i: nat)
    requires i < |boards|
    ensures Layout(boards[..i + 1]) == Layout(boards[..i]) + (if i > 0 then [PageBreak] else []) + [Block(Title, boards[i])]
  {
    assert boards[..i + 1][..i] == boards[..i];
  }

  /**
   * The exporter's loop: for board i append its block, then a break unless
   * i is the last index.
   */
  method BuildElements<T>(boards: seq<T>) returns (elements: seq<Element<T>>)
    ensures elements == Layout(boards)
    ensures |elements| == if |boards| == 0 then 0 else 2 * |boards| - 1
    ensures forall i :: 0 <= i < |boards| ==> elements[2 * i] == Block(Title, boards[i])
    ensures forall i :: 0 <= i < |boards| - 1 ==> elements[2 * i + 1] == PageBreak
    ensures Tables(elements) == boards
    ensures BreakCount(elements) == if |boards| == 0 then 0 else |boards| - 1
    ensures |elements| > 0 ==> elements[|elements| - 1].Block?
    ensures Pages(elements) == if |boards| == 0 then [[]] else OnePerPage(boards)
  {
    elements := [];
    var i := 0;
    while i < |boards|
      invariant 0 <= i <= |boards|
      invariant elements == Layout(boards[..i]) + (if 0 < i < |boards| then [PageBreak] else [])
    {
      LayoutGrows(boards, i);
      elements := elements + [Block(Title, boards[i])];
      if i < |boards| - 1 {
        elements := elements + [PageBreak];
      }
      i := i + 1;
    }
    assert boards[..i] == boards;
    LayoutPositions(boards);
    LayoutTables(boards);
    LayoutBreakCount(boards);
    LayoutPages(boards);
  }
}

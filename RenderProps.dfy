/**
  Properties of the renderer's output: where each fragment, table cell and
  image lands in the instruction stream, how the text colour carries over,
  and the order of the three kinds of content.
 */
module RenderProps {
  import opened DocModel
  import opened PdfCanvas
  import opened Formatting
  import opened Render
  import Scan

  // ---------------------------------------------------------------------
  // Paragraphs
  // ---------------------------------------------------------------------

  /** The number of text fragments in the first i runs: where run i's cells start. */
  function TextsBefore(runs: seq<Run>, i: nat): nat
    requires i <= |runs|
  {
    if i == 0 then 0 else TextsBefore(runs, i - 1) + |runs[i - 1].texts|
  }

  /** The cells of one run are its fragments, in order, in the font and colour given. */
  lemma {:induction false} FragmentCellsAt(texts: seq<Text>, n: nat, font: Font, color: Color, align: string)
    requires n <= |texts|
    ensures |FragmentCells(texts, n, font, color, align)| == n
    ensures forall j :: 0 <= j < n ==>
              FragmentCells(texts, n, font, color, align)[j] == Cell(font, color, 0.0, 6.0, texts[j].text, "", 1, align)
  {
    if n > 0 {
      FragmentCellsAt(texts, n - 1, font, color, align);
    }
  }

  lemma {:induction false} RunsCellsLength(runs: seq<Run>, n: nat, align: string, color: Color)
    requires n <= |runs|
    ensures |RunsCells(runs, n, align, color)| == TextsBefore(runs, n)
  {
    if n > 0 {
      var run := runs[n - 1];
      RunsCellsLength(runs, n - 1, align, color);
      FragmentCellsAt(run.texts, |run.texts|, RunFont(run.properties), ColorAfterRuns(runs, n, color), align);
    }
  }

  lemma {:induction false} TextsBeforeMonotone(runs: seq<Run>, i: nat, n: nat)
    requires i < n <= |runs|
    ensures TextsBefore(runs, i) + |runs[i].texts| <= TextsBefore(runs, n)
  {
    if i < n - 1 {
      TextsBeforeMonotone(runs, i, n - 1);
    }
  }

  /** Fragment j of a run lands j places after whatever precedes the run. */
  lemma CellAfter(prefix: seq<Instr>, texts: seq<Text>, font: Font, color: Color, align: string, j: nat)
    requires j < |texts|
    ensures |prefix| + j < |prefix + FragmentCells(texts, |texts|, font, color, align)|
    ensures (prefix + FragmentCells(texts, |texts|, font, color, align))[|prefix| + j]
            == Cell(font, color, 0.0, 6.0, texts[j].text, "", 1, align)
  {
    FragmentCellsAt(texts, |texts|, font, color, align);
  }

  /** The cells of the first i runs are a prefix of the cells of the first n. */
  lemma {:induction false} RunsCellsPrefix(runs: seq<Run>, i: nat, n: nat, align: string, color: Color)
    requires i <= n <= |runs|
    ensures RunsCells(runs, i, align, color) <= RunsCells(runs, n, align, color)
  {
    if i < n {
      RunsCellsPrefix(runs, i, n - 1, align, color);
      var before := RunsCells(runs, n - 1, align, color);
      assert RunsCells(runs, n, align, color)[..|before|] == before;
    }
  }

  lemma RunsCellLast(runs: seq<Run>, n: nat, align: string, color: Color, j: nat)
    requires 0 < n <= |runs| && j < |runs[n - 1].texts|
    ensures TextsBefore(runs, n - 1) + j < |RunsCells(runs, n, align, color)|
    ensures RunsCells(runs, n, align, color)[TextsBefore(runs, n - 1) + j]
            == Cell(RunFont(runs[n - 1].properties), ColorAfterRuns(runs, n, color),
                    0.0, 6.0, runs[n - 1].texts[j].text, "", 1, align)
  {
    var prefix := RunsCells(runs, n - 1, align, color);
    var cells := FragmentCells(runs[n - 1].texts, |runs[n - 1].texts|, RunFont(runs[n - 1].properties),
                               ColorAfterRuns(runs, n, color), align);
    assert RunsCells(runs, n, align, color) == prefix + cells;
    RunsCellsLength(runs, n - 1, align, color);
    CellAfter(prefix, runs[n - 1].texts, RunFont(runs[n - 1].properties), ColorAfterRuns(runs, n, color), align, j);
  }

  /**
    Fragment j of run i is the cell right after the fragments of the runs
    before it, drawn in the run's own font and in the colour in effect
    once the run's properties have been applied.
   */
  lemma {:induction false} RunsCellAt(runs: seq<Run>, n: nat, align: string, color: Color, i: nat, j: nat)
    requires n <= |runs| && i < n && j < |runs[i].texts|
    ensures TextsBefore(runs, i) + j < TextsBefore(runs, n) == |RunsCells(runs, n, align, color)|
    ensures RunsCells(runs, n, align, color)[TextsBefore(runs, i) + j]
            == Cell(RunFont(runs[i].properties), ColorAfterRuns(runs, i + 1, color),
                    0.0, 6.0, runs[i].texts[j].text, "", 1, align)
  {
    RunsCellsLength(runs, n, align, color);
    RunsCellsPrefix(runs, i + 1, n, align, color);
    RunsCellLast(runs, i + 1, align, color, j);
  }

  /**
    `processParagraph`, fragment by fragment: fragment j of run i is one
    full-width, 6-high, line-advancing cell with the paragraph's alignment
    and the run's font and colour, placed after the fragments before it.
   */
  lemma {:induction false} ParagraphCellAt(para: Paragraph, color: Color, i: nat, j: nat)
    requires i < |para.runs| && j < |para.runs[i].texts|
    ensures TextsBefore(para.runs, i) + j < TextsBefore(para.runs, |para.runs|) < |ParagraphOps(para, color)|
    ensures ParagraphOps(para, color)[TextsBefore(para.runs, i) + j]
            == Cell(RunFont(para.runs[i].properties), ColorAfterRuns(para.runs, i + 1, color),
                    0.0, 6.0, para.runs[i].texts[j].text, "", 1, Alignment(para.alignment))
  {
    var cells := RunsCells(para.runs, |para.runs|, Alignment(para.alignment), color);
    RunsCellAt(para.runs, |para.runs|, Alignment(para.alignment), color, i, j);
    IndexBeforeAppend(cells, [LineBreak(4.0)], TextsBefore(para.runs, i) + j);
  }

  /** Appending leaves the earlier positions as they were. */
  lemma IndexBeforeAppend(a: seq<Instr>, b: seq<Instr>, k: nat)
    requires k < |a|
    ensures k < |a + b| && (a + b)[k] == a[k]
  {
  }

  /** A run's fragments are all cells: n of them, and no line break. */
  lemma {:induction false} FragmentCellsCounts(texts: seq<Text>, n: nat, font: Font, color: Color, align: string)
    requires n <= |texts|
    ensures CellsIn(FragmentCells(texts, n, font, color, align)) == n
    ensures BreaksIn(FragmentCells(texts, n, font, color, align)) == 0
  {
    if n > 0 {
      var cell := Cell(font, color, 0.0, 6.0, texts[n - 1].text, "", 1, align);
      FragmentCellsCounts(texts, n - 1, font, color, align);
      CountsOne(cell);
      CountsAppend(FragmentCells(texts, n - 1, font, color, align), [cell]);
    }
  }

  /** The first n runs draw one cell per fragment and no line break. */
  lemma {:induction false} RunsCellsCounts(runs: seq<Run>, n: nat, align: string, color: Color)
    requires n <= |runs|
    ensures CellsIn(RunsCells(runs, n, align, color)) == TextsBefore(runs, n)
    ensures BreaksIn(RunsCells(runs, n, align, color)) == 0
  {
    if n > 0 {
      var run := runs[n - 1];
      var font := RunFont(run.properties);
      var c := ColorAfterRuns(runs, n, color);
      RunsCellsCounts(runs, n - 1, align, color);
      FragmentCellsCounts(run.texts, |run.texts|, font, c, align);
      CountsAppend(RunsCells(runs, n - 1, align, color), FragmentCells(run.texts, |run.texts|, font, c, align));
    }
  }

  /**
    `processParagraph` appends one cell per fragment and then exactly one
    `Ln(4)`, which is the last instruction: the counts leave room for
    nothing else.
   */
  lemma {:induction false} ParagraphOutput(para: Paragraph, color: Color)
    ensures |ParagraphOps(para, color)| == TextsBefore(para.runs, |para.runs|) + 1
    ensures ParagraphOps(para, color)[TextsBefore(para.runs, |para.runs|)] == LineBreak(4.0)
    ensures CellsIn(ParagraphOps(para, color)) == TextsBefore(para.runs, |para.runs|)
    ensures BreaksIn(ParagraphOps(para, color)) == 1
  {
    var cells := RunsCells(para.runs, |para.runs|, Alignment(para.alignment), color);
    RunsCellsLength(para.runs, |para.runs|, Alignment(para.alignment), color);
    RunsCellsCounts(para.runs, |para.runs|, Alignment(para.alignment), color);
    CountsOne(LineBreak(4.0));
    CountsAppend(cells, [LineBreak(4.0)]);
  }

  /** A paragraph without runs emits only the vertical advance and leaves the font at Arial 12. */
  lemma EmptyParagraph(alignment: string, color: Color)
    ensures ParagraphOps(Paragraph(alignment, []), color) == [LineBreak(4.0)]
    ensures FontAfterParagraph(Paragraph(alignment, [])) == PARAGRAPH_FONT
  {
  }

  /**
    In a paragraph of runs without properties and without an alignment of
    "center" or "right", every fragment is drawn left-aligned in plain
    Arial 12, in the colour already in effect.
   */
  lemma {:induction false} PlainParagraph(para: Paragraph, color: Color, i: nat, j: nat)
    requires forall k :: 0 <= k < |para.runs| ==> para.runs[k].properties == RunProperties(false, false, "", "")
    requires para.alignment != "center" && para.alignment != "right"
    requires i < |para.runs| && j < |para.runs[i].texts|
    ensures TextsBefore(para.runs, i) + j < |ParagraphOps(para, color)|
    ensures ParagraphOps(para, color)[TextsBefore(para.runs, i) + j]
            == Cell(PARAGRAPH_FONT, color, 0.0, 6.0, para.runs[i].texts[j].text, "", 1, "L")
  {
    ParagraphCellAt(para, color, i, j);
    DefaultRunFormatting(color);
    AlignmentCodes(para.alignment);
    UncolouredRunsKeepColor(para.runs, 0, i + 1, color);
  }

  // ---------------------------------------------------------------------
  // Colour state
  // ---------------------------------------------------------------------

  /**
    Runs without a colour of their own leave the colour where the runs
    before them put it: nothing resets it.
   */
  lemma {:induction false} UncolouredRunsKeepColor(runs: seq<Run>, k: nat, n: nat, color: Color)
    requires k <= n <= |runs|
    requires forall i :: k <= i < n ==> runs[i].properties.fontColor == ""
    ensures ColorAfterRuns(runs, n, color) == ColorAfterRuns(runs, k, color)
  {
    if n > k {
      UncolouredRunsKeepColor(runs, k, n - 1, color);
    }
  }

  /** The last run that names a colour decides the colour after the paragraph. */
  lemma {:induction false} LastColourWins(runs: seq<Run>, k: nat, color: Color)
    requires k < |runs| && runs[k].properties.fontColor != ""
    requires forall i :: k < i < |runs| ==> runs[i].properties.fontColor == ""
    ensures ColorAfterRuns(runs, |runs|, color)
            == Color(Scan.ParseHexColor(runs[k].properties.fontColor).0,
                     Scan.ParseHexColor(runs[k].properties.fontColor).1,
                     Scan.ParseHexColor(runs[k].properties.fontColor).2)
  {
    UncolouredRunsKeepColor(runs, k + 1, |runs|, color);
  }

  /** Paragraphs none of whose runs names a colour keep the colour across all of them. */
  lemma {:induction false} UncolouredParagraphsKeepColor(paras: seq<Paragraph>, n: nat, color: Color)
    requires n <= |paras|
    requires forall p, i :: 0 <= p < n && 0 <= i < |paras[p].runs| ==> paras[p].runs[i].properties.fontColor == ""
    ensures ColorAfterParagraphs(paras, n, color) == color
  {
    if n > 0 {
      var runs := paras[n - 1].runs;
      UncolouredParagraphsKeepColor(paras, n - 1, color);
      UncolouredRunsKeepColor(runs, 0, |runs|, color);
    }
  }

  // ---------------------------------------------------------------------
  // Tables
  // ---------------------------------------------------------------------

  /** The number of instructions the first r rows produce: their cells plus one line break each. */
  function RowsBefore(rows: seq<TableRow>, r: nat): nat
    requires r <= |rows|
  {
    if r == 0 then 0 else RowsBefore(rows, r - 1) + |rows[r - 1].cells| + 1
  }

  /** The number of cells in the first r rows. */
  function CellCount(rows: seq<TableRow>, r: nat): nat
    requires r <= |rows|
  {
    if r == 0 then 0 else CellCount(rows, r - 1) + |rows[r - 1].cells|
  }

  /** The number of text cells in an instruction sequence. */
  function CellsIn(ops: seq<Instr>): nat
  {
    if ops == [] then 0 else CellsIn(ops[..|ops| - 1]) + if ops[|ops| - 1].Cell? then 1 else 0
  }

  /** The number of line breaks in an instruction sequence. */
  function BreaksIn(ops: seq<Instr>): nat
  {
    if ops == [] then 0 else BreaksIn(ops[..|ops| - 1]) + if ops[|ops| - 1].LineBreak? then 1 else 0
  }

  lemma {:induction false} CountsAppend(a: seq<Instr>, b: seq<Instr>)
    ensures CellsIn(a + b) == CellsIn(a) + CellsIn(b)
    ensures BreaksIn(a + b) == BreaksIn(a) + BreaksIn(b)
    decreases |b|
  {
    if b == [] {
      assert a + b == a;
    } else {
      assert (a + b)[..|a + b| - 1] == a + b[..|b| - 1];
      CountsAppend(a, b[..|b| - 1]);
    }
  }

  lemma {:induction false} RowCellsAt(cells: seq<TableCell>, n: nat, color: Color)
    requires n <= |cells|
    ensures |RowCells(cells, n, color)| == n
    ensures forall j :: 0 <= j < n ==>
              RowCells(cells, n, color)[j] == Cell(TABLE_FONT, color, 40.0, 10.0, cells[j].text, "1", 0, "C")
  {
    if n > 0 {
      RowCellsAt(cells, n - 1, color);
    }
  }

  lemma CountsOne(op: Instr)
    ensures CellsIn([op]) == if op.Cell? then 1 else 0
    ensures BreaksIn([op]) == if op.LineBreak? then 1 else 0
  {
    assert [op][..0] == [];
  }

  lemma {:induction false} RowCellsCounts(cells: seq<TableCell>, n: nat, color: Color)
    requires n <= |cells|
    ensures CellsIn(RowCells(cells, n, color)) == n && BreaksIn(RowCells(cells, n, color)) == 0
  {
    if n > 0 {
      var cell := Cell(TABLE_FONT, color, 40.0, 10.0, cells[n - 1].text, "1", 0, "C");
      assert RowCells(cells, n, color) == RowCells(cells, n - 1, color) + [cell];
      RowCellsCounts(cells, n - 1, color);
      CountsOne(cell);
      CountsAppend(RowCells(cells, n - 1, color), [cell]);
    }
  }

  lemma {:induction false} RowsLength(rows: seq<TableRow>, n: nat, color: Color)
    requires n <= |rows|
    ensures |RowsOps(rows, n, color)| == RowsBefore(rows, n) == CellCount(rows, n) + n
  {
    if n > 0 {
      RowsLength(rows, n - 1, color);
      RowCellsAt(rows[n - 1].cells, |rows[n - 1].cells|, color);
    }
  }

  /** The first n rows yield as many cells as they have, and one line break per row. */
  lemma {:induction false} RowsCounts(rows: seq<TableRow>, n: nat, color: Color)
    requires n <= |rows|
    ensures CellsIn(RowsOps(rows, n, color)) == CellCount(rows, n)
    ensures BreaksIn(RowsOps(rows, n, color)) == n
  {
    if n > 0 {
      var cells := rows[n - 1].cells;
      var before := RowsOps(rows, n - 1, color);
      var row := RowCells(cells, |cells|, color);
      assert RowsOps(rows, n, color) == before + row + [LineBreak(-1.0)];
      RowsCounts(rows, n - 1, color);
      RowCellsCounts(cells, |cells|, color);
      CountsOne(LineBreak(-1.0));
      CountsAppend(before, row);
      CountsAppend(before + row, [LineBreak(-1.0)]);
    }
  }

  lemma {:induction false} RowsBeforeMonotone(rows: seq<TableRow>, r: nat, n: nat)
    requires r < n <= |rows|
    ensures RowsBefore(rows, r) + |rows[r].cells| < RowsBefore(rows, n)
  {
    if r < n - 1 {
      RowsBeforeMonotone(rows, r, n - 1);
    }
  }

  /**
    `processTable`, position by position: position `RowsBefore(rows, r) + j`
    holds cell j of row r, a bordered,
    centred, non-advancing 40 x 10 cell in the table font and the colour
    in effect; position `RowsBefore(rows, r) + |rows[r].cells|` holds the
    row's `Ln(-1)`.
   */
  lemma RowsOpsPrefix(rows: seq<TableRow>, n: nat, color: Color, k: nat)
    requires 0 < n <= |rows| && k < |RowsOps(rows, n - 1, color)|
    ensures k < |RowsOps(rows, n, color)|
    ensures RowsOps(rows, n, color)[k] == RowsOps(rows, n - 1, color)[k]
  {
  }

  lemma RowsOpLast(rows: seq<TableRow>, n: nat, color: Color, j: nat)
    requires 0 < n <= |rows| && j <= |rows[n - 1].cells|
    ensures RowsBefore(rows, n - 1) + j < |RowsOps(rows, n, color)|
    ensures RowsOps(rows, n, color)[RowsBefore(rows, n - 1) + j]
            == if j < |rows[n - 1].cells| then Cell(TABLE_FONT, color, 40.0, 10.0, rows[n - 1].cells[j].text, "1", 0, "C")
               else LineBreak(-1.0)
  {
    RowsLength(rows, n - 1, color);
    RowCellsAt(rows[n - 1].cells, |rows[n - 1].cells|, color);
  }

  lemma {:induction false} RowsOpAt(rows: seq<TableRow>, n: nat, color: Color, r: nat, j: nat)
    requires n <= |rows| && r < n && j <= |rows[r].cells|
    ensures RowsBefore(rows, r) + j < RowsBefore(rows, n) == |RowsOps(rows, n, color)|
    ensures RowsOps(rows, n, color)[RowsBefore(rows, r) + j]
            == if j < |rows[r].cells| then Cell(TABLE_FONT, color, 40.0, 10.0, rows[r].cells[j].text, "1", 0, "C")
               else LineBreak(-1.0)
  {
    RowsLength(rows, n, color);
    if r < n - 1 {
      RowsOpAt(rows, n - 1, color, r, j);
      RowsOpsPrefix(rows, n, color, RowsBefore(rows, r) + j);
    } else {
      RowsOpLast(rows, n, color, j);
    }
  }

  /** `processTable` emits as many cells as the table holds and one break per row. */
  lemma {:induction false} TableCounts(table: Table, color: Color)
    ensures |TableOps(table, color)| == CellCount(table.rows, |table.rows|) + |table.rows|
    ensures CellsIn(TableOps(table, color)) == CellCount(table.rows, |table.rows|)
    ensures BreaksIn(TableOps(table, color)) == |table.rows|
  {
    RowsLength(table.rows, |table.rows|, color);
    RowsCounts(table.rows, |table.rows|, color);
  }

  // ---------------------------------------------------------------------
  // Drawings
  // ---------------------------------------------------------------------

  /** The first n drawings whose media key is in the image map, in drawing order. */
  function Resolvable(drawings: seq<Drawing>, n: nat, images: map<string, string>): seq<Drawing>
    requires n <= |drawings|
  {
    if n == 0 then []
    else Resolvable(drawings, n - 1, images) + if MediaKey(drawings[n - 1]) in images then [drawings[n - 1]] else []
  }

  /** A drawing is kept exactly when it is among the first n and its key is in the map. */
  lemma {:induction false} ResolvableMembers(drawings: seq<Drawing>, n: nat, images: map<string, string>)
    requires n <= |drawings|
    ensures forall d :: d in Resolvable(drawings, n, images) <==> d in drawings[..n] && MediaKey(d) in images
  {
    if n > 0 {
      ResolvableMembers(drawings, n - 1, images);
      assert drawings[..n] == drawings[..n - 1] + [drawings[n - 1]];
    }
  }

  /**
    One image at (10, 10), 50 x 50, per resolvable drawing, in drawing
    order, placed from the path the map gives for its key.
   */
  lemma {:induction false} DrawingOutput(drawings: seq<Drawing>, n: nat, images: map<string, string>)
    requires n <= |drawings|
    ensures |DrawingOps(drawings, n, images)| == |Resolvable(drawings, n, images)|
    ensures forall k :: 0 <= k < |Resolvable(drawings, n, images)| ==>
              MediaKey(Resolvable(drawings, n, images)[k]) in images
              && DrawingOps(drawings, n, images)[k]
                 == Instr.Image(images[MediaKey(Resolvable(drawings, n, images)[k])], 10.0, 10.0, 50.0, 50.0)
  {
    if n > 0 {
      DrawingOutput(drawings, n - 1, images);
    }
  }

  /** A drawing whose key is in the map is drawn, from the path the map gives. */
  lemma {:induction false} DrawingDrawn(drawings: seq<Drawing>, n: nat, images: map<string, string>, k: nat)
    requires k < n <= |drawings| && MediaKey(drawings[k]) in images
    ensures Instr.Image(images[MediaKey(drawings[k])], 10.0, 10.0, 50.0, 50.0) in DrawingOps(drawings, n, images)
  {
    if k < n - 1 {
      DrawingDrawn(drawings, n - 1, images, k);
    }
  }

  /** The same for a whole document: each drawing with a known key puts its image in the stream. */
  lemma {:induction false} DocumentDrawsImage(doc: Document, images: map<string, string>, k: nat)
    requires k < |doc.drawings| && MediaKey(doc.drawings[k]) in images
    ensures Instr.Image(images[MediaKey(doc.drawings[k])], 10.0, 10.0, 50.0, 50.0) in DocumentOps(doc, images)
  {
    DrawingDrawn(doc.drawings, |doc.drawings|, images, k);
  }

  /** The drawings loop only looks at the drawings it has reached. */
  lemma {:induction false} DrawingOpsPrefix(a: seq<Drawing>, b: seq<Drawing>, n: nat, images: map<string, string>)
    requires n <= |a|
    ensures DrawingOps(a + b, n, images) == DrawingOps(a, n, images)
  {
    if n > 0 {
      DrawingOpsPrefix(a, b, n - 1, images);
      assert (a + b)[n - 1] == a[n - 1];
    }
  }

  lemma {:induction false} DrawingOpsAppend(a: seq<Drawing>, b: seq<Drawing>, n: nat, images: map<string, string>)
    requires n <= |b|
    ensures DrawingOps(a + b, |a| + n, images) == DrawingOps(a, |a|, images) + DrawingOps(b, n, images)
  {
    if n == 0 {
      DrawingOpsPrefix(a, b, |a|, images);
    } else {
      DrawingOpsAppend(a, b, n - 1, images);
      assert (a + b)[|a| + n - 1] == b[n - 1];
    }
  }

  lemma {:induction false} MissingImageAlone(d: Drawing, images: map<string, string>)
    requires MediaKey(d) !in images
    ensures DrawingOps([d], 1, images) == []
  {
    assert DrawingOps([d], 1, images) == DrawingOps([d], 0, images) + DrawingOp(d, images);
  }

  /** The output for two lists of drawings, one after the other. */
  lemma {:induction false} DrawingOpsConcat(a: seq<Drawing>, b: seq<Drawing>, images: map<string, string>)
    ensures DrawingOps(a + b, |a + b|, images) == DrawingOps(a, |a|, images) + DrawingOps(b, |b|, images)
  {
    DrawingOpsAppend(a, b, |b|, images);
  }

  /** A drawing whose key is missing is skipped and changes nothing around it. */
  lemma {:induction false} MissingImageSkipped(before: seq<Drawing>, d: Drawing, after: seq<Drawing>, images: map<string, string>)
    requires MediaKey(d) !in images
    ensures DrawingOps(before + [d] + after, |before + [d] + after|, images)
            == DrawingOps(before + after, |before + after|, images)
  {
    DrawingOpsConcat(before + [d], after, images);
    DrawingOpsConcat(before, [d], images);
    MissingImageAlone(d, images);
    DrawingOpsConcat(before, after, images);
  }

  // ---------------------------------------------------------------------
  // Order of the three categories
  // ---------------------------------------------------------------------

  /**
    Which loop of `createPDF` can have produced an instruction: 0 for a
    paragraph (6-high cells, `Ln(4)`), 1 for a table (10-high cells,
    `Ln(-1)`), 2 for an image.
   */
  function Category(op: Instr): nat
  {
    match op
    case Cell(_, _, _, h, _, _, _, _) => if h == 6.0 then 0 else 1
    case LineBreak(h) => if h == 4.0 then 0 else 1
    case Image(_, _, _, _, _) => 2
  }

  /** Every instruction of `ops` comes from category c. */
  predicate AllOf(ops: seq<Instr>, c: nat)
  {
    ops == [] || (Category(ops[0]) == c && AllOf(ops[1..], c))
  }

  lemma {:induction false} AllOfAt(ops: seq<Instr>, c: nat, k: nat)
    requires AllOf(ops, c) && k < |ops|
    ensures Category(ops[k]) == c
  {
    if k > 0 {
      AllOfAt(ops[1..], c, k - 1);
    }
  }

  lemma {:induction false} AllOfAppend(a: seq<Instr>, b: seq<Instr>, c: nat)
    requires AllOf(a, c) && AllOf(b, c)
    ensures AllOf(a + b, c)
  {
    if a == [] {
      assert a + b == b;
    } else {
      AllOfAppend(a[1..], b, c);
      assert (a + b)[1..] == a[1..] + b;
    }
  }

  lemma AllOfOne(op: Instr)
    ensures AllOf([op], Category(op))
  {
    assert [op][1..] == [];
  }

  lemma {:induction false} FragmentCellsCategory(texts: seq<Text>, n: nat, font: Font, color: Color, align: string)
    requires n <= |texts|
    ensures AllOf(FragmentCells(texts, n, font, color, align), 0)
  {
    if n > 0 {
      var cell := Cell(font, color, 0.0, 6.0, texts[n - 1].text, "", 1, align);
      FragmentCellsCategory(texts, n - 1, font, color, align);
      AllOfOne(cell);
      AllOfAppend(FragmentCells(texts, n - 1, font, color, align), [cell], 0);
    }
  }

  lemma {:induction false} RowCellsCategory(cells: seq<TableCell>, n: nat, color: Color)
    requires n <= |cells|
    ensures AllOf(RowCells(cells, n, color), 1)
  {
    if n > 0 {
      var cell := Cell(TABLE_FONT, color, 40.0, 10.0, cells[n - 1].text, "1", 0, "C");
      RowCellsCategory(cells, n - 1, color);
      AllOfOne(cell);
      AllOfAppend(RowCells(cells, n - 1, color), [cell], 1);
    }
  }

  lemma {:induction false} RunsCellsCategory(runs: seq<Run>, n: nat, align: string, color: Color)
    requires n <= |runs|
    ensures AllOf(RunsCells(runs, n, align, color), 0)
  {
    if n > 0 {
      var run := runs[n - 1];
      RunsCellsCategory(runs, n - 1, align, color);
      FragmentCellsCategory(run.texts, |run.texts|, RunFont(run.properties), ColorAfterRuns(runs, n, color), align);
      AllOfAppend(RunsCells(runs, n - 1, align, color),
                  FragmentCells(run.texts, |run.texts|, RunFont(run.properties), ColorAfterRuns(runs, n, color), align), 0);
    }
  }

  lemma {:induction false} ParagraphCategory(para: Paragraph, color: Color)
    ensures AllOf(ParagraphOps(para, color), 0)
  {
    var cells := RunsCells(para.runs, |para.runs|, Alignment(para.alignment), color);
    RunsCellsCategory(para.runs, |para.runs|, Alignment(para.alignment), color);
    AllOfOne(LineBreak(4.0));
    AllOfAppend(cells, [LineBreak(4.0)], 0);
  }

  lemma {:induction false} ParagraphsCategory(paras: seq<Paragraph>, n: nat, color: Color)
    requires n <= |paras|
    ensures AllOf(ParagraphsOps(paras, n, color), 0)
  {
    if n > 0 {
      ParagraphsCategory(paras, n - 1, color);
      ParagraphsCategoryStep(paras, n, color);
    }
  }

  /** One more paragraph keeps the whole output in the paragraph category. */
  lemma {:induction false} ParagraphsCategoryStep(paras: seq<Paragraph>, n: nat, color: Color)
    requires 0 < n <= |paras|
    requires AllOf(ParagraphsOps(paras, n - 1, color), 0)
    ensures AllOf(ParagraphsOps(paras, n, color), 0)
  {
    var c := ColorAfterParagraphs(paras, n - 1, color);
    ParagraphCategory(paras[n - 1], c);
    AllOfAppend(ParagraphsOps(paras, n - 1, color), ParagraphOps(paras[n - 1], c), 0);
  }

  lemma {:induction false} RowsCategory(rows: seq<TableRow>, n: nat, color: Color)
    requires n <= |rows|
    ensures AllOf(RowsOps(rows, n, color), 1)
  {
    if n > 0 {
      var cells := RowCells(rows[n - 1].cells, |rows[n - 1].cells|, color);
      RowsCategory(rows, n - 1, color);
      RowCellsCategory(rows[n - 1].cells, |rows[n - 1].cells|, color);
      AllOfOne(LineBreak(-1.0));
      AllOfAppend(RowsOps(rows, n - 1, color), cells, 1);
      AllOfAppend(RowsOps(rows, n - 1, color) + cells, [LineBreak(-1.0)], 1);
    }
  }

  lemma {:induction false} TablesCategory(tables: seq<Table>, n: nat, color: Color)
    requires n <= |tables|
    ensures AllOf(TablesOps(tables, n, color), 1)
  {
    if n > 0 {
      TablesCategory(tables, n - 1, color);
      RowsCategory(tables[n - 1].rows, |tables[n - 1].rows|, color);
      AllOfAppend(TablesOps(tables, n - 1, color), TableOps(tables[n - 1], color), 1);
    }
  }

  lemma {:induction false} DrawingsCategory(drawings: seq<Drawing>, n: nat, images: map<string, string>)
    requires n <= |drawings|
    ensures AllOf(DrawingOps(drawings, n, images), 2)
  {
    if n > 0 {
      DrawingsCategory(drawings, n - 1, images);
      if MediaKey(drawings[n - 1]) in images {
        AllOfOne(DrawingOp(drawings[n - 1], images)[0]);
      }
      AllOfAppend(DrawingOps(drawings, n - 1, images), DrawingOp(drawings[n - 1], images), 2);
    }
  }

  lemma {:induction false} ConcatOrder(p: seq<Instr>, t: seq<Instr>, d: seq<Instr>)
    requires AllOf(p, 0) && AllOf(t, 1) && AllOf(d, 2)
    ensures forall i, j :: 0 <= i < j < |p + t + d| ==> Category((p + t + d)[i]) <= Category((p + t + d)[j])
  {
    var ops := p + t + d;
    forall k | 0 <= k < |ops|
      ensures Category(ops[k]) == if k < |p| then 0 else if k < |p| + |t| then 1 else 2
    {
      if k < |p| {
        assert ops[k] == p[k];
        AllOfAt(p, 0, k);
      } else if k < |p| + |t| {
        assert ops[k] == t[k - |p|];
        AllOfAt(t, 1, k - |p|);
      } else {
        assert ops[k] == d[k - |p| - |t|];
        AllOfAt(d, 2, k - |p| - |t|);
      }
    }
  }

  /**
    `createPDF` draws every paragraph before any table and every table
    before any image, whatever the order of the content in the document.
   */
  lemma {:induction false} DocumentOrder(doc: Document, images: map<string, string>)
    ensures forall i, j :: 0 <= i < j < |DocumentOps(doc, images)| ==>
              Category(DocumentOps(doc, images)[i]) <= Category(DocumentOps(doc, images)[j])
  {
    var color := ColorAfterParagraphs(doc.paragraphs, |doc.paragraphs|, BLACK);
    ParagraphsCategory(doc.paragraphs, |doc.paragraphs|, BLACK);
    TablesCategory(doc.tables, |doc.tables|, color);
    DrawingsCategory(doc.drawings, |doc.drawings|, images);
    ConcatOrder(ParagraphsOps(doc.paragraphs, |doc.paragraphs|, BLACK),
                TablesOps(doc.tables, |doc.tables|, color),
                DrawingOps(doc.drawings, |doc.drawings|, images));
  }

  // ---------------------------------------------------------------------
  // Scenarios
  // ---------------------------------------------------------------------

  /**
    A centred paragraph with a bold run "Hello, " and an italic run
    "world." gives two centred cells, bold then italic, then one advance.
   */
  lemma {:induction false} HelloWorld(color: Color)
    ensures ParagraphOps(Paragraph("center", [Run(RunProperties(true, false, "", ""), [Text("Hello, ")]),
                                              Run(RunProperties(false, true, "", ""), [Text("world.")])]), color)
            == [Cell(Font("Arial", "B", 12.0), color, 0.0, 6.0, "Hello, ", "", 1, "C"),
                Cell(Font("Arial", "I", 12.0), color, 0.0, 6.0, "world.", "", 1, "C"),
                LineBreak(4.0)]
  {
    var hello := Run(RunProperties(true, false, "", ""), [Text("Hello, ")]);
    var world := Run(RunProperties(false, true, "", ""), [Text("world.")]);
    var runs := [hello, world];
    var bold := Font("Arial", "B", 12.0);
    var italic := Font("Arial", "I", 12.0);
    assert FontSize("") == 12.0;
    assert RunFont(hello.properties) == bold;
    assert RunFont(world.properties) == italic;
    assert ColorAfterRuns(runs, 1, color) == color;
    assert ColorAfterRuns(runs, 2, color) == color;
    assert FragmentCells(hello.texts, 1, bold, color, "C") == [Cell(bold, color, 0.0, 6.0, "Hello, ", "", 1, "C")];
    assert FragmentCells(world.texts, 1, italic, color, "C") == [Cell(italic, color, 0.0, 6.0, "world.", "", 1, "C")];
    assert RunsCells(runs, 1, "C", color) == [Cell(bold, color, 0.0, 6.0, "Hello, ", "", 1, "C")];
    assert RunsCells(runs, 2, "C", color) == [Cell(bold, color, 0.0, 6.0, "Hello, ", "", 1, "C"),
                                              Cell(italic, color, 0.0, 6.0, "world.", "", 1, "C")];
  }

  /** A table with rows A, B and C, D gives four cells in row-major order, a break after each row. */
  lemma {:induction false} TwoByTwoTable(color: Color)
    ensures TableOps(Table([TableRow([TableCell("A"), TableCell("B")]), TableRow([TableCell("C"), TableCell("D")])]), color)
            == [Cell(TABLE_FONT, color, 40.0, 10.0, "A", "1", 0, "C"),
                Cell(TABLE_FONT, color, 40.0, 10.0, "B", "1", 0, "C"),
                LineBreak(-1.0),
                Cell(TABLE_FONT, color, 40.0, 10.0, "C", "1", 0, "C"),
                Cell(TABLE_FONT, color, 40.0, 10.0, "D", "1", 0, "C"),
                LineBreak(-1.0)]
  {
    var row1 := TableRow([TableCell("A"), TableCell("B")]);
    var row2 := TableRow([TableCell("C"), TableCell("D")]);
    assert RowCells(row1.cells, 1, color) == [Cell(TABLE_FONT, color, 40.0, 10.0, "A", "1", 0, "C")];
    assert RowCells(row2.cells, 1, color) == [Cell(TABLE_FONT, color, 40.0, 10.0, "C", "1", 0, "C")];
    assert RowCells(row1.cells, 2, color) == [Cell(TABLE_FONT, color, 40.0, 10.0, "A", "1", 0, "C"),
                                              Cell(TABLE_FONT, color, 40.0, 10.0, "B", "1", 0, "C")];
    assert RowCells(row2.cells, 2, color) == [Cell(TABLE_FONT, color, 40.0, 10.0, "C", "1", 0, "C"),
                                              Cell(TABLE_FONT, color, 40.0, 10.0, "D", "1", 0, "C")];
    assert RowsOps([row1, row2], 1, color) == RowCells(row1.cells, 2, color) + [LineBreak(-1.0)];
    assert RowsOps([row1, row2], 2, color) == RowsOps([row1, row2], 1, color) + RowCells(row2.cells, 2, color) + [LineBreak(-1.0)];
  }

  /**
    A drawing "rId5" is placed when the map has the key "word/media/rId5";
    a map keyed by the media file name "word/media/image1.png" places nothing.
   */
  lemma {:induction false} ImageLookup(path: string)
    ensures DrawingOps([Drawing(ImageRef("rId5"))], 1, map["word/media/rId5" := path])
            == [Instr.Image(path, 10.0, 10.0, 50.0, 50.0)]
    ensures DrawingOps([Drawing(ImageRef("rId5"))], 1, map["word/media/image1.png" := path]) == []
  {
    assert MediaKey(Drawing(ImageRef("rId5"))) == "word/media/rId5";
    assert "word/media/rId5" != "word/media/image1.png" by {
      assert "word/media/rId5"[11] != "word/media/image1.png"[11];
    }
  }

  /**
    The colour a paragraph's run sets carries into the tables drawn after
    it: a red run makes the following table's cells red.
   */
  lemma {:induction false} ColourLeaksIntoTables(text: string, cell: string)
    ensures DocumentOps(Document([Paragraph("", [Run(RunProperties(false, false, "", "ff0000"), [Text(text)])])],
                                 [Table([TableRow([TableCell(cell)])])], []), map[])[2]
            == Cell(TABLE_FONT, Color(255, 0, 0), 40.0, 10.0, cell, "1", 0, "C")
  {
    var run := Run(RunProperties(false, false, "", "ff0000"), [Text(text)]);
    var para := Paragraph("", [run]);
    var table := Table([TableRow([TableCell(cell)])]);
    var red := Color(255, 0, 0);
    RedParagraph(run, para);
    SingleCellTable(table, cell, red);
    var p := ParagraphsOps([para], 1, BLACK);
    assert |p| == 2;
    assert DocumentOps(Document([para], [table], []), map[]) == p + TablesOps([table], 1, red) + [];
  }

  lemma {:induction false} RedParagraph(run: Run, para: Paragraph)
    requires run == Run(RunProperties(false, false, "", "ff0000"), run.texts) && |run.texts| == 1
    requires para == Paragraph("", [run])
    ensures ColorAfterParagraphs([para], 1, BLACK) == Color(255, 0, 0)
    ensures |ParagraphsOps([para], 1, BLACK)| == 2
  {
    RedRun(run.properties);
    assert ColorAfterRuns(para.runs, 1, BLACK) == Color(255, 0, 0);
    ParagraphOutput(para, BLACK);
    assert ParagraphsOps([para], 1, BLACK) == ParagraphOps(para, BLACK);
  }

  lemma {:induction false} RedRun(props: RunProperties)
    requires props.fontColor == "ff0000"
    ensures RunColor(props, BLACK) == Color(255, 0, 0)
  {
    Scan.ParseSixHexDigits("ff0000");
  }

  lemma {:induction false} SingleCellTable(table: Table, cell: string, color: Color)
    requires table == Table([TableRow([TableCell(cell)])])
    ensures TablesOps([table], 1, color) == [Cell(TABLE_FONT, color, 40.0, 10.0, cell, "1", 0, "C"), LineBreak(-1.0)]
  {
    var row := table.rows[0];
    assert RowCells(row.cells, 1, color) == [Cell(TABLE_FONT, color, 40.0, 10.0, cell, "1", 0, "C")];
    assert RowsOps(table.rows, 1, color) == RowCells(row.cells, 1, color) + [LineBreak(-1.0)];
    assert TablesOps([table], 1, color) == TableOps(table, color);
  }
}

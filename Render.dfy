/**
  The renderer of `docx-to-pdf.go`: `setFontFromRun`, `processParagraph`,
  `processTable` and the three loops of `createPDF`, run against the
  abstract canvas. Each method is specified by a function giving the
  instructions it appends and the font and colour it leaves behind.

  The specification functions describe the first n elements of a sequence,
  which is what a loop has done after n iterations.
 */
module Render {
  import opened DocModel
  import opened PdfCanvas
  import opened Formatting
  import Scan
  import Archive

  /** The font `processParagraph` selects before the first run. */
  const PARAGRAPH_FONT := Font(FONT_FAMILY, "", 12.0)

  /** The font `processTable` selects for every cell. */
  const TABLE_FONT := Font(FONT_FAMILY, "", 10.0)

  // ---------------------------------------------------------------------
  // Specification functions
  // ---------------------------------------------------------------------

  /** One full-width, 6-unit-high, line-advancing cell per fragment of the first n, in order. */
  function FragmentCells(texts: seq<Text>, n: nat, font: Font, color: Color, align: string): seq<Instr>
    requires n <= |texts|
  {
    if n == 0 then []
    else FragmentCells(texts, n - 1, font, color, align) + [Cell(font, color, 0.0, 6.0, texts[n - 1].text, "", 1, align)]
  }

  /** The text colour after `setFontFromRun` has been applied to each of the first n runs in turn. */
  function ColorAfterRuns(runs: seq<Run>, n: nat, color: Color): Color
    requires n <= |runs|
  {
    if n == 0 then color else RunColor(runs[n - 1].properties, ColorAfterRuns(runs, n - 1, color))
  }

  /** The cells of the first n runs, each run drawn with its own font and the colour in effect. */
  function RunsCells(runs: seq<Run>, n: nat, align: string, color: Color): seq<Instr>
    requires n <= |runs|
  {
    if n == 0 then []
    else
      var run := runs[n - 1];
      RunsCells(runs, n - 1, align, color)
      + FragmentCells(run.texts, |run.texts|, RunFont(run.properties), ColorAfterRuns(runs, n, color), align)
  }

  /** What `processParagraph` appends, given the colour in effect before it. */
  function ParagraphOps(para: Paragraph, color: Color): seq<Instr>
  {
    RunsCells(para.runs, |para.runs|, Alignment(para.alignment), color) + [LineBreak(4.0)]
  }

  /** The font in effect after `processParagraph`. */
  function FontAfterParagraph(para: Paragraph): Font
  {
    if para.runs == [] then PARAGRAPH_FONT else RunFont(para.runs[|para.runs| - 1].properties)
  }

  /** The text colour after the first n paragraphs. */
  function ColorAfterParagraphs(paras: seq<Paragraph>, n: nat, color: Color): Color
    requires n <= |paras|
  {
    if n == 0 then color
    else ColorAfterRuns(paras[n - 1].runs, |paras[n - 1].runs|, ColorAfterParagraphs(paras, n - 1, color))
  }

  /** What the paragraph loop of `createPDF` appends for the first n paragraphs. */
  function ParagraphsOps(paras: seq<Paragraph>, n: nat, color: Color): seq<Instr>
    requires n <= |paras|
  {
    if n == 0 then []
    else ParagraphsOps(paras, n - 1, color) + ParagraphOps(paras[n - 1], ColorAfterParagraphs(paras, n - 1, color))
  }

  /** One bordered 40 x 10 centred cell per table cell of the first n, without line advance. */
  function RowCells(cells: seq<TableCell>, n: nat, color: Color): seq<Instr>
    requires n <= |cells|
  {
    if n == 0 then []
    else RowCells(cells, n - 1, color) + [Cell(TABLE_FONT, color, 40.0, 10.0, cells[n - 1].text, "1", 0, "C")]
  }

  /** The first n rows, each closed by `Ln(-1)`. */
  function RowsOps(rows: seq<TableRow>, n: nat, color: Color): seq<Instr>
    requires n <= |rows|
  {
    if n == 0 then []
    else RowsOps(rows, n - 1, color) + RowCells(rows[n - 1].cells, |rows[n - 1].cells|, color) + [LineBreak(-1.0)]
  }

  /** What `processTable` appends, in the colour in effect. */
  function TableOps(table: Table, color: Color): seq<Instr>
  {
    RowsOps(table.rows, |table.rows|, color)
  }

  /** What the table loop of `createPDF` appends for the first n tables. */
  function TablesOps(tables: seq<Table>, n: nat, color: Color): seq<Instr>
    requires n <= |tables|
  {
    if n == 0 then [] else TablesOps(tables, n - 1, color) + TableOps(tables[n - 1], color)
  }

  /** The image-map key a drawing is looked up under. */
  function MediaKey(d: Drawing): string
  {
    Archive.MEDIA_PREFIX + d.image.id
  }

  /** The placement of a drawing: an image at (10, 10), 50 x 50, when its key is in the map; nothing otherwise. */
  function DrawingOp(d: Drawing, images: map<string, string>): seq<Instr>
  {
    if MediaKey(d) in images then [Instr.Image(images[MediaKey(d)], 10.0, 10.0, 50.0, 50.0)] else []
  }

  /** What the drawing loop of `createPDF` appends for the first n drawings. */
  function DrawingOps(drawings: seq<Drawing>, n: nat, images: map<string, string>): seq<Instr>
    requires n <= |drawings|
  {
    if n == 0 then [] else DrawingOps(drawings, n - 1, images) + DrawingOp(drawings[n - 1], images)
  }

  /** The three rendering loops of `createPDF`, entered with the given text colour. */
  function RenderOps(doc: Document, images: map<string, string>, color: Color): seq<Instr>
  {
    ParagraphsOps(doc.paragraphs, |doc.paragraphs|, color)
    + TablesOps(doc.tables, |doc.tables|, ColorAfterParagraphs(doc.paragraphs, |doc.paragraphs|, color))
    + DrawingOps(doc.drawings, |doc.drawings|, images)
  }

  /** The whole instruction stream of `createPDF`, starting from a fresh canvas. */
  function DocumentOps(doc: Document, images: map<string, string>): seq<Instr>
  {
    RenderOps(doc, images, BLACK)
  }

  /** Appending to a log that already extends start by done. */
  lemma AppendStep(start: seq<Instr>, mid: seq<Instr>, log: seq<Instr>, done: seq<Instr>, next: seq<Instr>)
    requires mid == start + done && log == mid + next
    ensures log == start + (done + next)
  {
  }

  lemma AppendThree(start: seq<Instr>, p: seq<Instr>, t: seq<Instr>, d: seq<Instr>)
    ensures start + p + t + d == start + (p + t + d)
  {
  }

  // ---------------------------------------------------------------------
  // The renderer
  // ---------------------------------------------------------------------

  /** `setFontFromRun`: selects the run's font; changes the colour only when the run names one. */
  method SetFontFromRun(pdf: Canvas, run: Run)
    modifies pdf
    ensures pdf.font == RunFont(run.properties)
    ensures pdf.textColor == RunColor(run.properties, old(pdf.textColor))
    ensures pdf.log == old(pdf.log)
  {
    var props := run.properties;
    pdf.SetFont(FONT_FAMILY, FontStyle(props.bold, props.italic), FontSize(props.fontSize));
    if props.fontColor != "" {
      var (r, g, b) := Scan.ParseHexColor(props.fontColor);
      pdf.SetTextColor(r, g, b);
    }
  }

  /** The inner loop of `processParagraph`: one line-feeding cell per text fragment of a run. */
  method RenderFragments(pdf: Canvas, texts: seq<Text>, align: string)
    modifies pdf
    ensures pdf.log == old(pdf.log) + FragmentCells(texts, |texts|, old(pdf.font), old(pdf.textColor), align)
    ensures pdf.font == old(pdf.font) && pdf.textColor == old(pdf.textColor)
  {
    for j := 0 to |texts|
      invariant pdf.log == old(pdf.log) + FragmentCells(texts, j, old(pdf.font), old(pdf.textColor), align)
      invariant pdf.font == old(pdf.font) && pdf.textColor == old(pdf.textColor)
    {
      pdf.CellFormat(0.0, 6.0, texts[j].text, "", 1, align);
    }
  }

  /** `processParagraph`. */
  method ProcessParagraph(pdf: Canvas, para: Paragraph)
    modifies pdf
    ensures pdf.log == old(pdf.log) + ParagraphOps(para, old(pdf.textColor))
    ensures pdf.textColor == ColorAfterRuns(para.runs, |para.runs|, old(pdf.textColor))
    ensures pdf.font == FontAfterParagraph(para)
  {
    var align := Alignment(para.alignment);
    pdf.SetFont(FONT_FAMILY, "", 12.0);
    for i := 0 to |para.runs|
      invariant pdf.log == old(pdf.log) + RunsCells(para.runs, i, align, old(pdf.textColor))
      invariant pdf.textColor == ColorAfterRuns(para.runs, i, old(pdf.textColor))
      invariant pdf.font == if i == 0 then PARAGRAPH_FONT else RunFont(para.runs[i - 1].properties)
    {
      var run := para.runs[i];
      SetFontFromRun(pdf, run);
      ghost var mid := pdf.log;
      RenderFragments(pdf, run.texts, align);
      AppendStep(old(pdf.log), mid, pdf.log, RunsCells(para.runs, i, align, old(pdf.textColor)),
                 FragmentCells(run.texts, |run.texts|, pdf.font, pdf.textColor, align));
    }
    pdf.Ln(4.0);
  }

  /** One row of `processTable`: a bordered, centred 40 x 10 cell per table cell, then a line break. */
  method RenderRow(pdf: Canvas, row: TableRow)
    requires pdf.font == TABLE_FONT
    modifies pdf
    ensures pdf.log == old(pdf.log) + RowCells(row.cells, |row.cells|, old(pdf.textColor)) + [LineBreak(-1.0)]
    ensures pdf.font == old(pdf.font) && pdf.textColor == old(pdf.textColor)
  {
    for j := 0 to |row.cells|
      invariant pdf.log == old(pdf.log) + RowCells(row.cells, j, old(pdf.textColor))
      invariant pdf.font == old(pdf.font) && pdf.textColor == old(pdf.textColor)
    {
      pdf.CellFormat(40.0, 10.0, row.cells[j].text, "1", 0, "C");
    }
    pdf.Ln(-1.0);
  }

  /** `processTable`. */
  method ProcessTable(pdf: Canvas, table: Table)
    modifies pdf
    ensures pdf.log == old(pdf.log) + TableOps(table, old(pdf.textColor))
    ensures pdf.textColor == old(pdf.textColor)
    ensures pdf.font == TABLE_FONT
  {
    pdf.SetFont(FONT_FAMILY, "", 10.0);
    for i := 0 to |table.rows|
      invariant pdf.log == old(pdf.log) + RowsOps(table.rows, i, old(pdf.textColor))
      invariant pdf.textColor == old(pdf.textColor) && pdf.font == TABLE_FONT
    {
      RenderRow(pdf, table.rows[i]);
    }
  }

  /** The paragraph loop of `createPDF`. */
  method RenderParagraphs(pdf: Canvas, paras: seq<Paragraph>)
    modifies pdf
    ensures pdf.log == old(pdf.log) + ParagraphsOps(paras, |paras|, old(pdf.textColor))
    ensures pdf.textColor == ColorAfterParagraphs(paras, |paras|, old(pdf.textColor))
    ensures pdf.font == if paras == [] then old(pdf.font) else FontAfterParagraph(paras[|paras| - 1])
  {
    for i := 0 to |paras|
      invariant pdf.log == old(pdf.log) + ParagraphsOps(paras, i, old(pdf.textColor))
      invariant pdf.textColor == ColorAfterParagraphs(paras, i, old(pdf.textColor))
      invariant pdf.font == if i == 0 then old(pdf.font) else FontAfterParagraph(paras[i - 1])
    {
      ghost var mid := pdf.log;
      ProcessParagraph(pdf, paras[i]);
      AppendStep(old(pdf.log), mid, pdf.log, ParagraphsOps(paras, i, old(pdf.textColor)),
                 ParagraphOps(paras[i], ColorAfterParagraphs(paras, i, old(pdf.textColor))));
    }
  }

  /** The table loop of `createPDF`. */
  method RenderTables(pdf: Canvas, tables: seq<Table>)
    modifies pdf
    ensures pdf.log == old(pdf.log) + TablesOps(tables, |tables|, old(pdf.textColor))
    ensures pdf.textColor == old(pdf.textColor)
    ensures pdf.font == if tables == [] then old(pdf.font) else TABLE_FONT
  {
    for i := 0 to |tables|
      invariant pdf.log == old(pdf.log) + TablesOps(tables, i, old(pdf.textColor))
      invariant pdf.textColor == old(pdf.textColor)
      invariant pdf.font == if i == 0 then old(pdf.font) else TABLE_FONT
    {
      ghost var mid := pdf.log;
      ProcessTable(pdf, tables[i]);
      AppendStep(old(pdf.log), mid, pdf.log, TablesOps(tables, i, old(pdf.textColor)), TableOps(tables[i], old(pdf.textColor)));
    }
  }

  /** The drawing loop of `createPDF`. */
  method RenderDrawings(pdf: Canvas, drawings: seq<Drawing>, images: map<string, string>)
    modifies pdf
    ensures pdf.log == old(pdf.log) + DrawingOps(drawings, |drawings|, images)
    ensures pdf.font == old(pdf.font) && pdf.textColor == old(pdf.textColor)
  {
    for i := 0 to |drawings|
      invariant pdf.log == old(pdf.log) + DrawingOps(drawings, i, images)
      invariant pdf.font == old(pdf.font) && pdf.textColor == old(pdf.textColor)
    {
      var key := MediaKey(drawings[i]);
      if key in images {
        var imgPath := images[key];
        pdf.Image(imgPath, 10.0, 10.0, 50.0, 50.0);
      }
    }
  }

  /** The three rendering loops of `createPDF`, on a canvas already in use. */
  method RenderDocument(pdf: Canvas, doc: Document, images: map<string, string>)
    modifies pdf
    ensures pdf.log == old(pdf.log) + RenderOps(doc, images, old(pdf.textColor))
    ensures pdf.textColor == ColorAfterParagraphs(doc.paragraphs, |doc.paragraphs|, old(pdf.textColor))
    ensures pdf.font == if doc.tables != [] then TABLE_FONT
                        else if doc.paragraphs != [] then FontAfterParagraph(doc.paragraphs[|doc.paragraphs| - 1])
                        else old(pdf.font)
  {
    ghost var start := pdf.log;
    ghost var color := pdf.textColor;
    ghost var p := ParagraphsOps(doc.paragraphs, |doc.paragraphs|, color);
    ghost var t := TablesOps(doc.tables, |doc.tables|, ColorAfterParagraphs(doc.paragraphs, |doc.paragraphs|, color));
    ghost var d := DrawingOps(doc.drawings, |doc.drawings|, images);
    RenderParagraphs(pdf, doc.paragraphs);
    RenderTables(pdf, doc.tables);
    RenderDrawings(pdf, doc.drawings, images);
    AppendThree(start, p, t, d);
  }

  /** `createPDF` from the parsed document on: a fresh canvas, then the three loops. */
  method CreatePdf(doc: Document, images: map<string, string>) returns (log: seq<Instr>)
    ensures log == DocumentOps(doc, images)
  {
    var pdf := new Canvas();
    RenderDocument(pdf, doc, images);
    log := pdf.log;
    assert [] + DocumentOps(doc, images) == DocumentOps(doc, images);
  }
}

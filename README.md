# docx-to-pdf in Dafny

A model of the converter in `docx-to-pdf.go` (ryugenxd/docx-to-pdf). It
covers the part that turns a Word package into PDF drawing calls:

- **Package.** The text of `word/document.xml` is read, and every
  `word/media/` entry is copied into a temporary directory. The result is a
  map from entry name to the copy's path.
- **Run formatting.** Bold and italic become a style string. `sz` is in
  half-points and becomes the point size; its text is parsed with a decimal
  parser. `color` is parsed with `Sscanf("%02x%02x%02x")`.
- **Paragraphs and tables.** These become cells and line advances on the
  canvas.
- **The three loops of `createPDF`.** All paragraphs come first, then all
  tables, then one image for each drawing whose `"word/media/" + ID` key is
  in the image map.
- **`ConvertFile`.** It puts these stages together and stops at the first
  error.

The gofpdf canvas is a class, `PdfCanvas.Canvas`. Its fields are the
current font, the current text colour and an append-only log of the
instructions drawn (`Cell`, `LineBreak`, `Image`). The canvas records the
calls the renderer makes: each cell carries the arguments of the last
`SetFont` call and of the last `SetTextColor` call.

The renderer's loops are methods on that canvas. Each one is proved against
a specification function that takes the first n elements, for example
`ParagraphsOps(paras, n, color)` or `RowsOps(rows, n, color)`. Lemmas in
`RenderProps` then state what those functions produce: where every fragment
and table cell lands, how the colour carries over, the counts, and the
order.

The archive is a sequence of entries. Each entry has a name and either its
bytes or `None` when it cannot be opened or read. The temporary directory
is a string parameter. Decoding the XML document tree is a parameter of
`ConvertFile`.

Files:

- `Wrappers.dfy`: Option and Result.
- `DocModel.dfy`: the document structs.
- `PdfCanvas.dfy`: the canvas.
- `Scan.dfy`: the `sz` decimal parser and the `%02x` colour scanner.
- `Formatting.dfy`: `setFontFromRun`'s values and `setParagraphAlignment`.
- `Render.dfy`: `processParagraph`, `processTable` and `createPDF`.
- `RenderProps.dfy`: properties of the rendered output.
- `Archive.dfy`: `extractTextFromDocx` and `extractImagesFromDocx`.
- `Convert.dfy`: `ConvertFile`.

Edge behaviour of the code, each stated by a lemma:

- For a `sz` of "0", `setFontFromRun` passes size 0 to `SetFont`, and for a
  negative `sz` it passes a negative size. It does not substitute 12 itself
  (`FontSizeNotClamped`).
- A malformed colour still changes the text colour. Word's "auto" gives
  (10, 0, 0) (`AutoColorIsNotBlack`).
- A package without `word/document.xml` is not an error in
  `extractTextFromDocx`. It yields empty text (`DocumentXmlMissing`).
  Go's `xml.Unmarshal` reports `io.EOF` on empty input, so the conversion
  then fails (`MissingDocumentFails`).
- The colour set by the last coloured run of the paragraphs stays in effect
  for every table (`ColourLeaksIntoTables`).
- Drawings are looked up by their embed identifier, not by media file name
  (`ImageLookup`).

## Model

| member | source | states |
|---|---|---|
| PdfCanvas.Canvas.constructor | docx-to-pdf.go:191-192 | a new canvas has drawn nothing and writes in black |
| PdfCanvas.Canvas.SetFont | docx-to-pdf.go:106 | selects the font; colour and drawn output unchanged |
| PdfCanvas.Canvas.SetTextColor | docx-to-pdf.go:108 | selects the text colour; font and drawn output unchanged |
| PdfCanvas.Canvas.CellFormat | docx-to-pdf.go:136 | appends one cell carrying the current font and colour; nothing else changes |
| PdfCanvas.Canvas.Ln | docx-to-pdf.go:140 | appends one line advance of the given height; nothing else changes |
| PdfCanvas.Canvas.Image | docx-to-pdf.go:154-156 | appends one image placement; font and colour unchanged |
| Formatting.FontStyle | docx-to-pdf.go:91-97 | the style passed to `SetFont` is one of "", "B", "I" and "BI" |
| Formatting.FontStyleLetters | docx-to-pdf.go:91-97 | the style holds B iff bold and I iff italic, with B first |
| Formatting.FontSize | docx-to-pdf.go:98-105 | a negative size arises only from a `sz` written with a leading minus sign |
| Formatting.FontSizeCases | docx-to-pdf.go:98-105 | a `sz` that is empty or outside the decimal syntax gives 12 points; one inside it parses, and the size is half the number |
| Formatting.FontSizeOfDigits | docx-to-pdf.go:98-105 | a `sz` of decimal digits n gives n/2 points |
| Formatting.FontSizeNotClamped | docx-to-pdf.go:98-105 | "0" gives size 0 and "-4" gives -2: zero and negative sizes are not replaced by the default |
| Formatting.DefaultRunFormatting | docx-to-pdf.go:90-110 | a run without properties gets Arial, no style, 12 points, and the colour is left as it was |
| Formatting.AutoColorIsNotBlack | docx-to-pdf.go:107-116 | any non-empty colour value changes the colour: "auto" gives (10, 0, 0) |
| Formatting.RunColorReplaces | docx-to-pdf.go:107-109 | a run without a colour keeps the current one; a run with one replaces it regardless of what it was, with each component in -15..255 |
| Formatting.Alignment | docx-to-pdf.go:118-127 | the alignment code is always one of L, C and R |
| Formatting.AlignmentCodes | docx-to-pdf.go:118-127 | "center" maps to C and "right" to R; every other value, "left" and "" included, maps to L |
| Scan.ParseDecimalAccepts | docx-to-pdf.go:101 | the size parser accepts exactly an optional sign, then digits with at most one point, with at least one digit |
| Scan.ParseDecimalOfDigits | docx-to-pdf.go:101 | a string of decimal digits parses to its value |
| Scan.ParseDecimalRoundTrip | docx-to-pdf.go:101 | the decimal numeral of n parses back to n |
| Scan.ScanTwoHexDigits | docx-to-pdf.go:114 | a `%02x` field over two hex digits yields 16*high + low and moves on two characters |
| Scan.ParseSixHexDigits | docx-to-pdf.go:112-116 | six leading hex digits give the three two-digit values, each in 0..255 |
| Scan.ParseHexColor | docx-to-pdf.go:112-116 | each of the three components lies in -15..255: a field has at most two characters, and a sign takes one of them |
| Scan.ParseHexColorNoField | docx-to-pdf.go:112-116 | when the first field cannot be scanned, all three components stay 0 |
| Scan.ParseHexColorSecondFieldFails | docx-to-pdf.go:112-116 | when the second field fails, R holds the first field and G and B stay 0 |
| Scan.ParseHexColorThirdFieldFails | docx-to-pdf.go:112-116 | when the third field fails, R and G hold the first two fields and B stays 0 |
| Scan.ParseHexColorRoundTrip | docx-to-pdf.go:112-116 | three bytes written as two hex digits each parse back to the same bytes |
| Render.SetFontFromRun | docx-to-pdf.go:90-110 | selects the run's font; changes the colour only when the run names one; draws nothing |
| Render.RenderFragments | docx-to-pdf.go:135-137 | appends the cells of the run's fragments in order; font and colour unchanged |
| Render.ProcessParagraph | docx-to-pdf.go:129-141 | appends the paragraph's cells and its line advance; leaves the colour set by its runs and the font of its last run |
| Render.RenderRow | docx-to-pdf.go:147-150 | appends one cell per table cell and then `Ln(-1)`; font and colour unchanged |
| Render.ProcessTable | docx-to-pdf.go:143-152 | appends the table's rows; leaves Arial 10 selected and the colour unchanged |
| Render.RenderParagraphs | docx-to-pdf.go:200-202 | appends every paragraph in order, each one starting from the colour the previous one left; leaves the font of the last paragraph, or the old font when there is none |
| Render.RenderTables | docx-to-pdf.go:204-206 | appends every table in order; the colour is unchanged; leaves Arial 10 when there is a table, else the old font |
| Render.RenderDrawings | docx-to-pdf.go:208-213 | appends an image for each drawing whose key is in the map, in order; nothing else changes |
| Render.RenderDocument | docx-to-pdf.go:200-213 | appends paragraphs, then tables drawn in the colour the paragraphs left, then images; the font left is Arial 10 after tables, else that of the last paragraph, else the old one |
| Render.CreatePdf | docx-to-pdf.go:190-213 | a fresh canvas ends up holding exactly the document's instruction stream |
| RenderProps.FragmentCellsAt | docx-to-pdf.go:135-137 | one cell per fragment, in order: width 0, height 6, no border, advancing a line, in the paragraph's alignment |
| RenderProps.RunsCellAt | docx-to-pdf.go:133-138 | fragment j of run i sits after the fragments of the earlier runs, in run i's font and the colour after runs 0..i |
| RenderProps.ParagraphCellAt | docx-to-pdf.go:129-141 | the same position and cell within a paragraph's output, in the paragraph's alignment code |
| RenderProps.FragmentCellsCounts | docx-to-pdf.go:135-137 | a run's output holds one cell per fragment and no line break |
| RenderProps.RunsCellsCounts | docx-to-pdf.go:133-138 | the runs' output holds one cell per fragment of all runs and no line break |
| RenderProps.ParagraphOutput | docx-to-pdf.go:133-140 | a paragraph's output is its fragment cells followed by exactly one `Ln(4)`: one cell per fragment, one line break, nothing else |
| RenderProps.EmptyParagraph | docx-to-pdf.go:129-141 | a paragraph without runs draws only `Ln(4)` and leaves Arial 12 selected |
| RenderProps.PlainParagraph | docx-to-pdf.go:130-136 | unformatted runs in a left-aligned paragraph draw in Arial 12, no style, the inherited colour, aligned L |
| RenderProps.UncolouredRunsKeepColor | docx-to-pdf.go:107-109 | runs without a colour leave the text colour as it was |
| RenderProps.LastColourWins | docx-to-pdf.go:107-109 | after a run sequence, the colour is the parsed colour of its last coloured run |
| RenderProps.UncolouredParagraphsKeepColor | docx-to-pdf.go:200-202 | paragraphs without any coloured run leave the starting colour |
| RenderProps.RowCellsAt | docx-to-pdf.go:147-149 | cell j of a row is a 40 x 10 bordered, non-advancing, centred cell in Arial 10 holding the cell's text |
| RenderProps.RowCellsCounts | docx-to-pdf.go:147-149 | a row draws one cell per table cell and no line advance |
| RenderProps.RowsLength | docx-to-pdf.go:146-151 | a table's output is as long as its cell count plus its row count |
| RenderProps.RowsCounts | docx-to-pdf.go:146-151 | the rows draw exactly as many cells as they have, and one line advance per row |
| RenderProps.RowsOpAt | docx-to-pdf.go:146-151 | position by position, row-major: cell j of row r follows the earlier rows, and `Ln(-1)` closes each row |
| RenderProps.TableCounts | docx-to-pdf.go:143-152 | a table draws one cell per table cell and one `Ln(-1)` per row |
| RenderProps.ResolvableMembers | docx-to-pdf.go:208-213 | a drawing yields an image exactly when its media key is in the map |
| RenderProps.DrawingOutput | docx-to-pdf.go:208-213 | one image at (10, 10), 50 x 50, for each resolvable drawing in order, from the mapped path |
| RenderProps.DrawingDrawn | docx-to-pdf.go:208-213 | a drawing whose key is in the map has its image in the output |
| RenderProps.DocumentDrawsImage | docx-to-pdf.go:200-213 | the same for a whole document's stream |
| RenderProps.MissingImageSkipped | docx-to-pdf.go:208-213 | removing a drawing whose key is missing changes nothing in the output |
| RenderProps.ImageLookup | docx-to-pdf.go:208-213 | drawing "rId5" is placed when "word/media/rId5" is a key, and not when the key is "word/media/image1.png" |
| RenderProps.ParagraphsCategory | docx-to-pdf.go:200-202 | the paragraph loop draws only 6-high cells and `Ln(4)` |
| RenderProps.TablesCategory | docx-to-pdf.go:204-206 | the table loop draws only 10-high cells and `Ln(-1)` |
| RenderProps.DrawingsCategory | docx-to-pdf.go:208-213 | the drawing loop draws only images |
| RenderProps.DocumentOrder | docx-to-pdf.go:200-213 | every paragraph instruction precedes every table instruction, which precedes every image |
| RenderProps.HelloWorld | docx-to-pdf.go:129-141 | a centred bold "Hello, " and italic "world." draw two C-aligned cells (B, then I) and `Ln(4)` |
| RenderProps.TwoByTwoTable | docx-to-pdf.go:143-152 | rows A B / C D draw A, B, `Ln(-1)`, C, D, `Ln(-1)` |
| RenderProps.ColourLeaksIntoTables | docx-to-pdf.go:200-206 | a paragraph with a red run makes the following table's cell red |
| Archive.ExtractTextFromDocx | docx-to-pdf.go:69-87 | the loop returns what the first-match definition gives |
| Archive.DocumentXmlFirstMatch | docx-to-pdf.go:70-84 | the first `word/document.xml` entry decides the result: its bytes, or its read error |
| Archive.DocumentXmlMissing | docx-to-pdf.go:69-87 | with no `word/document.xml` entry, the text is empty and there is no error |
| Archive.Base | docx-to-pdf.go:180 | the base name of any path, the empty one included, is never empty |
| Archive.BaseShape | docx-to-pdf.go:180 | the base name holds no slash unless it is "/" |
| Archive.MediaBase | docx-to-pdf.go:180 | a file directly under `word/media/` keeps its own name |
| Archive.MediaFolderBase | docx-to-pdf.go:166-180 | an entry for the media folder itself counts as media and is copied as "media" |
| Archive.ExtractImagesFromDocx | docx-to-pdf.go:158-188 | the loop returns what the entry-by-entry definition gives, stopping at the first unreadable media entry |
| Archive.ExtractStops | docx-to-pdf.go:166-178 | once an entry has failed, later entries change nothing |
| Archive.ExtractFails | docx-to-pdf.go:166-178 | extraction fails iff some media entry cannot be read; other entries are never opened |
| Archive.ExtractFirstFailure | docx-to-pdf.go:166-178 | the error names the first unreadable media entry |
| Archive.ExtractedImage | docx-to-pdf.go:166-185 | the map's keys are exactly the media entry names, each mapped to the temp dir joined with its base name |
| Archive.ExtractedFile | docx-to-pdf.go:180-185 | each copy holds the bytes of the last media entry written to that path |
| Archive.ExtractedPathsWritten | docx-to-pdf.go:180-185 | every mapped path is a file that was written |
| Archive.SameBaseNameClash | docx-to-pdf.go:180-185 | two media files with one name in different folders share one copy, which holds the later bytes |
| Convert.ConvertFile | docx-to-pdf.go:219-242 | the method returns the text error, the media error, the decoding error or the drawn output, in that order |
| Convert.ConversionSucceeds | docx-to-pdf.go:219-242 | conversion succeeds iff the document part and all media can be read and the part decodes |
| Convert.MissingDocumentFails | docx-to-pdf.go:219-242 | without a document part, a decoder that refuses empty input makes the conversion fail, as a malformed document when the media can be read |
| Convert.ConvertedImage | docx-to-pdf.go:219-242 | a drawing whose key names a package entry is drawn from that entry's copy in the temp dir |

## Left out

- Opening the zip archive, `file.Open`, `ReadAll` and closing. The package
  is a sequence of entries, and a failed open or read is an entry without
  bytes.
- `ioutil.TempDir`: the directory is a parameter, and its failure is not
  modelled.
- `ioutil.WriteFile` is taken to succeed. Its failure, which the code
  returns, is not modelled.
- `xml.Unmarshal`: decoding is a parameter of `ConvertFile`, and the
  document structs are taken as already decoded.
- The canvas records the arguments of `SetFont`. gofpdf's rule that a
  size of 0 keeps the size in effect is not modelled: after a run with a
  `sz` of "0", a cell records size 0 where gofpdf draws at the size
  already selected (12 after `processParagraph`'s reset, or the previous
  run's size).
- gofpdf internals: `AddPage`, page breaks and positions.
  `OutputFileAndClose` and its error are not modelled either.
- The fill, link and link-string arguments of `CellFormat`, and the flow
  and link arguments of `Image`, are constants in the code and are not
  recorded.
- Scan.ParseDecimal: covers only an optional sign, digits and one decimal
  point. `strconv.ParseFloat` also takes exponents, hexadecimal floats,
  underscores, "Inf" and "NaN". Its float64 rounding and range errors are
  not modelled either; the model uses exact reals.
- Scan.ParseHexColor: `Sscanf`'s skipping of leading spaces before a field
  is not modelled.
- Archive.Join: written as `dir + "/" + name`. The `filepath.Clean` step of
  `filepath.Join` is not modelled. It only matters for a temporary
  directory that is not clean, or for a base name of "." or "..".
- Archive.Base: slash-separated paths only, as on Unix.
- `example/convert.go` is not part of this model. It only calls
  `ConvertFile`.

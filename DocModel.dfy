/**
  The already-parsed document tree of `docx-to-pdf.go` (the Go structs that
  `xml.Unmarshal` fills). Optional markup is represented as Go's zero values:
  an absent `sz` or `color` is the empty string, an absent `jc` is "".
 */
module DocModel {

  /** One `w:t` element: its character data. */
  datatype Text = Text(text: string)

  /** `w:rPr`: bold and italic flags, size in half-points and colour, both as raw strings. */
  datatype RunProperties = RunProperties(bold: bool, italic: bool, fontSize: string, fontColor: string)

  /** `w:r`: a formatting set and the text fragments it applies to. */
  datatype Run = Run(properties: RunProperties, texts: seq<Text>)

  /** `w:p`: the raw `pPr>jc` alignment value and the runs in order. */
  datatype Paragraph = Paragraph(alignment: string, runs: seq<Run>)

  /** `w:tc`: only the text of `p>r>t` is kept. */
  datatype TableCell = TableCell(text: string)

  datatype TableRow = TableRow(cells: seq<TableCell>)

  datatype Table = Table(rows: seq<TableRow>)

  /** The `embed` attribute of a drawing's `blip`: an opaque relationship identifier. */
  datatype ImageRef = ImageRef(id: string)

  datatype Drawing = Drawing(image: ImageRef)

  /** `w:body`, split by category: document order across categories is not kept. */
  datatype Document = Document(paragraphs: seq<Paragraph>, tables: seq<Table>, drawings: seq<Drawing>)
}

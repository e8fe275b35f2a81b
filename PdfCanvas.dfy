/**
  The PDF canvas the renderer draws on, seen only through the calls the
  renderer makes: the current font, the current text colour, and the
  instructions appended so far. Page geometry, the cursor and automatic
  page breaks belong to the PDF library and are not part of this model.
 */
module PdfCanvas {

  /** The arguments of the last `SetFont` call: family, style letters, size in points. */
  datatype Font = Font(family: string, style: string, size: real)

  /** An RGB text colour as passed to `SetTextColor`. */
  datatype Color = Color(r: int, g: int, b: int)

  const BLACK := Color(0, 0, 0)

  /**
    One drawing instruction. A text cell records the font and colour in
    effect when it was placed, next to the arguments of `CellFormat`
    (width, height, text, border, line-advance mode, alignment).
   */
  datatype Instr =
    | Cell(font: Font, color: Color, w: real, h: real, text: string, border: string, ln: int, align: string)
    | LineBreak(h: real)
    | Image(path: string, x: real, y: real, w: real, h: real)

  class Canvas {
    var font: Font
    var textColor: Color
    var log: seq<Instr>

    /** A new document: no font family chosen yet, 12-point default size, black text, nothing drawn. */
    constructor ()
      ensures font == Font("", "", 12.0) && textColor == BLACK && log == []
    {
      font := Font("", "", 12.0);
      textColor := BLACK;
      log := [];
    }

    method SetFont(family: string, style: string, size: real)
      modifies this
      ensures font == Font(family, style, size)
      ensures textColor == old(textColor) && log == old(log)
    {
      font := Font(family, style, size);
    }

    method SetTextColor(r: int, g: int, b: int)
      modifies this
      ensures textColor == Color(r, g, b)
      ensures font == old(font) && log == old(log)
    {
      textColor := Color(r, g, b);
    }

    /** Places a text cell with the current font and colour. */
    method CellFormat(w: real, h: real, text: string, border: string, ln: int, align: string)
      modifies this
      ensures log == old(log) + [Cell(font, textColor, w, h, text, border, ln, align)]
      ensures font == old(font) && textColor == old(textColor)
    {
      log := log + [Cell(font, textColor, w, h, text, border, ln, align)];
    }

    method Ln(h: real)
      modifies this
      ensures log == old(log) + [LineBreak(h)]
      ensures font == old(font) && textColor == old(textColor)
    {
      log := log + [LineBreak(h)];
    }

    method Image(path: string, x: real, y: real, w: real, h: real)
      modifies this
      ensures log == old(log) + [Instr.Image(path, x, y, w, h)]
      ensures font == old(font) && textColor == old(textColor)
    {
      log := log + [Instr.Image(path, x, y, w, h)];
    }
  }
}

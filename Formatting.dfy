/**
  How `docx-to-pdf.go` turns run properties and paragraph alignment into
  canvas settings: the pure part of `setFontFromRun`, `parseHexColor` and
  `setParagraphAlignment`.
 */
module Formatting {
  import opened Wrappers
  import opened DocModel
  import opened PdfCanvas
  import opened Scan

  /** The one typeface family the renderer ever selects. */
  const FONT_FAMILY := "Arial"

  /** Point size used when a run has no usable `sz`. */
  const DEFAULT_SIZE := 12.0

  /** The style letters: "B" for bold, then "I" for italic. */
  function FontStyle(bold: bool, italic: bool): (style: string)
    ensures style in {"", "B", "I", "BI"}
  {
    if bold then (if italic then "BI" else "B") else (if italic then "I" else "")
  }

  /** "B" is in the style iff bold, "I" iff italic, and B comes first. */
  lemma FontStyleLetters(bold: bool, italic: bool)
    ensures 'B' in FontStyle(bold, italic) <==> bold
    ensures 'I' in FontStyle(bold, italic) <==> italic
    ensures |FontStyle(bold, italic)| == 2 ==> FontStyle(bold, italic)[0] == 'B' && FontStyle(bold, italic)[1] == 'I'
  {
    if bold && italic {
      assert FontStyle(bold, italic) == "BI";
    } else if bold {
      assert FontStyle(bold, italic) == "B";
    } else if italic {
      assert FontStyle(bold, italic) == "I";
    } else {
      assert FontStyle(bold, italic) == "";
    }
  }

  /**
    The point size for a half-point `sz` value: half the parsed number, or
    12 when `sz` is empty or does not parse. Zero and negative values are
    kept as they are; a negative size comes only from a leading minus sign.
   */
  function FontSize(halfPoints: string): (size: real)
    ensures size < 0.0 ==> halfPoints != "" && halfPoints[0] == '-'
  {
    if halfPoints == "" then DEFAULT_SIZE
    else
      match ParseDecimal(halfPoints)
      case Some(v) => v / 2.0
      case None => DEFAULT_SIZE
  }

  /** The font `setFontFromRun` selects for a run. */
  function RunFont(props: RunProperties): Font
  {
    Font(FONT_FAMILY, FontStyle(props.bold, props.italic), FontSize(props.fontSize))
  }

  /** The text colour after `setFontFromRun`: changed only when the run names a colour. */
  function RunColor(props: RunProperties, current: Color): Color
  {
    if props.fontColor == "" then current
    else
      var (r, g, b) := ParseHexColor(props.fontColor);
      Color(r, g, b)
  }

  /**
    A run without a colour keeps the current one; a run with a colour
    replaces it outright, whatever it was, with components in -15..255.
   */
  lemma RunColorReplaces(props: RunProperties, current: Color)
    ensures props.fontColor == "" ==> RunColor(props, current) == current
    ensures props.fontColor != "" ==> RunColor(props, current) == RunColor(props, BLACK)
    ensures props.fontColor != "" ==>
              var c := RunColor(props, current);
              -15 <= c.r <= 255 && -15 <= c.g <= 255 && -15 <= c.b <= 255
  {
  }

  /** `setParagraphAlignment`: the gofpdf alignment code, always one of three. */
  function Alignment(alignment: string): (code: string)
    ensures code in {"L", "C", "R"}
  {
    match alignment
    case "center" => "C"
    case "right" => "R"
    case _ => "L"
  }

  /** "center" and "right" are recognised; every other value, "left" and "" among them, is left. */
  lemma AlignmentCodes(alignment: string)
    ensures Alignment(alignment) == "C" <==> alignment == "center"
    ensures Alignment(alignment) == "R" <==> alignment == "right"
    ensures Alignment(alignment) == "L" <==> alignment != "center" && alignment != "right"
  {
  }

  /**
    The two cases of the point size, told apart by the decimal syntax: text
    outside it gives the default, text inside it half the number it denotes.
   */
  lemma FontSizeCases(halfPoints: string)
    ensures halfPoints == "" || !DecimalSyntax(halfPoints) ==> FontSize(halfPoints) == DEFAULT_SIZE
    ensures halfPoints != "" && DecimalSyntax(halfPoints) ==>
              ParseDecimal(halfPoints).Some? && FontSize(halfPoints) == ParseDecimal(halfPoints).value / 2.0
  {
    ParseDecimalAccepts(halfPoints);
  }

  /** A size written as decimal digits gives half that many points. */
  lemma FontSizeOfDigits(n: nat)
    ensures FontSize(NatToDecimal(n)) == n as real / 2.0
  {
    ParseDecimalRoundTrip(n);
  }

  /** Neither zero nor a negative size falls back to the default. */
  lemma FontSizeNotClamped()
    ensures FontSize("0") == 0.0
    ensures FontSize("-4") == -2.0
  {
    UnsignedOfDigits("0", 0);
    UnsignedOfDigits("-4", 1);
    assert DigitsValue("-4", 1, 2) == 4;
  }

  /** A run without properties gets Arial, no style, 12 points, and keeps the colour. */
  lemma DefaultRunFormatting(c: Color)
    ensures RunFont(RunProperties(false, false, "", "")) == Font(FONT_FAMILY, "", DEFAULT_SIZE)
    ensures RunColor(RunProperties(false, false, "", ""), c) == c
  {
  }

  /**
    A colour value that is not six hex digits still changes the colour:
    Word's common value "auto" scans one field, "a", and gives (10, 0, 0).
   */
  lemma AutoColorIsNotBlack(c: Color)
    ensures RunColor(RunProperties(false, false, "", "auto"), c) == Color(10, 0, 0)
  {
    assert ScanEnd("auto", 0, 2) == 1;
    assert HexValueIn("auto", 0, 1) == 10;
    assert ScanHexField("auto", 0) == Some(Field(10, 1));
    assert ScanEnd("auto", 1, 3) == 1;
    assert ScanHexField("auto", 1) == None;
    ParseHexColorSecondFieldFails("auto", 10, 1);
  }
}

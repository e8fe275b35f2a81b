/**
  `ConvertFile`: read the document part, copy the media, decode the
  document tree and draw it. Decoding the XML is outside this model, so it
  is a parameter: a total function from the part's bytes to a document,
  or None when the bytes are not a document.
 */
module Convert {
  import opened Wrappers
  import opened DocModel
  import opened PdfCanvas
  import opened Render
  import opened Archive
  import RenderProps

  /** Why a conversion stops. */
  datatype ConvertError = PackageError(cause: ArchiveError) | MalformedDocument

  /**
    The canvas log a conversion produces, or the first error in the order
    `ConvertFile` meets them: the document part, then the media, then decoding.
   */
  function Conversion(entries: seq<Entry>, tempDir: string, parse: Bytes -> Option<Document>): Result<seq<Instr>, ConvertError>
  {
    match DocumentXml(entries)
    case Err(e) => Err(PackageError(e))
    case Ok(text) =>
      match ExtractImages(entries, tempDir)
      case Err(e) => Err(PackageError(e))
      case Ok(x) =>
        match parse(text)
        case None => Err(MalformedDocument)
        case Some(doc) => Ok(DocumentOps(doc, x.images))
  }

  method ConvertFile(entries: seq<Entry>, tempDir: string, parse: Bytes -> Option<Document>) returns (r: Result<seq<Instr>, ConvertError>)
    ensures r == Conversion(entries, tempDir, parse)
  {
    var text := ExtractTextFromDocx(entries);
    if text.Err? {
      return Err(PackageError(text.error));
    }
    var images := ExtractImagesFromDocx(entries, tempDir);
    if images.Err? {
      return Err(PackageError(images.error));
    }
    var doc := parse(text.value);
    if doc.None? {
      return Err(MalformedDocument);
    }
    var log := CreatePdf(doc.value, images.value.images);
    return Ok(log);
  }

  /**
    A conversion succeeds exactly when the document part (if any) and every
    media entry can be read and the part decodes.
   */
  lemma {:induction false} ConversionSucceeds(entries: seq<Entry>, tempDir: string, parse: Bytes -> Option<Document>)
    ensures Conversion(entries, tempDir, parse).Ok?
            <==> DocumentXml(entries).Ok?
                 && (forall j :: 0 <= j < |entries| && IsMedia(entries[j].name) ==> entries[j].data.Some?)
                 && parse(DocumentXml(entries).value).Some?
  {
    ExtractFails(entries, |entries|, tempDir);
  }

  /**
    A package without a document part yields empty text, and a decoder that
    refuses empty input (as Go's `xml.Unmarshal` does, with `io.EOF`) makes
    the conversion fail: with the media error if a media entry is
    unreadable, and as a malformed document otherwise.
   */
  lemma {:induction false} MissingDocumentFails(entries: seq<Entry>, tempDir: string, parse: Bytes -> Option<Document>)
    requires forall j :: 0 <= j < |entries| ==> entries[j].name != DOCUMENT_PART
    requires parse([]) == None
    ensures Conversion(entries, tempDir, parse).Err?
    ensures ExtractImages(entries, tempDir).Ok? ==> Conversion(entries, tempDir, parse) == Err(MalformedDocument)
  {
    DocumentXmlMissing(entries);
  }

  /**
    In a successful conversion, a drawing whose media key is the name of a
    package entry is drawn at (10, 10), 50 x 50, from that entry's copy in
    the temporary directory.
   */
  lemma {:induction false} ConvertedImage(entries: seq<Entry>, tempDir: string, parse: Bytes -> Option<Document>,
                                          doc: Document, k: nat, j: nat)
    requires Conversion(entries, tempDir, parse).Ok?
    requires parse(DocumentXml(entries).value) == Some(doc)
    requires k < |doc.drawings| && j < |entries|
    requires entries[j].name == MediaKey(doc.drawings[k])
    ensures Instr.Image(Join(tempDir, Base(MediaKey(doc.drawings[k]))), 10.0, 10.0, 50.0, 50.0)
            in Conversion(entries, tempDir, parse).value
  {
    var key := MediaKey(doc.drawings[k]);
    assert IsMedia(key);
    ExtractedImage(entries, |entries|, tempDir, key);
    RenderProps.DocumentDrawsImage(doc, ExtractImages(entries, tempDir).value.images, k);
  }
}

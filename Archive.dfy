/**
  The package side of `docx-to-pdf.go`: `extractTextFromDocx` picks the
  main document part out of the package, and `extractImagesFromDocx` copies
  every embedded media file into a temporary directory and maps its entry
  name to the copy's path. The zip package is a sequence of named entries;
  opening and reading an entry either yields its bytes or fails, and the
  temporary directory is a string chosen elsewhere.
 */
module Archive {
  import opened Wrappers

  type Bytes = seq<bv8>

  /** A package entry: its name, and its bytes, or None when it cannot be opened or read. */
  datatype Entry = Entry(name: string, data: Option<Bytes>)

  /** The one error either extractor reports: an entry it needed could not be read. */
  datatype ArchiveError = UnreadableEntry(name: string)

  /** The part that holds the document body. */
  const DOCUMENT_PART := "word/document.xml"

  /** Folder of the package that holds embedded media. */
  const MEDIA_PREFIX := "word/media/"

  /** `strings.HasPrefix(name, "word/media/")`. */
  predicate IsMedia(name: string)
  {
    MEDIA_PREFIX <= name
  }

  // ---------------------------------------------------------------------
  // extractTextFromDocx
  // ---------------------------------------------------------------------

  /** The bytes of an entry once opened and read, or the failure to do so. */
  function Content(e: Entry): Result<Bytes, ArchiveError>
  {
    match e.data
    case Some(b) => Ok(b)
    case None => Err(UnreadableEntry(e.name))
  }

  /**
    What `extractTextFromDocx` returns: the content of the first entry named
    like the document part, or empty text, without an error, when there is
    no such entry.
   */
  function DocumentXml(entries: seq<Entry>): Result<Bytes, ArchiveError>
  {
    if entries == [] then Ok([])
    else if entries[0].name == DOCUMENT_PART then Content(entries[0])
    else DocumentXml(entries[1..])
  }

  /** The entry loop of `extractTextFromDocx`, stopping at the first document part. */
  method ExtractTextFromDocx(entries: seq<Entry>) returns (r: Result<Bytes, ArchiveError>)
    ensures r == DocumentXml(entries)
  {
    var documentXml: Bytes := [];
    var i := 0;
    while i < |entries|
      invariant i <= |entries|
      invariant DocumentXml(entries[i..]) == DocumentXml(entries)
    {
      if entries[i].name == DOCUMENT_PART {
        if entries[i].data.None? {
          return Err(UnreadableEntry(entries[i].name));
        }
        documentXml := entries[i].data.value;
        break;
      }
      assert entries[i..][1..] == entries[i + 1..];
      i := i + 1;
    }
    return Ok(documentXml);
  }

  /** Only the first document part counts: its content or its read failure is the result. */
  lemma {:induction false} DocumentXmlFirstMatch(entries: seq<Entry>, k: nat)
    requires k < |entries| && entries[k].name == DOCUMENT_PART
    requires forall j :: 0 <= j < k ==> entries[j].name != DOCUMENT_PART
    ensures DocumentXml(entries) == Content(entries[k])
  {
    if k > 0 {
      assert entries[0].name != DOCUMENT_PART;
      DocumentXmlFirstMatch(entries[1..], k - 1);
    }
  }

  /** A package without a document part gives empty text and no error. */
  lemma {:induction false} DocumentXmlMissing(entries: seq<Entry>)
    requires forall j :: 0 <= j < |entries| ==> entries[j].name != DOCUMENT_PART
    ensures DocumentXml(entries) == Ok([])
  {
    if entries != [] {
      assert entries[0].name != DOCUMENT_PART;
      DocumentXmlMissing(entries[1..]);
    }
  }

  // ---------------------------------------------------------------------
  // filepath.Base and filepath.Join on slash-separated paths
  // ---------------------------------------------------------------------

  /** The path without its trailing slashes. */
  function TrimSlashes(p: string): string
  {
    if p != [] && p[|p| - 1] == '/' then TrimSlashes(p[..|p| - 1]) else p
  }

  /** What follows the last slash of the path (all of it when it has none). */
  function LastElement(p: string): string
  {
    if p == [] || p[|p| - 1] == '/' then [] else LastElement(p[..|p| - 1]) + [p[|p| - 1]]
  }

  /**
    `filepath.Base`: "." for the empty path, "/" for slashes only, else the
    last element, which is never empty.
   */
  function Base(p: string): (b: string)
    ensures b != ""
  {
    if p == "" then "."
    else
      TrimSlashesShape(p);
      LastElementShape(TrimSlashes(p));
      var t := TrimSlashes(p);
      if t == "" then "/" else LastElement(t)
  }

  /** `filepath.Join` of a directory and a single name. */
  function Join(dir: string, name: string): string
  {
    dir + "/" + name
  }

  lemma {:induction false} TrimSlashesShape(p: string)
    ensures TrimSlashes(p) == [] || TrimSlashes(p)[|TrimSlashes(p)| - 1] != '/'
  {
    if p != [] && p[|p| - 1] == '/' {
      TrimSlashesShape(p[..|p| - 1]);
    }
  }

  lemma {:induction false} LastElementShape(p: string)
    ensures '/' !in LastElement(p)
    ensures p != [] && p[|p| - 1] != '/' ==> LastElement(p) != []
  {
    if p != [] && p[|p| - 1] != '/' {
      LastElementShape(p[..|p| - 1]);
    }
  }

  /** The base name is a single name unless the path is all slashes. */
  lemma {:induction false} BaseShape(p: string)
    ensures Base(p) == "/" || '/' !in Base(p)
  {
    if p != "" {
      TrimSlashesShape(p);
      LastElementShape(TrimSlashes(p));
    }
  }

  /** After a slash, a name without slashes is the last element. */
  lemma {:induction false} LastElementAfterSlash(dir: string, name: string)
    requires dir != [] && dir[|dir| - 1] == '/'
    requires '/' !in name
    ensures LastElement(dir + name) == name
  {
    if name == [] {
      assert dir + name == dir;
    } else {
      var init := name[..|name| - 1];
      assert (dir + name)[..|dir + name| - 1] == dir + init;
      LastElementAfterSlash(dir, init);
      assert init + [name[|name| - 1]] == name;
    }
  }

  /** A media file directly in the media folder keeps its own name. */
  lemma {:induction false} MediaBase(name: string)
    requires name != "" && '/' !in name
    ensures Base(MEDIA_PREFIX + name) == name
  {
    LastElementAfterSlash(MEDIA_PREFIX, name);
  }

  /** The media folder's own entry, when the package lists one, is copied as a file named "media". */
  lemma {:induction false} MediaFolderBase()
    ensures IsMedia(MEDIA_PREFIX)
    ensures Base(MEDIA_PREFIX) == "media"
  {
    assert TrimSlashes(MEDIA_PREFIX) == "word/media";
    LastElementAfterSlash("word/", "media");
    assert "word/" + "media" == "word/media";
  }

  // ---------------------------------------------------------------------
  // extractImagesFromDocx
  // ---------------------------------------------------------------------

  /**
    The result of copying the media: entry name to copied path, and the
    files written to the temporary directory.
   */
  datatype Extraction = Extraction(images: map<string, string>, files: map<string, Bytes>)

  /** Where a media entry is copied. */
  function ImagePath(tempDir: string, name: string): string
  {
    Join(tempDir, Base(name))
  }

  /** The state after the first n entries: the first unreadable media entry stops everything. */
  function Extract(entries: seq<Entry>, n: nat, tempDir: string): Result<Extraction, ArchiveError>
    requires n <= |entries|
  {
    if n == 0 then Ok(Extraction(map[], map[]))
    else
      match Extract(entries, n - 1, tempDir)
      case Err(e) => Err(e)
      case Ok(x) =>
        var file := entries[n - 1];
        if !IsMedia(file.name) then Ok(x)
        else
          match file.data
          case None => Err(UnreadableEntry(file.name))
          case Some(b) =>
            var path := ImagePath(tempDir, file.name);
            Ok(Extraction(x.images[file.name := path], x.files[path := b]))
  }

  /** What `extractImagesFromDocx` returns for the whole package. */
  function ExtractImages(entries: seq<Entry>, tempDir: string): Result<Extraction, ArchiveError>
  {
    Extract(entries, |entries|, tempDir)
  }

  /** Once an entry has failed, later entries change nothing. */
  lemma {:induction false} ExtractStops(entries: seq<Entry>, i: nat, n: nat, tempDir: string)
    requires i <= n <= |entries| && Extract(entries, i, tempDir).Err?
    ensures Extract(entries, n, tempDir) == Extract(entries, i, tempDir)
  {
    if i < n {
      ExtractStops(entries, i, n - 1, tempDir);
    }
  }

  /** The entry loop of `extractImagesFromDocx`, writing each media entry's bytes to its copy. */
  method ExtractImagesFromDocx(entries: seq<Entry>, tempDir: string) returns (r: Result<Extraction, ArchiveError>)
    ensures r == ExtractImages(entries, tempDir)
  {
    var images: map<string, string> := map[];
    var files: map<string, Bytes> := map[];
    for i := 0 to |entries|
      invariant Extract(entries, i, tempDir) == Ok(Extraction(images, files))
    {
      var file := entries[i];
      if IsMedia(file.name) {
        if file.data.None? {
          ExtractStops(entries, i + 1, |entries|, tempDir);
          return Err(UnreadableEntry(file.name));
        }
        var imgPath := Join(tempDir, Base(file.name));
        files := files[imgPath := file.data.value];
        images := images[file.name := imgPath];
      }
    }
    return Ok(Extraction(images, files));
  }

  /**
    Extraction fails exactly when some media entry among the first n cannot
    be read; entries outside the media folder are never opened.
   */
  lemma {:induction false} ExtractFails(entries: seq<Entry>, n: nat, tempDir: string)
    requires n <= |entries|
    ensures Extract(entries, n, tempDir).Err?
            <==> exists j :: 0 <= j < n && IsMedia(entries[j].name) && entries[j].data.None?
  {
    if n > 0 {
      ExtractFails(entries, n - 1, tempDir);
      if Extract(entries, n - 1, tempDir).Err? {
        var j :| 0 <= j < n - 1 && IsMedia(entries[j].name) && entries[j].data.None?;
        assert 0 <= j < n;
      }
    }
  }

  /** The error names the first unreadable media entry. */
  lemma {:induction false} ExtractFirstFailure(entries: seq<Entry>, n: nat, k: nat, tempDir: string)
    requires k < n <= |entries|
    requires IsMedia(entries[k].name) && entries[k].data.None?
    requires forall j :: 0 <= j < k && IsMedia(entries[j].name) ==> entries[j].data.Some?
    ensures Extract(entries, n, tempDir) == Err(UnreadableEntry(entries[k].name))
  {
    ExtractFails(entries, k, tempDir);
    ExtractStops(entries, k + 1, n, tempDir);
  }

  /**
    After a successful extraction, the map's keys are exactly the names of
    the media entries, and each is mapped to the temporary directory joined
    with its base name.
   */
  lemma {:induction false} ExtractedImage(entries: seq<Entry>, n: nat, tempDir: string, key: string)
    requires n <= |entries| && Extract(entries, n, tempDir).Ok?
    ensures key in Extract(entries, n, tempDir).value.images
            <==> IsMedia(key) && exists j :: 0 <= j < n && entries[j].name == key
    ensures key in Extract(entries, n, tempDir).value.images
            ==> Extract(entries, n, tempDir).value.images[key] == Join(tempDir, Base(key))
  {
    if n > 0 {
      ExtractedImage(entries, n - 1, tempDir, key);
      if key !in Extract(entries, n, tempDir).value.images {
        assert entries[n - 1].name != key || !IsMedia(key);
      }
    }
  }

  /**
    Every mapped path holds a written file, and a path holds the bytes of
    the last media entry copied to it: an entry whose name was already seen,
    or whose base name repeats in another folder, overwrites the copy.
   */
  lemma {:induction false} ExtractedFile(entries: seq<Entry>, n: nat, tempDir: string, k: nat)
    requires k < n <= |entries| && Extract(entries, n, tempDir).Ok?
    requires IsMedia(entries[k].name)
    requires forall j :: k < j < n && IsMedia(entries[j].name) ==>
               ImagePath(tempDir, entries[j].name) != ImagePath(tempDir, entries[k].name)
    ensures entries[k].data.Some?
    ensures ImagePath(tempDir, entries[k].name) in Extract(entries, n, tempDir).value.files
    ensures Extract(entries, n, tempDir).value.files[ImagePath(tempDir, entries[k].name)] == entries[k].data.value
  {
    ExtractFails(entries, n, tempDir);
    if k < n - 1 {
      ExtractedFile(entries, n - 1, tempDir, k);
    }
  }

  /** Each key's path is among the written files. */
  lemma {:induction false} ExtractedPathsWritten(entries: seq<Entry>, n: nat, tempDir: string, key: string)
    requires n <= |entries| && Extract(entries, n, tempDir).Ok?
    requires key in Extract(entries, n, tempDir).value.images
    ensures Extract(entries, n, tempDir).value.images[key] in Extract(entries, n, tempDir).value.files
  {
    if n > 0 && key in Extract(entries, n - 1, tempDir).value.images {
      ExtractedPathsWritten(entries, n - 1, tempDir, key);
    }
  }

  lemma {:induction false} TopLevelImage()
    ensures IsMedia("word/media/image1.png") && Base("word/media/image1.png") == "image1.png"
  {
    assert MEDIA_PREFIX + "image1.png" == "word/media/image1.png";
    MediaBase("image1.png");
  }

  lemma {:induction false} NestedImage()
    ensures IsMedia("word/media/extra/image1.png") && Base("word/media/extra/image1.png") == "image1.png"
  {
    var dir := MEDIA_PREFIX + "extra/";
    assert dir + "image1.png" == "word/media/extra/image1.png";
    LastElementAfterSlash(dir, "image1.png");
    assert TrimSlashes("word/media/extra/image1.png") == "word/media/extra/image1.png";
  }

  /**
    Two media files with the same name in different folders are both mapped
    to one copy, which holds the later one's bytes.
   */
  lemma {:induction false} SameBaseNameClash(tempDir: string, first: Bytes, second: Bytes)
    ensures var entries := [Entry("word/media/image1.png", Some(first)), Entry("word/media/extra/image1.png", Some(second))];
            var x := ExtractImages(entries, tempDir);
            x.Ok?
            && x.value.images == map["word/media/image1.png" := Join(tempDir, "image1.png"),
                                     "word/media/extra/image1.png" := Join(tempDir, "image1.png")]
            && x.value.files == map[Join(tempDir, "image1.png") := second]
  {
    var n1, n2 := "word/media/image1.png", "word/media/extra/image1.png";
    var entries := [Entry(n1, Some(first)), Entry(n2, Some(second))];
    var path := Join(tempDir, "image1.png");
    TopLevelImage();
    NestedImage();
    assert Extract(entries, 1, tempDir) == Ok(Extraction(map[n1 := path], map[path := first]));
    assert Extract(entries, 2, tempDir) == Ok(Extraction(map[n1 := path, n2 := path], map[path := first][path := second]));
    assert map[path := first][path := second] == map[path := second];
  }
}

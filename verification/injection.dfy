/** The document scanner for retrieval-augmented generation data
    (src/veritensor/engines/content/injection.py): text files are read in
    overlapping windows, PDF, Word and PowerPoint files are turned into one
    text; each piece is checked for prompt injections (fail fast) and then
    for personal data (fail fast too). */
module Injection {
  import opened PyText
  import opened PyJson
  import opened Rules

  const TEXT_EXTENSIONS: set<string> := {
    ".txt", ".md", ".markdown", ".rst", ".adoc", ".asciidoc",
    ".tex", ".org", ".wiki",
    ".json", ".xml", ".yaml", ".yml", ".toml",
    ".ini", ".cfg", ".conf", ".env", ".properties", ".editorconfig",
    ".py", ".js", ".ts", ".java", ".c", ".cpp", ".h", ".hpp",
    ".rs", ".go", ".rb", ".php", ".pl", ".lua",
    ".sh", ".bash", ".zsh", ".ps1", ".bat", ".sql",
    ".dockerfile", ".tf", ".tfvars", ".k8s", ".helm", ".tpl",
    ".gitignore", ".gitattributes",
    ".log", ".out", ".err"}

  const DOC_EXTS: set<string> := {".pdf", ".docx", ".pptx"}

  /** Characters per read of a text file (1 MiB). */
  const CHUNK_SIZE: nat := 1048576
  /** Characters of the previous read carried into the next window (4 KiB). */
  const OVERLAP_SIZE: nat := 4096

  const MAX_PAGES: nat := 50
  const MAX_PARAGRAPHS: nat := 2000

  const DOC_ERROR := "WARNING: Doc Scan Error: "

  // ---------------------------------------------------------------------
  // _read_text_sliding

  /** The windows yielded from the unread `text` on, when `buffer` holds the
      end of the previous read: each window is the buffer followed by the
      next read, and the new buffer is the last OVERLAP_SIZE characters of
      that read. */
  function SlideFrom(buffer: string, text: string): seq<string>
    decreases |text|
  {
    if text == [] then []
    else
      var chunk := Take(text, CHUNK_SIZE);
      [buffer + chunk] + SlideFrom(LastN(chunk, OVERLAP_SIZE), text[|chunk|..])
  }

  /** The windows of a whole text file. */
  function Sliding(text: string): seq<string> {
    SlideFrom("", text)
  }

  /** `_read_text_sliding` on the decoded contents of a file. */
  method ReadTextSliding(text: string) returns (windows: seq<string>)
    ensures windows == Sliding(text)
  {
    windows := [];
    var buffer := "";
    var pos := 0;
    while true
      invariant 0 <= pos <= |text|
      invariant windows + SlideFrom(buffer, text[pos..]) == Sliding(text)
      decreases |text| - pos
    {
      var chunk := Take(text[pos..], CHUNK_SIZE);
      if chunk == [] {
        assert text[pos..] == [];
        assert windows + [] == windows;
        return;
      }
      assert text[pos..][|chunk|..] == text[pos + |chunk|..];
      assert windows + ([buffer + chunk] + SlideFrom(LastN(chunk, OVERLAP_SIZE), text[pos + |chunk|..])) ==
             (windows + [buffer + chunk]) + SlideFrom(LastN(chunk, OVERLAP_SIZE), text[pos + |chunk|..]);
      windows := windows + [buffer + chunk];
      buffer := LastN(chunk, OVERLAP_SIZE);
      pos := pos + |chunk|;
    }
  }

  /** An empty file yields no window; a file of at most CHUNK_SIZE
      characters yields itself as its one window. */
  lemma SlidingSmall(text: string)
    ensures text == [] ==> Sliding(text) == []
    ensures 0 < |text| <= CHUNK_SIZE ==> Sliding(text) == [text]
  {
    if 0 < |text| <= CHUNK_SIZE {
      assert Take(text, CHUNK_SIZE) == text;
      assert text[|text|..] == [];
      assert SlideFrom(LastN(text, OVERLAP_SIZE), []) == [];
      assert "" + text == text;
      assert Sliding(text) == [text] + [];
    }
  }

  /** One window per read, each at most CHUNK_SIZE + OVERLAP_SIZE long. */
  lemma {:induction false} SlideBounds(buffer: string, text: string)
    requires |buffer| <= OVERLAP_SIZE
    ensures |SlideFrom(buffer, text)| == (|text| + CHUNK_SIZE - 1) / CHUNK_SIZE
    ensures forall k :: 0 <= k < |SlideFrom(buffer, text)| ==> |SlideFrom(buffer, text)[k]| <= CHUNK_SIZE + OVERLAP_SIZE
    decreases |text|
  {
    if text != [] {
      var chunk := Take(text, CHUNK_SIZE);
      SlideBounds(LastN(chunk, OVERLAP_SIZE), text[|chunk|..]);
      if |text| > CHUNK_SIZE {
        assert (|text| + CHUNK_SIZE - 1) / CHUNK_SIZE == 1 + (|text| - CHUNK_SIZE + CHUNK_SIZE - 1) / CHUNK_SIZE;
      }
    }
  }

  /** Every window after the first starts with exactly OVERLAP_SIZE
      characters already seen; dropping them and concatenating gives back
      the file. */
  function Unslide(windows: seq<string>): string {
    if windows == [] then "" else windows[0] + DropOverlaps(windows[1..])
  }

  function DropOverlaps(windows: seq<string>): string
    decreases |windows|
  {
    if windows == [] then ""
    else
      var w := windows[0];
      (if |w| >= OVERLAP_SIZE then w[OVERLAP_SIZE..] else "") + DropOverlaps(windows[1..])
  }

  lemma {:induction false} DropOverlapsSlide(buffer: string, text: string)
    requires |buffer| == OVERLAP_SIZE || text == []
    ensures DropOverlaps(SlideFrom(buffer, text)) == text
    decreases |text|
  {
    if text != [] {
      var chunk := Take(text, CHUNK_SIZE);
      var rest := text[|chunk|..];
      var w := buffer + chunk;
      assert w[OVERLAP_SIZE..] == chunk;
      DropOverlapsSlide(LastN(chunk, OVERLAP_SIZE), rest);
      assert SlideFrom(buffer, text)[1..] == SlideFrom(LastN(chunk, OVERLAP_SIZE), rest);
      assert chunk + rest == text;
    }
  }

  /** The windows put back together are the file. */
  lemma SlidingRoundTrip(text: string)
    ensures Unslide(Sliding(text)) == text
  {
    if text != [] {
      var chunk := Take(text, CHUNK_SIZE);
      var rest := text[|chunk|..];
      var b := LastN(chunk, OVERLAP_SIZE);
      var ws := Sliding(text);
      assert ws == ["" + chunk] + SlideFrom(b, rest);
      assert ws[0] == chunk;
      assert ws[1..] == SlideFrom(b, rest);
      if |text| > CHUNK_SIZE {
        assert |chunk| == CHUNK_SIZE;
      } else {
        assert rest == [];
      }
      DropOverlapsSlide(b, rest);
      assert chunk + rest == text;
    }
  }

  /** `s` occurs in `w` at offset `a`. */
  predicate Within(w: string, a: nat, s: string) {
    a + |s| <= |w| && w[a..a + |s|] == s
  }

  /** What the overlap is for: any stretch of at most OVERLAP_SIZE + 1
      characters of the file lies whole inside one window, so a pattern
      that short cannot be missed by falling across a read boundary. */
  lemma WindowsCover(text: string, i: nat, j: nat)
    requires i < j <= |text| && j - i <= OVERLAP_SIZE + 1
    ensures exists k, a :: 0 <= k < |Sliding(text)| && Within(Sliding(text)[k], a, text[i..j])
  {
    assert "" + text == text;
    Covers("", text, i, j);
    var k, a :| 0 <= k < |SlideFrom("", text)| && Within(SlideFrom("", text)[k], a, ("" + text)[i..j]);
    assert Within(Sliding(text)[k], a, text[i..j]);
  }

  lemma {:induction false} Covers(buffer: string, text: string, i: nat, j: nat)
    requires |buffer| <= OVERLAP_SIZE
    requires i < j <= |buffer| + |text| && |buffer| < j && j - i <= OVERLAP_SIZE + 1
    ensures exists k, a :: 0 <= k < |SlideFrom(buffer, text)| && Within(SlideFrom(buffer, text)[k], a, (buffer + text)[i..j])
    decreases |text|
  {
    var chunk := Take(text, CHUNK_SIZE);
    var rest := text[|chunk|..];
    var ws := SlideFrom(buffer, text);
    assert ws[0] == buffer + chunk;
    if j <= |buffer| + |chunk| {
      assert (buffer + chunk)[i..j] == (buffer + text)[i..j];
      assert Within(ws[0], i, (buffer + text)[i..j]);
    } else {
      var b2 := LastN(chunk, OVERLAP_SIZE);
      var shift := |buffer| + |chunk| - |b2|;
      assert |chunk| == CHUNK_SIZE && |b2| == OVERLAP_SIZE;
      assert b2 + rest == (buffer + text)[shift..];
      Covers(b2, rest, i - shift, j - shift);
      var k, a :| 0 <= k < |SlideFrom(b2, rest)| && Within(SlideFrom(b2, rest)[k], a, (b2 + rest)[i - shift..j - shift]);
      assert ws[k + 1] == SlideFrom(b2, rest)[k];
      SliceOfSuffix(b2 + rest, buffer + text, shift, i, j);
      assert Within(ws[k + 1], a, (buffer + text)[i..j]);
    }
  }

  /** A slice of a suffix is the slice of the whole, shifted. */
  lemma SliceOfSuffix(x: string, y: string, shift: nat, i: nat, j: nat)
    requires shift <= i <= j <= |y| && x == y[shift..]
    ensures x[i - shift..j - shift] == y[i..j]
  {
    assert forall t :: 0 <= t < j - i ==> x[i - shift..j - shift][t] == y[i..j][t];
  }

  /** `_yield_string_chunks` */
  function StringChunks(text: string): seq<string> {
    if text == "" then [] else [text]
  }

  // ---------------------------------------------------------------------
  // _read_pdf

  /** A page: its extracted text, or `None` when extraction raises. */
  datatype Page = Page(text: Option<string>)

  datatype PdfSource = PdfUnreadable | Pdf(pages: seq<Page>)

  function Min(a: nat, b: nat): nat {
    if a <= b then a else b
  }

  /** The non-empty texts of the first `i` pages; `None` once one raises. */
  function PdfTextsUpTo(pages: seq<Page>, i: nat): Option<seq<string>>
    requires i <= |pages|
  {
    if i == 0 then Some([])
    else match PdfTextsUpTo(pages, i - 1)
      case None => None
      case Some(ts) =>
        match pages[i - 1].text
        case None => None
        case Some(t) => Some(ts + (if t != "" then [t] else []))
  }

  /** `_read_pdf`: the non-empty texts of the first fifty pages joined by
      newlines; "" when the file cannot be read or a page fails. */
  function PdfText(src: PdfSource): string {
    match src
    case PdfUnreadable => ""
    case Pdf(pages) =>
      match PdfTextsUpTo(pages, Min(|pages|, MAX_PAGES))
      case None => ""
      case Some(ts) => Join("\n", ts)
  }

  lemma {:induction false} PdfFailureSticks(pages: seq<Page>, i: nat, n: nat)
    requires i <= n <= |pages| && PdfTextsUpTo(pages, i).None?
    ensures PdfTextsUpTo(pages, n).None?
    decreases n - i
  {
    if i < n {
      PdfFailureSticks(pages, i + 1, n);
    }
  }

  method ReadPdf(src: PdfSource) returns (text: string)
    ensures text == PdfText(src)
  {
    if src.PdfUnreadable? {
      return "";
    }
    var pages := src.pages;
    var maxPages := Min(|pages|, MAX_PAGES);
    var texts: seq<string> := [];
    var i := 0;
    while i < maxPages
      invariant 0 <= i <= maxPages
      invariant PdfTextsUpTo(pages, i) == Some(texts)
    {
      var pageText := pages[i].text;
      if pageText.None? {
        PdfFailureSticks(pages, i + 1, maxPages);
        return "";
      }
      if pageText.value != "" {
        texts := texts + [pageText.value];
      } else {
        assert texts + [] == texts;
      }
      i := i + 1;
    }
    text := Join("\n", texts);
  }

  /** Pages after the fiftieth are never read, not even a failing one. */
  lemma PdfFirstPagesOnly(pages: seq<Page>, more: seq<Page>)
    requires |pages| == MAX_PAGES
    ensures PdfText(Pdf(pages + more)) == PdfText(Pdf(pages))
  {
    PdfPrefix(pages, more, MAX_PAGES);
  }

  lemma {:induction false} PdfPrefix(pages: seq<Page>, more: seq<Page>, i: nat)
    requires i <= |pages|
    ensures PdfTextsUpTo(pages + more, i) == PdfTextsUpTo(pages, i)
  {
    if i > 0 {
      PdfPrefix(pages, more, i - 1);
      assert (pages + more)[i - 1] == pages[i - 1];
    }
  }

  // ---------------------------------------------------------------------
  // _read_docx

  datatype DocxSource = DocxUnreadable | Docx(paragraphs: seq<string>)

  /** `_read_docx`: the first 2000 paragraphs joined by newlines. */
  method ReadDocx(src: DocxSource) returns (text: string)
    ensures src.DocxUnreadable? ==> text == ""
    ensures src.Docx? ==> text == Join("\n", src.paragraphs[..Min(|src.paragraphs|, MAX_PARAGRAPHS)])
  {
    if src.DocxUnreadable? {
      return "";
    }
    var paragraphs := src.paragraphs;
    var maxParas := Min(|paragraphs|, MAX_PARAGRAPHS);
    var content: seq<string> := [];
    var i := 0;
    while i < maxParas
      invariant 0 <= i <= maxParas
      invariant content == paragraphs[..i]
    {
      assert paragraphs[..i + 1] == paragraphs[..i] + [paragraphs[i]];
      content := content + [paragraphs[i]];
      i := i + 1;
    }
    text := Join("\n", content);
  }

  function DocxText(src: DocxSource): string {
    match src
    case DocxUnreadable => ""
    case Docx(paragraphs) => Join("\n", paragraphs[..Min(|paragraphs|, MAX_PARAGRAPHS)])
  }

  // ---------------------------------------------------------------------
  // _extract_text_from_pptx

  /** A presentation: for each slide, for each shape, its text (`None` for
      a shape without one). An exception while enumerating ends the
      enumeration, so a presentation that fails midway is the part enumerated
      before the failure. */
  datatype PptxSource = PptxUnreadable | Pptx(slides: seq<seq<Option<string>>>)

  function ShapeRunsUpTo(shapes: seq<Option<string>>, j: nat): seq<string>
    requires j <= |shapes|
  {
    if j == 0 then []
    else ShapeRunsUpTo(shapes, j - 1) + (if shapes[j - 1].Some? then [shapes[j - 1].value] else [])
  }

  function RunsUpTo(slides: seq<seq<Option<string>>>, i: nat): seq<string>
    requires i <= |slides|
  {
    if i == 0 then [] else RunsUpTo(slides, i - 1) + ShapeRunsUpTo(slides[i - 1], |slides[i - 1]|)
  }

  function PptxText(available: bool, src: PptxSource): string {
    if !available then ""
    else match src
      case PptxUnreadable => ""
      case Pptx(slides) => Join("\n", RunsUpTo(slides, |slides|))
  }

  /** `_extract_text_from_pptx`: the texts of all shapes, slide by slide,
      joined by newlines. */
  method ExtractPptx(available: bool, src: PptxSource) returns (text: string)
    ensures text == PptxText(available, src)
  {
    if !available {
      return "";
    }
    var runs: seq<string> := [];
    if src.Pptx? {
      var slides := src.slides;
      var i := 0;
      while i < |slides|
        invariant 0 <= i <= |slides|
        invariant runs == RunsUpTo(slides, i)
      {
        var shapes := slides[i];
        ghost var before := runs;
        var j := 0;
        while j < |shapes|
          invariant 0 <= j <= |shapes|
          invariant runs == before + ShapeRunsUpTo(shapes, j)
        {
          if shapes[j].Some? {
            runs := runs + [shapes[j].value];
          }
          j := j + 1;
        }
        i := i + 1;
      }
    }
    text := Join("\n", runs);
  }

  /** Every shape text of the presentation appears in the result. */
  lemma {:induction false} PptxKeepsRuns(slides: seq<seq<Option<string>>>, i: nat, s: string)
    requires i <= |slides|
    ensures s in RunsUpTo(slides, i) <==> exists a, b :: 0 <= a < i && 0 <= b < |slides[a]| && slides[a][b] == Some(s)
  {
    if i > 0 {
      PptxKeepsRuns(slides, i - 1, s);
      ShapeRunsHas(slides[i - 1], |slides[i - 1]|, s);
    }
  }

  lemma {:induction false} ShapeRunsHas(shapes: seq<Option<string>>, j: nat, s: string)
    requires j <= |shapes|
    ensures s in ShapeRunsUpTo(shapes, j) <==> exists b :: 0 <= b < j && shapes[b] == Some(s)
  {
    if j > 0 {
      ShapeRunsHas(shapes, j - 1, s);
    }
  }

  // ---------------------------------------------------------------------
  // scan_document

  /** A text file: unreadable (opening raises), or its decoded text. */
  datatype TextFile = TextUnreadable(error: string) | Text(contents: string)

  /** A document, as each extractor would see it. */
  datatype Document = Document(name: string, text: TextFile, pdf: PdfSource, docx: DocxSource, pptx: PptxSource)

  /** Which optional libraries are installed. */
  datatype Libraries = Libraries(pdf: bool, docx: bool, pptx: bool)

  /** The pieces of text to scan, and the error that ends the stream. */
  datatype Pieces = Pieces(items: seq<string>, error: Option<string>)

  /** The pieces the extension selects; `None` for a file that is not a
      document. */
  function PiecesOf(libs: Libraries, d: Document): Option<Pieces> {
    var ext := Extension(d.name);
    if ext in TEXT_EXTENSIONS then
      Some(match d.text
        case TextUnreadable(e) => Pieces([], Some(e))
        case Text(t) => Pieces(Sliding(t), None))
    else if ext == ".pdf" && libs.pdf then Some(Pieces(StringChunks(PdfText(d.pdf)), None))
    else if ext == ".docx" && libs.docx then Some(Pieces(StringChunks(DocxText(d.docx)), None))
    else if ext == ".pptx" && libs.pptx then Some(Pieces(StringChunks(PptxText(libs.pptx, d.pptx)), None))
    else None
  }

  /** The injection signatures, the matcher and the personal-data scanner
      (`PIIScanner.scan`, which may raise). */
  datatype Scanners = Scanners(isMatch: Matcher, signatures: seq<string>, pii: string -> Result<seq<string>>)

  datatype Result<T> = Ok(value: T) | Err(error: string)

  function InjectionThreat(name: string, pat: string): string {
    "HIGH: Prompt Injection detected in " + name + ": '" + pat + "'"
  }

  /** The result of scanning the pieces from index `i` on: the first piece
      with an injection or personal data decides. */
  function ScanFrom(sc: Scanners, name: string, p: Pieces, i: nat): seq<string>
    requires i <= |p.items|
    decreases |p.items| - i
  {
    if i == |p.items| then (if p.error.Some? then [DOC_ERROR + p.error.value] else [])
    else match FirstMatch(sc.isMatch, p.items[i], sc.signatures)
      case Some(pat) => [InjectionThreat(name, pat)]
      case None =>
        match sc.pii(p.items[i])
        case Err(e) => [DOC_ERROR + e]
        case Ok(found) => if found != [] then found else ScanFrom(sc, name, p, i + 1)
  }

  /** `scan_document` */
  function DocumentSpec(sc: Scanners, libs: Libraries, d: Document): seq<string> {
    match PiecesOf(libs, d)
    case None => []
    case Some(p) => ScanFrom(sc, d.name, p, 0)
  }

  method ScanDocument(sc: Scanners, libs: Libraries, d: Document) returns (threats: seq<string>)
    ensures threats == DocumentSpec(sc, libs, d)
  {
    var pieces := ReadPieces(libs, d);
    if pieces.None? {
      return [];
    }
    threats := ScanPieces(sc, d.name, pieces.value);
  }

  /** The dispatch on the extension: the pieces the chosen reader yields,
      or `None` when the file is not scanned. */
  method ReadPieces(libs: Libraries, d: Document) returns (pieces: Option<Pieces>)
    ensures pieces == PiecesOf(libs, d)
  {
    var ext := Extension(d.name);
    if ext in TEXT_EXTENSIONS {
      if d.text.TextUnreadable? {
        pieces := Some(Pieces([], Some(d.text.error)));
      } else {
        var windows := ReadTextSliding(d.text.contents);
        pieces := Some(Pieces(windows, None));
      }
    } else if ext == ".pdf" && libs.pdf {
      var full := ReadPdf(d.pdf);
      pieces := Some(Pieces(StringChunks(full), None));
    } else if ext == ".docx" && libs.docx {
      var full := ReadDocx(d.docx);
      pieces := Some(Pieces(StringChunks(full), None));
    } else if ext == ".pptx" && libs.pptx {
      var full := ExtractPptx(libs.pptx, d.pptx);
      pieces := Some(Pieces(StringChunks(full), None));
    } else {
      pieces := None;
    }
  }

  /** The scan loop over the pieces, failing fast on the first injection,
      the first personal data found, or an error. */
  method ScanPieces(sc: Scanners, name: string, pieces: Pieces) returns (threats: seq<string>)
    ensures threats == ScanFrom(sc, name, pieces, 0)
  {
    threats := [];
    var i := 0;
    while i < |pieces.items|
      invariant 0 <= i <= |pieces.items|
      invariant threats == []
      invariant ScanFrom(sc, name, pieces, i) == ScanFrom(sc, name, pieces, 0)
    {
      var chunk := pieces.items[i];
      var pattern := FindFirst(sc.isMatch, chunk, sc.signatures);
      if pattern.Some? {
        threats := threats + [InjectionThreat(name, pattern.value)];
        return;
      }
      var pii := sc.pii(chunk);
      if pii.Err? {
        threats := threats + [DOC_ERROR + pii.error];
        return;
      }
      if pii.value != [] {
        threats := threats + pii.value;
        return;
      }
      i := i + 1;
    }
    if pieces.error.Some? {
      threats := threats + [DOC_ERROR + pieces.error.value];
    }
  }

  /** Fail fast: the scan reports one event only — nothing, one injection,
      one error, or the personal data of one piece, which has no injection. */
  lemma {:induction false} OneEvent(sc: Scanners, name: string, p: Pieces, i: nat)
    requires i <= |p.items|
    ensures var r := ScanFrom(sc, name, p, i);
      || r == []
      || (exists pat :: pat in sc.signatures && r == [InjectionThreat(name, pat)])
      || (exists e :: r == [DOC_ERROR + e])
      || (exists k :: i <= k < |p.items| && FirstMatch(sc.isMatch, p.items[k], sc.signatures).None? &&
            sc.pii(p.items[k]) == Ok(r))
    decreases |p.items| - i
  {
    if i < |p.items| {
      var fm := FirstMatch(sc.isMatch, p.items[i], sc.signatures);
      if fm.Some? {
        FirstMatchInList(sc.isMatch, p.items[i], sc.signatures, 0);
      } else if sc.pii(p.items[i]).Ok? && sc.pii(p.items[i]).value == [] {
        OneEvent(sc, name, p, i + 1);
      }
    }
  }

  lemma {:induction false} FirstMatchInList(isMatch: Matcher, text: string, pats: seq<string>, j: nat)
    requires j <= |pats|
    ensures FirstMatchFrom(isMatch, text, pats, j).Some? ==> FirstMatchFrom(isMatch, text, pats, j).value in pats
    decreases |pats| - j
  {
    if j < |pats| {
      FirstMatchInList(isMatch, text, pats, j + 1);
    }
  }

  /** The extension is lower-cased as Python does: a KELVIN SIGN lowers to
      'k', so "notes.wi\U{212A}i" is read as a text file. */
  lemma KelvinSignTextFile(libs: Libraries, d: Document)
    requires d.name == "notes.wi\U{212A}i"
    ensures Extension(d.name) == ".wiki"
    ensures PiecesOf(libs, d).Some?
  {
    var name := d.name;
    ExtensionIsLowerSuffix(name);
    RFindLast(name, '.');
    assert name[5] == '.' && forall k :: 0 <= k < |name| && k != 5 ==> name[k] != '.';
    assert Suffix(name) == name[5..] == ".wi\U{212A}i";
    assert Lower(".wi\U{212A}i") == ".wiki";
  }

  /** Files with other extensions are not scanned, nor is anything but a
      text file when no document library is installed; an empty text file
      yields nothing. */
  lemma DispatchCases(sc: Scanners, libs: Libraries, d: Document)
    ensures Extension(d.name) !in TEXT_EXTENSIONS && Extension(d.name) !in DOC_EXTS ==> DocumentSpec(sc, libs, d) == []
    ensures Extension(d.name) !in TEXT_EXTENSIONS && libs == Libraries(false, false, false) ==> DocumentSpec(sc, libs, d) == []
    ensures Extension(d.name) in TEXT_EXTENSIONS && d.text == Text("") ==> DocumentSpec(sc, libs, d) == []
  {
    SlidingSmall("");
  }
}

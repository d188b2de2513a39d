/**
 * Text extraction for a subject folder (`extract_text`): every regular file is
 * classified by its extension, case-insensitively; images go to OCR, PDFs to
 * their text layer, everything else is skipped. Each extracted text is saved
 * beside its original as `<root>.txt` and reported in a record. A failure on
 * one file skips that file only.
 */
module Extraction {
  import opened Options
  import opened Text
  import opened Collaborators

  const ImageExtensions: seq<string> := [".png", ".jpg", ".jpeg", ".bmp", ".tiff"]
  const PdfExtension := ".pdf"

  datatype MediaKind = Image | Pdf | Unsupported

  /** `s.endswith(suffixes)` for a tuple of suffixes. */
  predicate EndsWithAny(s: string, suffixes: seq<string>)
  {
    exists i :: 0 <= i < |suffixes| && EndsWith(s, suffixes[i])
  }

  /** The branch `extract_text` takes for a regular file with this name. */
  function Classify(name: string): MediaKind
  {
    var lower := Lower(name);
    if EndsWithAny(lower, ImageExtensions) then Image
    else if EndsWith(lower, PdfExtension) then Pdf
    else Unsupported
  }

  /** The index of the last `.` in `s`, if any. */
  function LastDot(s: string): (r: Option<nat>)
    ensures r.Some? ==> r.value < |s| && s[r.value] == '.' && forall j :: r.value < j < |s| ==> s[j] != '.'
    ensures r.None? ==> forall j :: 0 <= j < |s| ==> s[j] != '.'
  {
    if s == [] then None
    else if s[|s| - 1] == '.' then Some(|s| - 1)
    else LastDot(s[..|s| - 1])
  }

  /**
   * The root `os.path.splitext` gives for a bare file name: everything before the
   * last dot, unless only dots precede that dot (`.png`, `..pdf`), in which case
   * the name has no extension and is its own root.
   */
  function Root(name: string): string
  {
    match LastDot(name)
    case None => name
    case Some(d) => if exists j :: 0 <= j < d && name[j] != '.' then name[..d] else name
  }

  /** The name of the text file saved beside an original. */
  function TextFileName(name: string): string
  {
    Root(name) + ".txt"
  }

  /** The text of a PDF: its pages' texts one after the other. */
  function Concat(pages: seq<string>): string
  {
    if pages == [] then "" else Concat(pages[..|pages| - 1]) + pages[|pages| - 1]
  }

  /** One entry of `processed_files`. */
  datatype ProcessedFile = ProcessedFile(originalFile: string, textFile: string, textLength: nat)

  /**
   * What processing one listed name comes to: skipped without a trace, failed
   * during extraction, extracted but not saved (the write failed), or saved.
   */
  datatype Outcome = Skipped | Failed | Unsaved(text: string) | Saved(text: string, record: ProcessedFile)

  function Persist(name: string, text: string, caps: Capabilities): Outcome
  {
    var textFile := TextFileName(name);
    if caps.writeText(textFile, text) then Saved(text, ProcessedFile(name, textFile, |text|)) else Unsaved(text)
  }

  function ProcessEntry(e: DirEntry, caps: Capabilities): Outcome
  {
    match e.node
    case Directory => Skipped
    case RegularFile(bytes) =>
      match Classify(e.name)
      case Unsupported => Skipped
      case Image => (match caps.ocr(bytes) case None => Failed case Some(text) => Persist(e.name, text, caps))
      case Pdf => (match caps.pdfPages(bytes) case None => Failed case Some(pages) => Persist(e.name, Concat(pages), caps))
  }

  /** The records of a listing, in listing order. */
  function RecordsOf(listing: seq<DirEntry>, caps: Capabilities): seq<ProcessedFile>
  {
    if listing == [] then []
    else
      var o := ProcessEntry(listing[|listing| - 1], caps);
      RecordsOf(listing[..|listing| - 1], caps) + if o.Saved? then [o.record] else []
  }

  /** `extracted_texts`: every text extracted, saved or not, by original name. */
  function TextsOf(listing: seq<DirEntry>, caps: Capabilities): map<string, string>
  {
    if listing == [] then map[]
    else
      var e := listing[|listing| - 1];
      var o := ProcessEntry(e, caps);
      var m := TextsOf(listing[..|listing| - 1], caps);
      if o.Saved? || o.Unsaved? then m[e.name := o.text] else m
  }

  function Message(processed: nat): string
  {
    "Extracted text from " + NatToString(processed) + " files"
  }

  datatype ExtractResult =
    | FolderMissing
    | ExtractDone(message: string, processedFiles: seq<ProcessedFile>, extractedTexts: map<string, string>)
  {
    /** The `processed_files` field, empty in the error result. */
    function ProcessedFiles(): seq<ProcessedFile>
    {
      if FolderMissing? then [] else processedFiles
    }
  }

  /** Extraction for a folder with this listing (`None`: no such folder). */
  function Extract(listing: Option<seq<DirEntry>>, caps: Capabilities): (r: ExtractResult)
    ensures listing.None? <==> r == FolderMissing
    ensures r.ExtractDone? ==> r.message == Message(|r.processedFiles|)
  {
    match listing
    case None => FolderMissing
    case Some(entries) =>
      var records := RecordsOf(entries, caps);
      ExtractDone(Message(|records|), records, TextsOf(entries, caps))
  }

  /** The page loop: `pdf_text += page.get_text()` for every page in order. */
  method ReadPdf(pages: seq<string>) returns (text: string)
    ensures text == Concat(pages)
  {
    text := "";
    for p := 0 to |pages|
      invariant text == Concat(pages[..p])
    {
      assert pages[..p + 1][..p] == pages[..p];
      text := text + pages[p];
    }
    assert pages[..|pages|] == pages;
  }

  /** The body of the loop of `extract_text` for one listed name. */
  method ProcessFile(e: DirEntry, caps: Capabilities) returns (o: Outcome)
    ensures o == ProcessEntry(e, caps)
  {
    if !e.node.RegularFile? {
      return Skipped;
    }
    var text: string;
    var kind := Classify(e.name);
    if kind == Image {
      var ocr := caps.ocr(e.node.content);
      if ocr.None? {
        return Failed;
      }
      text := ocr.value;
    } else if kind == Pdf {
      var pages := caps.pdfPages(e.node.content);
      if pages.None? {
        return Failed;
      }
      text := ReadPdf(pages.value);
    } else {
      return Skipped;
    }
    var textFile := TextFileName(e.name);
    if !caps.writeText(textFile, text) {
      return Unsaved(text);
    }
    o := Saved(text, ProcessedFile(e.name, textFile, |text|));
  }

  /** `extract_text`: the loop over the listing. */
  method ExtractText(listing: Option<seq<DirEntry>>, caps: Capabilities) returns (r: ExtractResult)
    ensures r == Extract(listing, caps)
  {
    if listing.None? {
      return FolderMissing;
    }
    var entries := listing.value;
    var extracted: map<string, string> := map[];
    var processed: seq<ProcessedFile> := [];
    for i := 0 to |entries|
      invariant processed == RecordsOf(entries[..i], caps)
      invariant extracted == TextsOf(entries[..i], caps)
    {
      assert entries[..i + 1][..i] == entries[..i];
      var e := entries[i];
      var o := ProcessFile(e, caps);
      if o.Saved? || o.Unsaved? {
        extracted := extracted[e.name := o.text];
      }
      if o.Saved? {
        processed := processed + [o.record];
      }
    }
    assert entries[..|entries|] == entries;
    r := ExtractDone(Message(|processed|), processed, extracted);
  }

  /** Records of two listings concatenate: one file's outcome never affects another's. */
  lemma {:induction false} RecordsOfAppend(a: seq<DirEntry>, b: seq<DirEntry>, caps: Capabilities)
    ensures RecordsOf(a + b, caps) == RecordsOf(a, caps) + RecordsOf(b, caps)
    decreases |b|
  {
    if b == [] {
      assert a + b == a;
    } else {
      var n := |b|;
      assert (a + b)[..|a + b| - 1] == a + b[..n - 1];
      assert (a + b)[|a + b| - 1] == b[n - 1];
      RecordsOfAppend(a, b[..n - 1], caps);
    }
  }

  /** A file whose processing fails, or that is skipped, leaves no record and the others' records intact. */
  lemma FailureIsolated(a: seq<DirEntry>, e: DirEntry, b: seq<DirEntry>, caps: Capabilities)
    requires !ProcessEntry(e, caps).Saved?
    ensures RecordsOf(a + [e] + b, caps) == RecordsOf(a, caps) + RecordsOf(b, caps)
  {
    RecordsOfAppend(a + [e], b, caps);
    assert (a + [e])[..|a|] == a;
  }

  predicate DistinctNames(listing: seq<DirEntry>)
  {
    forall i, j :: 0 <= i < j < |listing| ==> listing[i].name != listing[j].name
  }

  /** A name that no entry of the listing carries has no extracted text. */
  lemma {:induction false} TextsOfOnlyListed(listing: seq<DirEntry>, caps: Capabilities, name: string)
    requires forall k :: 0 <= k < |listing| ==> listing[k].name != name
    ensures name !in TextsOf(listing, caps)
  {
    if listing != [] {
      TextsOfOnlyListed(listing[..|listing| - 1], caps, name);
    }
  }

  /** A saved outcome comes from a supported regular file and records its name, its text file and its text's length. */
  lemma SavedOutcome(e: DirEntry, caps: Capabilities)
    requires ProcessEntry(e, caps).Saved?
    ensures e.node.RegularFile? && Classify(e.name) != Unsupported
    ensures ProcessEntry(e, caps).record
         == ProcessedFile(e.name, TextFileName(e.name), |ProcessEntry(e, caps).text|)
  {
  }

  /** The extracted texts of a listing are those of all but its last entry, updated by the last one. */
  lemma TextsOfLast(listing: seq<DirEntry>, caps: Capabilities, name: string)
    requires listing != []
    ensures var last := listing[|listing| - 1];
      var o := ProcessEntry(last, caps);
      var m := TextsOf(listing[..|listing| - 1], caps);
      && (name != last.name ==> (name in TextsOf(listing, caps) <==> name in m))
      && (name != last.name && name in m ==> TextsOf(listing, caps)[name] == m[name])
      && (name == last.name && o.Saved? ==> name in TextsOf(listing, caps) && TextsOf(listing, caps)[name] == o.text)
  {
  }

  /**
   * Every record reports a supported regular file of the listing, names its text
   * file by replacing the extension, and (the names of a folder being distinct)
   * has that file's text in `extracted_texts`, whose length it reports.
   */
  lemma {:induction false} RecordsFaithful(listing: seq<DirEntry>, caps: Capabilities, i: nat)
    requires DistinctNames(listing)
    requires i < |RecordsOf(listing, caps)|
    ensures var rec := RecordsOf(listing, caps)[i];
      && (exists k :: 0 <= k < |listing| && listing[k].name == rec.originalFile
            && listing[k].node.RegularFile? && Classify(listing[k].name) != Unsupported)
      && rec.textFile == TextFileName(rec.originalFile)
      && rec.originalFile in TextsOf(listing, caps)
      && rec.textLength == |TextsOf(listing, caps)[rec.originalFile]|
  {
    var n := |listing|;
    var init := listing[..n - 1];
    var last := listing[n - 1];
    var before := RecordsOf(init, caps);
    var o := ProcessEntry(last, caps);
    assert RecordsOf(listing, caps) == before + if o.Saved? then [o.record] else [];
    var rec := RecordsOf(listing, caps)[i];
    TextsOfLast(listing, caps, rec.originalFile);
    if i < |before| {
      assert DistinctNames(init);
      RecordsFaithful(init, caps, i);
      var k :| 0 <= k < |init| && init[k].name == rec.originalFile
            && init[k].node.RegularFile? && Classify(init[k].name) != Unsupported;
      assert listing[k] == init[k];
      assert last.name != rec.originalFile;
    } else {
      SavedOutcome(last, caps);
      assert rec == o.record;
    }
  }

  /** Classification ignores case. */
  lemma ClassifyIgnoresCase(name: string)
    ensures Classify(name) == Classify(Lower(name))
  {
    LowerIdempotent(name);
  }

  lemma LastCharDiffers(s: string, suffix: string)
    requires |s| > 0 && |suffix| > 0 && s[|s| - 1] != suffix[|suffix| - 1]
    ensures !EndsWith(s, suffix)
  {
    if |suffix| <= |s| {
      assert s[|s| - |suffix|..][|suffix| - 1] == s[|s| - 1];
    }
  }

  /** A `.txt` file, such as one this very extraction saved, is never extracted again. */
  lemma TextFilesUnsupported(name: string)
    requires EndsWith(name, ".txt")
    ensures Classify(name) == Unsupported
  {
    var lower := Lower(name);
    LowerKeepsLowerSuffix(name, ".txt");
    assert lower[|lower| - 1] == 't';
    forall i | 0 <= i < |ImageExtensions|
      ensures !EndsWith(lower, ImageExtensions[i])
    {
      var ext := ImageExtensions[i];
      LastCharDiffers(lower, ext);
    }
    LastCharDiffers(lower, PdfExtension);
  }

  /**
   * The text file name replaces the last extension: a name `stem + ext`, where `ext`
   * is a dot followed by no further dot and `stem` is not dots only, becomes
   * `stem + ".txt"`.
   */
  lemma TextFileNameReplacesExtension(stem: string, ext: string)
    requires |ext| >= 1 && ext[0] == '.'
    requires forall j :: 1 <= j < |ext| ==> ext[j] != '.'
    requires exists j :: 0 <= j < |stem| && stem[j] != '.'
    ensures TextFileName(stem + ext) == stem + ".txt"
  {
    var name := stem + ext;
    var d := LastDot(name);
    assert name[|stem|] == '.';
    assert d.Some? && d.value == |stem|;
    var j :| 0 <= j < |stem| && stem[j] != '.';
    assert name[j] != '.';
    assert name[..|stem|] == stem;
  }
}

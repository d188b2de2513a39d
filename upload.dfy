/**
 * Upload (`upload_note`): after the file is saved into the folder at `path`,
 * text is extracted for the subject (the first segment of `path`) and, only when
 * extraction reports processed files, the subject is re-ingested.
 */
module Upload {
  import opened Options
  import opened VectorIndex
  import opened Collaborators
  import Extraction
  import Ingestion

  /** The subject of an upload path: everything before the first `/`, or the whole path. */
  function SubjectOf(path: string): (subject: string)
    ensures subject <= path
    ensures '/' !in subject
    ensures subject == path || (|subject| < |path| && path[|subject|] == '/')
  {
    if path == [] || path[0] == '/' then [] else [path[0]] + SubjectOf(path[1..])
  }

  /** Exactly one prefix of a path is free of `/` and ends the path or stands just before a `/`. */
  lemma {:induction false} SubjectOfUnique(path: string, s: string)
    requires s <= path && '/' !in s
    requires s == path || (|s| < |path| && path[|s|] == '/')
    ensures s == SubjectOf(path)
  {
    if s != [] {
      assert s[0] == path[0] && s[0] != '/';
      assert s[1..] <= path[1..];
      assert '/' !in s[1..] by {
        forall c | c in s[1..] ensures c in s { }
      }
      if s != path {
        assert path[1..][|s[1..]|] == path[|s|];
      }
      SubjectOfUnique(path[1..], s[1..]);
    }
  }

  /** A stage of the pipeline an upload ran, with the subject it ran for. */
  datatype Stage = Extracting(subject: string) | Ingesting(subject: string)

  datatype UploadResult =
    | FolderNotFound(error: string)
    | NothingExtracted(message: string)
    | Processed(message: string, extraction: Extraction.ExtractResult, ingestion: Ingestion.IngestResult)

  /**
   * `upload_note` for a file named `fileName` into the folder at `path`, which
   * `folderExists` says is there. `subjectListing` is the subject folder as
   * extraction lists it (with the new file), `listingAfterExtraction` as ingestion
   * lists it (with the text files extraction saved). The ghost `stages` are the
   * pipeline stages that ran, in order.
   */
  method UploadNote(
    store: Store, path: string, fileName: string, folderExists: bool,
    subjectListing: Option<seq<DirEntry>>, listingAfterExtraction: Option<seq<DirEntry>>, caps: Capabilities)
    returns (r: UploadResult, ghost stages: seq<Stage>)
    modifies store
    ensures !folderExists ==>
      && r == FolderNotFound("Folder '" + path + "' does not exist.")
      && stages == []
      && store.collections == old(store.collections)
    ensures folderExists ==>
      var subject := SubjectOf(path);
      var extraction := Extraction.Extract(subjectListing, caps);
      if extraction.ProcessedFiles() == [] then
        && r == NothingExtracted("File '" + fileName + "' uploaded but no text could be extracted.")
        && stages == [Extracting(subject)]
        && store.collections == old(store.collections)
      else
        var ingestion := Ingestion.Ingest(old(store.collections), subject, listingAfterExtraction, caps);
        && r == Processed("File '" + fileName + "' uploaded and processed successfully.", extraction, ingestion.result)
        && stages == [Extracting(subject), Ingesting(subject)]
        && store.collections == ingestion.collections
  {
    if !folderExists {
      return FolderNotFound("Folder '" + path + "' does not exist."), [];
    }
    var subject := SubjectOf(path);
    var extraction := Extraction.ExtractText(subjectListing, caps);
    stages := [Extracting(subject)];
    if extraction.ProcessedFiles() == [] {
      return NothingExtracted("File '" + fileName + "' uploaded but no text could be extracted."), stages;
    }
    var ingestion, batches := Ingestion.IngestFolder(store, subject, listingAfterExtraction, caps);
    stages := stages + [Ingesting(subject)];
    r := Processed("File '" + fileName + "' uploaded and processed successfully.", extraction, ingestion);
  }
}

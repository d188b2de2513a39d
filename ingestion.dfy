/**
 * Subject ingestion: load the non-blank `.txt` texts of a subject folder, split
 * them into chunks, replace the subject's collection and store every chunk
 * under the id `{subject}_{k}`, fifty chunks per call to the store.
 */
module Ingestion {
  import opened Options
  import opened Text
  import opened VectorIndex
  import opened Collaborators

  const BatchSize: nat := 50

  datatype IngestError = FolderMissing | NoExtractedText

  function ErrorMessage(e: IngestError): string
  {
    match e
    case FolderMissing => "Folder does not exist."
    case NoExtractedText => "No extracted text found in folder."
  }

  /** The two error strings differ, so the error a caller reads back identifies the failure. */
  lemma ErrorMessageInjective(e: IngestError, f: IngestError)
    requires ErrorMessage(e) == ErrorMessage(f)
    ensures e == f
  {
  }

  /** The response; an error result also reports `chunks_created` as 0, which it leaves implicit. */
  datatype IngestResult =
    | IngestFailed(error: IngestError)
    | Ingested(message: string, chunksCreated: nat, filesProcessed: seq<string>, finalCount: nat)

  function Message(subject: string, chunks: nat): string
  {
    "Ingested " + NatToString(chunks) + " chunks for subject '" + subject + "' into ChromaDB."
  }

  /**
   * What ingestion loads from one listed name: the text of a name ending in `.txt`
   * (case-sensitive) that reads as UTF-8 text and is not whitespace only (`text.strip()`
   * is non-empty, see `StripEmptyIffBlank`). A name that cannot be read (a directory,
   * undecodable bytes) is skipped like a blank one.
   */
  function LoadText(e: DirEntry, caps: Capabilities): Option<string>
  {
    if !EndsWith(e.name, ".txt") then None
    else match e.node
      case Directory => None
      case RegularFile(bytes) =>
        match caps.readText(bytes)
        case None => None
        case Some(text) => if !IsBlank(text) then Some(text) else None
  }

  datatype Loaded = Loaded(name: string, text: string)

  /** What one listed name contributes to the loaded texts: its text, or nothing. */
  function LoadedFrom(e: DirEntry, caps: Capabilities): seq<Loaded>
  {
    match LoadText(e, caps)
    case Some(text) => [Loaded(e.name, text)]
    case None => []
  }

  /** Everything ingestion loads from a listing, in listing order. */
  function LoadAll(listing: seq<DirEntry>, caps: Capabilities): seq<Loaded>
  {
    if listing == [] then []
    else LoadAll(listing[..|listing| - 1], caps) + LoadedFrom(listing[|listing| - 1], caps)
  }

  function Names(loaded: seq<Loaded>): seq<string>
  {
    seq(|loaded|, i requires 0 <= i < |loaded| => loaded[i].name)
  }

  function Texts(loaded: seq<Loaded>): seq<string>
  {
    seq(|loaded|, i requires 0 <= i < |loaded| => loaded[i].text)
  }

  /** The chunks of every text, text after text. */
  function ChunksOf(texts: seq<string>, caps: Capabilities): seq<string>
  {
    if texts == [] then [] else ChunksOf(texts[..|texts| - 1], caps) + SplitText(caps, texts[|texts| - 1])
  }

  /** The chunks ingestion creates for a subject folder with this listing. */
  function SubjectChunks(listing: seq<DirEntry>, caps: Capabilities): seq<string>
  {
    ChunksOf(Texts(LoadAll(listing, caps)), caps)
  }

  /** The id of the chunk at position `k` of a subject's chunks. */
  function ChunkId(subject: string, k: nat): string
  {
    subject + "_" + NatToString(k)
  }

  /** The entries for `chunks` when the first of them is chunk number `from`. */
  function IndexEntries(subject: string, chunks: seq<string>, caps: Capabilities, from: nat): seq<Entry>
  {
    seq(|chunks|, k requires 0 <= k < |chunks| => Entry(ChunkId(subject, from + k), chunks[k], caps.embed(chunks[k])))
  }

  function Flatten(batches: seq<seq<string>>): seq<string>
  {
    if batches == [] then [] else Flatten(batches[..|batches| - 1]) + batches[|batches| - 1]
  }

  /** The result of an ingestion together with the store's collections after it. */
  datatype Effect = Effect(result: IngestResult, collections: map<string, seq<Entry>>)

  /**
   * Ingestion of `subject` whose folder has `listing` (`None`: no such folder),
   * against a store holding `collections`.
   */
  function Ingest(collections: map<string, seq<Entry>>, subject: string, listing: Option<seq<DirEntry>>, caps: Capabilities): (eff: Effect)
    ensures eff.result.IngestFailed? ==> eff.collections == collections
    ensures listing.None? ==> eff.result == IngestFailed(FolderMissing)
    ensures eff.collections - {subject} == collections - {subject}
    ensures eff.result.Ingested? <==> listing.Some? && LoadAll(listing.value, caps) != []
    ensures listing.Some? && LoadAll(listing.value, caps) == [] ==> eff.result == IngestFailed(NoExtractedText)
    ensures eff.result.Ingested? ==>
      var chunks := SubjectChunks(listing.value, caps);
      && eff.result.message == Message(subject, |chunks|)
      && eff.result.chunksCreated == eff.result.finalCount == |chunks|
      && eff.result.filesProcessed == Names(LoadAll(listing.value, caps))
      && subject in eff.collections
      && |eff.collections[subject]| == |chunks|
      && UniqueIds(eff.collections[subject])
      && forall k :: 0 <= k < |chunks| ==>
           eff.collections[subject][k].id == ChunkId(subject, k) && eff.collections[subject][k].document == chunks[k]
  {
    match listing
    case None => Effect(IngestFailed(FolderMissing), collections)
    case Some(entries) =>
      var loaded := LoadAll(entries, caps);
      if loaded == [] then Effect(IngestFailed(NoExtractedText), collections)
      else
        var chunks := ChunksOf(Texts(loaded), caps);
        IndexEntriesUnique(subject, chunks, caps, 0);
        Effect(Ingested(Message(subject, |chunks|), |chunks|, Names(loaded), |chunks|),
               collections[subject := IndexEntries(subject, chunks, caps, 0)])
  }

  /** The value of `Ingest` when the listing loads at least one text. */
  lemma IngestLoaded(collections: map<string, seq<Entry>>, subject: string, entries: seq<DirEntry>, caps: Capabilities)
    requires LoadAll(entries, caps) != []
    ensures
      var chunks := SubjectChunks(entries, caps);
      Ingest(collections, subject, Some(entries), caps)
        == Effect(Ingested(Message(subject, |chunks|), |chunks|, Names(LoadAll(entries, caps)), |chunks|),
                  collections[subject := IndexEntries(subject, chunks, caps, 0)])
  {
  }

  /** Dropping a key, recreating it and then setting it is setting it. */
  lemma ReplaceKey<K, V>(m: map<K, V>, k: K, empty: V, v: V)
    ensures (m - {k})[k := empty][k := v] == m[k := v]
  {
  }

  lemma UpdateTwice<K, V>(m: map<K, V>, k: K, a: V, b: V)
    ensures m[k := a][k := b] == m[k := b]
  {
  }

  lemma PrefixExtend<T>(s: seq<T>, i: nat, j: nat)
    requires i <= j <= |s|
    ensures s[..i] + s[i..j] == s[..j]
  {
  }

  /** Two positions of one subject never share an id. */
  lemma ChunkIdInjective(subject: string, k: nat, m: nat)
    requires ChunkId(subject, k) == ChunkId(subject, m)
    ensures k == m
  {
    var p := |subject + "_"|;
    assert ChunkId(subject, k)[p..] == NatToString(k);
    assert ChunkId(subject, m)[p..] == NatToString(m);
    NatToStringInjective(k, m);
  }

  lemma IndexEntriesUnique(subject: string, chunks: seq<string>, caps: Capabilities, from: nat)
    ensures UniqueIds(IndexEntries(subject, chunks, caps, from))
  {
    var es := IndexEntries(subject, chunks, caps, from);
    forall i, j | 0 <= i < j < |es|
      ensures es[i].id != es[j].id
    {
      if es[i].id == es[j].id {
        ChunkIdInjective(subject, from + i, from + j);
      }
    }
  }

  /**
   * Batch boundaries are invisible: storing the chunks before position `i` and then
   * those from `i` to `j`, numbered from `i`, stores the same entries as storing
   * the chunks before `j` at once.
   */
  lemma BatchBoundaryInvisible(subject: string, chunks: seq<string>, caps: Capabilities, i: nat, j: nat)
    requires i <= j <= |chunks|
    ensures IndexEntries(subject, chunks[..i], caps, 0) + IndexEntries(subject, chunks[i..j], caps, i)
         == IndexEntries(subject, chunks[..j], caps, 0)
  {
  }

  /** Loading is file by file: the loads of two listings concatenate. */
  lemma {:induction false} LoadAllAppend(a: seq<DirEntry>, b: seq<DirEntry>, caps: Capabilities)
    ensures LoadAll(a + b, caps) == LoadAll(a, caps) + LoadAll(b, caps)
    decreases |b|
  {
    if b != [] {
      var n := |b|;
      assert (a + b)[..|a + b| - 1] == a + b[..n - 1];
      assert (a + b)[|a + b| - 1] == b[n - 1];
      LoadAllAppend(a, b[..n - 1], caps);
      assert LoadAll(a + b, caps) == LoadAll(a + b[..n - 1], caps) + LoadedFrom(b[n - 1], caps);
    } else {
      assert a + b == a;
    }
  }

  /** A name that fails to load (a read error, blank text, no `.txt`) is skipped and the rest still load. */
  lemma SkippedEntryIsolated(a: seq<DirEntry>, e: DirEntry, b: seq<DirEntry>, caps: Capabilities)
    requires LoadText(e, caps).None?
    ensures LoadAll(a + [e] + b, caps) == LoadAll(a, caps) + LoadAll(b, caps)
  {
    LoadAllAppend(a + [e], b, caps);
    assert (a + [e])[..|a|] == a;
    assert LoadAll(a + [e], caps) == LoadAll(a, caps) + LoadedFrom(e, caps);
  }

  /** Every loaded file has a `.txt` name and a text that is not whitespace only, and comes from the listing. */
  lemma {:induction false} LoadedAreNonBlankTexts(listing: seq<DirEntry>, caps: Capabilities, i: nat)
    requires i < |LoadAll(listing, caps)|
    ensures EndsWith(LoadAll(listing, caps)[i].name, ".txt")
    ensures !IsBlank(LoadAll(listing, caps)[i].text)
    ensures exists e :: e in listing && e.name == LoadAll(listing, caps)[i].name
  {
    var n := |listing|;
    var init := LoadAll(listing[..n - 1], caps);
    if i < |init| {
      LoadedAreNonBlankTexts(listing[..n - 1], caps, i);
      var e :| e in listing[..n - 1] && e.name == init[i].name;
      assert e in listing;
    } else {
      assert listing[n - 1] in listing;
    }
  }

  /** Chunks never cross text boundaries: the chunks of two runs of texts concatenate. */
  lemma {:induction false} ChunksOfAppend(a: seq<string>, b: seq<string>, caps: Capabilities)
    ensures ChunksOf(a + b, caps) == ChunksOf(a, caps) + ChunksOf(b, caps)
    decreases |b|
  {
    if b != [] {
      var n := |b|;
      assert (a + b)[..|a + b| - 1] == a + b[..n - 1];
      assert (a + b)[|a + b| - 1] == b[n - 1];
      ChunksOfAppend(a, b[..n - 1], caps);
    } else {
      assert a + b == a;
    }
  }

  lemma TextsNamesAppend(a: seq<Loaded>, b: seq<Loaded>)
    ensures Texts(a + b) == Texts(a) + Texts(b)
    ensures Names(a + b) == Names(a) + Names(b)
  {
  }

  /** Reading one listed name as `ingest_folder` does. */
  method ReadEntry(e: DirEntry, caps: Capabilities) returns (text: Option<string>)
    ensures text == LoadText(e, caps)
  {
    text := None;
    if EndsWith(e.name, ".txt") {
      // A name that cannot be read is reported and skipped.
      var read: Option<string> := None;
      if e.node.RegularFile? {
        read := caps.readText(e.node.content);
      }
      if read.Some? {
        StripEmptyIffBlank(read.value);
        if Strip(read.value) != "" {
          text := read;
        }
      }
    }
  }

  /** The loading loop of `ingest_folder`: the texts and names `LoadAll` describes. */
  method LoadTexts(entries: seq<DirEntry>, caps: Capabilities) returns (texts: seq<string>, names: seq<string>)
    ensures texts == Texts(LoadAll(entries, caps))
    ensures names == Names(LoadAll(entries, caps))
  {
    texts, names := [], [];
    for i := 0 to |entries|
      invariant texts == Texts(LoadAll(entries[..i], caps))
      invariant names == Names(LoadAll(entries[..i], caps))
    {
      var e := entries[i];
      assert entries[..i + 1][..i] == entries[..i];
      assert LoadAll(entries[..i + 1], caps) == LoadAll(entries[..i], caps) + LoadedFrom(e, caps);
      TextsNamesAppend(LoadAll(entries[..i], caps), LoadedFrom(e, caps));
      var text := ReadEntry(e, caps);
      if text.Some? {
        texts := texts + [text.value];
        names := names + [e.name];
      }
    }
    assert entries[..|entries|] == entries;
  }

  /** The chunking loop of `ingest_folder`: every text's chunks, text after text. */
  method ChunkTexts(texts: seq<string>, caps: Capabilities) returns (chunks: seq<string>)
    ensures chunks == ChunksOf(texts, caps)
  {
    chunks := [];
    for t := 0 to |texts|
      invariant chunks == ChunksOf(texts[..t], caps)
    {
      assert texts[..t + 1][..t] == texts[..t];
      chunks := chunks + SplitText(caps, texts[t]);
    }
    assert texts[..|texts|] == texts;
  }

  /**
   * The batched insertion loop of `ingest_folder` into the subject's fresh, empty
   * collection: afterwards it holds chunk `k` under `ChunkId(subject, k)` for every
   * `k`, whatever the batch boundaries were, and nothing else changed. The ghost
   * `batches` are the slices handed to the store, at most fifty chunks each.
   */
  method AddInBatches(store: Store, subject: string, chunks: seq<string>, caps: Capabilities)
    returns (added: nat, ghost batches: seq<seq<string>>)
    requires subject in store.collections && store.collections[subject] == []
    modifies store
    ensures store.collections == old(store.collections)[subject := IndexEntries(subject, chunks, caps, 0)]
    ensures added == |chunks|
    ensures Flatten(batches) == chunks
    ensures forall b :: b in batches ==> 0 < |b| <= BatchSize
  {
    batches := [];
    added := 0;
    var i := 0;
    assert IndexEntries(subject, chunks[..0], caps, 0) == [];
    assert old(store.collections)[subject := []] == old(store.collections);
    while i < |chunks|
      invariant added == Min(i, |chunks|)
      invariant store.collections == old(store.collections)[subject := IndexEntries(subject, chunks[..added], caps, 0)]
      invariant Flatten(batches) == chunks[..added]
      invariant forall b :: b in batches ==> 0 < |b| <= BatchSize
    {
      var end := Min(i + BatchSize, |chunks|);
      var batch := chunks[i..end];
      var embeddings := Encode(caps, batch);
      var ids := seq(|batch|, j requires 0 <= j < |batch| => ChunkId(subject, i + j));
      var entries := seq(|batch|, j requires 0 <= j < |batch| => Entry(ids[j], batch[j], embeddings[j]));
      assert entries == IndexEntries(subject, batch, caps, i);
      ghost var stored := IndexEntries(subject, chunks[..i], caps, 0);
      var ok := store.Add(subject, entries);
      BatchBoundaryInvisible(subject, chunks, caps, i, end);
      UpdateTwice(old(store.collections), subject, stored, stored + entries);
      PrefixExtend(chunks, i, end);
      batches := batches + [batch];
      added := added + |batch|;
      i := i + BatchSize;
    }
    assert chunks[..added] == chunks;
  }

  /**
   * `ingest_folder`: the result and the store's new collections are what `Ingest`
   * says, and the chunks went to the store in batches of at most fifty that
   * together are all the chunks, in order.
   */
  method IngestFolder(store: Store, subject: string, listing: Option<seq<DirEntry>>, caps: Capabilities)
    returns (r: IngestResult, ghost batches: seq<seq<string>>)
    modifies store
    ensures Effect(r, store.collections) == Ingest(old(store.collections), subject, listing, caps)
    ensures Flatten(batches) == if r.Ingested? then SubjectChunks(listing.value, caps) else []
    ensures forall b :: b in batches ==> 0 < |b| <= BatchSize
  {
    batches := [];
    if listing.None? {
      return IngestFailed(FolderMissing), batches;
    }
    ghost var before := store.collections;
    ghost var loaded := LoadAll(listing.value, caps);
    var texts, names := LoadTexts(listing.value, caps);
    assert |texts| == |loaded|;
    if texts == [] {
      return IngestFailed(NoExtractedText), batches;
    }
    var chunks := ChunkTexts(texts, caps);

    // Replace the subject's collection: drop it if present, then create it empty.
    var existed := store.DeleteCollection(subject);
    var created := store.CreateCollection(subject);
    assert store.collections == (before - {subject})[subject := []];
    ReplaceKey(before, subject, [], IndexEntries(subject, chunks, caps, 0));

    var totalAdded;
    totalAdded, batches := AddInBatches(store, subject, chunks, caps);
    var finalCount := store.Count(subject);
    assert store.collections == before[subject := IndexEntries(subject, chunks, caps, 0)];
    r := Ingested(Message(subject, |chunks|), |chunks|, names, finalCount);
    IngestLoaded(before, subject, listing.value, caps);
  }
}

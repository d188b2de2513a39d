/**
 * The standalone embedding helper (`chunk_and_embed`): split a text, embed the
 * chunks and append them to one shared collection under the ids
 * `doc_{c}`, `doc_{c+1}`, ... where `c` is the collection's size beforehand.
 */
module Embeddings {
  import opened Options
  import opened Text
  import opened VectorIndex
  import opened Collaborators

  /** The collection the module opens (creating it if needed) when it loads. */
  const SharedCollection := "my_collection"

  /** The shared collection's entries, none when it does not exist yet. */
  function Existing(collections: map<string, seq<Entry>>): seq<Entry>
  {
    if SharedCollection in collections then collections[SharedCollection] else []
  }

  /** What loading the module does to the store: open the shared collection, creating it empty if needed. */
  method OpenSharedCollection(store: Store)
    modifies store
    ensures SharedCollection in store.collections
    ensures store.collections == old(store.collections)[SharedCollection := Existing(old(store.collections))]
  {
    store.GetOrCreateCollection(SharedCollection);
  }

  function DocId(n: nat): string
  {
    "doc_" + NatToString(n)
  }

  /** The entries appended for `chunks` to a collection that held `count` entries. */
  function NewEntries(chunks: seq<string>, caps: Capabilities, count: nat): seq<Entry>
  {
    seq(|chunks|, i requires 0 <= i < |chunks| => Entry(DocId(count + i), chunks[i], caps.embed(chunks[i])))
  }

  /** `list(zip(a, b))`: pairs up to the shorter of the two. */
  function Zip<A, B>(a: seq<A>, b: seq<B>): seq<(A, B)>
  {
    var n := if |a| < |b| then |a| else |b|;
    seq(n, i requires 0 <= i < n => (a[i], b[i]))
  }

  /** A collection every entry of which carries the id of its position. */
  predicate NumberedFromZero(entries: seq<Entry>)
  {
    forall i :: 0 <= i < |entries| ==> entries[i].id == DocId(i)
  }

  /**
   * `chunk_and_embed`. `None` stands for the exception raised when the shared
   * collection no longer exists (another caller dropped it) or when the text
   * splits into no chunks, which the store refuses to add.
   */
  method ChunkAndEmbed(store: Store, text: string, caps: Capabilities) returns (r: Option<seq<(string, Vector)>>)
    modifies store
    ensures SharedCollection !in old(store.collections) || SplitText(caps, text) == [] ==>
      r.None? && store.collections == old(store.collections)
    ensures SharedCollection in old(store.collections) && SplitText(caps, text) != [] ==>
      var chunks := SplitText(caps, text);
      var before := old(store.collections)[SharedCollection];
      && r == Some(Zip(chunks, Encode(caps, chunks)))
      && store.collections == old(store.collections)[SharedCollection := before + NewEntries(chunks, caps, |before|)]
  {
    var chunks := SplitText(caps, text);
    var embeddings := Encode(caps, chunks);
    if SharedCollection !in store.collections {
      return None;
    }
    var existing := store.Count(SharedCollection);
    var ids := seq(|chunks|, i requires 0 <= i < |chunks| => DocId(existing + i));
    var entries := seq(|chunks|, i requires 0 <= i < |chunks| => Entry(ids[i], chunks[i], embeddings[i]));
    assert entries == NewEntries(chunks, caps, existing);
    var ok := store.Add(SharedCollection, entries);
    if !ok {
      return None;
    }
    r := Some(Zip(chunks, embeddings));
  }

  /** Distinct counters give distinct ids. */
  lemma DocIdInjective(i: nat, j: nat)
    requires DocId(i) == DocId(j)
    ensures i == j
  {
    assert DocId(i)[4..] == NatToString(i);
    assert DocId(j)[4..] == NatToString(j);
    NatToStringInjective(i, j);
  }

  /** The ids one call assigns are pairwise distinct. */
  lemma NewIdsDistinct(chunks: seq<string>, caps: Capabilities, count: nat)
    ensures UniqueIds(NewEntries(chunks, caps, count))
  {
    var es := NewEntries(chunks, caps, count);
    forall i, j | 0 <= i < j < |es|
      ensures es[i].id != es[j].id
    {
      if es[i].id == es[j].id {
        DocIdInjective(count + i, count + j);
      }
    }
  }

  /** A collection numbered from zero has no repeated id. */
  lemma NumberedIsUnique(entries: seq<Entry>)
    requires NumberedFromZero(entries)
    ensures UniqueIds(entries)
  {
    forall i, j | 0 <= i < j < |entries|
      ensures entries[i].id != entries[j].id
    {
      if entries[i].id == entries[j].id {
        DocIdInjective(i, j);
      }
    }
  }

  /**
   * While every append goes through `chunk_and_embed`, the shared collection stays
   * numbered from zero, so counter-based ids never collide with stored ones.
   */
  lemma AppendKeepsNumbering(before: seq<Entry>, chunks: seq<string>, caps: Capabilities)
    requires NumberedFromZero(before)
    ensures NumberedFromZero(before + NewEntries(chunks, caps, |before|))
    ensures UniqueIds(before + NewEntries(chunks, caps, |before|))
  {
    var after := before + NewEntries(chunks, caps, |before|);
    assert NumberedFromZero(after);
    NumberedIsUnique(after);
  }

  /** The returned pairs: one per chunk, chunk `i` with its own embedding. */
  lemma PairsMatchChunks(chunks: seq<string>, caps: Capabilities)
    ensures |Zip(chunks, Encode(caps, chunks))| == |chunks|
    ensures forall i :: 0 <= i < |chunks| ==> Zip(chunks, Encode(caps, chunks))[i] == (chunks[i], caps.embed(chunks[i]))
  {
  }
}

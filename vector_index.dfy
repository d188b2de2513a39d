/**
 * An abstract vector store in the role ChromaDB plays for the pipeline: named
 * collections, each an ordered sequence of (id, document, embedding) entries.
 */
module VectorIndex {
  import opened Options

  /** An embedding: opaque floating-point output of the embedding model. */
  type Vector = seq<real>

  /** One stored chunk. */
  datatype Entry = Entry(id: string, document: string, embedding: Vector)

  /** The parallel lists a similarity query returns for one query embedding. */
  datatype QueryResult = QueryResult(documents: seq<string>, ids: seq<string>, distances: seq<real>)

  function Min(a: nat, b: nat): nat
  {
    if a < b then a else b
  }

  /** No two entries of a collection share an id. */
  predicate UniqueIds(entries: seq<Entry>)
  {
    forall i, j :: 0 <= i < j < |entries| ==> entries[i].id != entries[j].id
  }

  /**
   * The hits of a query asking for `k` results: `min(k, n)` of the `n` stored entries,
   * each reported with its document, its id and its distance to the query embedding.
   * Which entries the store ranks nearest is not modelled: they are taken in stored order.
   */
  function Nearest(entries: seq<Entry>, query: Vector, k: nat, distance: (Vector, Vector) -> real): (r: QueryResult)
    ensures |r.documents| == |r.ids| == |r.distances| == Min(k, |entries|)
    ensures forall i :: 0 <= i < |r.ids| ==> r.ids[i] == entries[i].id && r.documents[i] == entries[i].document
  {
    var n := Min(k, |entries|);
    QueryResult(
      seq(n, i requires 0 <= i < n => entries[i].document),
      seq(n, i requires 0 <= i < n => entries[i].id),
      seq(n, i requires 0 <= i < n => distance(query, entries[i].embedding)))
  }

  /** The store: every collection by name. */
  class Store {
    var collections: map<string, seq<Entry>>

    constructor ()
      ensures collections == map[]
    {
      collections := map[];
    }

    /** Drops a collection; dropping one that does not exist changes nothing. */
    method DeleteCollection(name: string) returns (existed: bool)
      modifies this
      ensures existed == (name in old(collections))
      ensures collections == old(collections) - {name}
    {
      existed := name in collections;
      collections := collections - {name};
    }

    /** Creates an empty collection; refused when the name is taken. */
    method CreateCollection(name: string) returns (created: bool)
      modifies this
      ensures created == (name !in old(collections))
      ensures collections == if created then old(collections)[name := []] else old(collections)
    {
      created := name !in collections;
      if created {
        collections := collections[name := []];
      }
    }

    /** Opens a collection, creating it empty when it does not exist. */
    method GetOrCreateCollection(name: string)
      modifies this
      ensures name in collections
      ensures collections == if name in old(collections) then old(collections) else old(collections)[name := []]
    {
      if name !in collections {
        collections := collections[name := []];
      }
    }

    /** Appends entries to a collection; fails when the collection no longer exists or no entries are given. */
    method Add(name: string, entries: seq<Entry>) returns (ok: bool)
      modifies this
      ensures ok == (name in old(collections) && entries != [])
      ensures collections == if ok then old(collections)[name := old(collections)[name] + entries] else old(collections)
    {
      ok := name in collections && entries != [];
      if ok {
        collections := collections[name := collections[name] + entries];
      }
    }

    /** The number of entries of an existing collection. */
    method Count(name: string) returns (n: nat)
      requires name in collections
      ensures n == |collections[name]|
    {
      n := |collections[name]|;
    }

    /** A similarity query for `k` results against an existing collection. */
    method Query(name: string, query: Vector, k: nat, distance: (Vector, Vector) -> real) returns (r: QueryResult)
      requires name in collections
      ensures r == Nearest(collections[name], query, k, distance)
      ensures |r.ids| <= k && |r.ids| <= |collections[name]|
    {
      r := Nearest(collections[name], query, k, distance);
    }
  }
}

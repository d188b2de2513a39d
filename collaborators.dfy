/**
 * The capabilities the pipeline calls but does not implement (text splitter,
 * embedding model, UTF-8 text reader, OCR, PDF text layer, text-file writer,
 * language model, distance), and the directory entries it lists.
 */
module Collaborators {
  import opened Options
  import opened VectorIndex

  type Bytes = seq<bv8>

  /** What a listing shows of one name in a folder. */
  datatype Node = Directory | RegularFile(content: Bytes)

  datatype DirEntry = DirEntry(name: string, node: Node)

  /** The language model's reply: generated text, or a provider failure with its description. */
  datatype Completion = Completed(text: string) | ProviderError(detail: string)

  /**
   * Each capability is a total function of its inputs: the model treats every
   * call as deterministic, and a `None` or `false` stands for the call raising.
   */
  datatype Capabilities = Capabilities(
    split: (string, nat, nat) -> seq<string>,    // text, chunk size, chunk overlap
    embed: string -> Vector,
    distance: (Vector, Vector) -> real,
    readText: Bytes -> Option<string>,          // read as UTF-8 text, newlines translated to "\n"
    ocr: Bytes -> Option<string>,
    pdfPages: Bytes -> Option<seq<string>>,
    writeText: (string, string) -> bool,         // file name, content: whether the write succeeded
    complete: string -> Completion)

  const ChunkSize: nat := 500
  const ChunkOverlap: nat := 50

  /** The splitter configured as the pipeline configures it. */
  function SplitText(caps: Capabilities, text: string): seq<string>
  {
    caps.split(text, ChunkSize, ChunkOverlap)
  }

  /** `model.encode(texts)`: one embedding per text, each depending on its own text only. */
  function Encode(caps: Capabilities, texts: seq<string>): (vs: seq<Vector>)
    ensures |vs| == |texts|
  {
    seq(|texts|, i requires 0 <= i < |texts| => caps.embed(texts[i]))
  }
}

/**
 * Index construction of the first demo: every document is cut into word windows (500 words,
 * 100 shared), every chunk is embedded, and the embeddings and a mapping of (filename, chunk)
 * are appended side by side, so that row `k` of the index belongs to mapping entry `k`.
 * The embedding call is a parameter; the flat index is modelled by its rows and dimension.
 */
module EmbedIndex {
  import opened Wrappers
  import opened Text
  import opened WordWindows
  import opened Grouping
  import Ingest

  datatype Document = Document(filename: string, content: string)

  /** One mapping entry: `{"filename": ..., "chunk": ...}`. */
  datatype MappingEntry = MappingEntry(filename: string, chunk: string)

  /** A flat L2 index: its dimension and the vectors added to it, in order. */
  datatype FlatIndex = FlatIndex(dimension: nat, vectors: seq<seq<real>>)

  datatype BuiltIndex = BuiltIndex(index: FlatIndex, mapping: seq<MappingEntry>)

  /** `chunk_text(doc["content"])` with its default size 500 and overlap 100. */
  function DocChunks(doc: Document): seq<string> {
    WindowChunks(Split(doc.content), 500, 400)
  }

  /** The mapping entries of one document, one per chunk, in chunk order. */
  function DocEntries(doc: Document): (es: seq<MappingEntry>)
    ensures |es| == |DocChunks(doc)|
    ensures forall j :: 0 <= j < |es| ==> es[j] == MappingEntry(doc.filename, DocChunks(doc)[j])
  {
    var cs := DocChunks(doc);
    seq(|cs|, j requires 0 <= j < |cs| => MappingEntry(doc.filename, cs[j]))
  }

  /** The mapping of a list of documents: their entries, document after document. */
  function Entries(docs: seq<Document>): seq<MappingEntry> {
    if docs == [] then [] else Entries(docs[..|docs| - 1]) + DocEntries(docs[|docs| - 1])
  }

  /** The total number of chunks, summed over the documents. */
  function ChunkTotal(docs: seq<Document>): nat {
    if docs == [] then 0 else ChunkTotal(docs[..|docs| - 1]) + WindowCount(|Split(docs[|docs| - 1].content)|, 400)
  }

  /** All rows have the length of the first. */
  predicate Uniform(rows: seq<seq<real>>) {
    forall k :: 0 <= k < |rows| ==> |rows[k]| == |rows[0]|
  }

  /**
   * `np.vstack` of 1-D arrays followed by `IndexFlatL2(shape[1])` and `add`: stacking nothing,
   * or rows of different lengths, raises `ValueError`.
   */
  function Vstack(rows: seq<seq<real>>): (r: Result<FlatIndex>)
    ensures r.Ok? <==> rows != [] && Uniform(rows)
    ensures r.Ok? ==> r.value.vectors == rows && forall k :: 0 <= k < |rows| ==> |rows[k]| == r.value.dimension
  {
    if rows == [] then Err(ValueError("need at least one array to concatenate"))
    else if !Uniform(rows) then Err(ValueError("all the input array dimensions must match"))
    else Ok(FlatIndex(|rows[0]|, rows))
  }

  /** The index rows of a mapping: the embedding of each entry's chunk, in order. */
  function Embeddings(mapping: seq<MappingEntry>, embed: string -> seq<real>): (rows: seq<seq<real>>)
    ensures |rows| == |mapping|
    ensures forall k :: 0 <= k < |mapping| ==> rows[k] == embed(mapping[k].chunk)
  {
    seq(|mapping|, k requires 0 <= k < |mapping| => embed(mapping[k].chunk))
  }

  /**
   * `build_index`: the nested loop over documents and their chunks, appending one embedding
   * and one mapping entry per chunk, then stacking the embeddings into the index.
   */
  method BuildIndex(documents: seq<Document>, embed: string -> seq<real>) returns (r: Result<BuiltIndex>)
    ensures r.Ok? <==> Vstack(Embeddings(Entries(documents), embed)).Ok?
    ensures r.Ok? ==> r.value.mapping == Entries(documents)
    ensures r.Ok? ==> r.value.index == Vstack(Embeddings(Entries(documents), embed)).value
    ensures r.Ok? ==> |r.value.index.vectors| == |r.value.mapping|
    ensures r.Ok? ==> forall k :: 0 <= k < |r.value.mapping| ==> r.value.index.vectors[k] == embed(r.value.mapping[k].chunk)
  {
    var allEmbeddings: seq<seq<real>> := [];
    var mapping: seq<MappingEntry> := [];
    ghost var seen: seq<Document> := [];
    for i := 0 to |documents|
      invariant seen == documents[..i]
      invariant mapping == Entries(seen)
      invariant allEmbeddings == Embeddings(mapping, embed)
    {
      var doc := documents[i];
      var chunks := Ingest.ChunkText(doc.content);
      ghost var before := mapping;
      ghost var entries := DocEntries(doc);
      for j := 0 to |chunks|
        invariant mapping == before + entries[..j]
        invariant allEmbeddings == Embeddings(mapping, embed)
      {
        var chunk := chunks[j];
        var entry := MappingEntry(doc.filename, chunk);
        EmbeddingsSnoc(mapping, entry, embed);
        allEmbeddings := allEmbeddings + [embed(chunk)];
        PrefixSnoc(entries, j);
        AppendAssoc(before, entries[..j], [entry]);
        mapping := mapping + [entry];
      }
      PrefixFull(entries);
      EntriesSnoc(seen, doc);
      PrefixSnoc(documents, i);
      seen := seen + [doc];
    }
    assert seen == documents;
    match Vstack(allEmbeddings)
    case Err(e) => r := Err(e);
    case Ok(index) => r := Ok(BuiltIndex(index, mapping));
  }

  /** `Entries` at one more document. */
  lemma EntriesSnoc(docs: seq<Document>, doc: Document)
    ensures Entries(docs + [doc]) == Entries(docs) + DocEntries(doc)
  {
    PrefixOfSnoc(docs, doc);
  }

  /** `Embeddings` at one more entry. */
  lemma EmbeddingsSnoc(mapping: seq<MappingEntry>, e: MappingEntry, embed: string -> seq<real>)
    ensures Embeddings(mapping + [e], embed) == Embeddings(mapping, embed) + [embed(e.chunk)]
  {
  }

  /** Documents contribute their entries in document order: the mapping of a concatenation is the concatenation. */
  lemma {:induction false} EntriesAppend(xs: seq<Document>, ys: seq<Document>)
    ensures Entries(xs + ys) == Entries(xs) + Entries(ys)
  {
    if ys == [] {
      assert xs + ys == xs;
    } else {
      var init, y := ys[..|ys| - 1], ys[|ys| - 1];
      LastSplit(ys);
      AppendAssoc(xs, init, [y]);
      EntriesAppend(xs, init);
      EntriesSnoc(xs + init, y);
      EntriesSnoc(init, y);
      AppendAssoc(Entries(xs), Entries(init), DocEntries(y));
    }
  }

  /** The mapping has one entry per chunk of every document. */
  lemma {:induction false} EntryCount(docs: seq<Document>)
    ensures |Entries(docs)| == ChunkTotal(docs)
  {
    if docs != [] {
      EntryCount(docs[..|docs| - 1]);
    }
  }

  /** Entry `k` holds the filename of a document and one of that document's chunks. */
  lemma {:induction false} EntryOrigin(docs: seq<Document>, k: nat)
    requires k < |Entries(docs)|
    ensures exists d, j ::
      (0 <= d < |docs| && 0 <= j < |DocChunks(docs[d])| &&
       Entries(docs)[k] == MappingEntry(docs[d].filename, DocChunks(docs[d])[j]))
  {
    var init := docs[..|docs| - 1];
    var last := docs[|docs| - 1];
    if k < |Entries(init)| {
      EntryOrigin(init, k);
      var d, j :| 0 <= d < |init| && 0 <= j < |DocChunks(init[d])| &&
        Entries(init)[k] == MappingEntry(init[d].filename, DocChunks(init[d])[j]);
      assert docs[d] == init[d];
    } else {
      var j := k - |Entries(init)|;
      assert Entries(docs)[k] == DocEntries(last)[j];
      assert docs[|docs| - 1] == last;
    }
  }

  /** An index is built exactly when some document has words and every embedding has the same length. */
  lemma BuildSucceeds(docs: seq<Document>, embed: string -> seq<real>)
    ensures Vstack(Embeddings(Entries(docs), embed)).Ok? <==> ChunkTotal(docs) > 0 && Uniform(Embeddings(Entries(docs), embed))
  {
    EntryCount(docs);
  }
}

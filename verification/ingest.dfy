/** The document-ingestion chunker of the first demo: fixed-size word windows with overlap. */
module Ingest {
  import opened Text
  import opened WordWindows

  /**
   * Splits `text` on whitespace and emits word windows of `chunkSize` words, each next window
   * starting `chunkSize - overlap` words after the previous one. Text without words never
   * enters the loop and gives no chunks; text with words loops forever unless that step is
   * positive, hence the precondition.
   */
  method ChunkText(text: string, chunkSize: nat := 500, overlap: int := 100) returns (chunks: seq<string>)
    requires overlap < chunkSize || Split(text) == []
    ensures Split(text) == [] ==> chunks == []
    ensures overlap < chunkSize ==> chunks == WindowChunks(Split(text), chunkSize, chunkSize - overlap)
  {
    var words := Split(text);
    var step := chunkSize - overlap;
    chunks := [];
    var start: nat := 0;
    ghost var k: nat := 0;
    while start < |words|
      invariant words == [] ==> chunks == []
      invariant words != [] ==> step > 0 && start == k * step && k <= WindowCount(|words|, step)
      invariant |chunks| == k
      invariant forall j :: 0 <= j < k ==> step > 0 && chunks[j] == Join(" ", Window(words, chunkSize, step, j))
      decreases |words| - start
    {
      WindowAt(words, chunkSize, step, k, start);
      var end := start + chunkSize;
      var chunk := Join(" ", words[start..if end <= |words| then end else |words|]);
      chunks := chunks + [chunk];
      start := start + step;
      k := k + 1;
    }
    if step > 0 {
      WindowCountBound(|words|, step, k);
    }
  }
}

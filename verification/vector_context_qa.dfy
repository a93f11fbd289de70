/**
 * The vector-search cross-paper analyzer: papers are cut into word windows, stored with
 * per-chunk ids and paper tags, and each of six fixed questions is answered from the chunks
 * retrieved for it, grouped by paper. The vector store and the model are parameters: the
 * store is seen only through what its query gives for a question, chunks or an exception.
 */
module VectorContextQa {
  import opened Wrappers
  import opened Text
  import opened Grouping
  import opened WordWindows
  import opened PaperContexts
  import opened ModelInterface

  /** Words shared by consecutive windows. */
  const Overlap := 100

  /**
   * The chunks kept for one paper: `range(0, len(words), chunkSize - 100)` is empty for a
   * negative step, and otherwise every window is kept, since none is blank.
   */
  function PaperChunks(text: string, chunkSize: int): seq<string> {
    if chunkSize > Overlap then WindowChunks(Split(text), chunkSize, chunkSize - Overlap) else []
  }

  /**
   * `chunk_text`: windows of `chunkSize` words every `chunkSize - 100` words, skipping blank
   * ones. A step of zero makes `range` raise `ValueError`.
   */
  method ChunkText(text: string, chunkSize: int := 1000) returns (r: Result<seq<string>>)
    ensures chunkSize == Overlap <==> r.Err?
    ensures r.Ok? ==> r.value == PaperChunks(text, chunkSize)
  {
    var words := Split(text);
    var step := chunkSize - Overlap;
    if step == 0 {
      return Err(ValueError("range() arg 3 must not be zero"));
    }
    var chunks: seq<string> := [];
    if step > 0 {
      forall j | 0 <= j < WindowCount(|words|, step)
        ensures !IsBlank(Join(" ", Window(words, chunkSize, step, j)))
      {
        WindowNotBlank(words, chunkSize, step, j);
      }
      chunks := KeptWindows(words, chunkSize, step);
    }
    return Ok(chunks);
  }

  /** The `for i in range(0, len(words), step)` loop, keeping every window whose text is not blank. */
  method KeptWindows(words: seq<string>, size: nat, step: nat) returns (chunks: seq<string>)
    requires step > 0
    requires forall j :: 0 <= j < WindowCount(|words|, step) ==> !IsBlank(Join(" ", Window(words, size, step, j)))
    ensures chunks == WindowChunks(words, size, step)
  {
    chunks := [];
    var i: nat := 0;
    ghost var k: nat := 0;
    while i < |words|
      invariant i == k * step
      invariant k <= WindowCount(|words|, step)
      invariant chunks == WindowChunks(words, size, step)[..k]
      decreases |words| - i
    {
      WindowAt(words, size, step, k, i);
      var end := i + size;
      var chunk := Join(" ", words[i..if end <= |words| then end else |words|]);
      assert chunk == WindowChunks(words, size, step)[k];
      PrefixSnoc(WindowChunks(words, size, step), k);
      if |Strip(chunk)| > 0 {
        chunks := chunks + [chunk];
      }
      i := i + step;
      k := k + 1;
    }
    WindowCountBound(|words|, step, k);
    PrefixFull(WindowChunks(words, size, step));
  }

  /** With a step above zero, the number of chunks is ceil(words / step): no window is dropped. */
  lemma PaperChunkCount(text: string, chunkSize: int)
    requires chunkSize > Overlap
    ensures |PaperChunks(text, chunkSize)| * (chunkSize - Overlap) >= |Split(text)|
    ensures (|PaperChunks(text, chunkSize)| - 1) * (chunkSize - Overlap) < |Split(text)| || |Split(text)| == 0
  {
    var n, step := |Split(text)|, chunkSize - Overlap;
    assert |PaperChunks(text, chunkSize)| == WindowCount(n, step);
    WindowCountCeil(n, step);
  }

  /** The store id of chunk `chunkIdx` of paper `paperIdx` (both counted from 0). */
  function ChunkId(paperIdx: nat, chunkIdx: nat): string {
    "paper_" + NatToString(paperIdx) + "_chunk_" + NatToString(chunkIdx)
  }

  /** The `paper_id` metadata of paper `paperIdx`, counted from 1. */
  function PaperTag(paperIdx: nat): string {
    "paper_" + NatToString(paperIdx + 1)
  }

  /** Distinct chunks get distinct store ids. */
  lemma ChunkIdInjective(p: nat, c: nat, p': nat, c': nat)
    requires ChunkId(p, c) == ChunkId(p', c')
    ensures p == p' && c == c'
  {
    var s := ChunkId(p, c);
    var a, b := NatToString(p), NatToString(p');
    var rest, rest' := "_chunk_" + NatToString(c), "_chunk_" + NatToString(c');
    assert s[6..] == a + rest;
    assert s[6..] == b + rest';
    LeadingDigitsOf(a, rest);
    LeadingDigitsOf(b, rest');
    assert a == b;
    NatToStringInjective(p, p');
    assert NatToString(c) == s[6 + |a| + 7..] == NatToString(c');
    NatToStringInjective(c, c');
  }

  /**
   * Store ids number papers from 0 while the `paper_id` tags number them from 1: the digits
   * after `paper_` denote `paperIdx` in the id and `paperIdx + 1` in the tag.
   */
  lemma IdsZeroBasedTagsOneBased(p: nat, c: nat)
    ensures DigitsValue(LeadingDigits(ChunkId(p, c)[6..])) == p
    ensures DigitsValue(PaperTag(p)[6..]) == p + 1
  {
    var a := NatToString(p);
    assert ChunkId(p, c)[6..] == a + ("_chunk_" + NatToString(c));
    LeadingDigitsOf(a, "_chunk_" + NatToString(c));
    NatToStringValue(p);
    assert PaperTag(p)[6..] == NatToString(p + 1);
    NatToStringValue(p + 1);
  }

  /** One `collection.add` call: the chunk, its id and its metadata `paper_id` and `chunk_id`. */
  datatype Entry = Entry(doc: string, id: string, paperId: string, chunkIdx: nat)

  /** The entries of one paper, in chunk order. */
  function PaperEntries(paperIdx: nat, chunks: seq<string>): seq<Entry> {
    seq(|chunks|, j requires 0 <= j < |chunks| => Entry(chunks[j], ChunkId(paperIdx, j), PaperTag(paperIdx), j))
  }

  /** The entries of all papers: paper by paper, each in chunk order. */
  function AllEntries(papers: seq<string>, chunkSize: int): seq<Entry> {
    if papers == [] then []
    else AllEntries(papers[..|papers| - 1], chunkSize) + PaperEntries(|papers| - 1, PaperChunks(papers[|papers| - 1], chunkSize))
  }

  /** `total_chunks`: the sum of the per-paper chunk counts. */
  function TotalChunks(papers: seq<string>, chunkSize: int): nat {
    if papers == [] then 0
    else TotalChunks(papers[..|papers| - 1], chunkSize) + |PaperChunks(papers[|papers| - 1], chunkSize)|
  }

  /** There is one store entry per chunk. */
  lemma {:induction false} EntryCount(papers: seq<string>, chunkSize: int)
    ensures |AllEntries(papers, chunkSize)| == TotalChunks(papers, chunkSize)
  {
    if papers != [] {
      EntryCount(papers[..|papers| - 1], chunkSize);
    }
  }

  /** Every entry's id is the id of a chunk of one of the papers. */
  lemma {:induction false} EntryIdsFromPapers(papers: seq<string>, chunkSize: int, i: nat)
    requires i < |AllEntries(papers, chunkSize)|
    ensures exists p: nat, c: nat :: p < |papers| && AllEntries(papers, chunkSize)[i].id == ChunkId(p, c)
  {
    var init := papers[..|papers| - 1];
    var front := AllEntries(init, chunkSize);
    if i < |front| {
      EntryIdsFromPapers(init, chunkSize, i);
      var p: nat, c: nat :| p < |init| && front[i].id == ChunkId(p, c);
      assert AllEntries(papers, chunkSize)[i] == front[i];
    } else {
      var c := i - |front|;
      assert AllEntries(papers, chunkSize)[i].id == ChunkId(|papers| - 1, c);
    }
  }

  /** An entry of the last paper carries the id of its chunk in that paper. */
  lemma LastPaperEntry(papers: seq<string>, chunkSize: int, i: nat)
    requires papers != [] && |AllEntries(papers[..|papers| - 1], chunkSize)| <= i < |AllEntries(papers, chunkSize)|
    ensures AllEntries(papers, chunkSize)[i].id == ChunkId(|papers| - 1, i - |AllEntries(papers[..|papers| - 1], chunkSize)|)
  {
    var front := AllEntries(papers[..|papers| - 1], chunkSize);
    var last := PaperEntries(|papers| - 1, PaperChunks(papers[|papers| - 1], chunkSize));
    assert AllEntries(papers, chunkSize) == front + last;
    assert AllEntries(papers, chunkSize)[i] == last[i - |front|];
  }

  /** Adding a paper leaves the entries of the earlier papers in place. */
  lemma FrontEntry(papers: seq<string>, chunkSize: int, i: nat)
    requires papers != [] && i < |AllEntries(papers[..|papers| - 1], chunkSize)|
    ensures AllEntries(papers, chunkSize)[i] == AllEntries(papers[..|papers| - 1], chunkSize)[i]
  {
  }

  /** The contrapositive of `ChunkIdInjective`. */
  lemma ChunkIdsDiffer(p: nat, c: nat, p': nat, c': nat)
    requires p != p' || c != c'
    ensures ChunkId(p, c) != ChunkId(p', c')
  {
    if ChunkId(p, c) == ChunkId(p', c') {
      ChunkIdInjective(p, c, p', c');
    }
  }

  /** The store ids of all entries are pairwise distinct. */
  lemma {:induction false} EntryIdsDistinct(papers: seq<string>, chunkSize: int, i: nat, j: nat)
    requires i < j < |AllEntries(papers, chunkSize)|
    ensures AllEntries(papers, chunkSize)[i].id != AllEntries(papers, chunkSize)[j].id
  {
    var init := papers[..|papers| - 1];
    var n0 := |AllEntries(init, chunkSize)|;
    if j < n0 {
      EntryIdsDistinct(init, chunkSize, i, j);
      FrontEntry(papers, chunkSize, i);
      FrontEntry(papers, chunkSize, j);
    } else if i < n0 {
      FrontAndLastDiffer(papers, chunkSize, i, j);
    } else {
      LastPaperEntry(papers, chunkSize, i);
      LastPaperEntry(papers, chunkSize, j);
      ChunkIdsDiffer(|papers| - 1, i - n0, |papers| - 1, j - n0);
    }
  }

  /** An entry of an earlier paper and one of the last paper have different ids. */
  lemma FrontAndLastDiffer(papers: seq<string>, chunkSize: int, i: nat, j: nat)
    requires papers != []
    requires i < |AllEntries(papers[..|papers| - 1], chunkSize)| <= j < |AllEntries(papers, chunkSize)|
    ensures AllEntries(papers, chunkSize)[i].id != AllEntries(papers, chunkSize)[j].id
  {
    var init := papers[..|papers| - 1];
    var n0 := |AllEntries(init, chunkSize)|;
    EntryIdsFromPapers(init, chunkSize, i);
    var p: nat, c: nat :| p < |init| && AllEntries(init, chunkSize)[i].id == ChunkId(p, c);
    FrontEntry(papers, chunkSize, i);
    LastPaperEntry(papers, chunkSize, j);
    ChunkIdsDiffer(p, c, |papers| - 1, j - n0);
  }

  /** The inner loop of the indexing: one `collection.add` per chunk of paper `paperIdx`. */
  method AddPaper(entries: seq<Entry>, paperIdx: nat, chunks: seq<string>) returns (entries': seq<Entry>)
    ensures entries' == entries + PaperEntries(paperIdx, chunks)
  {
    entries' := entries;
    for j := 0 to |chunks|
      invariant entries' == entries + PaperEntries(paperIdx, chunks[..j])
    {
      assert PaperEntries(paperIdx, chunks[..j + 1]) == PaperEntries(paperIdx, chunks[..j]) + [Entry(chunks[j], ChunkId(paperIdx, j), PaperTag(paperIdx), j)];
      entries' := entries' + [Entry(chunks[j], ChunkId(paperIdx, j), PaperTag(paperIdx), j)];
    }
    assert chunks[..|chunks|] == chunks;
  }

  /**
   * The indexing loop of `analyze_context`: every chunk of every paper is added to the store,
   * in order; `chunk_text` raises (step zero) as soon as there is a paper to chunk.
   */
  method IndexPapers(papers: seq<string>, chunkSize: int) returns (r: Result<seq<Entry>>, totalChunks: nat)
    ensures r.Err? <==> chunkSize == Overlap && |papers| > 0
    ensures r.Ok? ==> r.value == AllEntries(papers, chunkSize) && totalChunks == TotalChunks(papers, chunkSize)
  {
    var entries: seq<Entry> := [];
    totalChunks := 0;
    for p := 0 to |papers|
      invariant entries == AllEntries(papers[..p], chunkSize)
      invariant totalChunks == TotalChunks(papers[..p], chunkSize)
      invariant p > 0 ==> chunkSize != Overlap
    {
      var chunked := ChunkText(papers[p], chunkSize);
      if chunked.Err? {
        return Err(chunked.error), totalChunks;
      }
      var chunks := chunked.value;
      totalChunks := totalChunks + |chunks|;
      entries := AddPaper(entries, p, chunks);
      assert papers[..p + 1][..p] == papers[..p];
    }
    assert papers[..|papers|] == papers;
    r := Ok(entries);
  }

  /** A question of `CONTEXT_QUESTIONS` with its category. */
  datatype Question = Question(category: string, text: string)

  /** The six questions, category by category, in declaration order. */
  const ContextQuestions: seq<Question> := [
    Question("comparative", "What are the main methodological differences between these papers?"),
    Question("comparative", "How do the papers complement or contradict each other?"),
    Question("thematic", "What common themes or patterns emerge across all papers?"),
    Question("thematic", "How do these papers collectively advance the field?"),
    Question("synthesis", "What are the shared limitations across these papers?"),
    Question("synthesis", "What future research directions are suggested by considering all papers together?")
  ]

  /** The outcome of asking the model: a response, or an exception with its message. */
  datatype Generation = Replied(response: ModelResponse) | Raised(message: string)

  /** One result record; timestamps are not modelled. */
  datatype QaRecord =
    | Answered(category: string, question: string, response: string, papersReferenced: seq<string>, chunksUsed: nat, error: Option<string>)
    | Failed(category: string, question: string, message: string)

  /** The indentation of the analyzer's prompt template: 24 spaces. */
  const Indent := "                        "

  /**
   * The record for one question: none when the query returned nothing, an error record when
   * the query or the model raised, and the answer otherwise.
   */
  function QuestionRecord(q: Question, retrieval: Retrieval, generate: string -> Generation): (r: Option<QaRecord>)
    ensures r.Some? <==> Yields(retrieval)
    ensures r.Some? ==> r.value.category == q.category && r.value.question == q.text
    ensures retrieval.QueryFailed? ==> r == Some(Failed(q.category, q.text, retrieval.message))
  {
    match retrieval
    case QueryFailed(message) => Some(Failed(q.category, q.text, message))
    case Found(hits) =>
      if hits == [] then None
      else match generate(CrossPaperPrompt(Indent, q.text, CombinedContext(hits)))
        case Raised(message) => Some(Failed(q.category, q.text, message))
        case Replied(response) =>
          Some(Answered(q.category, q.text, response.content, GroupKeys(hits, PaperOf), |hits|,
                        if Truthy(response.error) then response.error else None))
  }

  /** Answers one question from the outcome of its query. */
  method AnswerQuestion(q: Question, retrieval: Retrieval, generate: string -> Generation) returns (record: Option<QaRecord>)
    ensures record == QuestionRecord(q, retrieval, generate)
    ensures record.None? <==> retrieval == Found([])
    ensures record.Some? && record.value.Answered? ==>
      retrieval.Found? && record.value.papersReferenced == GroupKeys(retrieval.hits, PaperOf)
      && record.value.chunksUsed == |retrieval.hits|
  {
    if retrieval.QueryFailed? {
      return Some(Failed(q.category, q.text, retrieval.message));
    }
    var hits := retrieval.hits;
    if hits == [] {
      return None;
    }
    var papers, groups, combined := AssembleContext(hits);
    var outcome := generate(CrossPaperPrompt(Indent, q.text, combined));
    match outcome
    case Raised(message) =>
      record := Some(Failed(q.category, q.text, message));
    case Replied(response) =>
      var error := if Truthy(response.error) then response.error else None;
      record := Some(Answered(q.category, q.text, response.content, papers, |hits|, error));
  }

  /** The records for the questions `qs`, in order, skipping questions whose query returned nothing. */
  function Records(qs: seq<Question>, retrieve: string -> Retrieval, generate: string -> Generation): seq<QaRecord> {
    if qs == [] then []
    else
      var q := qs[|qs| - 1];
      Records(qs[..|qs| - 1], retrieve, generate)
        + match QuestionRecord(q, retrieve(q.text), generate) case Some(rec) => [rec] case None => []
  }

  /** The number of questions whose query raised or returned something. */
  function AnsweredCount(qs: seq<Question>, retrieve: string -> Retrieval): nat {
    if qs == [] then 0
    else AnsweredCount(qs[..|qs| - 1], retrieve) + (if Yields(retrieve(qs[|qs| - 1].text)) then 1 else 0)
  }

  /** Exactly one record per question whose query raised or returned something, and none for the others. */
  lemma {:induction false} RecordCount(qs: seq<Question>, retrieve: string -> Retrieval, generate: string -> Generation)
    ensures |Records(qs, retrieve, generate)| == AnsweredCount(qs, retrieve)
  {
    if qs != [] {
      RecordCount(qs[..|qs| - 1], retrieve, generate);
    }
  }

  /** The question each record answers, as a `Question` of its category and text. */
  function RecordQuestions(rs: seq<QaRecord>): (qs: seq<Question>)
    ensures |qs| == |rs|
  {
    if rs == [] then [] else RecordQuestions(rs[..|rs| - 1]) + [Question(rs[|rs| - 1].category, rs[|rs| - 1].question)]
  }

  /** The questions whose query raised or returned something, in order. */
  function Retrieved(qs: seq<Question>, retrieve: string -> Retrieval): seq<Question> {
    if qs == [] then []
    else
      var q := qs[|qs| - 1];
      Retrieved(qs[..|qs| - 1], retrieve) + if Yields(retrieve(q.text)) then [q] else []
  }

  /**
   * The records answer exactly the questions whose query raised or returned something, in
   * order, each under its own category and text.
   */
  lemma {:induction false} RecordsAnswerRetrieved(qs: seq<Question>, retrieve: string -> Retrieval, generate: string -> Generation)
    ensures RecordQuestions(Records(qs, retrieve, generate)) == Retrieved(qs, retrieve)
  {
    if qs != [] {
      var init := qs[..|qs| - 1];
      var q := qs[|qs| - 1];
      var front := Records(init, retrieve, generate);
      var rec := QuestionRecord(q, retrieve(q.text), generate);
      RecordsAnswerRetrieved(init, retrieve, generate);
      if rec.Some? {
        assert Records(qs, retrieve, generate) == front + [rec.value];
        assert (front + [rec.value])[..|front|] == front;
      } else {
        assert Records(qs, retrieve, generate) == front;
      }
    }
  }

  /** The unfolding of `Records` at its last question. */
  lemma RecordsSnoc(qs: seq<Question>, q: Question, retrieve: string -> Retrieval, generate: string -> Generation)
    ensures Records(qs + [q], retrieve, generate)
         == Records(qs, retrieve, generate)
            + match QuestionRecord(q, retrieve(q.text), generate)
              case Some(rec) => [rec] case None => []
  {
    assert (qs + [q])[..|qs|] == qs;
  }

  /** The question loop of `analyze_context`, over any list of questions. */
  method AskAll(qs: seq<Question>, retrieve: string -> Retrieval, generate: string -> Generation)
    returns (results: seq<QaRecord>)
    ensures results == Records(qs, retrieve, generate)
  {
    results := [];
    ghost var asked: seq<Question> := [];
    for i := 0 to |qs|
      invariant asked == qs[..i]
      invariant results == Records(asked, retrieve, generate)
    {
      var q := qs[i];
      var record := AnswerQuestion(q, retrieve(q.text), generate);
      RecordsSnoc(asked, q, retrieve, generate);
      if record.Some? {
        results := results + [record.value];
      }
      PrefixSnoc(qs, i);
      asked := asked + [q];
    }
    assert asked == qs;
  }

  /**
   * `analyze_context`: indexes every paper, then asks each question of `CONTEXT_QUESTIONS`
   * with the outcome of its query, `retrieve`. Indexing fails only through `chunk_text`.
   */
  method AnalyzeContext(papers: seq<string>, chunkSize: int, retrieve: string -> Retrieval, generate: string -> Generation)
    returns (r: Result<seq<QaRecord>>)
    ensures r.Err? <==> chunkSize == Overlap && |papers| > 0
    ensures r.Ok? ==> r.value == Records(ContextQuestions, retrieve, generate)
  {
    var indexed, totalChunks := IndexPapers(papers, chunkSize);
    if indexed.Err? {
      return Err(indexed.error);
    }
    var results := AskAll(ContextQuestions, retrieve, generate);
    return Ok(results);
  }
}

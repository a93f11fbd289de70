/**
 * The cross-paper script with a context-window budget: papers are cut into word windows,
 * windows over 2000 tokens are skipped, and the combined context of each question is cut
 * down 100 words at a time until it fits the model's context length minus 1000 tokens.
 * The tokenizer, the retrieval and the model are parameters.
 */
module ContextWindow {
  import opened Wrappers
  import opened Text
  import opened Grouping
  import opened WordWindows
  import opened PaperContexts

  /** Words shared by consecutive windows. */
  const Overlap := 100
  /** Windows with more tokens than this are skipped. */
  const TokenCap := 2000
  /** Tokens kept free for the question and the answer. */
  const ReservedTokens := 1000
  /** Words removed per trimming step. */
  const TrimStep := 100

  /** The chunks among `chunks` within the token cap, in their order. */
  function WithinCap(chunks: seq<string>, tokens: string -> nat): seq<string> {
    if chunks == [] then []
    else WithinCap(chunks[..|chunks| - 1], tokens) + (if tokens(chunks[|chunks| - 1]) <= TokenCap then [chunks[|chunks| - 1]] else [])
  }

  lemma WithinCapSnoc(chunks: seq<string>, chunk: string, tokens: string -> nat)
    ensures WithinCap(chunks + [chunk], tokens) == WithinCap(chunks, tokens) + if tokens(chunk) <= TokenCap then [chunk] else []
  {
    PrefixOfSnoc(chunks, chunk);
  }

  /** The chunks `chunk_text` returns for a step above zero, and none for a negative step. */
  function CappedChunks(text: string, tokens: string -> nat, chunkSize: int): seq<string> {
    if chunkSize > Overlap then WithinCap(WindowChunks(Split(text), chunkSize, chunkSize - Overlap), tokens) else []
  }

  /**
   * `chunk_text`: windows of `chunkSize` words every `chunkSize - 100` words, skipping each
   * window of more than 2000 tokens. A step of zero makes `range` raise `ValueError`.
   */
  method CappedChunkText(text: string, tokens: string -> nat, chunkSize: int := 1000) returns (r: Result<seq<string>>)
    ensures chunkSize == Overlap <==> r.Err?
    ensures r.Ok? ==> r.value == CappedChunks(text, tokens, chunkSize)
  {
    var words := Split(text);
    var step := chunkSize - Overlap;
    if step == 0 {
      return Err(ValueError("range() arg 3 must not be zero"));
    }
    var chunks: seq<string> := [];
    if step > 0 {
      chunks := CappedWindows(words, chunkSize, step, tokens);
    }
    return Ok(chunks);
  }

  /** The `for i in range(0, len(words), step)` loop, skipping every window over the token cap. */
  method CappedWindows(words: seq<string>, size: nat, step: nat, tokens: string -> nat) returns (chunks: seq<string>)
    requires step > 0
    ensures chunks == WithinCap(WindowChunks(words, size, step), tokens)
  {
    ghost var all := WindowChunks(words, size, step);
    chunks := [];
    var i: nat := 0;
    ghost var k: nat := 0;
    while i < |words|
      invariant i == k * step
      invariant k <= |all|
      invariant chunks == WithinCap(all[..k], tokens)
      decreases |words| - i
    {
      WindowAt(words, size, step, k, i);
      var end := i + size;
      var chunk := Join(" ", words[i..if end <= |words| then end else |words|]);
      assert chunk == all[k];
      PrefixSnoc(all, k);
      WithinCapSnoc(all[..k], chunk, tokens);
      if tokens(chunk) <= TokenCap {
        chunks := chunks + [chunk];
      }
      i := i + step;
      k := k + 1;
    }
    WindowCountBound(|words|, step, k);
    PrefixFull(all);
  }

  /** A chunk is kept exactly when it is one of the windows and within the token cap. */
  lemma {:induction false} WithinCapMembers(chunks: seq<string>, tokens: string -> nat, c: string)
    ensures c in WithinCap(chunks, tokens) <==> c in chunks && tokens(c) <= TokenCap
  {
    if chunks != [] {
      var init := chunks[..|chunks| - 1];
      WithinCapMembers(init, tokens, c);
      assert chunks == init + [chunks[|chunks| - 1]];
    }
  }

  /** Skipping is done window by window, so the kept chunks keep the window order. */
  lemma {:induction false} WithinCapAppend(xs: seq<string>, ys: seq<string>, tokens: string -> nat)
    ensures WithinCap(xs + ys, tokens) == WithinCap(xs, tokens) + WithinCap(ys, tokens)
  {
    if ys == [] {
      assert xs + ys == xs;
    } else {
      var y := ys[|ys| - 1];
      assert (xs + ys)[..|xs + ys| - 1] == xs + ys[..|ys| - 1];
      WithinCapAppend(xs, ys[..|ys| - 1], tokens);
    }
  }

  /** `words[:-100]`: the list without its last 100 words, or empty when it is shorter. */
  function DropTail(words: seq<string>): seq<string> {
    words[..if |words| >= TrimStep then |words| - TrimStep else 0]
  }

  /** The length left after `k` trimming steps from `n` words. */
  function Cut(n: nat, k: nat): nat {
    if TrimStep * k <= n then n - TrimStep * k else 0
  }

  /** The trimming loop on words: drop 100 words while the joined words exceed the budget. */
  function TrimWords(words: seq<string>, tokens: string -> nat, maxTokens: int): seq<string>
    decreases |words|
  {
    if words == [] || tokens(Join(" ", words)) <= maxTokens then words
    else TrimWords(DropTail(words), tokens, maxTokens)
  }

  /** The context as the script sends it: unchanged when it fits, otherwise trimmed and rejoined. */
  function TrimmedContext(context: string, tokens: string -> nat, maxTokens: int): string {
    if tokens(context) <= maxTokens then context else Join(" ", TrimWords(Split(context), tokens, maxTokens))
  }

  /**
   * The trim step of `analyze_context_with_vectors`. The source loops forever unless the
   * empty string has no tokens and the budget is non-negative, hence the precondition.
   */
  method TrimToBudget(context: string, tokens: string -> nat, maxTokens: int) returns (trimmed: string)
    requires tokens("") == 0 && maxTokens >= 0
    ensures trimmed == TrimmedContext(context, tokens, maxTokens)
    ensures tokens(trimmed) <= maxTokens
  {
    trimmed := context;
    if tokens(context) > maxTokens {
      var words := Split(context);
      while tokens(Join(" ", words)) > maxTokens
        invariant TrimWords(words, tokens, maxTokens) == TrimWords(Split(context), tokens, maxTokens)
        decreases |words|
      {
        words := words[..if |words| >= TrimStep then |words| - TrimStep else 0];
      }
      trimmed := Join(" ", words);
    }
  }

  lemma CutStep(n: nat, k: nat)
    requires k >= 1
    ensures Cut(Cut(n, 1), k - 1) == Cut(n, k)
  {
  }

  /**
   * The trimmed words are the original words cut after `n - 100 d` words (or none) for the
   * smallest number of steps `d` after which they fit the budget.
   */
  lemma {:induction false} TrimWordsSmallestCut(words: seq<string>, tokens: string -> nat, maxTokens: int) returns (d: nat)
    requires tokens("") == 0 && maxTokens >= 0
    ensures TrimWords(words, tokens, maxTokens) == words[..Cut(|words|, d)]
    ensures tokens(Join(" ", TrimWords(words, tokens, maxTokens))) <= maxTokens
    ensures forall k :: 0 <= k < d ==> tokens(Join(" ", words[..Cut(|words|, k)])) > maxTokens
    decreases |words|
  {
    if tokens(Join(" ", words)) <= maxTokens {
      d := 0;
      assert words[..Cut(|words|, 0)] == words;
    } else {
      assert words != [];
      var rest := DropTail(words);
      assert |rest| == Cut(|words|, 1);
      var d' := TrimWordsSmallestCut(rest, tokens, maxTokens);
      d := d' + 1;
      CutStep(|words|, d);
      assert rest[..Cut(|rest|, d')] == words[..Cut(|words|, d)];
      forall k | 0 <= k < d
        ensures tokens(Join(" ", words[..Cut(|words|, k)])) > maxTokens
      {
        if k == 0 {
          assert words[..Cut(|words|, 0)] == words;
        } else {
          CutStep(|words|, k);
          assert rest[..Cut(|rest|, k - 1)] == words[..Cut(|words|, k)];
        }
      }
    }
  }

  /** A trimmed context is single-space separated: its line breaks, header lines included, are gone. */
  lemma TrimmedHasNoLineBreaks(context: string, tokens: string -> nat, maxTokens: int)
    requires tokens(context) > maxTokens
    ensures forall i :: 0 <= i < |TrimmedContext(context, tokens, maxTokens)| ==> TrimmedContext(context, tokens, maxTokens)[i] != '\n'
  {
    var ws := TrimWords(Split(context), tokens, maxTokens);
    TrimWordsPrefix(Split(context), tokens, maxTokens);
    JoinedWordsSpaces(ws);
  }

  /** Trimming keeps a prefix of the words. */
  lemma {:induction false} TrimWordsPrefix(words: seq<string>, tokens: string -> nat, maxTokens: int)
    ensures |TrimWords(words, tokens, maxTokens)| <= |words|
    ensures TrimWords(words, tokens, maxTokens) == words[..|TrimWords(words, tokens, maxTokens)|]
    ensures AllWords(words) ==> AllWords(TrimWords(words, tokens, maxTokens))
    decreases |words|
  {
    if !(words == [] || tokens(Join(" ", words)) <= maxTokens) {
      TrimWordsPrefix(DropTail(words), tokens, maxTokens);
    }
  }

  /** Splitting a trimmed context gives back exactly the kept word prefix of the original. */
  lemma TrimmedWordPrefix(context: string, tokens: string -> nat, maxTokens: int)
    requires tokens(context) > maxTokens
    ensures var kept := Split(TrimmedContext(context, tokens, maxTokens));
      |kept| <= |Split(context)| && kept == Split(context)[..|kept|]
  {
    var ws := TrimWords(Split(context), tokens, maxTokens);
    TrimWordsPrefix(Split(context), tokens, maxTokens);
    SplitJoin(ws);
  }

  /** `MODEL_CONTEXT_LENGTHS` of the script's model client. */
  const ModelContextLengths: map<string, nat> := map[
    "gpt-4-turbo-preview" := 128000,
    "gpt-4" := 8192,
    "gpt-3.5-turbo" := 4096,
    "gpt-3.5-turbo-16k" := 16384
  ]

  /** A model's context length, 128000 for a model not in the table. */
  function ContextLength(model: string): nat {
    if model in ModelContextLengths then ModelContextLengths[model] else 128000
  }

  /** `max_tokens`: the context length less the reserved tokens. */
  function MaxTokens(contextLength: int): int {
    contextLength - ReservedTokens
  }

  /** Every model of the client leaves a non-negative budget, so the trimming loop ends. */
  lemma BudgetNonNegative(model: string)
    ensures MaxTokens(ContextLength(model)) >= 3096
  {
  }

  /** A question of `VECTOR_CONTEXT_QUESTIONS` with its id. */
  datatype VectorQuestion = VectorQuestion(id: string, text: string)

  const VectorContextQuestions: seq<VectorQuestion> := [
    VectorQuestion("methodology", "Compare and contrast the methodological approaches across all papers."),
    VectorQuestion("results", "How do the results and findings relate across the papers?"),
    VectorQuestion("challenges", "What common challenges or limitations are identified across the papers?"),
    VectorQuestion("advancement", "How do these papers build upon or advance each other's work?")
  ]

  /** The model's answer text, or an exception with its message. */
  datatype Reply = Replied(content: string) | Raised(message: string)

  /** One result record; timestamps are not modelled. */
  datatype VectorRecord =
    | Answered(questionId: string, question: string, response: string, papersReferenced: seq<string>)
    | Failed(questionId: string, question: string, error: string)

  /** The indentation of the script's prompt template: 16 spaces. */
  const Indent := "                "

  /**
   * The record for one question: none when the query returned nothing, an error record when
   * the query or the model raised, and the answer otherwise.
   */
  function QuestionRecord(q: VectorQuestion, retrieval: Retrieval, tokens: string -> nat, contextLength: int, generate: string -> Reply): (r: Option<VectorRecord>)
    ensures r.Some? <==> Yields(retrieval)
    ensures r.Some? ==> r.value.questionId == q.id && r.value.question == q.text
    ensures retrieval.QueryFailed? ==> r == Some(Failed(q.id, q.text, retrieval.message))
  {
    match retrieval
    case QueryFailed(message) => Some(Failed(q.id, q.text, message))
    case Found(hits) =>
      if hits == [] then None
      else
        var context := TrimmedContext(CombinedContext(hits), tokens, MaxTokens(contextLength));
        match generate(CrossPaperPrompt(Indent, q.text, context))
        case Raised(message) => Some(Failed(q.id, q.text, message))
        case Replied(content) => Some(Answered(q.id, q.text, content, GroupKeys(hits, PaperOf)))
  }

  /**
   * Answers one question from the outcome of its query: groups and renders the retrieved
   * chunks, trims them to the budget, asks the model.
   */
  method AnswerQuestion(q: VectorQuestion, retrieval: Retrieval, tokens: string -> nat, contextLength: int, generate: string -> Reply)
    returns (record: Option<VectorRecord>)
    requires tokens("") == 0 && contextLength >= ReservedTokens
    ensures record == QuestionRecord(q, retrieval, tokens, contextLength, generate)
    ensures record.None? <==> retrieval == Found([])
    ensures record.Some? && record.value.Answered? ==>
      retrieval.Found? && record.value.papersReferenced == GroupKeys(retrieval.hits, PaperOf)
  {
    if retrieval.QueryFailed? {
      return Some(Failed(q.id, q.text, retrieval.message));
    }
    var hits := retrieval.hits;
    if hits == [] {
      return None;
    }
    var papers, groups, combined := AssembleContext(hits);
    var maxTokens := MaxTokens(contextLength);
    var context := TrimToBudget(combined, tokens, maxTokens);
    match generate(CrossPaperPrompt(Indent, q.text, context))
    case Raised(message) =>
      record := Some(Failed(q.id, q.text, message));
    case Replied(content) =>
      record := Some(Answered(q.id, q.text, content, papers));
  }

  /** The records for the questions `qs`, in order, skipping questions whose query returned nothing. */
  function Records(qs: seq<VectorQuestion>, retrieve: string -> Retrieval, tokens: string -> nat, contextLength: int, generate: string -> Reply): seq<VectorRecord> {
    if qs == [] then []
    else
      var q := qs[|qs| - 1];
      Records(qs[..|qs| - 1], retrieve, tokens, contextLength, generate)
        + match QuestionRecord(q, retrieve(q.text), tokens, contextLength, generate) case Some(rec) => [rec] case None => []
  }

  /** The question ids of a list of records, in order. */
  function RecordIds(rs: seq<VectorRecord>): (ids: seq<string>)
    ensures |ids| == |rs|
  {
    if rs == [] then [] else RecordIds(rs[..|rs| - 1]) + [rs[|rs| - 1].questionId]
  }

  /** The ids of the questions whose query raised or returned something, in question order. */
  function AskedIds(qs: seq<VectorQuestion>, retrieve: string -> Retrieval): seq<string> {
    if qs == [] then []
    else
      var q := qs[|qs| - 1];
      AskedIds(qs[..|qs| - 1], retrieve) + if Yields(retrieve(q.text)) then [q.id] else []
  }

  /**
   * The records answer exactly the questions whose query raised or returned something, in
   * order and under their ids: a question whose search came back empty is skipped, every
   * other one gets a record, an error record when the query raised.
   */
  lemma {:induction false} RecordsAnswerRetrieved(qs: seq<VectorQuestion>, retrieve: string -> Retrieval, tokens: string -> nat, contextLength: int, generate: string -> Reply)
    ensures RecordIds(Records(qs, retrieve, tokens, contextLength, generate)) == AskedIds(qs, retrieve)
  {
    if qs != [] {
      var init := qs[..|qs| - 1];
      var q := qs[|qs| - 1];
      var front := Records(init, retrieve, tokens, contextLength, generate);
      var rec := QuestionRecord(q, retrieve(q.text), tokens, contextLength, generate);
      RecordsAnswerRetrieved(init, retrieve, tokens, contextLength, generate);
      if rec.Some? {
        assert Records(qs, retrieve, tokens, contextLength, generate) == front + [rec.value];
        assert (front + [rec.value])[..|front|] == front;
      } else {
        assert Records(qs, retrieve, tokens, contextLength, generate) == front;
      }
    }
  }

  /**
   * The question loop of `analyze_context_with_vectors`, with the model's context length;
   * paper loading and indexing are not modelled (the store is seen through `retrieve`,
   * the outcome of its query).
   */
  method AnalyzeContextWithVectors(retrieve: string -> Retrieval, tokens: string -> nat, contextLength: int, generate: string -> Reply)
    returns (results: seq<VectorRecord>)
    requires tokens("") == 0 && contextLength >= ReservedTokens
    ensures results == Records(VectorContextQuestions, retrieve, tokens, contextLength, generate)
    ensures |results| <= |VectorContextQuestions|
  {
    results := AskAll(VectorContextQuestions, retrieve, tokens, contextLength, generate);
    RecordsAtMostQuestions(VectorContextQuestions, retrieve, tokens, contextLength, generate);
  }

  /** At most one record per question. */
  lemma {:induction false} RecordsAtMostQuestions(qs: seq<VectorQuestion>, retrieve: string -> Retrieval, tokens: string -> nat, contextLength: int, generate: string -> Reply)
    ensures |Records(qs, retrieve, tokens, contextLength, generate)| <= |qs|
  {
    if qs != [] {
      RecordsAtMostQuestions(qs[..|qs| - 1], retrieve, tokens, contextLength, generate);
    }
  }

  /** The unfolding of `Records` at its last question. */
  lemma RecordsSnoc(qs: seq<VectorQuestion>, q: VectorQuestion, retrieve: string -> Retrieval, tokens: string -> nat, contextLength: int, generate: string -> Reply)
    ensures Records(qs + [q], retrieve, tokens, contextLength, generate)
         == Records(qs, retrieve, tokens, contextLength, generate)
            + match QuestionRecord(q, retrieve(q.text), tokens, contextLength, generate)
              case Some(rec) => [rec] case None => []
  {
    assert (qs + [q])[..|qs|] == qs;
  }

  method AskAll(qs: seq<VectorQuestion>, retrieve: string -> Retrieval, tokens: string -> nat, contextLength: int, generate: string -> Reply)
    returns (results: seq<VectorRecord>)
    requires tokens("") == 0 && contextLength >= ReservedTokens
    ensures results == Records(qs, retrieve, tokens, contextLength, generate)
  {
    results := [];
    ghost var asked: seq<VectorQuestion> := [];
    for i := 0 to |qs|
      invariant asked == qs[..i]
      invariant results == Records(asked, retrieve, tokens, contextLength, generate)
    {
      var q := qs[i];
      var record := AnswerQuestion(q, retrieve(q.text), tokens, contextLength, generate);
      RecordsSnoc(asked, q, retrieve, tokens, contextLength, generate);
      if record.Some? {
        results := results + [record.value];
      }
      PrefixSnoc(qs, i);
      asked := asked + [q];
    }
    assert asked == qs;
  }
}

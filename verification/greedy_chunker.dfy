/**
 * The token-greedy chunker of the per-paper vector script: words are added to the current
 * chunk until the next word would push the running token count past the budget; the chunk
 * is then emitted and the next one starts with its last 200 words.
 * The tokenizer is a parameter.
 */
module GreedyChunker {
  import opened Text
  import opened Grouping

  const MaxTokensPerChunk := 4000
  /** Words carried from a flushed chunk into the next one. */
  const Overlap := 200

  /** The chunker's loop state: the flushed chunks (as word lists), the current chunk and its running token count. */
  datatype Chunking = Chunking(done: seq<seq<string>>, current: seq<string>, count: int)

  /** `current_chunk[max(0, len(current_chunk) - 200):]`: the last (up to) 200 words. */
  function Carry(chunk: seq<string>): seq<string> {
    chunk[if |chunk| >= Overlap then |chunk| - Overlap else 0..]
  }

  /** One iteration of the word loop. */
  function Feed(st: Chunking, word: string, tokens: string -> nat, maxTokens: int): Chunking {
    var wordTokens := tokens(word + " ");
    if st.count + wordTokens > maxTokens then
      var carried := Carry(st.current);
      Chunking(st.done + [st.current], carried + [word], tokens(Join(" ", carried)) + wordTokens)
    else
      Chunking(st.done, st.current + [word], st.count + wordTokens)
  }

  /** The loop state after the words `ws`. */
  function FeedAll(ws: seq<string>, tokens: string -> nat, maxTokens: int): Chunking {
    if ws == [] then Chunking([], [], 0)
    else Feed(FeedAll(ws[..|ws| - 1], tokens, maxTokens), ws[|ws| - 1], tokens, maxTokens)
  }

  /** The chunks as word lists: the flushed ones, then the current one unless it is empty. */
  function ChunkLists(text: string, tokens: string -> nat, maxTokens: int): seq<seq<string>> {
    var st := FeedAll(Split(text), tokens, maxTokens);
    if st.current == [] then st.done else st.done + [st.current]
  }

  function JoinWords(ws: seq<string>): string {
    Join(" ", ws)
  }

  /** The chunk strings `chunk_text` returns. */
  function GreedyChunks(text: string, tokens: string -> nat, maxTokens: int): seq<string> {
    Project(ChunkLists(text, tokens, maxTokens), JoinWords)
  }

  /** `chunk_text` of the per-paper vector script. */
  method ChunkText(text: string, tokens: string -> nat, maxTokens: int := MaxTokensPerChunk) returns (chunks: seq<string>)
    ensures chunks == GreedyChunks(text, tokens, maxTokens)
  {
    var words := Split(text);
    var current: seq<string>;
    ghost var st := FeedAll(words, tokens, maxTokens);
    chunks, current := FeedWords(words, tokens, maxTokens);
    if current != [] {
      ProjectSnoc(st.done, current, JoinWords);
      chunks := chunks + [Join(" ", current)];
    }
  }

  /** The word loop of `chunk_text`: the flushed chunks as strings and the current chunk's words after all the words. */
  method FeedWords(words: seq<string>, tokens: string -> nat, maxTokens: int) returns (chunks: seq<string>, current: seq<string>)
    ensures chunks == Project(FeedAll(words, tokens, maxTokens).done, JoinWords)
    ensures current == FeedAll(words, tokens, maxTokens).current
  {
    chunks := [];
    current := [];
    var count := 0;
    ghost var st := Chunking([], [], 0);
    for i := 0 to |words|
      invariant st == FeedAll(words[..i], tokens, maxTokens)
      invariant chunks == Project(st.done, JoinWords) && current == st.current && count == st.count
    {
      var word := words[i];
      assert words[..i + 1][..i] == words[..i];
      var wordTokens := tokens(word + " ");
      ghost var next := Feed(st, word, tokens, maxTokens);
      if count + wordTokens > maxTokens {
        assert next == Chunking(st.done + [st.current], Carry(st.current) + [word], tokens(Join(" ", Carry(st.current))) + wordTokens);
        ProjectSnoc(st.done, current, JoinWords);
        chunks := chunks + [Join(" ", current)];
        var start := if |current| >= Overlap then |current| - Overlap else 0;
        current := current[start..];
        assert current == Carry(st.current);
        count := tokens(Join(" ", current));
      } else {
        assert next == Chunking(st.done, st.current + [word], st.count + wordTokens);
      }
      current := current + [word];
      count := count + wordTokens;
      st := next;
    }
    assert words[..|words|] == words;
  }

  /** Empty or whitespace-only text gives no chunks. */
  lemma BlankTextNoChunks(text: string, tokens: string -> nat, maxTokens: int)
    requires IsBlank(text)
    ensures GreedyChunks(text, tokens, maxTokens) == []
  {
    SplitEmptyIffBlank(text);
  }

  /** Each chunk after the first starts with the words carried from the chunk before it. */
  ghost predicate Chained(cs: seq<seq<string>>) {
    forall i :: 0 <= i < |cs| - 1 ==> Carry(cs[i]) <= cs[i + 1]
  }

  /**
   * The text's words rebuilt from the chunks: the first chunk whole, then each later chunk
   * without the words carried into it.
   */
  function Reassemble(cs: seq<seq<string>>): seq<string> {
    if |cs| == 0 then []
    else if |cs| == 1 then cs[0]
    else
      var carried := |Carry(cs[|cs| - 2])|;
      var last := cs[|cs| - 1];
      Reassemble(cs[..|cs| - 1]) + (if carried <= |last| then last[carried..] else [])
  }

  /** Flushing the current chunk and starting the next from its carried words keeps the chunks chained and rebuilding the words. */
  lemma FlushKeepsChain(done: seq<seq<string>>, current: seq<string>, w: string, ws: seq<string>)
    requires Chained(done + [current]) && Reassemble(done + [current]) == ws
    ensures Chained(done + [current] + [Carry(current) + [w]])
    ensures Reassemble(done + [current] + [Carry(current) + [w]]) == ws + [w]
  {
    var all := done + [current];
    var next := Carry(current) + [w];
    assert (all + [next])[..|all|] == all;
    assert next[|Carry(current)|..] == [w];
  }

  /** Appending a word to the current chunk keeps the chunks chained and rebuilding the words. */
  lemma AppendKeepsChain(done: seq<seq<string>>, current: seq<string>, w: string, ws: seq<string>)
    requires Chained(done + [current]) && Reassemble(done + [current]) == ws
    requires ws == [] <==> done == [] && current == []
    ensures Chained(done + [current + [w]])
    ensures Reassemble(done + [current + [w]]) == ws + [w]
  {
    var all := done + [current];
    var cur' := current + [w];
    if done == [] {
      assert Reassemble([cur']) == cur';
      assert ws == current;
    } else {
      var last := done[|done| - 1];
      var k := |Carry(last)|;
      assert Carry(last) <= current by {
        assert all[|done| - 1] == last;
      }
      assert (done + [cur'])[..|done|] == done;
      assert all[..|done|] == done;
      assert cur'[k..] == current[k..] + [w];
      forall i | 0 <= i < |done + [cur']| - 1
        ensures Carry((done + [cur'])[i]) <= (done + [cur'])[i + 1]
      {
        assert (done + [cur'])[i] == all[i];
        if i + 1 < |done| {
          assert (done + [cur'])[i + 1] == all[i + 1];
        }
      }
    }
  }

  /** The loop state after any words: chained chunks that rebuild exactly those words. */
  lemma {:induction false} FeedAllInvariant(ws: seq<string>, tokens: string -> nat, maxTokens: int)
    ensures var st := FeedAll(ws, tokens, maxTokens);
      Chained(st.done + [st.current]) && Reassemble(st.done + [st.current]) == ws &&
      (ws == [] <==> st.done == [] && st.current == [])
  {
    if ws != [] {
      var init, w := ws[..|ws| - 1], ws[|ws| - 1];
      assert ws == init + [w];
      FeedAllInvariant(init, tokens, maxTokens);
      var st := FeedAll(init, tokens, maxTokens);
      var st' := FeedAll(ws, tokens, maxTokens);
      if st.count + tokens(w + " ") > maxTokens {
        FlushKeepsChain(st.done, st.current, w, init);
        assert st'.done + [st'.current] == st.done + [st.current] + [Carry(st.current) + [w]];
      } else {
        AppendKeepsChain(st.done, st.current, w, init);
        assert st'.done + [st'.current] == st.done + [st.current + [w]];
      }
    }
  }

  /**
   * Round trip: for non-blank text, the first chunk's words followed by each later chunk's
   * words without its carried prefix are exactly the words of the text.
   */
  lemma RoundTrip(text: string, tokens: string -> nat, maxTokens: int)
    ensures Reassemble(ChunkLists(text, tokens, maxTokens)) == Split(text)
    ensures forall i :: 0 <= i < |ChunkLists(text, tokens, maxTokens)| - 1 ==>
      Carry(ChunkLists(text, tokens, maxTokens)[i]) <= ChunkLists(text, tokens, maxTokens)[i + 1]
  {
    FeedAllInvariant(Split(text), tokens, maxTokens);
    var st := FeedAll(Split(text), tokens, maxTokens);
    if st.current == [] {
      assert st.done == [];
    }
  }

  /** Splitting a chunk on whitespace gives back its word list. */
  lemma ChunkWordsRecovered(text: string, tokens: string -> nat, maxTokens: int, i: nat)
    requires i < |GreedyChunks(text, tokens, maxTokens)|
    ensures Split(GreedyChunks(text, tokens, maxTokens)[i]) == ChunkLists(text, tokens, maxTokens)[i]
  {
    var cs := ChunkLists(text, tokens, maxTokens);
    ChunkListsAreWords(Split(text), tokens, maxTokens);
    SplitJoin(cs[i]);
  }

  /** Every word of every chunk is one of the input words. */
  lemma {:induction false} ChunkListsAreWords(ws: seq<string>, tokens: string -> nat, maxTokens: int)
    requires AllWords(ws)
    ensures var st := FeedAll(ws, tokens, maxTokens);
      AllWords(st.current) && forall i :: 0 <= i < |st.done| ==> AllWords(st.done[i])
  {
    if ws != [] {
      ChunkListsAreWords(ws[..|ws| - 1], tokens, maxTokens);
    }
  }

  /** The sum of the per-word token counts `count_tokens(word + " ")`. */
  function WordTokens(ws: seq<string>, tokens: string -> nat): int {
    if ws == [] then 0 else WordTokens(ws[..|ws| - 1], tokens) + tokens(ws[|ws| - 1] + " ")
  }

  /** Words whose token counts together fit the budget are never flushed. */
  lemma {:induction false} NoFlushWhenFits(ws: seq<string>, tokens: string -> nat, maxTokens: int)
    requires WordTokens(ws, tokens) <= maxTokens
    ensures FeedAll(ws, tokens, maxTokens) == Chunking([], ws, WordTokens(ws, tokens))
  {
    if ws != [] {
      var init := ws[..|ws| - 1];
      NoFlushWhenFits(init, tokens, maxTokens);
      assert init + [ws[|ws| - 1]] == ws;
    }
  }

  /** A text whose words fit the budget is one chunk holding all its words. */
  lemma FitsInOneChunk(text: string, tokens: string -> nat, maxTokens: int)
    requires !IsBlank(text) && WordTokens(Split(text), tokens) <= maxTokens
    ensures GreedyChunks(text, tokens, maxTokens) == [Join(" ", Split(text))]
  {
    SplitEmptyIffBlank(text);
    NoFlushWhenFits(Split(text), tokens, maxTokens);
  }

  /** Flushed chunks are never changed: the loop only appends to them. */
  lemma {:induction false} DoneOnlyGrows(ws: seq<string>, j: nat, tokens: string -> nat, maxTokens: int)
    requires j <= |ws|
    ensures FeedAll(ws[..j], tokens, maxTokens).done <= FeedAll(ws, tokens, maxTokens).done
  {
    if j < |ws| {
      var init := ws[..|ws| - 1];
      assert ws[..j] == init[..j];
      DoneOnlyGrows(init, j, tokens, maxTokens);
    } else {
      assert ws[..j] == ws;
    }
  }

  /** When the first word alone is over the budget, the first chunk is the empty string. */
  lemma FirstWordTooLarge(text: string, tokens: string -> nat, maxTokens: int)
    requires Split(text) != [] && tokens(Split(text)[0] + " ") > maxTokens
    ensures |GreedyChunks(text, tokens, maxTokens)| >= 1 && GreedyChunks(text, tokens, maxTokens)[0] == ""
  {
    var ws := Split(text);
    assert ws[..1][..0] == [];
    assert FeedAll(ws[..1], tokens, maxTokens).done == [[]];
    DoneOnlyGrows(ws, 1, tokens, maxTokens);
  }

  /** The last chunk is emitted and ends with the text's last word. */
  lemma LastWordInLastChunk(text: string, tokens: string -> nat, maxTokens: int)
    requires Split(text) != []
    ensures var cs := ChunkLists(text, tokens, maxTokens);
      |cs| >= 1 && cs[|cs| - 1] == FeedAll(Split(text), tokens, maxTokens).current &&
      cs[|cs| - 1] != [] && cs[|cs| - 1][|cs[|cs| - 1]| - 1] == Split(text)[|Split(text)| - 1]
  {
  }
}

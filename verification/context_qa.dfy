/**
 * Context preparation of the whole-paper script: key sections are picked out line by line,
 * then the text is cut to a token budget, preferring to end on a full sentence, with the
 * budget split evenly over three papers. The tokenizer's `encode` and `decode` are parameters.
 */
module ContextQa {
  import opened Text
  import opened Grouping

  /** Tokens kept free for the question and the answer. */
  const ReservedTokens := 1000
  /** The number of papers sharing the budget. */
  const PaperCount := 3

  /** Upper-case markers of the sections worth keeping. */
  const ImportantSections: seq<string> := [
    "ABSTRACT", "INTRODUCTION", "METHODOLOGY", "METHOD",
    "RESULTS", "DISCUSSION", "CONCLUSION", "CONTRIBUTION"
  ]

  /** A line opens a section when its upper-cased form contains any marker. */
  predicate IsHeader(line: string) {
    exists i :: 0 <= i < |ImportantSections| && Contains(Upper(line), ImportantSections[i])
  }

  /**
   * The kept sections of `lines`: every header line opens a new section, every later
   * non-header line joins the open section, and lines before the first header are dropped.
   * The header test is a parameter, so that the structural lemmas below hold for any test;
   * the script's is `IsHeader`.
   */
  function SectionsOf(lines: seq<string>, header: string -> bool): seq<seq<string>> {
    if lines == [] then []
    else
      var gs := SectionsOf(lines[..|lines| - 1], header);
      var line := lines[|lines| - 1];
      if header(line) then gs + [[line]]
      else if gs == [] then []
      else gs[..|gs| - 1] + [gs[|gs| - 1] + [line]]
  }

  function JoinLines(lines: seq<string>): string {
    Join("\n", lines)
  }

  /** The output of `extract_key_sections`: the kept sections, or the whole text when there are none. */
  function KeySections(text: string): string {
    var gs := SectionsOf(SplitOn(text, "\n"), IsHeader);
    if gs == [] then text else Join("\n\n", Project(gs, JoinLines))
  }

  /**
   * The loop state of `extract_key_sections` after the lines whose sections are `gs`:
   * `is_important` says whether a section is open, `current` is the open section and
   * `extracted` holds the joined sections before it.
   */
  predicate LoopState(gs: seq<seq<string>>, extracted: seq<string>, current: seq<string>, isImportant: bool) {
    (isImportant <==> gs != []) &&
    (isImportant ==> current == gs[|gs| - 1] && current != [] && extracted == Project(gs[..|gs| - 1], JoinLines)) &&
    (!isImportant ==> extracted == [] && current == [])
  }

  /** Closing the open section appends it, joined, after the sections before it. */
  lemma CloseSection(gs: seq<seq<string>>, extracted: seq<string>, current: seq<string>)
    requires LoopState(gs, extracted, current, true)
    ensures extracted + [Join("\n", current)] == Project(gs, JoinLines)
  {
    LastSplit(gs);
    ProjectSnoc(gs[..|gs| - 1], current, JoinLines);
  }

  /** One line of the loop: a header closes the open section and opens its own, another line joins the open section. */
  lemma LoopStep(seen: seq<string>, line: string, header: string -> bool,
                 extracted: seq<string>, current: seq<string>, isImportant: bool,
                 extracted': seq<string>, current': seq<string>, isImportant': bool)
    requires LoopState(SectionsOf(seen, header), extracted, current, isImportant)
    requires extracted' == if header(line) && current != [] && isImportant then extracted + [Join("\n", current)] else extracted
    requires current' == if header(line) then [line] else if isImportant then current + [line] else current
    requires isImportant' == (header(line) || isImportant)
    ensures LoopState(SectionsOf(seen + [line], header), extracted', current', isImportant')
  {
    var gs := SectionsOf(seen, header);
    SectionsSnoc(seen, line, header);
    if header(line) {
      if isImportant {
        CloseSection(gs, extracted, current);
      }
      PrefixOfSnoc(gs, [line]);
    } else if isImportant {
      PrefixOfSnoc(gs[..|gs| - 1], current');
    }
  }

  /** The line loop of `extract_key_sections`, up to the closing of the last section. */
  method SectionLoop(lines: seq<string>) returns (extracted: seq<string>, current: seq<string>, isImportant: bool)
    ensures LoopState(SectionsOf(lines, IsHeader), extracted, current, isImportant)
  {
    extracted, current, isImportant := [], [], false;
    ghost var seen: seq<string> := [];
    for i := 0 to |lines|
      invariant seen == lines[..i]
      invariant LoopState(SectionsOf(seen, IsHeader), extracted, current, isImportant)
    {
      var line := lines[i];
      ghost var e, c, imp := extracted, current, isImportant;
      if IsHeader(line) {
        if current != [] && isImportant {
          extracted := extracted + [Join("\n", current)];
        }
        current := [line];
        isImportant := true;
      } else if isImportant {
        current := current + [line];
      }
      LoopStep(seen, line, IsHeader, e, c, imp, extracted, current, isImportant);
      PrefixSnoc(lines, i);
      seen := seen + [line];
    }
    assert seen == lines;
  }

  /** `extract_key_sections`: the loop over lines, then the last open section is closed. */
  method ExtractKeySections(text: string) returns (r: string)
    ensures r == KeySections(text)
  {
    var lines := SplitOn(text, "\n");
    var extracted, current, isImportant := SectionLoop(lines);
    if current != [] && isImportant {
      CloseSection(SectionsOf(lines, IsHeader), extracted, current);
      extracted := extracted + [Join("\n", current)];
    }
    r := if extracted != [] then Join("\n\n", extracted) else text;
  }

  /** The index of the first header line, or the number of lines when there is none. */
  function FirstHeader(lines: seq<string>, header: string -> bool): (f: nat)
    ensures f <= |lines|
    ensures forall i :: 0 <= i < f ==> !header(lines[i])
    ensures f < |lines| ==> header(lines[f])
  {
    if lines == [] then 0
    else
      var f := FirstHeader(lines[..|lines| - 1], header);
      if f < |lines| - 1 then f else if header(lines[|lines| - 1]) then |lines| - 1 else |lines|
  }

  function Flatten(gs: seq<seq<string>>): seq<string> {
    if gs == [] then [] else Flatten(gs[..|gs| - 1]) + gs[|gs| - 1]
  }

  lemma FlattenSnoc(gs: seq<seq<string>>, g: seq<string>)
    ensures Flatten(gs + [g]) == Flatten(gs) + g
  {
    assert (gs + [g])[..|gs|] == gs;
  }

  /** `SectionsOf` at one more line. */
  lemma SectionsSnoc(init: seq<string>, line: string, header: string -> bool)
    ensures var gs := SectionsOf(init, header);
      SectionsOf(init + [line], header)
      == if header(line) then gs + [[line]]
         else if gs == [] then []
         else gs[..|gs| - 1] + [gs[|gs| - 1] + [line]]
  {
    assert (init + [line])[..|init|] == init;
  }

  /** `FirstHeader` at one more line. */
  lemma FirstHeaderSnoc(init: seq<string>, line: string, header: string -> bool)
    ensures FirstHeader(init + [line], header)
         == if FirstHeader(init, header) < |init| then FirstHeader(init, header) else if header(line) then |init| else |init| + 1
  {
    assert (init + [line])[..|init|] == init;
  }

  /** The sections hold the lines from the first header on, in order. */
  lemma {:induction false} SectionsCover(lines: seq<string>, header: string -> bool)
    ensures Flatten(SectionsOf(lines, header)) == lines[FirstHeader(lines, header)..]
  {
    if lines != [] {
      var init, line := lines[..|lines| - 1], lines[|lines| - 1];
      assert lines == init + [line];
      SectionsCover(init, header);
      SectionsIffHeader(init, header);
      SectionsCoverStep(init, line, header);
    }
  }

  lemma SectionsCoverStep(init: seq<string>, line: string, header: string -> bool)
    requires Flatten(SectionsOf(init, header)) == init[FirstHeader(init, header)..]
    requires SectionsOf(init, header) != [] <==> FirstHeader(init, header) < |init|
    ensures Flatten(SectionsOf(init + [line], header)) == (init + [line])[FirstHeader(init + [line], header)..]
  {
    FirstHeaderSnoc(init, line, header);
    SectionsSnoc(init, line, header);
    var gs := SectionsOf(init, header);
    if header(line) {
      CoverAtHeader(init, line, gs, FirstHeader(init, header));
    } else if gs != [] {
      CoverInSection(init, line, gs, FirstHeader(init, header));
    }
  }

  /** A header line opens a section of its own, so the flattened sections gain that line. */
  lemma CoverAtHeader(init: seq<string>, line: string, gs: seq<seq<string>>, f: nat)
    requires f <= |init| && Flatten(gs) == init[f..]
    ensures Flatten(gs + [[line]]) == (init + [line])[f..]
  {
    FlattenSnoc(gs, [line]);
    SuffixSnoc(init, line, f);
  }

  /** A non-header line joins the open section, so the flattened sections gain that line. */
  lemma CoverInSection(init: seq<string>, line: string, gs: seq<seq<string>>, f: nat)
    requires gs != [] && f <= |init| && Flatten(gs) == init[f..]
    ensures Flatten(gs[..|gs| - 1] + [gs[|gs| - 1] + [line]]) == (init + [line])[f..]
  {
    var last := gs[|gs| - 1];
    var front := gs[..|gs| - 1];
    LastSplit(gs);
    FlattenSnoc(front, last + [line]);
    FlattenSnoc(front, last);
    AppendAssoc(Flatten(front), last, [line]);
    SuffixSnoc(init, line, f);
  }

  /** Each section is non-empty, starts with a header line and holds no other header line. */
  predicate OpenedByHeaders(gs: seq<seq<string>>, header: string -> bool) {
    (forall k :: 0 <= k < |gs| ==> |gs[k]| >= 1 && header(gs[k][0])) &&
    (forall k, j :: 0 <= k < |gs| && 1 <= j < |gs[k]| ==> !header(gs[k][j]))
  }

  /** Each section starts with a header line and holds no other header line. */
  lemma {:induction false} SectionsStartAtHeaders(lines: seq<string>, header: string -> bool)
    ensures OpenedByHeaders(SectionsOf(lines, header), header)
  {
    if lines != [] {
      var init, line := lines[..|lines| - 1], lines[|lines| - 1];
      assert lines == init + [line];
      SectionsStartAtHeaders(init, header);
      SectionsSnoc(init, line, header);
      var gs := SectionsOf(init, header);
      if header(line) {
        OpenedAtHeader(gs, line, header);
      } else if gs != [] {
        OpenedInSection(gs, line, header);
      }
    }
  }

  lemma OpenedAtHeader(gs: seq<seq<string>>, line: string, header: string -> bool)
    requires OpenedByHeaders(gs, header) && header(line)
    ensures OpenedByHeaders(gs + [[line]], header)
  {
  }

  lemma OpenedInSection(gs: seq<seq<string>>, line: string, header: string -> bool)
    requires OpenedByHeaders(gs, header) && gs != [] && !header(line)
    ensures OpenedByHeaders(gs[..|gs| - 1] + [gs[|gs| - 1] + [line]], header)
  {
    var gs' := gs[..|gs| - 1] + [gs[|gs| - 1] + [line]];
    assert forall k :: 0 <= k < |gs| - 1 ==> gs'[k] == gs[k];
    assert gs'[|gs| - 1] == gs[|gs| - 1] + [line];
  }

  /** There is a section exactly when some line is a header. */
  lemma {:induction false} SectionsIffHeader(lines: seq<string>, header: string -> bool)
    ensures SectionsOf(lines, header) != [] <==> FirstHeader(lines, header) < |lines|
  {
    if lines != [] {
      SectionsIffHeader(lines[..|lines| - 1], header);
    }
  }

  /** Text with no header line comes back unchanged. */
  lemma NoHeaderUnchanged(text: string)
    requires forall i :: 0 <= i < |SplitOn(text, "\n")| ==> !IsHeader(SplitOn(text, "\n")[i])
    ensures KeySections(text) == text
  {
    SectionsIffHeader(SplitOn(text, "\n"), IsHeader);
  }

  /** Text with a header line comes back as its sections, each joined by "\n", separated by blank lines. */
  lemma HeaderGivesSections(text: string, i: nat)
    requires i < |SplitOn(text, "\n")| && IsHeader(SplitOn(text, "\n")[i])
    ensures var gs := SectionsOf(SplitOn(text, "\n"), IsHeader);
      gs != [] && KeySections(text) == Join("\n\n", Project(gs, JoinLines))
  {
    SectionsIffHeader(SplitOn(text, "\n"), IsHeader);
  }

  /** Header detection is by substring: a line mentioning "methodology" or "results" anywhere opens a section. */
  lemma SubstringHeaders()
    ensures IsHeader("2. Methodology overview")
    ensures IsHeader("the results below")
  {
    var u := Upper("2. Methodology overview");
    assert u[3..14] == "METHODOLOGY" by {
      forall t | 0 <= t < 11 ensures u[3 + t] == "METHODOLOGY"[t] {
        assert u[3 + t] == UpperChar("2. Methodology overview"[3 + t]);
      }
    }
    assert OccursAt(u, ImportantSections[2], 3);
    var v := Upper("the results below");
    assert v[4..11] == "RESULTS" by {
      forall t | 0 <= t < 7 ensures v[4 + t] == "RESULTS"[t] {
        assert v[4 + t] == UpperChar("the results below"[4 + t]);
      }
    }
    assert OccursAt(v, ImportantSections[4], 4);
  }

  /** Python's `xs[:n]`, where a negative `n` counts from the end. */
  function Take<T>(xs: seq<T>, n: int): seq<T> {
    if n >= 0 then xs[..if n <= |xs| then n else |xs|]
    else xs[..if |xs| + n >= 0 then |xs| + n else 0]
  }

  /**
   * `trim_text_to_token_limit`: the text itself when it fits; otherwise its first `maxTokens`
   * tokens, decoded, cut after the last '.' when that lies beyond 80% of `maxTokens`
   * (`last_period > max_tokens * 0.8`, here in exact arithmetic).
   */
  function TrimTextToTokenLimit(text: string, encode: string -> seq<int>, decode: seq<int> -> string, maxTokens: int): string {
    if |encode(text)| <= maxTokens then text
    else
      var trimmed := decode(Take(encode(text), maxTokens));
      var lastPeriod := RFind(trimmed, '.');
      if 5 * lastPeriod > 4 * maxTokens then trimmed[..lastPeriod + 1] else trimmed
  }

  /** The decoded first `maxTokens` tokens of a text. */
  function Decoded(text: string, encode: string -> seq<int>, decode: seq<int> -> string, maxTokens: int): string {
    decode(Take(encode(text), maxTokens))
  }

  /**
   * Over the limit, the result is the decoded prefix, cut after its last '.' exactly when
   * some '.' lies beyond 80% of the budget; it then ends with '.' and drops no other '.'.
   */
  lemma TrimTextSentenceSnap(text: string, encode: string -> seq<int>, decode: seq<int> -> string, maxTokens: int)
    requires |encode(text)| > maxTokens && maxTokens >= 0
    ensures var d, r := Decoded(text, encode, decode, maxTokens), TrimTextToTokenLimit(text, encode, decode, maxTokens);
      |r| <= |d| && r == d[..|r|] &&
      ((exists i :: 0 <= i < |d| && 5 * i > 4 * maxTokens && d[i] == '.') ==>
         |r| >= 1 && r[|r| - 1] == '.' && 5 * (|r| - 1) > 4 * maxTokens && forall i :: |r| <= i < |d| ==> d[i] != '.') &&
      (!(exists i :: 0 <= i < |d| && 5 * i > 4 * maxTokens && d[i] == '.') ==> r == d)
  {
    var d := Decoded(text, encode, decode, maxTokens);
    var lp := RFind(d, '.');
    if exists i :: 0 <= i < |d| && 5 * i > 4 * maxTokens && d[i] == '.' {
      var i :| 0 <= i < |d| && 5 * i > 4 * maxTokens && d[i] == '.';
      assert lp >= i;
    }
  }

  /** A text within the limit is returned unchanged. */
  lemma TrimTextFits(text: string, encode: string -> seq<int>, decode: seq<int> -> string, maxTokens: int)
    requires |encode(text)| <= maxTokens
    ensures TrimTextToTokenLimit(text, encode, decode, maxTokens) == text
  {
  }

  /** `tokens_per_paper`: the context length less the reserved tokens, floor-divided over three papers. */
  function TokensPerPaper(contextLength: int): (r: int)
    ensures PaperCount * r <= contextLength - ReservedTokens < PaperCount * r + PaperCount
  {
    (contextLength - ReservedTokens) / PaperCount
  }
}

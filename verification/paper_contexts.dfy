/**
 * Context assembly for cross-paper questions: the retrieved chunks are grouped by the
 * `paper_id` of their metadata (papers in first-appearance order, chunks in retrieval order)
 * and rendered as one `=== From <paper> ===` section per paper.
 */
module PaperContexts {
  import opened Text
  import opened Grouping

  /** One retrieved chunk: its text and the `paper_id` from its metadata. */
  datatype Hit = Hit(doc: string, paperId: string)

  /** The outcome of a vector-store query: the chunks it returned, or an exception with its message. */
  datatype Retrieval = Found(hits: seq<Hit>) | QueryFailed(message: string)

  /** A question gets a record when its query raised or returned at least one chunk. */
  predicate Yields(r: Retrieval) {
    r.QueryFailed? || r.hits != []
  }

  function PaperOf(h: Hit): string { h.paperId }

  function DocOf(h: Hit): string { h.doc }

  /** The line that introduces a paper's section, with a newline on each side. */
  function Header(paperId: string): string {
    "\n=== From " + paperId + " ===\n"
  }

  /** A paper's section: its header, then its chunks one per line. */
  function Section(paperId: string, docs: seq<string>): string {
    Header(paperId) + Join("\n", docs)
  }

  /** The chunks retrieved for one paper, in retrieval order. */
  function PaperDocs(hits: seq<Hit>, paperId: string): seq<string> {
    Project(Where(hits, PaperOf, paperId), DocOf)
  }

  /** The sections of all retrieved papers, in first-appearance order. */
  function Sections(hits: seq<Hit>): seq<string> {
    var papers := GroupKeys(hits, PaperOf);
    seq(|papers|, i requires 0 <= i < |papers| => Section(papers[i], PaperDocs(hits, papers[i])))
  }

  /** The combined context: the sections separated by blank lines. */
  function CombinedContext(hits: seq<Hit>): string {
    Join("\n\n", Sections(hits))
  }

  /**
   * Groups the retrieved chunks by paper (the `paper_contexts` dictionary, filled in a loop)
   * and renders the sections (the `contexts` list) into the combined context.
   */
  method AssembleContext(hits: seq<Hit>) returns (papers: seq<string>, groups: map<string, seq<string>>, combined: string)
    ensures papers == GroupKeys(hits, PaperOf)
    ensures forall p :: p in groups <==> p in papers
    ensures forall p :: p in groups ==> groups[p] == PaperDocs(hits, p)
    ensures combined == CombinedContext(hits)
  {
    papers, groups := GroupBy(hits, PaperOf, DocOf);
    ghost var all := Sections(hits);
    var contexts: seq<string> := [];
    for i := 0 to |papers|
      invariant contexts == all[..i]
    {
      var section := Section(papers[i], groups[papers[i]]);
      assert section == all[i];
      PrefixSnoc(all, i);
      contexts := contexts + [section];
    }
    PrefixFull(all);
    combined := Join("\n\n", contexts);
  }

  /** Every retrieved chunk is grouped under its own paper. */
  lemma HitInItsGroup(hits: seq<Hit>, i: nat)
    requires i < |hits|
    ensures hits[i].paperId in GroupKeys(hits, PaperOf)
    ensures hits[i].doc in PaperDocs(hits, hits[i].paperId)
  {
    var h := hits[i];
    assert Project(hits, PaperOf)[i] == h.paperId;
    assert hits == hits[..i] + [h] + hits[i + 1..];
    WhereMember(hits, i, PaperOf);
    var w := Where(hits, PaperOf, h.paperId);
    var t :| 0 <= t < |w| && w[t] == h;
    assert PaperDocs(hits, h.paperId)[t] == h.doc;
  }

  /**
   * Nothing retrieved is lost: the combined context contains every retrieved chunk and the
   * header of every retrieved chunk's paper.
   */
  lemma EveryHitRendered(hits: seq<Hit>, i: nat)
    requires i < |hits|
    ensures Contains(CombinedContext(hits), hits[i].doc)
    ensures Contains(CombinedContext(hits), Header(hits[i].paperId))
  {
    var h := hits[i];
    HitInItsGroup(hits, i);
    var papers := GroupKeys(hits, PaperOf);
    var p :| 0 <= p < |papers| && papers[p] == h.paperId;
    var docs := PaperDocs(hits, h.paperId);
    var t :| 0 <= t < |docs| && docs[t] == h.doc;
    var sections := Sections(hits);
    assert sections[p] == Section(h.paperId, docs);
    JoinContains("\n\n", sections, p);
    SectionShape(h.paperId, docs, t);
    ContainsTrans(CombinedContext(hits), sections[p], h.doc);
    ContainsTrans(CombinedContext(hits), sections[p], Header(h.paperId));
  }

  /** Group sizes add up to the number of retrieved chunks. */
  lemma GroupSizesSumToHits(hits: seq<Hit>)
    ensures GroupSizes(GroupKeys(hits, PaperOf), hits, PaperOf) == |hits|
  {
    PartitionCount(hits, PaperOf);
  }

  /** A section is its header followed by its chunks one per line, each chunk intact. */
  lemma SectionShape(paperId: string, docs: seq<string>, j: nat)
    requires j < |docs|
    ensures Section(paperId, docs)[..|Header(paperId)|] == Header(paperId)
    ensures Contains(Section(paperId, docs), docs[j])
    ensures Contains(Section(paperId, docs), Header(paperId))
  {
    JoinContains("\n", docs, j);
    ContainsInfix(Header(paperId), Join("\n", docs), []);
    assert Header(paperId) + Join("\n", docs) + [] == Section(paperId, docs);
    ContainsTrans(Section(paperId, docs), Join("\n", docs), docs[j]);
    ContainsInfix([], Header(paperId), Join("\n", docs));
    assert [] + Header(paperId) + Join("\n", docs) == Section(paperId, docs);
  }

  /**
   * The prompt of both cross-paper analyses: the question and the combined context inside a
   * fixed template, whose lines after the first carry the template's own indentation.
   */
  function CrossPaperPrompt(indent: string, question: string, combined: string): string {
    "Based on these sections from multiple papers, please answer:\n" + indent + question + "\n"
      + indent + "\n"
      + indent + "Please provide a comprehensive analysis that draws from all relevant papers.\n"
      + indent + "\n"
      + indent + "Relevant sections:\n"
      + indent + combined
  }
}

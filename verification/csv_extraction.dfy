/**
 * Turning one row of the thesis catalogue export into the text to embed and its metadata.
 * A cell is a string or missing (pandas' NaN); the HTML-to-text conversion is a parameter.
 */
module CsvExtraction {
  import opened Wrappers
  import opened Text
  import opened Grouping

  /** A catalogue cell: text, or a missing value. */
  datatype Cell = Str(s: string) | NaN

  type Row = map<string, Cell>

  const TitleKey := "dc.title"
  const AbstractKey := "dc.description.abstract"
  const KeywordsKey := "dc.subject.keywords"
  const AuthorKey := "dc.contributor.author"
  const YearKey := "dc.date.issued"
  const UriKey := "dc.identifier.uri"

  /** `row.get(key, '')`. */
  function Get(row: Row, key: string): Cell {
    if key in row then row[key] else Str("")
  }

  /** A cell as `str()` or an f-string renders it; a missing value renders as "nan". */
  function Format(c: Cell): string {
    match c
    case Str(s) => s
    case NaN => "nan"
  }

  /** `strip_html`: the empty string for a missing value, otherwise the text of the HTML. */
  function StripHtml(c: Cell, htmlText: string -> string): string {
    match c
    case NaN => ""
    case Str(s) => htmlText(s)
  }

  /** The stripped pieces, with the empty ones left out, in order. */
  function NonEmptyStripped(pieces: seq<string>): seq<string> {
    if pieces == [] then []
    else
      var last := Strip(pieces[|pieces| - 1]);
      NonEmptyStripped(pieces[..|pieces| - 1]) + (if last != "" then [last] else [])
  }

  /** `[kw.strip() for kw in keywords_str.split('||') if kw.strip()]`. */
  function KeywordList(s: string): seq<string> {
    NonEmptyStripped(SplitOn(s, "||"))
  }

  /** The record's metadata: the raw title, author and URI cells, the stripped year and the keywords. */
  datatype Metadata = Metadata(title: Cell, author: Cell, year: string, keywords: seq<string>, uri: Cell)

  /** The text to embed for a record. */
  function CompositeText(title: Cell, abstractText: string, keywords: seq<string>): string {
    "Title: " + Format(title) + ". Abstract: " + abstractText + ". Keywords: " + Join(", ", keywords) + "."
  }

  /**
   * `process_record`: the composite text and the metadata. Splitting a missing keyword cell
   * raises `AttributeError`, as calling `.split` on a float does.
   */
  function ProcessRecord(row: Row, htmlText: string -> string): Result<(string, Metadata)> {
    match Get(row, KeywordsKey)
    case NaN => Err(AttributeError("'float' object has no attribute 'split'"))
    case Str(keywordsStr) =>
      var title := Get(row, TitleKey);
      var abstractText := StripHtml(Get(row, AbstractKey), htmlText);
      var keywords := KeywordList(keywordsStr);
      var year := Strip(Format(Get(row, YearKey)));
      Ok((CompositeText(title, abstractText, keywords),
          Metadata(title, Get(row, AuthorKey), year, keywords, Get(row, UriKey))))
  }

  /** A keyword is kept exactly when it is a non-blank piece, stripped. */
  lemma {:induction false} NonEmptyStrippedMembers(pieces: seq<string>, k: string)
    ensures k in NonEmptyStripped(pieces) <==> k != "" && exists i :: 0 <= i < |pieces| && Strip(pieces[i]) == k
  {
    if pieces != [] {
      var init := pieces[..|pieces| - 1];
      NonEmptyStrippedMembers(init, k);
      if exists i :: 0 <= i < |pieces| && Strip(pieces[i]) == k {
        var i :| 0 <= i < |pieces| && Strip(pieces[i]) == k;
        if i < |init| {
          assert Strip(init[i]) == k;
        }
      }
      if exists i :: 0 <= i < |init| && Strip(init[i]) == k {
        var i :| 0 <= i < |init| && Strip(init[i]) == k;
        assert Strip(pieces[i]) == k;
      }
    }
  }

  /** `NonEmptyStripped` at one more piece. */
  lemma NonEmptyStrippedSnoc(pieces: seq<string>, p: string)
    ensures NonEmptyStripped(pieces + [p]) == NonEmptyStripped(pieces) + (if Strip(p) != "" then [Strip(p)] else [])
  {
    PrefixOfSnoc(pieces, p);
  }

  /** A keyword is non-empty and has no surrounding whitespace. */
  predicate IsKeyword(k: string) {
    k != "" && !IsSpace(k[0]) && !IsSpace(k[|k| - 1])
  }

  /** Keywords are non-empty and have no surrounding whitespace. */
  lemma {:induction false} KeywordsStripped(pieces: seq<string>)
    ensures forall i :: 0 <= i < |NonEmptyStripped(pieces)| ==> IsKeyword(NonEmptyStripped(pieces)[i])
  {
    if pieces != [] {
      var init, p := pieces[..|pieces| - 1], pieces[|pieces| - 1];
      KeywordsStripped(init);
      LastSplit(pieces);
      NonEmptyStrippedSnoc(init, p);
      var front, ks := NonEmptyStripped(init), NonEmptyStripped(pieces);
      forall i | 0 <= i < |ks| ensures IsKeyword(ks[i]) {
        if i < |front| {
          assert ks[i] == front[i];
        }
      }
    }
  }

  /** Filtering goes piece by piece, so keywords keep the order of the pieces. */
  lemma {:induction false} NonEmptyStrippedAppend(xs: seq<string>, ys: seq<string>)
    ensures NonEmptyStripped(xs + ys) == NonEmptyStripped(xs) + NonEmptyStripped(ys)
  {
    if ys == [] {
      assert xs + ys == xs;
    } else {
      var init, y := ys[..|ys| - 1], ys[|ys| - 1];
      LastSplit(ys);
      AppendAssoc(xs, init, [y]);
      NonEmptyStrippedAppend(xs, init);
      NonEmptyStrippedSnoc(xs + init, y);
      NonEmptyStrippedSnoc(init, y);
      var tail := if Strip(y) != "" then [Strip(y)] else [];
      AppendAssoc(NonEmptyStripped(xs), NonEmptyStripped(init), tail);
    }
  }

  /** A keyword cell without "||" gives its stripped text as the only keyword, or none when blank. */
  lemma SingleKeyword(s: string)
    requires Find(s, "||").None?
    ensures KeywordList(s) == if IsBlank(s) then [] else [Strip(s)]
  {
    assert SplitOn(s, "||") == [s];
    assert [s][..0] == [];
    assert NonEmptyStripped([s]) == NonEmptyStripped([]) + (if Strip(s) != "" then [Strip(s)] else []);
  }

  /** Missing abstracts read as empty text. */
  lemma MissingAbstractIsEmpty(htmlText: string -> string)
    ensures StripHtml(NaN, htmlText) == ""
  {
  }

  /** The record fails exactly when its keyword cell is missing; a missing keyword column gives no keywords. */
  lemma RecordErrors(row: Row, htmlText: string -> string)
    ensures ProcessRecord(row, htmlText).Err? <==> KeywordsKey in row && row[KeywordsKey] == NaN
    ensures KeywordsKey !in row ==> ProcessRecord(row, htmlText).Ok? && ProcessRecord(row, htmlText).value.1.keywords == []
  {
    if KeywordsKey !in row {
      assert SplitOn("", "||") == [""];
      assert [""][..0] == [];
    }
  }

  /**
   * The text and the metadata agree: the text is the template over the title, the stripped
   * abstract and exactly the metadata's keywords, and the year has no surrounding whitespace.
   */
  lemma RecordAgreement(row: Row, htmlText: string -> string)
    requires ProcessRecord(row, htmlText).Ok?
    ensures var (text, meta) := ProcessRecord(row, htmlText).value;
      text == "Title: " + Format(meta.title) + ". Abstract: " + StripHtml(Get(row, AbstractKey), htmlText)
              + ". Keywords: " + Join(", ", meta.keywords) + "." &&
      meta.keywords == KeywordList(Get(row, KeywordsKey).s) &&
      meta.title == Get(row, TitleKey) && meta.author == Get(row, AuthorKey) && meta.uri == Get(row, UriKey) &&
      (meta.year == "" || (!IsSpace(meta.year[0]) && !IsSpace(meta.year[|meta.year| - 1])))
  {
  }
}

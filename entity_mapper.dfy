/**
 * The entity resolver `map_entities`: person names and movie titles that
 * the language model extracts from a question are looked up in the graph's
 * full-text indexes; accepted matches replace the mentions, and mentions
 * whose match differs from them other than in letter case are rewritten in
 * the question.
 *
 * The language model's reply, `json.loads` and the two full-text queries
 * are inputs: `response` is the reply's content, `parse` stands for
 * `json.loads` (`None` when it raises `JSONDecodeError`), and
 * `personSearch` / `movieSearch` give the rows that the `personNameIndex` /
 * `movieTitleIndex` query returns for a mention.
 */
module EntityMapper {
  import opened Wrappers
  import opened PyStrings

  /** The markdown code fence. */
  const Fence: string := "```"

  /** A match is accepted only when its score is above this. */
  const Threshold: real := 0.5

  /** A parsed JSON object whose values are lists of strings, as `{"persons": [...], "movies": [...]}`. */
  type Doc = map<string, seq<string>>

  /** One row of the full-text query: `found` is the column `match` (`node.name` or `node.title`), beside its score. */
  datatype Row = Row(found: Option<string>, score: real)

  /** What `map_entities` returns: `{"corrected": ..., "entities": {"persons": ..., "movies": ...}}`. */
  datatype Mapped = Mapped(corrected: string, persons: seq<string>, movies: seq<string>)

  // ---------------------------------------------------------------------
  // _extract_entities

  /** Drops the opening fence line: through the first newline, or the three backticks if there is none. */
  function DropFenceHeader(t: string): string
    requires StartsWith(t, Fence)
  {
    match FindChar(t, '\n')
    case Some(k) => t[k + 1..]
    case None => t[|Fence|..]
  }

  /** The reply text as `_extract_entities` hands it to `json.loads`. */
  function StripFences(response: string): string {
    var t := Strip(response);
    if StartsWith(t, Fence) then BeforeLast(DropFenceHeader(t), Fence) else t
  }

  /**
   * `text` is `body` cut at its last fence: a prefix of `body` that is all
   * of it when no fence occurs, else followed in `body` by a fence after
   * which no fence starts.
   */
  ghost predicate CutAtLastFence(body: string, text: string) {
    && text <= body
    && (|text| == |body| ==> forall j :: 0 <= j <= |body| ==> !OccursAt(body, Fence, j))
    && (|text| < |body| ==> OccursAt(body, Fence, |text|))
    && (|text| < |body| ==> forall j :: |text| < j <= |body| ==> !OccursAt(body, Fence, j))
  }

  /**
   * Fence stripping: unfenced text (after `strip`) is kept; fenced text
   * loses everything through its first newline (or just the three
   * backticks when there is no newline) and then everything from its last
   * fence on.
   */
  lemma StripFencesSpec(response: string)
    ensures var t := Strip(response); var text := StripFences(response);
      && (!StartsWith(t, Fence) ==> text == t)
      && (StartsWith(t, Fence) && '\n' in t ==>
            exists k :: 0 <= k < |t| && t[k] == '\n' && '\n' !in t[..k] && CutAtLastFence(t[k + 1..], text))
      && (StartsWith(t, Fence) && '\n' !in t ==> CutAtLastFence(t[3..], text))
  {
    var t := Strip(response);
    if StartsWith(t, Fence) {
      var body := DropFenceHeader(t);
      var text := StripFences(response);
      match RFind(body, Fence)
      case Some(i) =>
        assert text == body[..i];
      case None =>
        assert text == body;
    }
  }

  /** `_extract_entities`: the parsed reply, or no entities when it does not parse. */
  function ExtractEntities(response: string, parse: string -> Option<Doc>): Doc {
    match parse(StripFences(response))
    case Some(doc) => doc
    case None => map["persons" := [], "movies" := []]
  }

  /** `entities.get("persons", [])`. */
  function Persons(doc: Doc): seq<string> {
    if "persons" in doc then doc["persons"] else []
  }

  /** `entities.get("movies", [])`. */
  function Movies(doc: Doc): seq<string> {
    if "movies" in doc then doc["movies"] else []
  }

  /** A reply that does not parse yields no persons and no movies; one that parses is used as parsed. */
  lemma ParseFallback(response: string, parse: string -> Option<Doc>)
    ensures parse(StripFences(response)).None? ==>
      Persons(ExtractEntities(response, parse)) == [] && Movies(ExtractEntities(response, parse)) == []
    ensures parse(StripFences(response)).Some? ==>
      ExtractEntities(response, parse) == parse(StripFences(response)).value
  {
  }

  /** Missing keys read as empty lists. */
  lemma MissingKeysAreEmpty(doc: Doc)
    ensures "persons" !in doc ==> Persons(doc) == []
    ensures "movies" !in doc ==> Movies(doc) == []
  {
  }

  // ---------------------------------------------------------------------
  // _fuzzy_match

  /** `_fuzzy_match`: the first row's match when there is a row and its score exceeds the threshold. */
  function FuzzyMatch(rows: seq<Row>): Option<string> {
    if |rows| > 0 && rows[0].score > Threshold then rows[0].found else None
  }

  /** `if match:` on the result of `_fuzzy_match`: a match that is neither `None` nor empty. */
  predicate Accepted(m: Option<string>) {
    m.Some? && m.value != ""
  }

  /** The entry kept for a mention: its accepted match, else the mention itself. */
  function Resolved(mention: string, m: Option<string>): string {
    if Accepted(m) then m.value else mention
  }

  /** The mention is rewritten in the question: its match is accepted and differs ignoring case. */
  predicate Rewrites(mention: string, m: Option<string>) {
    Accepted(m) && Lower(m.value) != Lower(mention)
  }

  /** A mention whose first row scores at most the threshold, or that has no row, is kept and rewrites nothing. */
  lemma LowScoreKeepsMention(mention: string, rows: seq<Row>)
    requires rows == [] || rows[0].score <= Threshold
    ensures Resolved(mention, FuzzyMatch(rows)) == mention
    ensures !Rewrites(mention, FuzzyMatch(rows))
  {
  }

  /** A mention whose first row scores above the threshold is replaced by that row's non-empty match. */
  lemma HighScoreTakesMatch(mention: string, rows: seq<Row>)
    requires |rows| > 0 && rows[0].score > Threshold
    requires rows[0].found.Some? && rows[0].found.value != ""
    ensures Resolved(mention, FuzzyMatch(rows)) == rows[0].found.value
    ensures Rewrites(mention, FuzzyMatch(rows)) <==> Lower(rows[0].found.value) != Lower(mention)
  {
  }

  // ---------------------------------------------------------------------
  // map_entities

  /** The question after the corrections for `mentions`, applied one after another in order. */
  function Corrected(text: string, mentions: seq<string>, search: string -> seq<Row>): string {
    if mentions == [] then text
    else
      var n := |mentions| - 1;
      var before := Corrected(text, mentions[..n], search);
      var m := FuzzyMatch(search(mentions[n]));
      if Rewrites(mentions[n], m) then ReplaceAll(before, mentions[n], m.value) else before
  }

  /**
   * One loop of `map_entities` (the persons loop and the movies loop are
   * the same code): each mention is matched, its match or itself is kept,
   * and a differing match replaces every occurrence of the mention in the
   * text as corrected so far.
   */
  method CorrectMentions(text: string, mentions: seq<string>, search: string -> seq<Row>)
    returns (corrected: string, matched: seq<string>)
    ensures corrected == Corrected(text, mentions, search)
    ensures |matched| == |mentions|
    ensures forall i :: 0 <= i < |mentions| ==> matched[i] == Resolved(mentions[i], FuzzyMatch(search(mentions[i])))
  {
    corrected := text;
    matched := [];
    var i := 0;
    while i < |mentions|
      invariant 0 <= i <= |mentions|
      invariant corrected == Corrected(text, mentions[..i], search)
      invariant |matched| == i
      invariant forall k :: 0 <= k < i ==> matched[k] == Resolved(mentions[k], FuzzyMatch(search(mentions[k])))
    {
      var mention := mentions[i];
      var found := FuzzyMatch(search(mention));
      if found.Some? && found.value != "" {
        matched := matched + [found.value];
        if Lower(found.value) != Lower(mention) {
          corrected := ReplaceAll(corrected, mention, found.value);
        }
      } else {
        matched := matched + [mention];
      }
      assert mentions[..i + 1][..i] == mentions[..i];
      i := i + 1;
    }
    assert mentions[..|mentions|] == mentions;
  }

  /**
   * `map_entities`: the persons are corrected first, in the question, then
   * the movies, in the question as the persons left it.
   */
  method MapEntities(question: string, response: string, parse: string -> Option<Doc>,
                     personSearch: string -> seq<Row>, movieSearch: string -> seq<Row>)
    returns (r: Mapped)
    ensures var ps := Persons(ExtractEntities(response, parse));
      |r.persons| == |ps| && forall i :: 0 <= i < |ps| ==> r.persons[i] == Resolved(ps[i], FuzzyMatch(personSearch(ps[i])))
    ensures var ms := Movies(ExtractEntities(response, parse));
      |r.movies| == |ms| && forall i :: 0 <= i < |ms| ==> r.movies[i] == Resolved(ms[i], FuzzyMatch(movieSearch(ms[i])))
    ensures r.corrected == Corrected(Corrected(question, Persons(ExtractEntities(response, parse)), personSearch),
                                     Movies(ExtractEntities(response, parse)), movieSearch)
  {
    var entities := ExtractEntities(response, parse);
    var corrected, matchedPersons := CorrectMentions(question, Persons(entities), personSearch);
    var matchedMovies;
    corrected, matchedMovies := CorrectMentions(corrected, Movies(entities), movieSearch);
    r := Mapped(corrected, matchedPersons, matchedMovies);
  }

  // ---------------------------------------------------------------------
  // Properties of the corrections

  /** When no mention rewrites, the text is returned as it was. */
  lemma {:induction false} NoRewriteKeepsText(text: string, mentions: seq<string>, search: string -> seq<Row>)
    requires forall i :: 0 <= i < |mentions| ==> !Rewrites(mentions[i], FuzzyMatch(search(mentions[i])))
    ensures Corrected(text, mentions, search) == text
  {
    if mentions != [] {
      var n := |mentions| - 1;
      NoRewriteKeepsText(text, mentions[..n], search);
    }
  }

  /**
   * Corrections compose: the mentions of `b` are applied to the text that
   * the mentions of `a` have already corrected.
   */
  lemma {:induction false} CorrectedAppend(text: string, a: seq<string>, b: seq<string>, search: string -> seq<Row>)
    ensures Corrected(text, a + b, search) == Corrected(Corrected(text, a, search), b, search)
  {
    if b == [] {
      assert a + b == a;
    } else {
      var n := |b| - 1;
      assert (a + b)[..|a + b| - 1] == a + b[..n];
      CorrectedAppend(text, a, b[..n], search);
    }
  }

  /** When neither a person nor a movie mention rewrites, the corrected question is the question. */
  lemma QuestionKeptWithoutRewrites(question: string, response: string, parse: string -> Option<Doc>,
                                    personSearch: string -> seq<Row>, movieSearch: string -> seq<Row>)
    requires var ps := Persons(ExtractEntities(response, parse));
      forall i :: 0 <= i < |ps| ==> !Rewrites(ps[i], FuzzyMatch(personSearch(ps[i])))
    requires var ms := Movies(ExtractEntities(response, parse));
      forall i :: 0 <= i < |ms| ==> !Rewrites(ms[i], FuzzyMatch(movieSearch(ms[i])))
    ensures Corrected(Corrected(question, Persons(ExtractEntities(response, parse)), personSearch),
                      Movies(ExtractEntities(response, parse)), movieSearch) == question
  {
    NoRewriteKeepsText(question, Persons(ExtractEntities(response, parse)), personSearch);
    NoRewriteKeepsText(question, Movies(ExtractEntities(response, parse)), movieSearch);
  }

  /** A misspelt name matched with score 0.8 is replaced in the question. */
  lemma MisspeltNameIsCorrected(search: string -> seq<Row>)
    requires search("Tom Hnks") == [Row(Some("Tom Hanks"), 0.8)]
    ensures Corrected("Tom Hnks films", ["Tom Hnks"], search) == "Tom Hanks films"
  {
    var m := "Tom Hnks";
    assert ["Tom Hnks"][..0] == [];
    assert Lower("Tom Hanks")[5] != Lower(m)[5];
    assert "Tom Hnks films" == [] + m + " films";
    ReplaceAtFirstOccurrence([], m, " films", "Tom Hanks");
    ReplaceAbsent(" films", m, "Tom Hanks");
  }

  /** A match that differs only in letter case is kept in the list but does not rewrite the question. */
  lemma CaseOnlyMatchIsNotRewritten(search: string -> seq<Row>)
    requires search("tom hanks") == [Row(Some("Tom Hanks"), 0.9)]
    ensures Resolved("tom hanks", FuzzyMatch(search("tom hanks"))) == "Tom Hanks"
    ensures Corrected("films of tom hanks", ["tom hanks"], search) == "films of tom hanks"
  {
    assert Lower("Tom Hanks") == Lower("tom hanks");
    NoRewriteKeepsText("films of tom hanks", ["tom hanks"], search);
  }
}

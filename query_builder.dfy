/** The pure string side of MTGCardQuery: the exact-name search expression
    built by `toCardList` and the search locator built by `search`. */
module QueryBuilder {
  import opened Wrappers
  import opened Transport

  /** The fixed base of every request. */
  const ApiUri: string := "https://api.scryfall.com"

  /** The search endpoint with its fixed unique-by-printing parameter; the
      escaped expression follows it. */
  const SearchPath: string := "/cards/search?unique=prints&q="

  /** `URLEncoder.encode(query, "UTF-8")`: the escaped text, or None when it
      throws (UnsupportedEncodingException). */
  type Escaper = string -> Option<string>

  /** The expression that matches a card by its exact name; the `++` prefix
      asks for every printing instead of one. */
  function ExactNameQuery(cardName: string, listDuplicates: bool): (q: string)
    ensures |q| == |cardName| + (if listDuplicates then 5 else 3)
    ensures q[|q| - 1] == '"'
    ensures q[0] == '+' <==> listDuplicates
  {
    if listDuplicates then "++!\"" + cardName + "\"" else "!\"" + cardName + "\""
  }

  /** Reads a card name and the all-printings flag back out of an exact-name
      expression; None for any other text. */
  function ParseNameQuery(query: string): Option<(string, bool)>
  {
    if |query| >= 5 && query[..4] == "++!\"" && query[|query| - 1] == '"' then
      Some((query[4..|query| - 1], true))
    else if |query| >= 3 && query[..2] == "!\"" && query[|query| - 1] == '"' then
      Some((query[2..|query| - 1], false))
    else
      None
  }

  /** The expression is the name between the exact-match quotes, preceded by
      `!`, and by the all-printings `++` exactly when duplicates are wanted. */
  lemma ExactNameQueryShape(cardName: string, listDuplicates: bool)
    ensures var q := ExactNameQuery(cardName, listDuplicates);
      var k := if listDuplicates then 4 else 2;
      && |q| == |cardName| + k + 1
      && q[..k] == (if listDuplicates then "++!\"" else "!\"")
      && q[k..|q| - 1] == cardName
      && q[|q| - 1] == '"'
      && (q[0] == '+' <==> listDuplicates)
  {
  }

  /** Every exact-name expression parses back to its name and flag, so two
      different names never share an expression. */
  lemma ParseExactNameQuery(cardName: string, listDuplicates: bool)
    ensures ParseNameQuery(ExactNameQuery(cardName, listDuplicates)) == Some((cardName, listDuplicates))
  {
    ExactNameQueryShape(cardName, listDuplicates);
  }

  /** Whatever parses as an exact-name expression is the expression of the
      name and flag it parses to. */
  lemma ExactNameQueryOfParse(query: string, cardName: string, listDuplicates: bool)
    requires ParseNameQuery(query) == Some((cardName, listDuplicates))
    ensures ExactNameQuery(cardName, listDuplicates) == query
  {
    var k := if listDuplicates then 4 else 2;
    assert query == query[..k] + query[k..|query| - 1] + [query[|query| - 1]];
  }

  /** The escaped text of `search`: empty when encoding throws. */
  function EscapedOrEmpty(escape: Escaper, query: string): string
  {
    match escape(query)
    case Some(e) => e
    case None => ""
  }

  /** The locator that `search(query)` requests. */
  function SearchUri(escape: Escaper, query: string): (u: Locator)
    ensures |ApiUri + SearchPath| <= |u|
    ensures u[..|ApiUri + SearchPath|] == ApiUri + SearchPath
    ensures u[|ApiUri + SearchPath|..] == EscapedOrEmpty(escape, query)
  {
    ApiUri + SearchPath + EscapedOrEmpty(escape, query)
  }

  /** The search locator is the fixed endpoint followed by the escaped query,
      or by nothing when encoding fails. */
  lemma SearchUriShape(escape: Escaper, query: string)
    ensures var u := SearchUri(escape, query);
      var n := |ApiUri + SearchPath|;
      && n <= |u|
      && u[..n] == ApiUri + SearchPath
      && (escape(query).Some? ==> u[n..] == escape(query).value)
      && (escape(query).None? ==> u == ApiUri + SearchPath)
  {
    var u := SearchUri(escape, query);
    if escape(query).None? {
      assert u == (ApiUri + SearchPath) + "";
    }
  }

  /** Two queries share a search locator exactly when their escaped texts
      agree. */
  lemma SearchUriInjective(escape: Escaper, q1: string, q2: string)
    ensures SearchUri(escape, q1) == SearchUri(escape, q2) <==> EscapedOrEmpty(escape, q1) == EscapedOrEmpty(escape, q2)
  {
    var p := ApiUri + SearchPath;
    if SearchUri(escape, q1) == SearchUri(escape, q2) {
      assert SearchUri(escape, q1)[|p|..] == EscapedOrEmpty(escape, q1);
      assert SearchUri(escape, q2)[|p|..] == EscapedOrEmpty(escape, q2);
    }
  }

  /** The two expressions for the card named Island. */
  lemma IslandQueries()
    ensures ExactNameQuery("Island", false) == "!\"Island\""
    ensures ExactNameQuery("Island", true) == "++!\"Island\""
    ensures ParseNameQuery("++!\"Island\"") == Some(("Island", true))
  {
    ParseExactNameQuery("Island", true);
  }
}

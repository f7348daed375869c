/** The public search entry points of MTGCardQuery: `search` sends one
    escaped expression to the search endpoint, and `toCardList` runs one
    exact-name search per card name and concatenates the results. */
module CardQuery {
  import opened Wrappers
  import opened Transport
  import opened QueryBuilder
  import opened PaginatedFetcher

  /** What `search(query)` does, as a value. */
  function SearchRun<R>(server: Server<R>, escape: Escaper, query: string, fuel: nat): Run<R>
  {
    Fetch(server, Some(SearchUri(escape, query)), fuel)
  }

  /** The Java method: escape the expression (empty on an encoding failure),
      build the locator, fetch every page of it. */
  method Search<R>(server: Server<R>, escape: Escaper, query: string, fuel: nat) returns (run: Run<R>)
    ensures run == SearchRun(server, escape, query, fuel)
    ensures 0 < fuel ==> run.trace != [] && run.trace[0] == Get(ApiUri + SearchPath + EscapedOrEmpty(escape, query))
  {
    var escapedQuery := "";
    var encoded := escape(query);
    if encoded.Some? {
      escapedQuery := encoded.value;
    }
    var uri := ApiUri + SearchPath + escapedQuery;
    run := GetCardsFromUri(server, Some(uri), fuel);
    FetchTraceShape(server, Some(uri), fuel);
  }

  /** What `toCardList(cardNames, listDuplicates)` does, as a value: the
      exact-name searches one after another, in input order, each within the
      same page bound. */
  function SearchAll<R>(server: Server<R>, escape: Escaper, cardNames: seq<string>, listDuplicates: bool, fuel: nat): Run<R>
    decreases |cardNames|
  {
    if cardNames == [] then Empty()
    else Then(SearchRun(server, escape, ExactNameQuery(cardNames[0], listDuplicates), fuel),
              SearchAll(server, escape, cardNames[1..], listDuplicates, fuel))
  }

  /** The Java method: a loop appends each name's search results to
      `result`; an exception thrown by one search leaves the loop and the
      method. */
  method ToCardList<R>(server: Server<R>, escape: Escaper, cardNames: seq<string>, listDuplicates: bool, fuel: nat)
    returns (run: Run<R>)
    ensures run == SearchAll(server, escape, cardNames, listDuplicates, fuel)
  {
    var result: seq<R> := [];
    var trace: seq<Event> := [];
    for i := 0 to |cardNames|
      invariant Then(Run(Done(result), trace), SearchAll(server, escape, cardNames[i..], listDuplicates, fuel))
             == SearchAll(server, escape, cardNames, listDuplicates, fuel)
    {
      var query := ExactNameQuery(cardNames[i], listDuplicates);
      var found := Search(server, escape, query, fuel);
      ghost var rest := SearchAll(server, escape, cardNames[i + 1..], listDuplicates, fuel);
      assert cardNames[i..][1..] == cardNames[i + 1..];
      ThenAssoc(Run(Done(result), trace), found, rest);
      match found.outcome
      case Done(records) =>
        result := result + records;
        trace := trace + found.trace;
      case _ =>
        return Then(Run(Done(result), trace), found);
    }
    ThenEmptyRight(Run(Done(result), trace));
    run := Run(Done(result), trace);
  }

  /** Searching a list of names is searching its first part and then its
      second part: the results of `a` all come before those of `b`. */
  lemma {:induction false} SearchAllAppend<R>(server: Server<R>, escape: Escaper, a: seq<string>, b: seq<string>, listDuplicates: bool, fuel: nat)
    ensures SearchAll(server, escape, a + b, listDuplicates, fuel)
         == Then(SearchAll(server, escape, a, listDuplicates, fuel), SearchAll(server, escape, b, listDuplicates, fuel))
    decreases |a|
  {
    if a == [] {
      assert a + b == b;
      ThenEmptyLeft(SearchAll(server, escape, b, listDuplicates, fuel));
    } else {
      assert (a + b)[0] == a[0];
      assert (a + b)[1..] == a[1..] + b;
      SearchAllAppend(server, escape, a[1..], b, listDuplicates, fuel);
      ThenAssoc(SearchRun(server, escape, ExactNameQuery(a[0], listDuplicates), fuel),
                SearchAll(server, escape, a[1..], listDuplicates, fuel),
                SearchAll(server, escape, b, listDuplicates, fuel));
    }
  }

  /** The concatenation of a list of lists, first to last. */
  function Flatten<T>(parts: seq<seq<T>>): seq<T>
  {
    if parts == [] then [] else parts[0] + Flatten(parts[1..])
  }

  /** The records each name's search returned, in input order, for names
      whose searches all return normally. */
  ghost function PerName<R>(server: Server<R>, escape: Escaper, cardNames: seq<string>, listDuplicates: bool, fuel: nat): seq<seq<R>>
    requires forall i :: 0 <= i < |cardNames| ==> SearchRun(server, escape, ExactNameQuery(cardNames[i], listDuplicates), fuel).outcome.Done?
  {
    seq(|cardNames|, i requires 0 <= i < |cardNames| =>
      SearchRun(server, escape, ExactNameQuery(cardNames[i], listDuplicates), fuel).outcome.records)
  }

  /** When no search throws or runs out, `toCardList` returns every name's
      results concatenated in input order, with nothing merged or dropped;
      an empty name list gives the empty list and no request. */
  lemma {:induction false} SearchAllConcatenates<R>(server: Server<R>, escape: Escaper, cardNames: seq<string>, listDuplicates: bool, fuel: nat)
    requires forall i :: 0 <= i < |cardNames| ==> SearchRun(server, escape, ExactNameQuery(cardNames[i], listDuplicates), fuel).outcome.Done?
    ensures SearchAll(server, escape, cardNames, listDuplicates, fuel).outcome
         == Done(Flatten(PerName(server, escape, cardNames, listDuplicates, fuel)))
    ensures cardNames == [] ==> SearchAll(server, escape, cardNames, listDuplicates, fuel).trace == []
    decreases |cardNames|
  {
    if cardNames != [] {
      var rest := cardNames[1..];
      assert forall i :: 0 <= i < |rest| ==> rest[i] == cardNames[i + 1];
      SearchAllConcatenates(server, escape, rest, listDuplicates, fuel);
      assert PerName(server, escape, cardNames, listDuplicates, fuel)[1..] == PerName(server, escape, rest, listDuplicates, fuel);
    }
  }

  /** A one-name list is searched by that name's search alone. */
  lemma SearchAllSingle<R>(server: Server<R>, escape: Escaper, cardName: string, listDuplicates: bool, fuel: nat)
    ensures SearchAll(server, escape, [cardName], listDuplicates, fuel)
         == SearchRun(server, escape, ExactNameQuery(cardName, listDuplicates), fuel)
  {
    assert [cardName][1..] == [];
    ThenEmptyRight(SearchRun(server, escape, ExactNameQuery(cardName, listDuplicates), fuel));
  }

  /** The first search that throws (or runs out of its bound) ends
      `toCardList`: what it does is what the whole call does, after the
      searches before it, and no later name is searched. */
  lemma SearchAllStops<R>(server: Server<R>, escape: Escaper, cardNames: seq<string>, k: nat, listDuplicates: bool, fuel: nat)
    requires k < |cardNames|
    requires !SearchRun(server, escape, ExactNameQuery(cardNames[k], listDuplicates), fuel).outcome.Done?
    ensures SearchAll(server, escape, cardNames, listDuplicates, fuel)
         == SearchAll(server, escape, cardNames[..k + 1], listDuplicates, fuel)
  {
    var a, b := cardNames[..k + 1], cardNames[k + 1..];
    var f := SearchRun(server, escape, ExactNameQuery(cardNames[k], listDuplicates), fuel);
    var before := SearchAll(server, escape, cardNames[..k], listDuplicates, fuel);
    var after := SearchAll(server, escape, b, listDuplicates, fuel);
    assert cardNames == a + b;
    assert a == cardNames[..k] + [cardNames[k]];
    SearchAllAppend(server, escape, cardNames[..k], [cardNames[k]], listDuplicates, fuel);
    SearchAllSingle(server, escape, cardNames[k], listDuplicates, fuel);
    assert SearchAll(server, escape, a, listDuplicates, fuel) == Then(before, f);
    SearchAllAppend(server, escape, a, b, listDuplicates, fuel);
    assert SearchAll(server, escape, cardNames, listDuplicates, fuel) == Then(Then(before, f), after);
    ThenAssoc(before, f, after);
    assert Then(f, after) == f;
  }

  /** When the k-th search is the first that does not return normally, its
      exception (or its exhausted bound) is what `toCardList` ends with. */
  lemma SearchAllFirstFailure<R>(server: Server<R>, escape: Escaper, cardNames: seq<string>, k: nat, listDuplicates: bool, fuel: nat)
    requires k < |cardNames|
    requires forall j :: 0 <= j < k ==> SearchRun(server, escape, ExactNameQuery(cardNames[j], listDuplicates), fuel).outcome.Done?
    requires !SearchRun(server, escape, ExactNameQuery(cardNames[k], listDuplicates), fuel).outcome.Done?
    ensures SearchAll(server, escape, cardNames, listDuplicates, fuel).outcome
         == SearchRun(server, escape, ExactNameQuery(cardNames[k], listDuplicates), fuel).outcome
  {
    var pre := cardNames[..k];
    var f := SearchRun(server, escape, ExactNameQuery(cardNames[k], listDuplicates), fuel);
    SearchAllStops(server, escape, cardNames, k, listDuplicates, fuel);
    assert cardNames[..k + 1] == pre + [cardNames[k]];
    SearchAllAppend(server, escape, pre, [cardNames[k]], listDuplicates, fuel);
    SearchAllSingle(server, escape, cardNames[k], listDuplicates, fuel);
    assert forall j :: 0 <= j < |pre| ==> pre[j] == cardNames[j];
    SearchAllConcatenates(server, escape, pre, listDuplicates, fuel);
  }

  /** Asking twice for the same name lists its cards twice. */
  lemma SearchAllKeepsDuplicates<R>(server: Server<R>, escape: Escaper, cardName: string, listDuplicates: bool, fuel: nat)
    requires SearchRun(server, escape, ExactNameQuery(cardName, listDuplicates), fuel).outcome.Done?
    ensures var xs := SearchRun(server, escape, ExactNameQuery(cardName, listDuplicates), fuel).outcome.records;
      SearchAll(server, escape, [cardName, cardName], listDuplicates, fuel).outcome == Done(xs + xs)
  {
    SearchAllAppend(server, escape, [cardName], [cardName], listDuplicates, fuel);
  }

  /** The requests of the per-name searches, added up. */
  function SumRequests<R>(server: Server<R>, escape: Escaper, cardNames: seq<string>, listDuplicates: bool, fuel: nat): nat
    decreases |cardNames|
  {
    if cardNames == [] then 0
    else
      var first := SearchRun(server, escape, ExactNameQuery(cardNames[0], listDuplicates), fuel);
      Requests(first.trace) + SumRequests(server, escape, cardNames[1..], listDuplicates, fuel)
  }

  /** Each name gets its own search: `toCardList` makes exactly as many
      requests as the per-name searches together, and every name's search
      starts with a request for that name's exact expression. */
  lemma {:induction false} SearchAllRequests<R>(server: Server<R>, escape: Escaper, cardNames: seq<string>, listDuplicates: bool, fuel: nat)
    requires forall i :: 0 <= i < |cardNames| ==> SearchRun(server, escape, ExactNameQuery(cardNames[i], listDuplicates), fuel).outcome.Done?
    ensures Requests(SearchAll(server, escape, cardNames, listDuplicates, fuel).trace)
         == SumRequests(server, escape, cardNames, listDuplicates, fuel)
    ensures 0 < fuel ==> SumRequests(server, escape, cardNames, listDuplicates, fuel) >= |cardNames|
    decreases |cardNames|
  {
    if cardNames != [] {
      var rest := cardNames[1..];
      assert forall i :: 0 <= i < |rest| ==> rest[i] == cardNames[i + 1];
      SearchAllRequests(server, escape, rest, listDuplicates, fuel);
      var first := SearchRun(server, escape, ExactNameQuery(cardNames[0], listDuplicates), fuel);
      CountsAppend(first.trace, SearchAll(server, escape, rest, listDuplicates, fuel).trace);
      if 0 < fuel {
        FetchTraceShape(server, Some(SearchUri(escape, ExactNameQuery(cardNames[0], listDuplicates))), fuel);
        assert first.trace == [first.trace[0]] + first.trace[1..];
        CountsAppend([first.trace[0]], first.trace[1..]);
      }
    }
  }
}

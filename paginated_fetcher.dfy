/** `getCardsFromURI` and `getSets`: fetch a page, keep its `data` records in
    array order, and (for `getCardsFromURI` only) follow `next_page` while
    `has_more` is true, sleeping before every continuation. */
module PaginatedFetcher {
  import opened Wrappers
  import opened Transport

  /** The locator `getSets` requests. */
  const SetsUri: Locator := "https://api.scryfall.com/sets"

  /** What `getCardsFromURI(uri)` does, as a value. `uri` is None for a Java
      null, which `new URL` rejects with a MalformedURLException before any
      request, so the call returns the empty list. The Java recursion has no
      bound; here each call takes one unit of `fuel` and the run is
      Exhausted when none is left. */
  function Fetch<R>(server: Server<R>, uri: Option<Locator>, fuel: nat): Run<R>
    decreases fuel
  {
    if fuel == 0 then Run(Exhausted, [])
    else match uri
      case None => Empty()
      case Some(l) =>
        match server(l)
        case IOFail => Run(Done([]), [Get(l)])
        case Unparsable => Run(Crashed, [Get(l)])
        case BadEnvelope(_) => Run(Crashed, [Get(l)])
        case Page(data, hasMore, next) =>
          if hasMore == Some(true) then
            Then(Run(Done(data), [Get(l), Sleep(PauseMillis)]), Fetch(server, next, fuel - 1))
          else
            Run(Done(data), [Get(l)])
  }

  /** The loop over a page's `data` array that adds each decoded record to
      the result list, in array order. */
  method CopyRecords<R>(data: seq<R>) returns (copy: seq<R>)
    ensures copy == data
  {
    copy := [];
    for i := 0 to |data|
      invariant copy == data[..i]
    {
      copy := copy + [data[i]];
    }
    assert data[..|data|] == data;
  }

  /** The Java method: a loop copies the page's records into `cards`, then
      the continuation's records are appended after them. */
  method GetCardsFromUri<R>(server: Server<R>, uri: Option<Locator>, fuel: nat) returns (run: Run<R>)
    ensures run == Fetch(server, uri, fuel)
    decreases fuel
  {
    if fuel == 0 {
      return Run(Exhausted, []);
    }
    if uri.None? {
      return Run(Done([]), []);
    }
    var l := uri.value;
    var trace := [Get(l)];
    var response := server(l);
    match response
    case IOFail =>
      run := Run(Done([]), trace);
    case Unparsable =>
      run := Run(Crashed, trace);
    case BadEnvelope(_) =>
      run := Run(Crashed, trace);
    case Page(data, hasMore, next) =>
      var cards := CopyRecords(data);
      if hasMore == Some(true) {
        trace := trace + [Sleep(PauseMillis)];
        var rest := GetCardsFromUri(server, next, fuel - 1);
        match rest.outcome
        case Done(more) =>
          run := Run(Done(cards + more), trace + rest.trace);
        case _ =>
          run := Run(rest.outcome, trace + rest.trace);
      } else {
        run := Run(Done(cards), trace);
      }
  }

  /** A fetch issues at most one request per unit of fuel, every sleep
      follows a request, and the first event is the request for `uri`. */
  lemma {:induction false} FetchTraceShape<R>(server: Server<R>, uri: Option<Locator>, fuel: nat)
    ensures var t := Fetch(server, uri, fuel).trace;
      && Requests(t) <= fuel
      && Sleeps(t) <= Requests(t)
      && WellPaced(t)
      && (t == [] || t[0].Get?)
      && (fuel > 0 && uri.Some? ==> t != [] && t[0] == Get(uri.value))
    decreases fuel
  {
    if fuel > 0 && uri.Some? {
      var l := uri.value;
      match server(l)
      case IOFail =>
      case Unparsable =>
      case BadEnvelope(_) =>
      case Page(data, hasMore, next) =>
        if hasMore == Some(true) {
          FetchTraceShape(server, next, fuel - 1);
          var rest := Fetch(server, next, fuel - 1).trace;
          CountsAppend([Get(l), Sleep(PauseMillis)], rest);
          WellPacedAfterRequest(l, rest);
        }
    }
  }

  /** Raising the bound changes nothing about a fetch that finished within
      it: fuel only cuts off chains the Java code would keep following. */
  lemma {:induction false} FetchFuelMonotone<R>(server: Server<R>, uri: Option<Locator>, fuel: nat, more: nat)
    requires !Fetch(server, uri, fuel).outcome.Exhausted?
    requires fuel <= more
    ensures Fetch(server, uri, more) == Fetch(server, uri, fuel)
    decreases fuel
  {
    if uri.Some? {
      match server(uri.value)
      case IOFail =>
      case Unparsable =>
      case BadEnvelope(_) =>
      case Page(data, hasMore, next) =>
        if hasMore == Some(true) {
          FetchFuelMonotone(server, next, fuel - 1, more - 1);
        }
    }
  }

  /** The locator a chain starts from: its first page, or `last` when the
      chain is empty. */
  function Start(locs: seq<Locator>, last: Option<Locator>): Option<Locator>
  {
    if locs == [] then last else Some(locs[0])
  }

  /** Every page at `locs` reports `has_more` true and names the next one as
      its `next_page`; the last of them names `last`. */
  ghost predicate Continues<R>(server: Server<R>, locs: seq<Locator>, last: Option<Locator>)
    decreases |locs|
  {
    locs == [] ||
      (var r := server(locs[0]);
       && r.Page?
       && r.hasMore == Some(true)
       && r.next == Start(locs[1..], last)
       && Continues(server, locs[1..], last))
  }

  /** The records of the pages at `locs`, page after page. */
  ghost function ChainRecords<R>(server: Server<R>, locs: seq<Locator>): seq<R>
  {
    if locs == [] then []
    else (if server(locs[0]).Page? then server(locs[0]).data else []) + ChainRecords(server, locs[1..])
  }

  /** One request and one pause per page of the chain. */
  ghost function ChainTrace(locs: seq<Locator>): seq<Event>
  {
    if locs == [] then [] else [Get(locs[0]), Sleep(PauseMillis)] + ChainTrace(locs[1..])
  }

  lemma {:induction false} ChainTraceCounts(locs: seq<Locator>)
    ensures Requests(ChainTrace(locs)) == |locs|
    ensures Sleeps(ChainTrace(locs)) == |locs|
  {
    if locs != [] {
      ChainTraceCounts(locs[1..]);
      CountsAppend([Get(locs[0]), Sleep(PauseMillis)], ChainTrace(locs[1..]));
    }
  }

  /** Following a chain of continuing pages collects their records in page
      order, with one request and one pause per page, and then goes on
      exactly as a fresh fetch of the chain's last `next_page` would. */
  lemma {:induction false} FetchAlongChain<R>(server: Server<R>, locs: seq<Locator>, last: Option<Locator>, fuel: nat)
    requires Continues(server, locs, last)
    requires |locs| <= fuel
    ensures Fetch(server, Start(locs, last), fuel)
         == Then(Run(Done(ChainRecords(server, locs)), ChainTrace(locs)), Fetch(server, last, fuel - |locs|))
    decreases |locs|
  {
    if locs == [] {
      ThenEmptyLeft(Fetch(server, last, fuel));
    } else {
      var l := locs[0];
      var head: Run<R> := Run(Done(server(l).data), [Get(l), Sleep(PauseMillis)]);
      var mid: Run<R> := Run(Done(ChainRecords(server, locs[1..])), ChainTrace(locs[1..]));
      var tail := Fetch(server, last, fuel - |locs|);
      FetchAlongChain(server, locs[1..], last, fuel - 1);
      assert Fetch(server, Start(locs, last), fuel) == Then(head, Then(mid, tail));
      ThenAssoc(head, mid, tail);
    }
  }

  /** An N-page result: when the chain ends at a page whose `has_more` is
      absent or false, the fetch returns every page's records in page order,
      issues N requests and sleeps N - 1 times. */
  lemma {:induction false} FetchCompleteChain<R>(server: Server<R>, locs: seq<Locator>, l: Locator, fuel: nat)
    requires Continues(server, locs, Some(l))
    requires server(l).Page? && server(l).hasMore != Some(true)
    requires |locs| < fuel
    ensures var run := Fetch(server, Start(locs, Some(l)), fuel);
      && run.outcome == Done(ChainRecords(server, locs) + server(l).data)
      && run.trace == ChainTrace(locs) + [Get(l)]
      && Requests(run.trace) == |locs| + 1
      && Sleeps(run.trace) == |locs|
  {
    FetchAlongChain(server, locs, Some(l), fuel);
    ChainTraceCounts(locs);
    CountsAppend(ChainTrace(locs), [Get(l)]);
  }

  /** An IOException on a page makes that call return the empty list: the
      records of the earlier pages are kept, and nothing after the failing
      page is requested. */
  lemma {:induction false} FetchFailsWithinChain<R>(server: Server<R>, locs: seq<Locator>, l: Locator, fuel: nat)
    requires Continues(server, locs, Some(l))
    requires server(l).IOFail?
    requires |locs| < fuel
    ensures var run := Fetch(server, Start(locs, Some(l)), fuel);
      && run.outcome == Done(ChainRecords(server, locs))
      && run.trace == ChainTrace(locs) + [Get(l)]
  {
    FetchAlongChain(server, locs, Some(l), fuel);
    assert ChainRecords(server, locs) + [] == ChainRecords(server, locs);
  }

  /** An unparsable page, or one whose pagination members have the wrong
      type, throws out of the whole chain: the records of the earlier pages
      are lost with it. */
  lemma {:induction false} FetchCrashesWithinChain<R>(server: Server<R>, locs: seq<Locator>, l: Locator, fuel: nat)
    requires Continues(server, locs, Some(l))
    requires server(l).Unparsable? || server(l).BadEnvelope?
    requires |locs| < fuel
    ensures var run := Fetch(server, Start(locs, Some(l)), fuel);
      && run.outcome == Crashed
      && run.trace == ChainTrace(locs) + [Get(l)]
  {
    FetchAlongChain(server, locs, Some(l), fuel);
  }

  /** A continuing page without `next_page` ends the fetch after its pause:
      the continuation call gets null and returns the empty list. */
  lemma {:induction false} FetchMissingNext<R>(server: Server<R>, locs: seq<Locator>, fuel: nat)
    requires locs != []
    requires Continues(server, locs, None)
    requires |locs| < fuel
    ensures var run := Fetch(server, Start(locs, None), fuel);
      && run.outcome == Done(ChainRecords(server, locs))
      && run.trace == ChainTrace(locs)
      && Requests(run.trace) == Sleeps(run.trace) == |locs|
  {
    FetchAlongChain(server, locs, None, fuel);
    ChainTraceCounts(locs);
    assert ChainRecords(server, locs) + [] == ChainRecords(server, locs);
    assert ChainTrace(locs) + [] == ChainTrace(locs);
  }

  /** What `getSets()` does, as a value: one request, the page's records in
      order, whatever its `has_more` and `next_page` say. */
  function SinglePage<R>(server: Server<R>, l: Locator): Run<R>
  {
    match server(l)
    case IOFail => Run(Done([]), [Get(l)])
    case Unparsable => Run(Crashed, [Get(l)])
    case BadEnvelope(data) => Run(Done(data), [Get(l)])
    case Page(data, _, _) => Run(Done(data), [Get(l)])
  }

  /** The Java method: a loop copies the `/sets` page's records into `s`. */
  method GetSets<R>(server: Server<R>) returns (run: Run<R>)
    ensures run == SinglePage(server, SetsUri)
    ensures run.trace == [Get(SetsUri)]
  {
    var trace := [Get(SetsUri)];
    var response := server(SetsUri);
    match response
    case IOFail =>
      run := Run(Done([]), trace);
    case Unparsable =>
      run := Run(Crashed, trace);
    case BadEnvelope(data) =>
      var s := CopyRecords(data);
      run := Run(Done(s), trace);
    case Page(data, _, _) =>
      var s := CopyRecords(data);
      run := Run(Done(s), trace);
  }

  /** A single-page read agrees with a paginated fetch of the same locator
      unless the page asks to be continued, or carries pagination members
      only the paginated fetch reads. On a continuing page it keeps only the
      first page, a prefix of what the paginated fetch returns; on a bad
      envelope it returns the records where the paginated fetch throws. */
  lemma SinglePageVersusFetch<R>(server: Server<R>, l: Locator, fuel: nat)
    requires 0 < fuel
    ensures !(server(l).Page? && server(l).hasMore == Some(true)) && !server(l).BadEnvelope? ==>
      SinglePage(server, l) == Fetch(server, Some(l), fuel)
    ensures server(l).BadEnvelope? ==>
      && SinglePage(server, l).outcome == Done(server(l).data)
      && Fetch(server, Some(l), fuel).outcome == Crashed
    ensures server(l).Page? && server(l).hasMore == Some(true) ==>
      var run := Fetch(server, Some(l), fuel);
      && SinglePage(server, l).outcome == Done(server(l).data)
      && (run.outcome.Done? ==> server(l).data <= run.outcome.records)
  {
  }

  /** The two-page exchange: two records then one, two GETs, one pause. */
  lemma TwoPageScenario()
    ensures var server: Server<int> := (l: Locator) =>
        if l == "p1" then Page([10, 20], Some(true), Some("p2"))
        else if l == "p2" then Page([30], Some(false), None)
        else IOFail;
      var run := Fetch(server, Some("p1"), 5);
      && run.outcome == Done([10, 20, 30])
      && run.trace == [Get("p1"), Sleep(50), Get("p2")]
  {
    var server: Server<int> := (l: Locator) =>
      if l == "p1" then Page([10, 20], Some(true), Some("p2"))
      else if l == "p2" then Page([30], Some(false), None)
      else IOFail;
    FetchCompleteChain(server, ["p1"], "p2", 5);
  }
}

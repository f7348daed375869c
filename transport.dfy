/** The abstract transport beneath MTGCardQuery: the HTTP connection, the
    line-reading loop and the JSON parser collapse into one function from a
    locator to a parsed response. A fetch yields a Run: what the Java call
    returns (or that it throws) together with the trace of the requests it
    issued and the pauses it slept. */
module Transport {
  import opened Wrappers

  /** A resource address, as the string handed to `new URL(...)`. */
  type Locator = string

  /** What one GET against a locator gives the code, once the body is parsed. */
  datatype Response<R> =
      /** An IOException: a malformed URL, a failed connection, an error
          status or a failed read. */
    | IOFail
      /** A body on which every reader throws an unchecked exception while
          reading `data`, so no record reaches the caller: the parser failed
          and `root` stays null, so `root.get("data")` dereferences null
          (Java assertions are off by default), or the root, the `data`
          member or one of its elements has the wrong JSON type or is
          missing. */
    | Unparsable
      /** A body whose `data` records read well but whose pagination members
          do not: `has_more` is present and null or not a boolean, or it is
          true and `next_page` is not a string. Only a reader of those
          members (`getCardsFromURI`, lines 223-224) throws on it; `getSets`
          reads `data` only. */
    | BadEnvelope(data: seq<R>)
      /** A parsed envelope: the `data` records in array order, the
          `has_more` member if present, the `next_page` member if present. */
    | Page(data: seq<R>, hasMore: Option<bool>, next: Option<Locator>)

  /** The remote service, seen as a fixed map from locator to response. */
  type Server<R> = Locator -> Response<R>

  /** The wait, in milliseconds, before every continuation request. */
  const PauseMillis: nat := 50

  /** An observable step of a fetch: a request attempted for a locator, or
      a sleep. A `Get` is recorded for every non-null locator the code
      tries, including one that `new URL` rejects before any connection is
      made, so `Requests` counts attempts. */
  datatype Event = Get(locator: Locator) | Sleep(millis: nat)

  /** How a fetch ends. Done: the call returns this list. Crashed: an
      unchecked exception escapes to the caller. Exhausted: the page bound
      of the model ran out (the Java code would still be fetching). */
  datatype Outcome<R> = Done(records: seq<R>) | Crashed | Exhausted

  datatype Run<R> = Run(outcome: Outcome<R>, trace: seq<Event>)

  /** The run of a call that returns an empty list and does nothing. */
  function Empty<R>(): Run<R>
  {
    Run(Done([]), [])
  }

  /** Running `first` and then, if it returned normally, `second`, appending
      the second list after the first one (Java's `addAll`). An escaping
      exception or an exhausted bound in `first` means `second` never runs. */
  function Then<R>(first: Run<R>, second: Run<R>): (r: Run<R>)
    ensures r.outcome.Done? <==> first.outcome.Done? && second.outcome.Done?
    ensures r.outcome.Done? ==> r.outcome.records == first.outcome.records + second.outcome.records
    ensures first.outcome.Done? ==> r.trace == first.trace + second.trace
    ensures first.outcome.Done? && !second.outcome.Done? ==> r.outcome == second.outcome
    ensures !first.outcome.Done? ==> r == first
  {
    match first.outcome
    case Done(xs) =>
      Run(match second.outcome
          case Done(ys) => Done(xs + ys)
          case other => other,
          first.trace + second.trace)
    case _ => first
  }

  lemma ThenEmptyLeft<R>(r: Run<R>)
    ensures Then(Empty(), r) == r
  {
  }

  lemma ThenEmptyRight<R>(r: Run<R>)
    ensures Then(r, Empty()) == r
  {
  }

  /** Sequencing runs is associative, so a chain of `addAll`s may be grouped
      either way. */
  lemma ThenAssoc<R>(a: Run<R>, b: Run<R>, c: Run<R>)
    ensures Then(Then(a, b), c) == Then(a, Then(b, c))
  {
  }

  /** The number of GET requests in a trace. */
  function Requests(trace: seq<Event>): nat
  {
    if trace == [] then 0 else (if trace[0].Get? then 1 else 0) + Requests(trace[1..])
  }

  /** The number of sleeps in a trace. */
  function Sleeps(trace: seq<Event>): nat
  {
    if trace == [] then 0 else (if trace[0].Sleep? then 1 else 0) + Sleeps(trace[1..])
  }

  lemma {:induction false} CountsAppend(a: seq<Event>, b: seq<Event>)
    ensures Requests(a + b) == Requests(a) + Requests(b)
    ensures Sleeps(a + b) == Sleeps(a) + Sleeps(b)
  {
    if a == [] {
      assert a + b == b;
    } else {
      assert (a + b)[1..] == a[1..] + b;
      CountsAppend(a[1..], b);
    }
  }

  /** Every sleep lasts the fixed pause and comes right after a request, so
      no trace begins with a sleep and no two sleeps are adjacent. */
  ghost predicate WellPaced(trace: seq<Event>)
  {
    forall i :: 0 <= i < |trace| && trace[i].Sleep? ==>
      trace[i].millis == PauseMillis && 0 < i && trace[i - 1].Get?
  }

  lemma WellPacedAfterRequest(l: Locator, rest: seq<Event>)
    requires WellPaced(rest)
    requires rest == [] || rest[0].Get?
    ensures WellPaced([Get(l), Sleep(PauseMillis)] + rest)
  {
    var t := [Get(l), Sleep(PauseMillis)] + rest;
    forall i | 0 <= i < |t| && t[i].Sleep?
      ensures t[i].millis == PauseMillis && 0 < i && t[i - 1].Get?
    {
      if i >= 2 {
        assert t[i] == rest[i - 2];
        assert i - 2 > 0;
        assert t[i - 1] == rest[i - 3];
      }
    }
  }
}

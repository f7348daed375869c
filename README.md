# MTGCardQuery: exact-name search and paginated fetching, modelled in Dafny

This project models the query layer of a client for the Scryfall card-database
service, the class `MTGCardQuery`. Four operations are covered:

- `toCardList` runs one exact-name search per card name and concatenates the
  results.
- `search` escapes a search expression and builds the search locator.
- `getCardsFromURI` fetches a page, keeps its `data` records in array order,
  and follows `next_page` while `has_more` is true, sleeping 50 ms before each
  continuation.
- `getSets` reads the single `/sets` page.

The transport is abstract. A `Server<R>` is a function from a locator to a
parsed `Response<R>`:

- `IOFail` stands for any `IOException`.
- `Unparsable` stands for a body on which every reader throws an unchecked
  exception while reading `data`, so no record reaches the caller.
- `BadEnvelope(data)` stands for a body whose `data` reads well but whose
  `has_more` or `next_page` member has the wrong JSON type. Only
  `getCardsFromURI` reads those members, so only it throws on such a body.
- `Page(data, hasMore, next)` is a parsed envelope.

Records are a type parameter `R`, so Card and Set records are both opaque
values. The URL encoder is a function `Escaper` that returns `None` when
encoding throws.

Each fetch produces a `Run`. It holds what the Java call yields and the trace
of `Get(locator)` and `Sleep(50)` events it caused. What the call yields is one
of three outcomes:

- `Done(records)`: the call returns that list.
- `Crashed`: an unchecked exception escapes to the caller.
- `Exhausted`: the model's page bound ran out.

Files:

- `wrappers.dfy`: `Option`.
- `transport.dfy`: responses, events, runs, and `Then`, which sequences two
  runs the way `addAll` after a call does.
- `query_builder.dfy`: the exact-name expression and the search locator.
- `paginated_fetcher.dfy`: `Fetch`, `GetCardsFromUri`, `GetSets`, and the
  page-chain lemmas.
- `card_query.dfy`: `Search`, `ToCardList`, and the lemmas about the per-name
  searches.

The Java methods `getCardsFromURI`, `getSets`, `search` and `toCardList` are
imperative. Each is modelled as a Dafny method with the same loop or
recursion. Each method's `ensures` ties its result to a specification
function: `Fetch`, `SinglePage`, `SearchRun` or `SearchAll`. The lemmas
then state the properties of those functions.

Four behaviours of the code shape the model:

- **An unparsable body is not an empty page.** `root` stays null. Java
  assertions are off by default, so `root.get("data")` at line 216 throws a
  `NullPointerException`. The handler at line 231 catches only
  `IOException`, so this exception escapes every caller, `toCardList`
  included, and takes the records of earlier pages with it. The model calls
  this outcome `Crashed`. A missing or non-array `data` member throws the
  same way in both readers (lines 87-89 and 216-218), and so is
  `Unparsable` too.
- **Pagination members of the wrong type throw only in `getCardsFromURI`.**
  A `has_more` that is null or not a boolean, or a `next_page` that is not a
  string while `has_more` is true, throws at lines 223-224. `getSets` never
  reads those members (lines 87-92) and returns the page's records. This is
  the `BadEnvelope` response.
- **An encoding failure gives a well-formed locator.** `escapedQuery` stays
  empty, so `search` requests
  `https://api.scryfall.com/cards/search?unique=prints&q=` (lines 108-112).
  What happens next is whatever the server answers for that locator.
- **`has_more` true without a `next_page` ends the fetch.** The
  continuation call gets `null`. `new URL(null)` throws a
  `MalformedURLException`, which is an `IOException`. That call therefore
  returns the empty list without connecting. The model writes this as
  `next = None`.

The trace records a `Get` for every non-null locator the code tries,
including one that `new URL` rejects at line 192 before connecting. So
`Requests` counts attempted requests.

## Model

| member | source | states |
|---|---|---|
| QueryBuilder.ExactNameQuery | src/main/java/ttelge/scryfall/api/MTGCardQuery.java:43-50 | the exact-name expression: it ends with the closing quote, starts with `+` exactly when every printing is wanted, and is 5 or 3 characters longer than the name |
| QueryBuilder.ExactNameQueryShape | src/main/java/ttelge/scryfall/api/MTGCardQuery.java:43-50 | the expression is `!"` + name + `"`, with the `++` all-printings prefix in front exactly when duplicates are listed |
| QueryBuilder.ParseExactNameQuery | src/main/java/ttelge/scryfall/api/MTGCardQuery.java:43-50 | every exact-name expression parses back to its name and flag, so distinct names or flags give distinct expressions |
| QueryBuilder.ExactNameQueryOfParse | src/main/java/ttelge/scryfall/api/MTGCardQuery.java:43-50 | conversely, any text that parses as a name and flag is that name's expression |
| QueryBuilder.IslandQueries | src/main/java/ttelge/scryfall/api/MTGCardQuery.java:43-50 | the two concrete expressions for "Island", each with or without the all-printings modifier |
| QueryBuilder.SearchUri | src/main/java/ttelge/scryfall/api/MTGCardQuery.java:108-112 | the locator `search` requests is the fixed endpoint followed by `EscapedOrEmpty`, which is the encoder's text or empty when encoding throws |
| QueryBuilder.SearchUriShape | src/main/java/ttelge/scryfall/api/MTGCardQuery.java:108-112 | the search locator is `ApiUri + SearchPath`, the literals `https://api.scryfall.com` and `/cards/search?unique=prints&q=` of lines 25 and 112. The escaped query follows it, or nothing when encoding fails |
| QueryBuilder.SearchUriInjective | src/main/java/ttelge/scryfall/api/MTGCardQuery.java:108-112 | two queries share a locator exactly when their escaped texts agree |
| CardQuery.Search | src/main/java/ttelge/scryfall/api/MTGCardQuery.java:106-115 | `search` fetches every page of the search locator, and its first request is for that locator |
| CardQuery.ToCardList | src/main/java/ttelge/scryfall/api/MTGCardQuery.java:37-54 | the loop of per-name searches yields exactly the in-order sequence of exact-name searches (`SearchAll`), stopping at the first search that throws |
| CardQuery.SearchAllAppend | src/main/java/ttelge/scryfall/api/MTGCardQuery.java:39-53 | searching `a + b` is searching `a` and then `b`: all results for `a` come before those for `b` |
| CardQuery.SearchAllConcatenates | src/main/java/ttelge/scryfall/api/MTGCardQuery.java:39-53 | when no search throws, the result is the concatenation of each name's results in input order; an empty name list gives the empty list and no request |
| CardQuery.SearchAllStops | src/main/java/ttelge/scryfall/api/MTGCardQuery.java:40-52 | the first search that throws or runs out ends the whole call, and no later name is searched |
| CardQuery.SearchAllFirstFailure | src/main/java/ttelge/scryfall/api/MTGCardQuery.java:40-52 | when the k-th search is the first that throws or runs out, the whole call ends with that same outcome: its exception escapes `toCardList` |
| CardQuery.SearchAllKeepsDuplicates | src/main/java/ttelge/scryfall/api/MTGCardQuery.java:40-52 | a name given twice has its cards listed twice: there is no deduplication |
| CardQuery.SearchAllRequests | src/main/java/ttelge/scryfall/api/MTGCardQuery.java:40-52 | the call makes exactly the per-name searches' requests added up, at least one per name |
| PaginatedFetcher.CopyRecords | src/main/java/ttelge/scryfall/api/MTGCardQuery.java:218-221 | the loop that adds each decoded record to the result keeps all of them, in array order (also lines 89-92 of `getSets`) |
| PaginatedFetcher.GetCardsFromUri | src/main/java/ttelge/scryfall/api/MTGCardQuery.java:188-236 | the method (copy loop, then recursive continuation) computes exactly `Fetch` |
| PaginatedFetcher.FetchTraceShape | src/main/java/ttelge/scryfall/api/MTGCardQuery.java:223-230 | the first event is the request for the given locator; every sleep is 50 ms and comes right after a request; there are no more sleeps than requests, and no more requests than the bound |
| PaginatedFetcher.FetchFuelMonotone | src/main/java/ttelge/scryfall/api/MTGCardQuery.java:223-230 | a fetch that finishes within a page bound gives the same result under any larger bound |
| PaginatedFetcher.FetchAlongChain | src/main/java/ttelge/scryfall/api/MTGCardQuery.java:216-230 | following a chain of continuing pages collects their records in page order, with one request and one pause per page, then continues as a fetch of the last `next_page` |
| PaginatedFetcher.FetchCompleteChain | src/main/java/ttelge/scryfall/api/MTGCardQuery.java:216-230 | an N-page chain ending at a page whose `has_more` is absent or false returns all pages' records in order, with exactly N requests and N - 1 sleeps; a single such page returns its records and makes no further request |
| PaginatedFetcher.FetchFailsWithinChain | src/main/java/ttelge/scryfall/api/MTGCardQuery.java:229-235 | an IOException on a page gives that call the empty list: earlier pages' records are kept and nothing after the failing page is requested |
| PaginatedFetcher.FetchCrashesWithinChain | src/main/java/ttelge/scryfall/api/MTGCardQuery.java:207-216 | a page that is unparsable, or whose pagination members have the wrong type, makes the whole fetch throw, even after earlier pages succeeded, and nothing after it is requested |
| PaginatedFetcher.FetchMissingNext | src/main/java/ttelge/scryfall/api/MTGCardQuery.java:224-229 | a continuing page without `next_page` ends the fetch after its pause, with the records so far and no further request |
| PaginatedFetcher.TwoPageScenario | src/main/java/ttelge/scryfall/api/MTGCardQuery.java:216-230 | two records then one give three records in order, two GETs and one 50 ms pause between them |
| PaginatedFetcher.GetSets | src/main/java/ttelge/scryfall/api/MTGCardQuery.java:59-97 | `getSets` makes exactly one request to `https://api.scryfall.com/sets`. It returns that page's records in order, whatever `has_more` and `next_page` hold. It returns the empty list on an IOException and throws on an unparsable body |
| PaginatedFetcher.SinglePageVersusFetch | src/main/java/ttelge/scryfall/api/MTGCardQuery.java:87-92 | reading `/sets` ignores the pagination members. It agrees with a paginated fetch on every response except two: on a continuing page it keeps only a prefix of the paginated result, and on a bad envelope it returns the records where the paginated fetch throws |
| Transport.Then | src/main/java/ttelge/scryfall/api/MTGCardQuery.java:229 | `addAll` after a call: the lists are concatenated when both calls return normally. An exception in the first call means the second never runs. An exception in the second call is the result's own outcome |
| Transport.ThenAssoc | src/main/java/ttelge/scryfall/api/MTGCardQuery.java:229 | chained `addAll`s may be grouped either way |

## Left out

- HTTP transport (`URL`, `URLConnection`, `getInputStream`) and the line-reading loops: these are I/O, abstracted into the `Server` function and its `IOFail` response.
- JSON parsing and the `Card` and `Set` constructors: they belong to an outside library and to classes not part of this model. Records are an opaque type parameter. A body is `Unparsable` when both readers throw on it: the root is missing or not an object, `data` is missing or not an array, or an element of `data` is not an object. It is a `BadEnvelope` when only `getCardsFromURI` throws, because of its pagination members.
- `URLEncoder.encode` internals: the `Escaper` parameter stands for it, with `None` for its exception.
- `Thread.sleep(50)` and the swallowed `InterruptedException`: no wall clock is modelled. Each sleep is recorded as a `Sleep(50)` event in the trace, and an interrupted sleep behaves the same.
- `getCardByScryfallId` and `getCardFromURI`: single-object readers that propagate their `IOException` and do not paginate. `getCardByScryfallId` is a plain fetch-and-decode of `https://api.scryfall.com/cards/` + id. `getCardFromURI` percent-encodes its whole argument before `new URL` (lines 155-159). That turns `:` and `/` into `%3A` and `%2F`, leaving no protocol, so it throws `MalformedURLException` for every input and never connects.
- Fetch: the Java recursion has no page bound and keeps going for as long as the service reports `has_more`. The model gives every call chain a `fuel` bound, with the result `Exhausted` when it runs out. `FetchFuelMonotone` shows the bound never changes a fetch that finishes within it. A `StackOverflowError` from a very deep chain is not modelled either.
- ToCardList: iterates a `seq` in place of a Java `Collection`, so the input order is the collection's iteration order. Each name's search gets the same page bound.

/**
 * The client of the reviews API: the query string of a request, the URL it
 * is sent to, how the outcome of the request becomes either a page of
 * reviews or an `ApiError`, and the cache keys of the queries.
 *
 * The request itself is not modelled: what `fetch` did is a parameter
 * (`HttpOutcome`), and parameters are an ordered list of key/value pairs
 * without percent-encoding.
 */
module Api {
  import opened Wrappers
  import opened Text
  import opened ReviewTypes

  const ApiBaseUrl: string := "/api/reviews"

  /** The parameter names `buildQueryString` may append, in the order it appends them. */
  datatype ParamKey = Q | StarsParam | SortParam | CountParam | PageParam

  /** The name of a parameter on the wire. */
  function KeyText(key: ParamKey): (s: string)
    ensures |s| > 0 && '=' !in s && '&' !in s
  {
    match key
    case Q => "q"
    case StarsParam => "stars"
    case SortParam => "sort"
    case CountParam => "count"
    case PageParam => "page"
  }

  /** One `key=value` pair of a `URLSearchParams`. */
  datatype QueryParam = QueryParam(key: ParamKey, value: string)

  /** The wire text of a sort order. */
  function SortText(sort: SortOrder): (s: string)
    ensures |s| > 0
  {
    match sort
    case Date => "date"
    case NewestFirst => "-date"
    case Country => "country"
    case Stars => "stars"
  }

  /** A string parameter is sent only when it is present and non-empty (JavaScript truthiness). */
  predicate Truthy(s: Option<string>) {
    s.Some? && s.value != ""
  }

  /** The position of each parameter in the fixed order q, stars, sort, count, page. */
  function ParamRank(key: ParamKey): int {
    match key
    case Q => 0
    case StarsParam => 1
    case SortParam => 2
    case CountParam => 3
    case PageParam => 4
  }

  /**
   * The value of the parameter named `key`, if any (the last one; in a list
   * `InFixedOrder` no key repeats).
   */
  function ValueOf(params: seq<QueryParam>, key: ParamKey): Option<string> {
    if |params| == 0 then None
    else if params[|params| - 1].key == key then Some(params[|params| - 1].value)
    else ValueOf(params[..|params| - 1], key)
  }

  /** Parameters in strictly increasing rank: the fixed order, each at most once. */
  predicate InFixedOrder(params: seq<QueryParam>) {
    forall i, j :: 0 <= i < j < |params| ==> ParamRank(params[i].key) < ParamRank(params[j].key)
  }

  /** Every parameter ranks below `rank`. */
  predicate RanksBelow(params: seq<QueryParam>, rank: int) {
    forall i :: 0 <= i < |params| ==> ParamRank(params[i].key) < rank
  }

  /**
   * `if (condition) params.append(key, value)`, after parameters of lower
   * rank: when it appends, the new value is found under its key; every other
   * key keeps its value; the order stays fixed.
   */
  method AppendWhen(params: seq<QueryParam>, condition: bool, p: QueryParam) returns (r: seq<QueryParam>)
    requires InFixedOrder(params) && RanksBelow(params, ParamRank(p.key))
    ensures InFixedOrder(r) && RanksBelow(r, ParamRank(p.key) + 1)
    ensures ValueOf(r, p.key) == if condition then Some(p.value) else ValueOf(params, p.key)
    ensures forall key | key != p.key :: ValueOf(r, key) == ValueOf(params, key)
  {
    r := params;
    if condition {
      r := params + [p];
      assert r[..|params|] == params;
    }
  }

  /** No parameter has been appended yet. */
  lemma NoValues(params: seq<QueryParam>)
    requires params == []
    ensures forall key :: ValueOf(params, key).None?
  {
  }

  /**
   * The parameters `buildQueryString` appends, one `if` at a time: `q` and
   * `stars` when truthy, `sort` when present, `count` and `page` whenever
   * defined (0 included), in that order.
   */
  method BuildQueryParams(filters: ReviewFilters) returns (params: seq<QueryParam>)
    ensures InFixedOrder(params)
    ensures ValueOf(params, Q) == if Truthy(filters.q) then Some(filters.q.value) else None
    ensures ValueOf(params, StarsParam) == if Truthy(filters.stars) then Some(filters.stars.value) else None
    ensures ValueOf(params, SortParam) == if filters.sort.Some? then Some(SortText(filters.sort.value)) else None
    ensures ValueOf(params, CountParam) == if filters.count.Some? then Some(IntToString(filters.count.value)) else None
    ensures ValueOf(params, PageParam) == if filters.page.Some? then Some(IntToString(filters.page.value)) else None
  {
    params := [];
    NoValues(params);
    params := AppendWhen(params, Truthy(filters.q), QueryParam(Q, filters.q.GetOr("")));
    params := AppendWhen(params, Truthy(filters.stars), QueryParam(StarsParam, filters.stars.GetOr("")));
    params := AppendWhen(params, filters.sort.Some?, QueryParam(SortParam, SortText(filters.sort.GetOr(Date))));
    params := AppendWhen(params, filters.count.Some?, QueryParam(CountParam, IntToString(filters.count.GetOr(0))));
    params := AppendWhen(params, filters.page.Some?, QueryParam(PageParam, IntToString(filters.page.GetOr(0))));
  }

  /** The parameters carry exactly the values `buildQueryString` puts in for `filters`, in the fixed order. */
  predicate Encodes(params: seq<QueryParam>, filters: ReviewFilters) {
    && InFixedOrder(params)
    && ValueOf(params, Q) == (if Truthy(filters.q) then Some(filters.q.value) else None)
    && ValueOf(params, StarsParam) == (if Truthy(filters.stars) then Some(filters.stars.value) else None)
    && ValueOf(params, SortParam) == (if filters.sort.Some? then Some(SortText(filters.sort.value)) else None)
    && ValueOf(params, CountParam) == (if filters.count.Some? then Some(IntToString(filters.count.value)) else None)
    && ValueOf(params, PageParam) == (if filters.page.Some? then Some(IntToString(filters.page.value)) else None)
  }

  /** `params.toString()`: `key=value` pairs joined by `&`. */
  function QueryString(params: seq<QueryParam>): (s: string)
    ensures s == "" <==> |params| == 0
  {
    if |params| == 0 then ""
    else if |params| == 1 then KeyText(params[0].key) + "=" + params[0].value
    else KeyText(params[0].key) + "=" + params[0].value + "&" + QueryString(params[1..])
  }

  /** The request URL: the bare base path when there are no parameters, otherwise base, `?`, and the query. */
  function RequestUrl(query: string): (url: string)
    ensures query == "" ==> url == ApiBaseUrl
    ensures query != "" ==> |url| == |ApiBaseUrl| + 1 + |query|
    ensures query != "" ==> url[..|ApiBaseUrl|] == ApiBaseUrl && url[|ApiBaseUrl|] == '?' && url[|ApiBaseUrl| + 1..] == query
  {
    if query != "" then ApiBaseUrl + "?" + query else ApiBaseUrl
  }
  /** One `key=value` pair. */
  function Pair(p: QueryParam): string {
    KeyText(p.key) + "=" + p.value
  }

  function Pairs(params: seq<QueryParam>): (pairs: seq<string>)
    ensures |pairs| == |params|
    ensures forall i :: 0 <= i < |params| ==> pairs[i] == Pair(params[i])
  {
    seq(|params|, i requires 0 <= i < |params| => Pair(params[i]))
  }

  /** The query string is the pairs joined by `&`. */
  lemma {:induction false} QueryStringIsJoin(params: seq<QueryParam>)
    ensures QueryString(params) == Join(Pairs(params), "&")
  {
    if |params| > 1 {
      QueryStringIsJoin(params[1..]);
      assert Pairs(params)[1..] == Pairs(params[1..]);
    }
  }

  /** Splitting the query string at `&` gives back each `key=value` pair, when no value contains `&`. */
  lemma QueryStringSplits(params: seq<QueryParam>)
    requires |params| > 0
    requires forall i :: 0 <= i < |params| ==> '&' !in params[i].value
    ensures Split(QueryString(params), '&') == Pairs(params)
  {
    QueryStringIsJoin(params);
    var pairs := Pairs(params);
    forall i | 0 <= i < |pairs| ensures '&' !in pairs[i] {
      assert pairs[i] == KeyText(params[i].key) + "=" + params[i].value;
    }
    SplitJoinRoundTrip(pairs, '&');
  }


  // Classifying the outcome of the request.

  /** `ApiError`: a message, and the HTTP status when the server answered with an error. */
  datatype ApiError = ApiError(message: string, status: Option<int>)

  /** What `response.json()` gave: a parse failure (its message), or a JSON object and whether its `reviews` is an array. */
  datatype Body = Unparseable(parseError: string) | Json(reviewsIsArray: bool, data: ReviewsResponse)

  /**
   * What `fetch` did: it threw (with the thrown error's message, or nothing
   * when what it threw was not an `Error`), or it answered.
   */
  datatype HttpOutcome =
    | NetworkFailure(errorMessage: Option<string>)
    | Answered(ok: bool, status: int, statusText: string, body: Body)

  /** What the `try` block threw: an `ApiError` of its own, or anything else (with its message if it was an `Error`). */
  datatype Thrown = ThrownApiError(error: ApiError) | ThrownOther(errorMessage: Option<string>)

  /** The `try` block: the status check, then the shape check of the body. */
  function TryFetch(outcome: HttpOutcome): Result<ReviewsResponse, Thrown> {
    match outcome
    case NetworkFailure(m) => Failure(ThrownOther(m))
    case Answered(ok, status, statusText, body) =>
      if !ok then
        Failure(ThrownApiError(ApiError("Failed to fetch reviews: " + IntToString(status) + " " + statusText, Some(status))))
      else
        match body
        case Unparseable(m) => Failure(ThrownOther(Some(m)))
        case Json(isArray, data) =>
          if !isArray then Failure(ThrownApiError(ApiError("Invalid response format: reviews must be an array", None)))
          else Success(data)
  }

  /** The `catch` block: an `ApiError` is rethrown as it is; anything else becomes a network error. */
  function Catch(r: Result<ReviewsResponse, Thrown>): (out: Result<ReviewsResponse, ApiError>)
    ensures r.Success? ==> out == Success(r.value)
    ensures r.Failure? && r.error.ThrownApiError? ==> out == Failure(r.error.error)
    ensures r.Failure? && r.error.ThrownOther? ==> out.Failure? && out.error.status.None?
  {
    match r
    case Success(data) => Success(data)
    case Failure(ThrownApiError(e)) => Failure(e)
    case Failure(ThrownOther(m)) => Failure(ApiError("Network error: " + m.GetOr("Unknown error"), None))
  }

  /** `fetchReviews`: the URL it requests and what it resolves or rejects with, given what `fetch` did. */
  method FetchReviews(filters: ReviewFilters, outcome: HttpOutcome) returns (url: string, result: Result<ReviewsResponse, ApiError>)
    ensures exists params :: Encodes(params, filters) && url == RequestUrl(QueryString(params))
    ensures result == Catch(TryFetch(outcome))
  {
    var params := BuildQueryParams(filters);
    url := RequestUrl(QueryString(params));
    assert Encodes(params, filters);
    result := Catch(TryFetch(outcome));
  }

  /** Only an answer that is ok and whose body has a `reviews` array resolves, and then with that body. */
  lemma FetchSucceedsExactly(outcome: HttpOutcome)
    ensures Catch(TryFetch(outcome)).Success?
        <==> outcome.Answered? && outcome.ok && outcome.body.Json? && outcome.body.reviewsIsArray
    ensures Catch(TryFetch(outcome)).Success? ==> Catch(TryFetch(outcome)).value == outcome.body.data
  {
  }

  /** A non-ok answer rejects with an error that carries its status. */
  lemma HttpErrorCarriesStatus(outcome: HttpOutcome)
    requires outcome.Answered? && !outcome.ok
    ensures Catch(TryFetch(outcome))
         == Failure(ApiError("Failed to fetch reviews: " + IntToString(outcome.status) + " " + outcome.statusText, Some(outcome.status)))
  {
  }

  /** An ok answer whose `reviews` is not an array rejects with the format error, without a status. */
  lemma MalformedBodyIsFormatError(outcome: HttpOutcome)
    requires outcome.Answered? && outcome.ok && outcome.body.Json? && !outcome.body.reviewsIsArray
    ensures Catch(TryFetch(outcome)) == Failure(ApiError("Invalid response format: reviews must be an array", None))
  {
  }

  /** A thrown network error or an unreadable body becomes a network error with that message. */
  lemma OtherFailuresAreNetworkErrors(outcome: HttpOutcome)
    requires outcome.NetworkFailure? || (outcome.Answered? && outcome.ok && outcome.body.Unparseable?)
    ensures Catch(TryFetch(outcome)).Failure?
    ensures Catch(TryFetch(outcome)).error.status.None?
    ensures outcome.NetworkFailure? ==>
      Catch(TryFetch(outcome)).error.message == "Network error: " + outcome.errorMessage.GetOr("Unknown error")
    ensures outcome.Answered? ==>
      Catch(TryFetch(outcome)).error.message == "Network error: " + outcome.body.parseError
  {
  }

  // The cache keys of the queries.

  /** One element of a query key: a word, the filters object, or a page number. */
  datatype KeyPart = Word(word: string) | FiltersPart(filters: ReviewFilters) | PagePart(page: int)

  function AllKey(): seq<KeyPart> {
    [Word("reviews")]
  }

  function FilteredKey(filters: ReviewFilters): seq<KeyPart> {
    [Word("reviews"), Word("filtered"), FiltersPart(filters)]
  }

  function PaginatedKey(filters: ReviewFilters, page: int): seq<KeyPart> {
    [Word("reviews"), Word("paginated"), FiltersPart(filters), PagePart(page)]
  }

  /**
   * Distinct (filters, page) pairs get distinct keys, and every key of this
   * family starts with the family's root key.
   */
  lemma QueryKeysDistinct(f1: ReviewFilters, p1: int, f2: ReviewFilters, p2: int)
    ensures PaginatedKey(f1, p1) == PaginatedKey(f2, p2) <==> f1 == f2 && p1 == p2
    ensures FilteredKey(f1) == FilteredKey(f2) <==> f1 == f2
    ensures PaginatedKey(f1, p1) != FilteredKey(f2)
    ensures PaginatedKey(f1, p1)[..1] == AllKey() && FilteredKey(f1)[..1] == AllKey()
  {
    if PaginatedKey(f1, p1) == PaginatedKey(f2, p2) {
      assert PaginatedKey(f1, p1)[2] == PaginatedKey(f2, p2)[2];
      assert PaginatedKey(f1, p1)[3] == PaginatedKey(f2, p2)[3];
    }
    if FilteredKey(f1) == FilteredKey(f2) {
      assert FilteredKey(f1)[2] == FilteredKey(f2)[2];
    }
  }

  /** A concrete request: a keyword and a page. */
  lemma QueryStringExample()
    ensures QueryString([QueryParam(Q, "slow"), QueryParam(PageParam, "2")]) == "q=slow&page=2"
    ensures RequestUrl("") == "/api/reviews"
    ensures RequestUrl("page=2") == "/api/reviews?page=2"
  {
  }
}

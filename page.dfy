/**
 * The home page's state: the active filters, the reviews loaded so far
 * across pages, the current page, and the index of the first review of the
 * most recent "load more". Events are a filter change, a load-more click and
 * the arrival of a page of results.
 *
 * Which page of results arrives is decided by the query library, keyed by
 * (filters, page); the model takes as given that a response handed to
 * `OnReviewsResponse` is the one for the current filters and page. There is
 * no further staleness check, as in the page itself.
 */
module HomePage {
  import opened Wrappers
  import opened ReviewTypes
  import opened FilterText
  import DateGroups
  import Api
  import ReviewsList
  import FilterForm

  const ReviewsPerPage: int := 25

  /** The ids of a list of reviews. */
  function Ids(reviews: seq<Review>): set<string> {
    set i | 0 <= i < |reviews| :: reviews[i].id
  }

  predicate UniqueIds(reviews: seq<Review>) {
    forall i, j :: 0 <= i < j < |reviews| ==> reviews[i].id != reviews[j].id
  }

  /** `incoming.filter(r => !existingIds.has(r.id))`: the reviews whose id is new, in response order. */
  function FreshReviews(existing: set<string>, incoming: seq<Review>): (newOnes: seq<Review>)
    ensures |newOnes| <= |incoming|
    ensures forall i :: 0 <= i < |newOnes| ==> newOnes[i] in incoming && newOnes[i].id !in existing
    ensures forall i :: 0 <= i < |incoming| && incoming[i].id !in existing ==> incoming[i] in newOnes
  {
    if |incoming| == 0 then []
    else
      var rest := FreshReviews(existing, incoming[1..]);
      if incoming[0].id !in existing then [incoming[0]] + rest else rest
  }

  /**
   * The filter works review by review, in response order: a single review is
   * kept exactly when its id is new, and the kept reviews of two stretches of
   * a response are those of the first followed by those of the second.
   */
  lemma {:induction false} FreshReviewsInOrder(existing: set<string>, a: seq<Review>, b: seq<Review>)
    ensures FreshReviews(existing, a + b) == FreshReviews(existing, a) + FreshReviews(existing, b)
    ensures |a| == 1 ==> FreshReviews(existing, a) == if a[0].id !in existing then a else []
  {
    if |a| > 0 {
      assert (a + b)[1..] == a[1..] + b;
      FreshReviewsInOrder(existing, a[1..], b);
      if |a| == 1 {
        assert a[1..] == [];
      }
    } else {
      assert a + b == b;
    }
  }

  /** When every incoming id is new nothing is dropped, and when none is nothing is kept. */
  lemma {:induction false} FreshReviewsExtremes(existing: set<string>, incoming: seq<Review>)
    ensures (forall i :: 0 <= i < |incoming| ==> incoming[i].id !in existing) ==> FreshReviews(existing, incoming) == incoming
    ensures (forall i :: 0 <= i < |incoming| ==> incoming[i].id in existing) ==> FreshReviews(existing, incoming) == []
  {
    if |incoming| > 0 {
      FreshReviewsExtremes(existing, incoming[1..]);
      assert [incoming[0]] + incoming[1..] == incoming;
    }
  }

  /** Filtering a page with unique ids gives unique ids. */
  lemma {:induction false} FreshReviewsUnique(existing: set<string>, incoming: seq<Review>)
    requires UniqueIds(incoming)
    ensures UniqueIds(FreshReviews(existing, incoming))
  {
    if |incoming| > 0 {
      FreshReviewsUnique(existing, incoming[1..]);
      var rest := FreshReviews(existing, incoming[1..]);
      forall k | 0 <= k < |rest| ensures rest[k].id != incoming[0].id {
        var m :| 0 <= m < |incoming[1..]| && incoming[1..][m] == rest[k];
        assert incoming[m + 1] == rest[k];
      }
    }
  }

  /** Appending the new reviews of a page keeps ids unique. */
  lemma AppendKeepsIdsUnique(prev: seq<Review>, incoming: seq<Review>)
    requires UniqueIds(prev) && UniqueIds(incoming)
    ensures UniqueIds(prev + FreshReviews(Ids(prev), incoming))
  {
    var newOnes := FreshReviews(Ids(prev), incoming);
    FreshReviewsUnique(Ids(prev), incoming);
    var all := prev + newOnes;
    forall i, j | 0 <= i < j < |all| ensures all[i].id != all[j].id {
      if j >= |prev| {
        assert all[j] == newOnes[j - |prev|];
        if i < |prev| {
          assert all[i].id in Ids(prev);
        }
      }
    }
  }

  class ReviewsPage {
    var filters: Filters
    var allLoadedReviews: seq<Review>
    var currentPage: int
    var newReviewsStartIndex: int

    /** Pages count from 1, and the start index is 0 or points into the list. */
    predicate Valid()
      reads this
    {
      currentPage >= 1 && 0 <= newReviewsStartIndex && (newReviewsStartIndex == 0 || newReviewsStartIndex < |allLoadedReviews|)
    }

    constructor()
      ensures Valid()
      ensures filters == Filters(None, None) && allLoadedReviews == [] && currentPage == 1 && newReviewsStartIndex == 0
    {
      filters := Filters(None, None);
      allLoadedReviews := [];
      currentPage := 1;
      newReviewsStartIndex := 0;
    }

    /** `handleFiltersChange`: take the new filters and go back to page 1; the loaded reviews stay until page 1 arrives. */
    method HandleFiltersChange(newFilters: Filters)
      requires Valid()
      modifies this
      ensures Valid()
      ensures filters == newFilters && currentPage == 1
      ensures allLoadedReviews == old(allLoadedReviews) && newReviewsStartIndex == old(newReviewsStartIndex)
    {
      filters := newFilters;
      currentPage := 1;
    }

    /** `handleLoadMore`: ask for the next page. */
    method HandleLoadMore()
      requires Valid()
      modifies this
      ensures Valid()
      ensures currentPage == old(currentPage) + 1
      ensures filters == old(filters) && allLoadedReviews == old(allLoadedReviews)
      ensures newReviewsStartIndex == old(newReviewsStartIndex)
    {
      currentPage := currentPage + 1;
    }

    /**
     * The effect that runs when a response arrives: nothing without one; on
     * page 1 the list becomes the page verbatim and the start index 0; on a
     * later page the reviews with new ids are appended and the start index
     * moves to where they begin, unless there are none.
     */
    method OnReviewsResponse(response: Option<ReviewsResponse>)
      requires Valid()
      modifies this
      ensures Valid()
      ensures filters == old(filters) && currentPage == old(currentPage)
      ensures response.None? ==> allLoadedReviews == old(allLoadedReviews) && newReviewsStartIndex == old(newReviewsStartIndex)
      ensures response.Some? && currentPage == 1 ==>
        allLoadedReviews == response.value.reviews && newReviewsStartIndex == 0
      ensures response.Some? && currentPage > 1 ==>
        var newOnes := FreshReviews(Ids(old(allLoadedReviews)), response.value.reviews);
        if |newOnes| > 0 then
          allLoadedReviews == old(allLoadedReviews) + newOnes && newReviewsStartIndex == |old(allLoadedReviews)|
        else
          allLoadedReviews == old(allLoadedReviews) && newReviewsStartIndex == old(newReviewsStartIndex)
    {
      if response.None? {
        return;
      }
      if currentPage == 1 {
        allLoadedReviews := response.value.reviews;
        newReviewsStartIndex := 0;
      } else {
        var prev := allLoadedReviews;
        var newReviews := FreshReviews(Ids(prev), response.value.reviews);
        if |newReviews| > 0 {
          newReviewsStartIndex := |prev|;
          allLoadedReviews := prev + newReviews;
        }
      }
    }

    /** `queryFilters`: the keyword, the ratings as a comma list when any, newest first, 25 per page, the current page. */
    function QueryFilters(): (f: ReviewFilters)
      reads this
      ensures f.sort == Some(NewestFirst) && f.count == Some(ReviewsPerPage) && f.page == Some(currentPage)
      ensures f.q == filters.keyword
      ensures f.stars.Some? <==> HasRatings(filters)
      ensures HasRatings(filters) ==> f.stars == Some(FormatRatingFilter(filters.ratings.value)) && f.stars.value != ""
    {
      ReviewFilters(
        filters.keyword,
        if HasRatings(filters) then Some(FormatRatingFilter(filters.ratings.value)) else None,
        Some(NewestFirst),
        Some(ReviewsPerPage),
        Some(currentPage))
    }

    /** The cache key of the current query. */
    function QueryKey(): seq<Api.KeyPart>
      reads this
    {
      Api.PaginatedKey(QueryFilters(), currentPage)
    }

    /**
     * `hasDataInconsistency`: on page 1, a response whose first review is not
     * the first loaded one (or that is empty while reviews are loaded) has not
     * been committed yet.
     */
    predicate HasDataInconsistency(response: Option<ReviewsResponse>)
      reads this
    {
      && currentPage == 1
      && response.Some?
      && |allLoadedReviews| > 0
      && (|response.value.reviews| == 0 || response.value.reviews[0].id != allLoadedReviews[0].id)
    }

    /** `isLoadingMore`: a fetch is under way for a page after the first. */
    predicate IsLoadingMore(isFetching: bool)
      reads this
    {
      isFetching && currentPage > 1
    }

    /** `hasMore`: loading more, or fewer reviews loaded than the response's total. */
    predicate HasMore(response: Option<ReviewsResponse>, isFetching: bool)
      reads this
    {
      IsLoadingMore(isFetching) || (response.Some? && |allLoadedReviews| < response.value.total)
    }

    /** The `isLoading` the list receives: a load or fetch of page 1. */
    predicate ListIsLoading(isLoading: bool, isFetching: bool)
      reads this
    {
      (isLoading || isFetching) && currentPage == 1
    }

    /** The properties the page hands to the reviews list, for the groups of the loaded reviews. */
    function ListPropsFor(groups: seq<GroupedReviews>, response: Option<ReviewsResponse>, isLoading: bool,
                          isFetching: bool, error: Option<Api.ApiError>): ReviewsList.ListProps
      reads this
    {
      ReviewsList.ListProps(
        groups,
        HasMore(response, isFetching),
        IsLoadingMore(isFetching),
        ListIsLoading(isLoading, isFetching),
        isFetching,
        HasDataInconsistency(response),
        ErrorMessage(error),
        newReviewsStartIndex)
    }

    /**
     * The properties the page hands to the list, with the loaded reviews
     * grouped by date at the moment `now` (`groupReviewsByDate(allLoadedReviews)`).
     */
    method GroupedListProps(now: int, response: Option<ReviewsResponse>, isLoading: bool, isFetching: bool,
                            error: Option<Api.ApiError>) returns (props: ReviewsList.ListProps)
      ensures props == ListPropsFor(props.groupedReviews, response, isLoading, isFetching, error)
      ensures forall i :: 0 <= i < |props.groupedReviews| ==>
        DateGroups.IsGroupOf(props.groupedReviews[i], allLoadedReviews, DateGroups.Bucketer(now))
      ensures DateGroups.DistinctKeys(props.groupedReviews) && DateGroups.SortedGroups(props.groupedReviews)
      ensures multiset(DateGroups.Flatten(props.groupedReviews)) == multiset(allLoadedReviews)
    {
      var groups := DateGroups.GroupReviewsByDate(allLoadedReviews, now);
      props := ListPropsFor(groups, response, isLoading, isFetching, error);
    }

    /**
     * `appliedFilters` for the filter form: with a response, the query's
     * keyword and the ratings read back from the query's `stars`.
     */
    function AppliedFilters(response: Option<ReviewsResponse>): (applied: Option<Filters>)
      reads this
      ensures applied.Some? <==> response.Some?
      ensures applied.Some? ==> applied.value.keyword == filters.keyword
      ensures applied.Some? ==> (applied.value.ratings.Some? <==> HasRatings(filters))
    {
      if response.None? then None
      else
        var stars := QueryFilters().stars;
        Some(Filters(filters.keyword, if stars.Some? && stars.value != "" then Some(ParseRatingFilter(stars.value)) else None))
    }
  }

  /** The message shown for a failed query: the error's own message (every rejection is an `ApiError`). */
  function ErrorMessage(error: Option<Api.ApiError>): (m: Option<string>)
    ensures m.Some? <==> error.Some?
    ensures error.Some? ==> m.value == error.value.message
  {
    if error.Some? then Some(error.value.message) else None
  }

  /** The ratings the form applied come back unchanged through the query's `stars` parameter. */
  lemma AppliedRatingsRoundTrip(page: ReviewsPage, response: ReviewsResponse)
    requires HasRatings(page.filters) && AllRatingsInRange(page.filters.ratings.value)
    ensures page.AppliedFilters(Some(response)) == Some(page.filters)
  {
    RatingFilterRoundTrip(page.filters.ratings.value);
  }

  /** Two page states with different filters or pages ask with different cache keys. */
  lemma QueryKeysSeparateStates(a: ReviewsPage, b: ReviewsPage)
    requires a.currentPage != b.currentPage || a.QueryFilters() != b.QueryFilters()
    ensures a.QueryKey() != b.QueryKey()
  {
    Api.QueryKeysDistinct(a.QueryFilters(), a.currentPage, b.QueryFilters(), b.currentPage);
  }

  /** After page 1 has been committed, the list and the response agree: no inconsistency is left. */
  method CommitFirstPage(page: ReviewsPage, response: ReviewsResponse)
    requires page.Valid() && page.currentPage == 1
    modifies page
    ensures page.Valid()
    ensures !page.HasDataInconsistency(Some(response))
    ensures page.allLoadedReviews == response.reviews
  {
    page.OnReviewsResponse(Some(response));
  }

  /** A later page keeps the loaded reviews as a prefix and keeps ids unique. */
  method AppendLaterPage(page: ReviewsPage, response: ReviewsResponse)
    requires page.Valid() && page.currentPage > 1
    requires UniqueIds(page.allLoadedReviews) && UniqueIds(response.reviews)
    modifies page
    ensures page.Valid()
    ensures |page.allLoadedReviews| >= |old(page.allLoadedReviews)|
    ensures page.allLoadedReviews[..|old(page.allLoadedReviews)|] == old(page.allLoadedReviews)
    ensures UniqueIds(page.allLoadedReviews)
  {
    AppendKeepsIdsUnique(page.allLoadedReviews, response.reviews);
    page.OnReviewsResponse(Some(response));
  }

  /**
   * Without an error, a page-1 response that has not been committed yet keeps
   * the list on its loading panel, as does any load or fetch of page 1.
   */
  lemma PendingFirstPageShowsLoading(page: ReviewsPage, groups: seq<GroupedReviews>, response: Option<ReviewsResponse>,
                                     isLoading: bool, isFetching: bool)
    requires page.HasDataInconsistency(response) || ((isLoading || isFetching) && page.currentPage == 1)
    ensures ReviewsList.SelectPanel(page.ListPropsFor(groups, response, isLoading, isFetching, None)) == ReviewsList.LoadingKind
  {
  }

  /** Every way a fetch can fail yields a non-empty message, so the list shows its error panel. */
  lemma FailedFetchShowsError(page: ReviewsPage, groups: seq<GroupedReviews>, response: Option<ReviewsResponse>,
                              isLoading: bool, isFetching: bool, outcome: Api.HttpOutcome)
    requires Api.Catch(Api.TryFetch(outcome)).Failure?
    ensures ReviewsList.SelectPanel(
              page.ListPropsFor(groups, response, isLoading, isFetching, Some(Api.Catch(Api.TryFetch(outcome)).error)))
         == ReviewsList.ErrorKind
  {
    var message := Api.Catch(Api.TryFetch(outcome)).error.message;
    assert |message| > 0 by {
      if outcome.NetworkFailure? || (outcome.ok && outcome.body.Unparseable?) {
        assert message[..15] == "Network error: ";
      } else if !outcome.ok {
        assert message[..25] == "Failed to fetch reviews: ";
      }
    }
  }

  /** The load-more button of the list is there exactly when the page has more, and disabled while a later page loads. */
  lemma LoadMoreFollowsPage(page: ReviewsPage, groups: seq<GroupedReviews>, response: Option<ReviewsResponse>,
                            isLoading: bool, isFetching: bool, error: Option<Api.ApiError>)
    ensures var b := ReviewsList.LoadMore(page.HasMore(response, isFetching), page.IsLoadingMore(isFetching));
      && (b.Some? <==> (isFetching && page.currentPage > 1) || (response.Some? && |page.allLoadedReviews| < response.value.total))
      && (b.Some? ==> (b.value.disabled <==> isFetching && page.currentPage > 1))
  {
  }

  /**
   * Ratings chosen in the form travel to the query's `stars` parameter and
   * come back, unchanged, as the applied ratings the form's summary is built from.
   */
  lemma FormRatingsSurviveQuery(page: ReviewsPage, response: ReviewsResponse, debouncedKeyword: string, values: seq<string>)
    requires page.filters == FilterForm.EmittedFilters(debouncedKeyword, FilterForm.NormalizeRatings(values))
    ensures page.AppliedFilters(Some(response)) == Some(page.filters)
  {
    if |FilterForm.NormalizeRatings(values)| > 0 {
      AppliedRatingsRoundTrip(page, response);
    }
  }

  /**
   * The grouped list holds as many reviews as the page has loaded, and at
   * least one per group, so an empty list has no groups.
   */
  lemma NoGroupsWithoutReviews(page: ReviewsPage, props: ReviewsList.ListProps, now: int)
    requires forall i :: 0 <= i < |props.groupedReviews| ==>
      DateGroups.IsGroupOf(props.groupedReviews[i], page.allLoadedReviews, DateGroups.Bucketer(now))
    requires multiset(DateGroups.Flatten(props.groupedReviews)) == multiset(page.allLoadedReviews)
    ensures |DateGroups.Flatten(props.groupedReviews)| == |page.allLoadedReviews|
    ensures |props.groupedReviews| <= |page.allLoadedReviews|
  {
    assert |multiset(DateGroups.Flatten(props.groupedReviews))| == |multiset(page.allLoadedReviews)|;
    DateGroups.FlattenAtLeastGroups(props.groupedReviews);
  }

  /**
   * An empty first page, once committed and no longer fetching, has no groups
   * and shows "No Reviews Found" rather than the loading panel or a blank list.
   */
  method EmptyResultShowsNoReviews(page: ReviewsPage, response: ReviewsResponse, now: int) returns (props: ReviewsList.ListProps)
    requires page.currentPage == 1 && page.allLoadedReviews == response.reviews && response.reviews == []
    ensures props == page.ListPropsFor(props.groupedReviews, Some(response), false, false, None)
    ensures props.groupedReviews == []
    ensures ReviewsList.SelectPanel(props) == ReviewsList.NoReviewsKind
  {
    props := page.GroupedListProps(now, Some(response), false, false, None);
    NoGroupsWithoutReviews(page, props, now);
  }

  /**
   * Whenever the page shows its groups, exactly one card is marked as the
   * first new review: the start index always points into the loaded list,
   * and the grouping keeps every loaded review.
   */
  method RenderPage(page: ReviewsPage, now: int, response: Option<ReviewsResponse>, isLoading: bool, isFetching: bool,
                    error: Option<Api.ApiError>) returns (panel: ReviewsList.Panel)
    requires page.Valid()
    ensures panel.GroupsPanel? ==> |page.allLoadedReviews| > 0
    ensures panel.GroupsPanel? ==> ReviewsList.MarkedCount(ReviewsList.AllCards(panel.groups)) == 1
  {
    var props := page.GroupedListProps(now, response, isLoading, isFetching, error);
    panel := ReviewsList.Render(props);
    if panel.GroupsPanel? {
      NoGroupsWithoutReviews(page, props, now);
      var flat := DateGroups.Flatten(props.groupedReviews);
      ReviewsList.ExactlyOneMarked(ReviewsList.AllCards(panel.groups), flat, props.newReviewsStartIndex);
    }
  }
}

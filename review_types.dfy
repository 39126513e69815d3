/** The records the front end exchanges with the reviews API and passes between its components. */
module ReviewTypes {
  import opened Wrappers

  /**
   * One review. `date` is the review's instant in milliseconds, the value that
   * `parseISO` reads from the API's ISO date string.
   */
  datatype Review = Review(
    id: string,
    author: Option<string>,
    review: string,
    date: int,
    stars: string,
    title: string,
    version: Option<string>,
    iso: Option<string>,
    product: Option<int>)

  /** One page of results as the API returns it. */
  datatype ReviewsResponse = ReviewsResponse(
    reviews: seq<Review>,
    total: int,
    pages: int,
    thisPage: int)

  /** The sort orders the API accepts: `date`, `-date` (newest first), `country`, `stars`. */
  datatype SortOrder = Date | NewestFirst | Country | Stars

  /** The query parameters of a reviews request; every one of them may be absent. */
  datatype ReviewFilters = ReviewFilters(
    q: Option<string>,
    stars: Option<string>,
    sort: Option<SortOrder>,
    count: Option<int>,
    page: Option<int>)

  /** The filter state the form emits: a keyword and the selected star ratings, each optional. */
  datatype Filters = Filters(keyword: Option<string>, ratings: Option<seq<int>>)

  /** A date group: its key (`today`, …, or a month such as `Oct 2024`), its heading and its reviews. */
  datatype GroupedReviews = GroupedReviews(group: string, labelText: string, reviews: seq<Review>)
}

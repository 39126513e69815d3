# App Review Explorer: the review pipeline of the front end

This project models, in Dafny, the client side of App Review Explorer. That is the path a page of app
reviews takes from the reviews API to the screen:

- the filter form emits a keyword and a selection of star ratings;
- the home page turns them into query parameters and asks `/api/reviews` for one page at a time;
- the API client classifies every way the request can end: a page of reviews, an HTTP error, a malformed body or a network failure;
- the page appends later pages without duplicate ids and replaces the list on page 1;
- the reviews are grouped into date buckets (today, yesterday, this week, last week, this month, last month, then one bucket per month), and the groups are ordered;
- the list chooses a panel (error, loading, nothing, "No Reviews Found" or the groups) and marks the first review of the latest page as the first new one;
- the filter form keeps a summary line of the filters that were applied;
- a star-rating widget draws five keyed stars.

One module per source file:

| module | file | models |
|---|---|---|
| `Wrappers` | `wrappers.dfy` | `Option` and `Result` |
| `Text` | `text.dfy` | decimal text of integers, `Number()` on decimal tokens, `join`, `split` |
| `Calendar` | `calendar.dfy` | day, week (Monday first) and month arithmetic, standing in for date-fns |
| `ReviewTypes` | `review_types.dfy` | `apps/frontend/src/types/review.ts` |
| `DateGroups` | `date_groups.dfy` | `getDateGroup`, `isLastWeek`, `isLastMonth`, `groupReviewsByDate` of `apps/frontend/src/lib/utils.ts` |
| `FilterText` | `filter_text.dfy` | `formatRatingFilter`, `parseRatingFilter`, `getFilterSummary` of `apps/frontend/src/lib/utils.ts` |
| `Api` | `api.dfy` | `apps/frontend/src/lib/api.ts` |
| `HomePage` | `page.dfy` | `apps/frontend/src/app/page.tsx`, as the class `ReviewsPage` |
| `ReviewsList` | `reviews_list.dfy` | `apps/frontend/src/components/ReviewsList.tsx` |
| `FilterForm` | `filter_form.dfy` | `apps/frontend/src/components/ReviewFilters.tsx`, as the class `ReviewFiltersForm` |
| `StarRating` | `star_rating.dfy` | `packages/ui/src/components/StarRating.tsx` |

The clock is a parameter.

- An instant is an integer count of milliseconds of local time; its day is `t / 86400000`.
- Day 0 (1970-01-01) is a Thursday.
- Months come from the civil-from-days count of the proleptic Gregorian calendar. It is proved inverse to the days-from-civil count that the month intervals are built from.
- `getDateGroup` at the moment `now` is `GetDateGroup(t, now)`.
- The grouping itself is proved for any classifier of dates whose headings follow its keys. The date buckets are one such classifier (`Bucketer(now)`).

What `fetch` did is also a parameter (`HttpOutcome`): it threw, or it answered with a status and a body.
The query library is not modelled. The model takes as given that the response it hands to the page
belongs to the page's current filters and page number.

Two facts about the page's response handling:

- The page applies every response it is given and does not compare it with the current filters or page.
- On page 1 the list becomes the response as is, duplicates included. Only later pages are filtered by id.

## Model

| member | source | states |
|---|---|---|
| `Text.IntToStringRoundTrip` | apps/frontend/src/lib/utils.ts:133 | `Number(String(i)) == i` for every integer: the decimal text of an integer reads back as that integer |
| `Text.SplitJoinRoundTrip` | apps/frontend/src/lib/utils.ts:133-142 | splitting on a separator undoes joining with it, when no piece contains the separator |
| `Text.ToNumber` | apps/frontend/src/lib/utils.ts:143 | `Number("")` is 0 and a string of digits reads as its decimal value |
| `Calendar.DayOfWithin` | apps/frontend/src/lib/utils.ts:34 | an instant lies between the first and last millisecond of a day (both inclusive) exactly when it falls on that day |
| `Calendar.StartOfWeek` | apps/frontend/src/lib/utils.ts:32 | the start of a day's week is a Monday, at most six days earlier (`weekStartsOn: 1`) |
| `Calendar.StartOfWeekShift` | apps/frontend/src/lib/utils.ts:32-33 | going back seven days (`subWeeks(now, 1)`) moves the start of the week back exactly seven days |
| `Calendar.StartOfWeekIs` | apps/frontend/src/lib/utils.ts:59 | a day belongs to the week of Monday `m` exactly when it lies between `m` and `m + 6` |
| `Calendar.PrevMonth` | apps/frontend/src/lib/utils.ts:42 | `subMonths(now, 1)` moves to the previous month, across the year boundary in January |
| `Calendar.DaysInMonth` | apps/frontend/src/lib/utils.ts:43 | every month has 28 to 31 days |
| `Calendar.MonthsAdjoin` | apps/frontend/src/lib/utils.ts:42-43 | the last day of the previous month is the day right before the first of the month, leap years included |
| `Calendar.YearLength` | apps/frontend/src/lib/utils.ts:43 | a March-to-February year has 366 days exactly in the Gregorian leap years, else 365 |
| `Calendar.MonthOfDayNumber` | apps/frontend/src/lib/utils.ts:42-43 | every day from the first to the last of a month is read back as that month: the civil-from-days count undoes the days-from-civil count |
| `Calendar.DayNumberOfMonthOf` | apps/frontend/src/lib/utils.ts:67 | every day is a day from 1 to the month's length of the month it is read as |
| `Calendar.MonthOfWithin` | apps/frontend/src/lib/utils.ts:42-44 | a day lies in a month exactly when it lies between that month's first and last day |
| `Calendar.DayOfBetween` | apps/frontend/src/lib/utils.ts:34 | an instant lies between the start of one day and the end of another (both inclusive) exactly when its day does |
| `DateGroups.GetDateGroupFirstMatch` | apps/frontend/src/lib/utils.ts:50-78 | each fixed bucket takes exactly the dates that pass its test and none of the earlier tests; every other date gets its `MMM yyyy` month as both key and heading; every heading belongs to its key |
| `DateGroups.LastWeekIsWeekBefore` | apps/frontend/src/lib/utils.ts:30-35 | `isLastWeek` holds exactly for the Monday-to-Sunday week before the week of `now` |
| `DateGroups.LastMonthEndsWhereThisMonthStarts` | apps/frontend/src/lib/utils.ts:40-45 | the last-month interval ends one millisecond before the current month begins |
| `DateGroups.LastMonthIsPreviousMonth` | apps/frontend/src/lib/utils.ts:40-45 | `isLastMonth` holds exactly for the dates whose month is the month before the month of `now` |
| `DateGroups.MonthYearIsNotFixed` | apps/frontend/src/lib/utils.ts:76-77 | a month key such as `Jan 2024` never collides with a fixed key, and is its own heading |
| `DateGroups.TodayExample` | apps/frontend/src/lib/utils.ts:51-53 | 23:59 on the day of `now` is "today" |
| `DateGroups.YesterdayExample` | apps/frontend/src/lib/utils.ts:55-57 | the previous day is "yesterday" |
| `DateGroups.ThisWeekExample` | apps/frontend/src/lib/utils.ts:59-61 | the Monday of the current week is "this-week" |
| `DateGroups.MonthYearExample` | apps/frontend/src/lib/utils.ts:75-77 | 2024-01-02, seen on 2024-03-15, goes to the bucket `Jan 2024` with heading `Jan 2024` |
| `DateGroups.ThisWeekBeforeLastMonth` | apps/frontend/src/lib/utils.ts:59-73 | a Monday of this week that lies in the previous month passes the last-month test, but goes to "this-week" because that test comes first |
| `DateGroups.FindGroup` | apps/frontend/src/lib/utils.ts:92-96 | `groups.has`/`groups.get`: finds the first group with the key, and finds none exactly when no group has that key |
| `DateGroups.ReviewsInGroup` | apps/frontend/src/lib/utils.ts:87-97 | a bucket's reviews are reviews of the input whose key is that bucket |
| `DateGroups.AddReviewKeys` | apps/frontend/src/lib/utils.ts:92-96 | one turn of the loop adds exactly the review's key to the keys, and keeps the keys distinct |
| `DateGroups.AddReviewKeepsGroups` | apps/frontend/src/lib/utils.ts:87-97 | one turn of the loop keeps its invariant: every group holds exactly its bucket's reviews so far, in input order; every review so far has a group; the keys are distinct |
| `DateGroups.Priority` | apps/frontend/src/lib/utils.ts:100-111 | `sortOrder[key] ?? 1000`: 0 to 5 for the fixed keys, 1000 exactly for the month keys |
| `DateGroups.CompareGroupsAgrees` | apps/frontend/src/lib/utils.ts:109-126 | the comparator keeps `a` first exactly when `a` may precede `b`: lower priority first, month groups by first-review date, newest first |
| `DateGroups.GroupBeforeTransitive` | apps/frontend/src/lib/utils.ts:109-126 | on groups that have reviews the comparator's order is transitive |
| `DateGroups.GroupBeforeTotal` | apps/frontend/src/lib/utils.ts:109-126 | any two groups can be ordered |
| `DateGroups.InsertGroup` | apps/frontend/src/lib/utils.ts:109 | one insertion step of the sort adds the group and changes nothing else (a permutation) |
| `DateGroups.InsertGroupSorted` | apps/frontend/src/lib/utils.ts:109-126 | inserting a non-empty group into sorted non-empty groups keeps them sorted |
| `DateGroups.InsertGroupKeys` | apps/frontend/src/lib/utils.ts:109 | inserting adds exactly the group's key |
| `DateGroups.InsertGroupDistinct` | apps/frontend/src/lib/utils.ts:109 | inserting a group with a new key keeps keys distinct |
| `DateGroups.SortGroups` | apps/frontend/src/lib/utils.ts:109-126 | the sort is a permutation of the groups |
| `DateGroups.SortGroupsSorted` | apps/frontend/src/lib/utils.ts:109-126 | sorting groups that all have reviews puts them in the comparator's order |
| `DateGroups.SortGroupsKeys` | apps/frontend/src/lib/utils.ts:109 | sorting keeps the set of keys |
| `DateGroups.SortGroupsDistinct` | apps/frontend/src/lib/utils.ts:109 | sorting keeps keys distinct |
| `DateGroups.GroupsPartitionReviews` | apps/frontend/src/lib/utils.ts:83-127 | groups of distinct buckets that hold their buckets' reviews and cover every review hold, together, exactly the input reviews, counted with multiplicity |
| `DateGroups.SortKeepsGroups` | apps/frontend/src/lib/utils.ts:109-126 | sorting the finished groups keeps every property of the loop and yields the comparator's order |
| `DateGroups.GroupReviews` | apps/frontend/src/lib/utils.ts:83-127 | for any classifier whose headings follow its keys: one group per bucket that occurs, holding exactly that bucket's reviews in input order, never empty, under its heading; every review's bucket has a group; keys are distinct; groups are in the comparator's order; the groups together are a permutation of the input |
| `DateGroups.GroupReviewsByDate` | apps/frontend/src/lib/utils.ts:83-127 | the same, for the date buckets at the moment `now` |
| `FilterText.FormatRatingFilter` | apps/frontend/src/lib/utils.ts:132-134 | the joined ratings are empty exactly when there are no ratings |
| `FilterText.KeepRatings` | apps/frontend/src/lib/utils.ts:143-144 | only numbers from 1 to 5 survive, and no more values than tokens |
| `FilterText.KeepRatingsInOrder` | apps/frontend/src/lib/utils.ts:143-144 | the filter goes token by token in order: one token is kept exactly when it reads as a number from 1 to 5, and two stretches of tokens give the first's ratings followed by the second's |
| `FilterText.ParseRatingFilter` | apps/frontend/src/lib/utils.ts:139-145 | the empty string reads as no ratings; every rating read back is from 1 to 5 |
| `FilterText.RatingFilterRoundTrip` | apps/frontend/src/lib/utils.ts:132-145 | parsing the formatted ratings gives back every selection of ratings from 1 to 5, order and repeats included |
| `FilterText.ParseRatingFilterExample` | apps/frontend/src/lib/utils.ts:139-145 | `"4,x,,7,2"` reads as `[4, 2]`: non-numeric, empty and out-of-range tokens are dropped, order kept |
| `FilterText.RatingsPhraseStart` | apps/frontend/src/lib/utils.ts:172-177 | the ratings part starts with the first rating's text |
| `FilterText.SummaryAllReviewsIff` | apps/frontend/src/lib/utils.ts:165-185 | the summary reads `All reviews` exactly when neither a keyword nor a rating is active |
| `FilterText.GetFilterSummary` | apps/frontend/src/lib/utils.ts:165-185 | the method that pushes and joins parts yields the summary by cases (quoted keyword, ratings phrase, both joined by ` with `), and `All reviews` exactly when no filter is active |
| `FilterText.RatingsPhraseExamples` | apps/frontend/src/lib/utils.ts:173-177 | `1 star`, `4 stars`, `4, 5 stars` |
| `Api.KeyText` | apps/frontend/src/lib/api.ts:26-42 | parameter names are non-empty and contain neither `=` nor `&` |
| `Api.AppendWhen` | apps/frontend/src/lib/api.ts:25-43 | one conditional `append`: the fixed order is kept; the key gets the value exactly when the condition holds; other keys are untouched |
| `Api.BuildQueryParams` | apps/frontend/src/lib/api.ts:22-46 | parameters come in the order q, stars, sort, count, page, each at most once; `q` and `stars` only when non-empty; `sort` when present; `count` and `page` whenever defined, 0 included, as decimal text |
| `Api.QueryString` | apps/frontend/src/lib/api.ts:45 | the query string is empty exactly when there are no parameters |
| `Api.QueryStringSplits` | apps/frontend/src/lib/api.ts:45 | splitting the query string at `&` gives back each `key=value` pair in order, when no value contains `&` |
| `Api.RequestUrl` | apps/frontend/src/lib/api.ts:53 | the URL is the base alone for an empty query, else the base, `?` and the query |
| `Api.Catch` | apps/frontend/src/lib/api.ts:79-88 | an `ApiError` is rethrown unchanged; anything else becomes an `ApiError` without a status |
| `Api.FetchReviews` | apps/frontend/src/lib/api.ts:51-89 | the URL is built from parameters that encode the filters; the result is the caught outcome of the request |
| `Api.FetchSucceedsExactly` | apps/frontend/src/lib/api.ts:63-78 | a page is returned exactly when the answer is ok and its body is JSON whose `reviews` is an array, and it is that body |
| `Api.HttpErrorCarriesStatus` | apps/frontend/src/lib/api.ts:63-69 | a non-ok answer fails with `Failed to fetch reviews: <status> <statusText>` and its status |
| `Api.MalformedBodyIsFormatError` | apps/frontend/src/lib/api.ts:74-76 | an ok answer whose `reviews` is not an array fails with the format message and no status |
| `Api.OtherFailuresAreNetworkErrors` | apps/frontend/src/lib/api.ts:79-88 | a network failure or an unreadable body fails with `Network error: <message>` (`Unknown error` when the thrown value has no message) and no status |
| `Api.QueryKeysDistinct` | apps/frontend/src/lib/api.ts:94-99 | paginated keys are equal exactly when filters and page are; filtered keys exactly when filters are; the two families never meet; every key starts with the root key |
| `Api.QueryStringExample` | apps/frontend/src/lib/api.ts:45-53 | `q=slow&page=2`, and the URLs with and without a query |
| `HomePage.FreshReviews` | apps/frontend/src/app/page.tsx:79-82 | keeps exactly the incoming reviews whose id is not already loaded |
| `HomePage.FreshReviewsInOrder` | apps/frontend/src/app/page.tsx:79-82 | the filter goes review by review in response order: one review is kept exactly when its id is new, and two stretches of a response give the first's new reviews followed by the second's, repeats included |
| `HomePage.FreshReviewsExtremes` | apps/frontend/src/app/page.tsx:79-82 | all-new pages are kept whole; all-known pages are dropped whole |
| `HomePage.FreshReviewsUnique` | apps/frontend/src/app/page.tsx:79-82 | filtering a page with unique ids gives unique ids |
| `HomePage.AppendKeepsIdsUnique` | apps/frontend/src/app/page.tsx:77-103 | appending the new reviews of a page keeps all loaded ids unique |
| `HomePage.ReviewsPage.constructor` | apps/frontend/src/app/page.tsx:19-25 | no filters, no reviews, page 1, start index 0 |
| `HomePage.ReviewsPage.HandleFiltersChange` | apps/frontend/src/app/page.tsx:56-60 | new filters and page 1; loaded reviews and start index kept until page 1 arrives |
| `HomePage.ReviewsPage.HandleLoadMore` | apps/frontend/src/app/page.tsx:63-65 | the page number goes up by one and nothing else changes |
| `HomePage.ReviewsPage.OnReviewsResponse` | apps/frontend/src/app/page.tsx:68-105 | no response changes nothing; page 1 replaces the list and resets the start index; a later page appends the reviews with new ids and moves the start index to where they begin, or changes nothing when none is new |
| `HomePage.ReviewsPage.QueryFilters` | apps/frontend/src/app/page.tsx:31-39 | newest first, 25 per page, the current page, the keyword, and `stars` exactly when ratings are selected, as their comma list |
| `HomePage.ReviewsPage.AppliedFilters` | apps/frontend/src/app/page.tsx:144-153 | present exactly with a response; the query's keyword; ratings exactly when the query had them |
| `HomePage.ReviewsPage.GroupedListProps` | apps/frontend/src/app/page.tsx:107-167 | the list receives the loaded reviews grouped by date at `now`: each group holds exactly its bucket's loaded reviews, keys are distinct, groups are in the comparator's order, and together they are the loaded reviews; the flags are the page's |
| `HomePage.ErrorMessage` | apps/frontend/src/app/page.tsx:130-135 | the message shown is present exactly with an error, and it is the error's own message |
| `HomePage.AppliedRatingsRoundTrip` | apps/frontend/src/app/page.tsx:31-39 | the applied ratings read back from the query equal the selected ratings |
| `HomePage.QueryKeysSeparateStates` | apps/frontend/src/app/page.tsx:49 | page states that differ in query filters or page ask with different cache keys |
| `HomePage.CommitFirstPage` | apps/frontend/src/app/page.tsx:71-74 | once page 1 is committed, the page no longer reports a data inconsistency for that response |
| `HomePage.AppendLaterPage` | apps/frontend/src/app/page.tsx:75-103 | a later page keeps the loaded reviews as a prefix and keeps ids unique |
| `HomePage.PendingFirstPageShowsLoading` | apps/frontend/src/app/page.tsx:114-118 | without an error, an uncommitted page-1 response, or any load of page 1, puts the list on its loading panel |
| `HomePage.FailedFetchShowsError` | apps/frontend/src/app/page.tsx:130-164 | every failure of the request yields a non-empty message, so the list shows its error panel |
| `HomePage.LoadMoreFollowsPage` | apps/frontend/src/app/page.tsx:122-127 | the load-more button is there exactly while a later page loads or fewer reviews are loaded than the total, and disabled exactly while a later page loads |
| `HomePage.FormRatingsSurviveQuery` | apps/frontend/src/app/page.tsx:144-153 | ratings chosen in the form come back unchanged as the applied ratings the summary is built from |
| `HomePage.EmptyResultShowsNoReviews` | packages/e2e/tests/error-handling.spec.ts:40-65 | a committed empty first page, no longer fetching, groups into no groups and shows "No Reviews Found" |
| `HomePage.NoGroupsWithoutReviews` | apps/frontend/src/app/page.tsx:108-111 | the groups hold as many reviews as are loaded, and there are no more groups than loaded reviews |
| `HomePage.RenderPage` | apps/frontend/src/app/page.tsx:156-167 | whenever the list shows its groups, reviews are loaded and exactly one card is marked as the first new review, because the start index always points into the loaded list |
| `ReviewsList.SelectPanel` | apps/frontend/src/components/ReviewsList.tsx:55-114 | first match: error when a non-empty message is present, else loading when loading or inconsistent, else nothing while fetching with no groups, else "No Reviews Found" with no groups, else the groups; each panel stated as an exact condition |
| `ReviewsList.ReviewCountLabel` | apps/frontend/src/components/ReviewsList.tsx:226 | `1 review` for one review, `N reviews` otherwise |
| `ReviewsList.LoadMore` | apps/frontend/src/components/ReviewsList.tsx:148-199 | the button is there exactly when there is more, disabled exactly while more is loading, with the matching text |
| `ReviewsList.RenderCards` | apps/frontend/src/components/ReviewsList.tsx:128-142 | the inner walk gives one card per review in order, marked exactly when the running counter equals the start index, and advances the counter by the group's size |
| `ReviewsList.RenderGroups` | apps/frontend/src/components/ReviewsList.tsx:116-145 | every group is rendered in order with its key, heading and count; the cards visit the flattened reviews once each, in order, marking the position equal to the start index |
| `ReviewsList.Render` | apps/frontend/src/components/ReviewsList.tsx:55-199 | the panel shown is the one selected, and the groups panel carries the rendered groups and the load-more button |
| `ReviewsList.ExactlyOneMarked` | apps/frontend/src/components/ReviewsList.tsx:116-141 | exactly one card is marked when the start index is a position of the flattened list, and it is the review at that position; otherwise none is |
| `ReviewsList.ReviewCountLabelExamples` | apps/frontend/src/components/ReviewsList.tsx:226 | `1 review`, `12 reviews` |
| `FilterForm.SortAscending` | apps/frontend/src/components/ReviewFilters.tsx:60 | `sort((a, b) => a - b)`: ascending and a permutation |
| `FilterForm.InsertAscendingSorted` | apps/frontend/src/components/ReviewFilters.tsx:60 | one insertion keeps the list ascending |
| `FilterForm.NormalizeRatings` | apps/frontend/src/components/ReviewFilters.tsx:55-60 | the checked values read as ratings from 1 to 5, ascending, exactly the valid ones |
| `FilterForm.EmittedFilters` | apps/frontend/src/components/ReviewFilters.tsx:48-53 | an empty keyword and an empty selection are emitted as absent, and otherwise as given |
| `FilterForm.ShowingTextShape` | apps/frontend/src/components/ReviewFilters.tsx:76-88 | the line starts with `Showing `; it is the count alone without active filters, and names the filters otherwise, never as `All reviews` |
| `FilterForm.ReviewFiltersForm.constructor` | apps/frontend/src/components/ReviewFilters.tsx:41-42 | empty keyword, no ratings, no stored text |
| `FilterForm.ReviewFiltersForm.SetKeyword` | apps/frontend/src/components/ReviewFilters.tsx:41 | the keyword changes and nothing else |
| `FilterForm.ReviewFiltersForm.HandleRatingChange` | apps/frontend/src/components/ReviewFilters.tsx:55-63 | the selection becomes the normalized ratings; nothing else changes |
| `FilterForm.ReviewFiltersForm.HandleClearFilters` | apps/frontend/src/components/ReviewFilters.tsx:65-68 | keyword and selection are cleared, so the clear button disappears |
| `FilterForm.ReviewFiltersForm.DisplayText` | apps/frontend/src/components/ReviewFilters.tsx:71-93 | with a total and applied filters, the fresh line, which is also stored; otherwise the stored line, or `Showing reviews...` before any was stored |
| `FilterForm.DisplayTextKeepsLastLine` | apps/frontend/src/components/ReviewFilters.tsx:71-93 | once data has arrived, a render without data shows the same line again, never the placeholder |
| `StarRating.Clamp` | packages/ui/src/components/StarRating.tsx:24 | the rating clamped to 0..5, unchanged inside that range |
| `StarRating.FullStars` | packages/ui/src/components/StarRating.tsx:25 | the floor of the clamped rating, 0 to 5 |
| `StarRating.EmptyStars` | packages/ui/src/components/StarRating.tsx:27 | full stars, the half star and empty stars add up to five |
| `StarRating.StarsLayout` | packages/ui/src/components/StarRating.tsx:91-104 | five stars: filled at the first positions, the half star right after them when there is a fraction, empty after that; each star stands for its position |
| `StarRating.StarKeysInjective` | packages/ui/src/components/StarRating.tsx:92-101 | different stars have different React keys |
| `StarRating.StarKeysDistinct` | packages/ui/src/components/StarRating.tsx:91-104 | the five stars of one rating have five different keys |
| `StarRating.LabelValue` | packages/ui/src/components/StarRating.tsx:108 | the label is shown exactly when asked for, and shows the clamped rating |
| `StarRating.ExtremeRatings` | packages/ui/src/components/StarRating.tsx:24-27 | 5 or more is five full stars; 0 or less is five empty ones |
| `StarRating.StoryExamples` | packages/storybook/src/StarRating.stories.tsx:43-155 | the stories' ratings 5, 3, 1.5 and 0, and 3.2 with its half star; beside them, a label for 7.5 reads 5 |

## Left out

- Fetching, React rendering, effects scheduling, the debounce timer (600 ms) and the delayed `scrollIntoView` are not modelled. The debounced keyword and the request's outcome are parameters.
- The query library's caching, stale and garbage-collection times, and which response it returns are not modelled. A response is assumed to belong to the current filters and page.
- Time zones, daylight saving time and ISO-8601 parsing are not modelled. Review dates are integer milliseconds of local time, and an invalid date (NaN) is not modelled.
- Percent-encoding by `URLSearchParams` is not modelled; parameter values appear in the query string as they are.
- `Text.ToNumber`: models `Number()` only on the empty string and optionally negated decimal digit strings. Whitespace, decimals, exponents and hexadecimal forms read as NaN here, though JavaScript reads some of them as numbers.
- `FilterForm.ReviewFiltersForm.DisplayText`: the total is written as plain decimal digits. `toLocaleString` thousands separators are not modelled.
- `StarRating.LabelValue`: gives the clamped value; the one-decimal text of `toFixed(1)` is not modelled.
- Ratings are exact reals in `StarRating`, not IEEE doubles.
- The star icons' SVG markup, sizes and class names are not modelled.
- `Api.FetchReviews`: the URL is stated through the parameters that encode the filters, not as one closed-form string.
- `Api.ValueOf` reads the last value appended under a key. Every key is appended at most once, so this is also the only value.
- `HomePage.ErrorMessage`: every rejection of the request is an `ApiError`, so the fallback text for a non-`Error` rejection is not modelled.
- `ReviewsList.ExactlyOneMarked`: the marked card is the one at the start index of the flattened grouped list. The page computes that index in the order of its loaded list. The two orders agree only when grouping keeps the list's order, which is not proved here.
- `DateGroups.SortGroupsSorted`: the comparator's order is proved transitive only for groups that have reviews, which is every group the grouping produces.
- The `ReviewFilters` component's `isLoading` prop is not modelled. While it is set, the search field, the filter button, the rating checkboxes and the clear button are disabled (`apps/frontend/src/components/ReviewFilters.tsx:107`, `:115`, `:121`, `:147`). The model lets the form's handlers run at any time. The `isInitialLoad` prop, which only changes styling, is not modelled either.

/**
 * The filter form: the keyword being typed, the selected star ratings, and
 * the last summary line shown for data that had arrived. The debounce of the
 * keyword is not modelled: the debounced keyword is a parameter of the
 * emission.
 */
module FilterForm {
  import opened Wrappers
  import opened Text
  import opened ReviewTypes
  import opened FilterText

  predicate SortedAscending(xs: seq<int>) {
    forall i, j :: 0 <= i < j < |xs| ==> xs[i] <= xs[j]
  }

  /** Insert `x` before the first element larger than it. */
  function InsertAscending(sorted: seq<int>, x: int): (r: seq<int>)
    ensures multiset(r) == multiset(sorted) + multiset{x}
  {
    if |sorted| == 0 || x <= sorted[0] then [x] + sorted
    else
      assert sorted == [sorted[0]] + sorted[1..];
      [sorted[0]] + InsertAscending(sorted[1..], x)
  }

  /** Inserting into an ascending list keeps it ascending. */
  lemma {:induction false} InsertAscendingSorted(sorted: seq<int>, x: int)
    requires SortedAscending(sorted)
    ensures SortedAscending(InsertAscending(sorted, x))
  {
    if |sorted| > 0 && x > sorted[0] {
      var rest := InsertAscending(sorted[1..], x);
      InsertAscendingSorted(sorted[1..], x);
      forall i | 0 <= i < |rest| ensures sorted[0] <= rest[i] {
        assert rest[i] in multiset(rest);
        assert rest[i] in multiset(sorted[1..]) || rest[i] == x;
      }
    }
  }

  /** `.sort((a, b) => a - b)`: ascending numeric order, the same values. */
  function SortAscending(xs: seq<int>): (r: seq<int>)
    ensures SortedAscending(r)
    ensures multiset(r) == multiset(xs)
  {
    if |xs| == 0 then []
    else
      assert xs == [xs[0]] + xs[1..];
      var rest := SortAscending(xs[1..]);
      InsertAscendingSorted(rest, xs[0]);
      InsertAscending(rest, xs[0])
  }

  /**
   * `handleRatingChange`'s conversion: the checkbox values read as numbers,
   * those from 1 to 5 kept, in ascending order.
   */
  function NormalizeRatings(values: seq<string>): (rs: seq<int>)
    ensures SortedAscending(rs) && AllRatingsInRange(rs)
    ensures multiset(rs) == multiset(KeepRatings(values))
  {
    var kept := KeepRatings(values);
    var sorted := SortAscending(kept);
    assert AllRatingsInRange(sorted) by {
      forall i | 0 <= i < |sorted| ensures InRatingRange(sorted[i]) {
        assert sorted[i] in multiset(kept);
      }
    }
    sorted
  }

  /** The filters the form emits: an empty keyword and an empty selection are left out. */
  function EmittedFilters(debouncedKeyword: string, ratings: seq<int>): (f: Filters)
    ensures f.keyword.None? <==> debouncedKeyword == ""
    ensures f.keyword.Some? ==> f.keyword.value == debouncedKeyword
    ensures f.ratings.None? <==> |ratings| == 0
    ensures f.ratings.Some? ==> f.ratings.value == ratings
    ensures HasKeyword(f) <==> debouncedKeyword != ""
    ensures HasRatings(f) <==> |ratings| > 0
  {
    Filters(if debouncedKeyword != "" then Some(debouncedKeyword) else None,
            if |ratings| > 0 then Some(ratings) else None)
  }

  /** The summary line's text for a total and the filters it was counted under. */
  function ShowingText(total: int, applied: Filters): (s: string)
  {
    var reviewsText := "Showing " + IntToString(total) + " reviews";
    if HasKeyword(applied) || HasRatings(applied) then reviewsText + " for " + Summary(applied) else reviewsText
  }

  /**
   * The summary line starts with `Showing`; without active filters it is the
   * count alone, and with them it names them, never as `All reviews`.
   */
  lemma ShowingTextShape(total: int, applied: Filters)
    ensures |ShowingText(total, applied)| > 8 && ShowingText(total, applied)[..8] == "Showing "
    ensures !HasKeyword(applied) && !HasRatings(applied) ==>
      ShowingText(total, applied) == "Showing " + IntToString(total) + " reviews"
    ensures HasKeyword(applied) || HasRatings(applied) ==>
      ShowingText(total, applied) == "Showing " + IntToString(total) + " reviews for " + Summary(applied)
      && Summary(applied) != "All reviews"
  {
    SummaryAllReviewsIff(applied);
  }

  class ReviewFiltersForm {
    var keyword: string
    var selectedRatings: seq<int>
    var lastValidText: string

    constructor()
      ensures keyword == "" && selectedRatings == [] && lastValidText == ""
    {
      keyword := "";
      selectedRatings := [];
      lastValidText := "";
    }

    /** The search field's `onChange`. */
    method SetKeyword(text: string)
      modifies this
      ensures keyword == text
      ensures selectedRatings == old(selectedRatings) && lastValidText == old(lastValidText)
    {
      keyword := text;
    }

    /** `handleRatingChange`: the selection becomes the valid ratings among the checked values, ascending. */
    method HandleRatingChange(values: seq<string>)
      modifies this
      ensures selectedRatings == NormalizeRatings(values)
      ensures SortedAscending(selectedRatings) && AllRatingsInRange(selectedRatings)
      ensures keyword == old(keyword) && lastValidText == old(lastValidText)
    {
      selectedRatings := NormalizeRatings(values);
    }

    /** `handleClearFilters`: empty keyword, no ratings, so the clear button goes away. */
    method HandleClearFilters()
      modifies this
      ensures keyword == "" && selectedRatings == []
      ensures lastValidText == old(lastValidText)
      ensures !ShowClearButton()
    {
      keyword := "";
      selectedRatings := [];
    }

    /** `showClearButton`: the form (not the applied filters) has a keyword or a selection. */
    predicate ShowClearButton()
      reads this
    {
      |keyword| > 0 || |selectedRatings| > 0
    }

    /** The filter emission effect for the current selection and the debounced keyword. */
    function Emitted(debouncedKeyword: string): Filters
      reads this
    {
      EmittedFilters(debouncedKeyword, selectedRatings)
    }

    /**
     * The `displayText` memo: with a numeric total and the filters it was
     * counted under, the fresh text, which is also stored; otherwise the
     * stored text, or `Showing reviews...` before any was stored.
     */
    method DisplayText(totalReviews: Option<int>, appliedFilters: Option<Filters>) returns (text: string)
      modifies this
      ensures keyword == old(keyword) && selectedRatings == old(selectedRatings)
      ensures totalReviews.Some? && appliedFilters.Some? ==>
        text == ShowingText(totalReviews.value, appliedFilters.value) && lastValidText == text
      ensures !(totalReviews.Some? && appliedFilters.Some?) ==>
        lastValidText == old(lastValidText)
        && text == (if old(lastValidText) != "" then old(lastValidText) else "Showing reviews...")
    {
      if totalReviews.Some? && appliedFilters.Some? {
        var applied := appliedFilters.value;
        var hasActiveFilters := HasKeyword(applied) || HasRatings(applied);
        var filterSummary := GetFilterSummary(applied);
        var reviewsText := "Showing " + IntToString(totalReviews.value) + " reviews";
        var fullText := if hasActiveFilters then reviewsText + " for " + filterSummary else reviewsText;
        lastValidText := fullText;
        return fullText;
      }
      text := if lastValidText != "" then lastValidText else "Showing reviews...";
    }
  }

  /**
   * Once data has arrived, a later render without data shows the same line
   * again instead of the `Showing reviews...` placeholder.
   */
  method DisplayTextKeepsLastLine(form: ReviewFiltersForm, total: int, applied: Filters) returns (first: string, second: string)
    modifies form
    ensures first == ShowingText(total, applied)
    ensures second == first && second != "Showing reviews..."
  {
    first := form.DisplayText(Some(total), Some(applied));
    ShowingTextShape(total, applied);
    assert first[8] == IntToString(total)[0];
    IntToStringStart(total);
    assert "Showing reviews..."[8] == 'r';
    second := form.DisplayText(None, None);
  }
}

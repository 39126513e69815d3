/**
 * The filter helpers of the front end's utilities: the comma-separated codec
 * for star-rating selections (`formatRatingFilter` / `parseRatingFilter`) and
 * the human-readable summary of the active filters (`getFilterSummary`).
 */
module FilterText {
  import opened Wrappers
  import opened Text
  import opened ReviewTypes

  predicate InRatingRange(n: int) {
    1 <= n <= 5
  }

  predicate AllRatingsInRange(rs: seq<int>) {
    forall i :: 0 <= i < |rs| ==> InRatingRange(rs[i])
  }

  /** `ratings.map(String)`: each rating as its decimal text. */
  function RatingTokens(ratings: seq<int>): (tokens: seq<string>)
    ensures |tokens| == |ratings|
    ensures forall i :: 0 <= i < |ratings| ==> tokens[i] == IntToString(ratings[i])
  {
    seq(|ratings|, i requires 0 <= i < |ratings| => IntToString(ratings[i]))
  }

  /** `formatRatingFilter`: the ratings joined by commas. */
  function FormatRatingFilter(ratings: seq<int>): (s: string)
    ensures s == "" <==> |ratings| == 0
  {
    var tokens := RatingTokens(ratings);
    if |tokens| == 0 then ""
    else
      JoinNonEmpty(tokens, ",");
      Join(tokens, ",")
  }

  /** A join whose first piece is non-empty is non-empty. */
  lemma {:induction false} JoinNonEmpty(parts: seq<string>, sep: string)
    requires |parts| > 0 && |parts[0]| > 0
    ensures |Join(parts, sep)| > 0
  {
  }

  /** `.map(Number).filter(n => n >= 1 && n <= 5)`: the tokens that read as a rating from 1 to 5, in order. */
  function KeepRatings(tokens: seq<string>): (rs: seq<int>)
    ensures |rs| <= |tokens|
    ensures AllRatingsInRange(rs)
  {
    if |tokens| == 0 then []
    else
      var n := ToNumber(tokens[0]);
      var rest := KeepRatings(tokens[1..]);
      if n.Some? && InRatingRange(n.value) then [n.value] + rest else rest
  }

  /**
   * The filter works token by token, in order: a single token is kept exactly
   * when it reads as a number from 1 to 5, and the ratings of two stretches of
   * tokens are those of the first followed by those of the second.
   */
  lemma {:induction false} KeepRatingsInOrder(a: seq<string>, b: seq<string>)
    ensures KeepRatings(a + b) == KeepRatings(a) + KeepRatings(b)
    ensures |a| == 1 ==>
      KeepRatings(a) == if ToNumber(a[0]).Some? && InRatingRange(ToNumber(a[0]).value) then [ToNumber(a[0]).value] else []
  {
    if |a| > 0 {
      assert (a + b)[1..] == a[1..] + b;
      KeepRatingsInOrder(a[1..], b);
      if |a| == 1 {
        assert a[1..] == [];
      }
    } else {
      assert a + b == b;
    }
  }

  /** `parseRatingFilter`: the empty string reads as no ratings; otherwise split on commas and keep the valid ratings. */
  function ParseRatingFilter(s: string): (rs: seq<int>)
    ensures s == "" ==> rs == []
    ensures AllRatingsInRange(rs)
  {
    if s == "" then [] else KeepRatings(Split(s, ','))
  }

  /** Reading back the decimal text of ratings from 1 to 5 keeps all of them. */
  lemma {:induction false} KeepRatingsOfTokens(ratings: seq<int>)
    requires AllRatingsInRange(ratings)
    ensures KeepRatings(RatingTokens(ratings)) == ratings
  {
    if |ratings| > 0 {
      IntToStringRoundTrip(ratings[0]);
      assert RatingTokens(ratings)[1..] == RatingTokens(ratings[1..]);
      KeepRatingsOfTokens(ratings[1..]);
    }
  }

  /** The codec round-trips every selection of ratings from 1 to 5. */
  lemma RatingFilterRoundTrip(ratings: seq<int>)
    requires AllRatingsInRange(ratings)
    ensures ParseRatingFilter(FormatRatingFilter(ratings)) == ratings
  {
    if |ratings| > 0 {
      var tokens := RatingTokens(ratings);
      SplitJoinRoundTrip(tokens, ',');
      KeepRatingsOfTokens(ratings);
    }
  }

  /** Out-of-range, empty and non-numeric tokens are dropped; the rest keep their order. */
  lemma ParseRatingFilterExample()
    ensures ParseRatingFilter("4,x,,7,2") == [4, 2]
  {
    SplitExample();
    KeepRatingsExample();
  }

  lemma KeepRatingsExample()
    ensures KeepRatings(["4", "x", "", "7", "2"]) == [4, 2]
  {
    var tokens := ["4", "x", "", "7", "2"];
    KeepRatingsTailExample();
    assert KeepRatings(tokens[2..]) == [2] by { assert tokens[2..] == ["", "7", "2"]; }
    assert ToNumber("x") == None;
    assert KeepRatings(tokens[1..]) == [2] by { assert tokens[1..][1..] == tokens[2..]; }
    assert ToNumber("4") == Some(4) by {
      assert DigitsValue("4") == 4 by { assert "4"[..0] == ""; }
    }
  }

  lemma KeepRatingsTailExample()
    ensures KeepRatings(["", "7", "2"]) == [2]
  {
    var tokens := ["", "7", "2"];
    assert ToNumber("2") == Some(2) by {
      assert DigitsValue("2") == 2 by { assert "2"[..0] == ""; }
    }
    assert KeepRatings(tokens[2..]) == [2] by { assert tokens[2..][1..] == []; }
    assert ToNumber("7") == Some(7) by {
      assert DigitsValue("7") == 7 by { assert "7"[..0] == ""; }
    }
    assert KeepRatings(tokens[1..]) == [2] by { assert tokens[1..][1..] == tokens[2..]; }
  }

  lemma SplitExample()
    ensures Split("4,x,,7,2", ',') == ["4", "x", "", "7", "2"]
  {
    SplitMiddleExample();
    assert "4,x,,7,2" == "4" + [','] + "x,,7,2";
    SplitAtSeparator("4", ',', "x,,7,2");
  }

  lemma SplitMiddleExample()
    ensures Split("x,,7,2", ',') == ["x", "", "7", "2"]
  {
    SplitTailExample();
    assert "x,,7,2" == "x" + [','] + ",7,2";
    SplitAtSeparator("x", ',', ",7,2");
  }

  lemma SplitTailExample()
    ensures Split(",7,2", ',') == ["", "7", "2"]
  {
    assert ",7,2" == "" + [','] + "7,2";
    assert "7,2" == "7" + [','] + "2";
    SplitAtSeparator("", ',', "7,2");
    SplitAtSeparator("7", ',', "2");
    SplitWithoutSeparator("2", ',');
  }

  // The summary of the active filters.

  /** A keyword filter is active when the keyword is present and non-empty (JavaScript truthiness). */
  predicate HasKeyword(filters: Filters) {
    filters.keyword.Some? && filters.keyword.value != ""
  }

  predicate HasRatings(filters: Filters) {
    filters.ratings.Some? && |filters.ratings.value| > 0
  }

  /** The keyword in double quotes. */
  function Quoted(keyword: string): (s: string)
    ensures |s| == |keyword| + 2 && s[0] == '"' && s[|s| - 1] == '"'
    ensures s[1..|s| - 1] == keyword
  {
    "\"" + keyword + "\""
  }

  /** `N star` for a single rating of 1, `N stars` for any other single rating, `a, b stars` for several. */
  function RatingsPhrase(ratings: seq<int>): (s: string)
    requires |ratings| > 0
  {
    if |ratings| == 1 then IntToString(ratings[0]) + (if ratings[0] == 1 then " star" else " stars")
    else Join(RatingTokens(ratings), ", ") + " stars"
  }

  /** The ratings phrase starts with the first rating's text, so never with a quote or a capital letter. */
  lemma RatingsPhraseStart(ratings: seq<int>)
    requires |ratings| > 0
    ensures |RatingsPhrase(ratings)| > 0
    ensures RatingsPhrase(ratings)[0] == IntToString(ratings[0])[0]
  {
    if |ratings| > 1 {
      var tokens := RatingTokens(ratings);
      assert Join(tokens, ", ") == tokens[0] + ", " + Join(tokens[1..], ", ");
    }
  }

  /**
   * The summary by cases: the quoted keyword, the ratings phrase, both joined
   * by ` with `, or `All reviews` when neither filter is active.
   */
  function Summary(filters: Filters): string {
    if HasKeyword(filters) && HasRatings(filters) then
      Quoted(filters.keyword.value) + " with " + RatingsPhrase(filters.ratings.value)
    else if HasKeyword(filters) then Quoted(filters.keyword.value)
    else if HasRatings(filters) then RatingsPhrase(filters.ratings.value)
    else "All reviews"
  }

  /**
   * `getFilterSummary`: collect the keyword part and the ratings part that
   * are active, and join them with ` with `; with neither, `All reviews`.
   * Only the inactive case reads `All reviews`.
   */
  method GetFilterSummary(filters: Filters) returns (s: string)
    ensures s == Summary(filters)
    ensures s == "All reviews" <==> !HasKeyword(filters) && !HasRatings(filters)
  {
    var parts: seq<string> := [];
    if HasKeyword(filters) {
      parts := parts + [Quoted(filters.keyword.value)];
    }
    if HasRatings(filters) {
      parts := parts + [RatingsPhrase(filters.ratings.value)];
    }
    if |parts| == 0 {
      return "All reviews";
    }
    s := Join(parts, " with ");
    SummaryAllReviewsIff(filters);
  }

  /** The summary reads `All reviews` exactly when neither filter is active. */
  lemma SummaryAllReviewsIff(filters: Filters)
    ensures Summary(filters) == "All reviews" <==> !HasKeyword(filters) && !HasRatings(filters)
  {
    var s := Summary(filters);
    if HasKeyword(filters) {
      assert s[0] == '"';
    } else if HasRatings(filters) {
      RatingsPhraseStart(filters.ratings.value);
      IntToStringStart(filters.ratings.value[0]);
      assert s[0] != 'A';
    }
  }

  /** Decimal text starts with a digit or a minus sign. */
  lemma IntToStringStart(i: int)
    ensures IsDigit(IntToString(i)[0]) || IntToString(i)[0] == '-'
  {
  }

  /** The wording of the ratings part for one star, several stars and several ratings. */
  lemma RatingsPhraseExamples()
    ensures RatingsPhrase([1]) == "1 star"
    ensures RatingsPhrase([4]) == "4 stars"
    ensures RatingsPhrase([4, 5]) == "4, 5 stars"
  {
    assert IntToString(1) == "1";
    assert IntToString(4) == "4";
    TwoRatingsPhrase();
  }

  lemma TwoRatingsPhrase()
    ensures RatingsPhrase([4, 5]) == "4, 5 stars"
  {
    assert IntToString(4) == "4";
    assert IntToString(5) == "5";
    assert RatingTokens([4, 5]) == ["4", "5"];
    assert Join(["4", "5"], ", ") == "4, 5";
  }
}

/**
 * The star display of a rating: the rating is clamped to 0..5 and split into
 * full stars, at most one half star and empty stars, five in all, each star
 * keyed by its position. Ratings are exact reals here, not IEEE doubles.
 */
module StarRating {
  import opened Wrappers
  import opened Text

  /** `Math.max(0, Math.min(5, rating))`. */
  function Clamp(rating: real): (c: real)
    ensures 0.0 <= c <= 5.0
    ensures 0.0 <= rating <= 5.0 ==> c == rating
    ensures rating > 5.0 ==> c == 5.0
    ensures rating < 0.0 ==> c == 0.0
  {
    if rating < 0.0 then 0.0 else if rating > 5.0 then 5.0 else rating
  }

  /** `Math.floor(clampedRating)`: the whole stars. */
  function FullStars(rating: real): (n: int)
    ensures 0 <= n <= 5
    ensures n as real <= Clamp(rating) < n as real + 1.0
  {
    Clamp(rating).Floor
  }

  /** `clampedRating % 1 !== 0`: the clamped rating has a fractional part. */
  predicate HasHalfStar(rating: real) {
    Clamp(rating) != FullStars(rating) as real
  }

  /** `5 - fullStars - (hasHalfStar ? 1 : 0)`. */
  function EmptyStars(rating: real): (n: int)
    ensures 0 <= n <= 5
    ensures FullStars(rating) + (if HasHalfStar(rating) then 1 else 0) + n == 5
  {
    var full := FullStars(rating);
    if HasHalfStar(rating) then
      assert full < 5;
      5 - full - 1
    else 5 - full
  }

  /** One star icon: filled or empty with the position its key names, or the half star. */
  datatype StarIcon = FilledStar(position: int) | HalfStar | EmptyStar(position: int)

  /** The React key of a star. */
  function StarKey(icon: StarIcon): string {
    match icon
    case FilledStar(n) => "filled-star-" + IntToString(n)
    case HalfStar => "half-star"
    case EmptyStar(n) => "empty-star-" + IntToString(n)
  }

  /** The filled run, the half star if any, then the empty run numbered on after them. */
  function Stars(rating: real): seq<StarIcon> {
    var full := FullStars(rating);
    var half := if HasHalfStar(rating) then 1 else 0;
    seq(full, i requires 0 <= i < full => FilledStar(i + 1))
      + (if HasHalfStar(rating) then [HalfStar] else [])
      + seq(EmptyStars(rating), i requires 0 <= i < EmptyStars(rating) => EmptyStar(full + half + i + 1))
  }

  /**
   * There are always five stars; the star at index `i` stands for position
   * `i + 1`: filled below the whole part, the half star right after it when
   * there is a fraction, empty after that.
   */
  lemma StarsLayout(rating: real)
    ensures |Stars(rating)| == 5
    ensures forall i :: 0 <= i < FullStars(rating) ==> Stars(rating)[i] == FilledStar(i + 1)
    ensures HasHalfStar(rating) ==> Stars(rating)[FullStars(rating)] == HalfStar
    ensures forall i :: FullStars(rating) + (if HasHalfStar(rating) then 1 else 0) <= i < 5 ==>
              Stars(rating)[i] == EmptyStar(i + 1)
  {
  }

  /** Keys of different positions differ: numbers read back from the key text, and the prefixes differ. */
  lemma StarKeysInjective(a: StarIcon, b: StarIcon)
    ensures StarKey(a) == StarKey(b) ==> a == b
  {
    if StarKey(a) == StarKey(b) {
      match a
      case FilledStar(n) =>
        assert StarKey(a)[0] == 'f';
        assert b.FilledStar?;
        var prefix := "filled-star-";
        assert StarKey(a)[|prefix|..] == IntToString(n);
        assert StarKey(b)[|prefix|..] == IntToString(b.position);
        IntToStringRoundTrip(n);
        IntToStringRoundTrip(b.position);
      case HalfStar =>
        assert StarKey(a)[0] == 'h';
        assert b.HalfStar?;
      case EmptyStar(n) =>
        assert StarKey(a)[0] == 'e';
        assert b.EmptyStar?;
        var prefix := "empty-star-";
        assert StarKey(a)[|prefix|..] == IntToString(n);
        assert StarKey(b)[|prefix|..] == IntToString(b.position);
        IntToStringRoundTrip(n);
        IntToStringRoundTrip(b.position);
    }
  }

  /** The five stars have five different keys. */
  lemma StarKeysDistinct(rating: real)
    ensures forall i, j :: 0 <= i < j < |Stars(rating)| ==> StarKey(Stars(rating)[i]) != StarKey(Stars(rating)[j])
  {
    StarsLayout(rating);
    var stars := Stars(rating);
    forall i, j | 0 <= i < j < |stars| ensures StarKey(stars[i]) != StarKey(stars[j]) {
      StarKeysInjective(stars[i], stars[j]);
    }
  }

  /** The label shows the clamped rating, not the raw one. */
  function LabelValue(rating: real, showLabel: bool): (v: Option<real>)
    ensures v.Some? <==> showLabel
    ensures v.Some? ==> v.value == Clamp(rating) && 0.0 <= v.value <= 5.0
  {
    if showLabel then Some(Clamp(rating)) else None
  }

  /** A rating of 5 or more is five full stars; 0 or less is five empty ones. */
  lemma ExtremeRatings(rating: real)
    ensures rating >= 5.0 ==> FullStars(rating) == 5 && !HasHalfStar(rating) && EmptyStars(rating) == 0
    ensures rating <= 0.0 ==> FullStars(rating) == 0 && !HasHalfStar(rating) && EmptyStars(rating) == 5
  {
  }

  /** The ratings shown in the component's stories. */
  lemma StoryExamples()
    ensures FullStars(5.0) == 5 && !HasHalfStar(5.0) && EmptyStars(5.0) == 0
    ensures FullStars(3.0) == 3 && !HasHalfStar(3.0) && EmptyStars(3.0) == 2
    ensures FullStars(1.5) == 1 && HasHalfStar(1.5) && EmptyStars(1.5) == 3
    ensures FullStars(0.0) == 0 && !HasHalfStar(0.0) && EmptyStars(0.0) == 5
    ensures FullStars(3.2) == 3 && HasHalfStar(3.2) && EmptyStars(3.2) == 1
    ensures LabelValue(7.5, true) == Some(5.0)
  {
    assert (1.5).Floor == 1;
    assert (3.2).Floor == 3;
  }
}

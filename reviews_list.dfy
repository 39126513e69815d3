/**
 * The reviews list view: which panel it shows (error, loading, nothing, "No
 * Reviews Found", or the groups), and, when it shows the groups, the walk
 * over all their reviews with one running counter that marks the review at
 * `newReviewsStartIndex` as the first new one.
 */
module ReviewsList {
  import opened Wrappers
  import opened Text
  import opened ReviewTypes
  import opened DateGroups

  /** The properties the list receives from the page. */
  datatype ListProps = ListProps(
    groupedReviews: seq<GroupedReviews>,
    hasMore: bool,
    isLoadingMore: bool,
    isLoading: bool,
    isFetching: bool,
    hasDataInconsistency: bool,
    error: Option<string>,
    newReviewsStartIndex: int)

  /** The panels the list can show. */
  datatype PanelKind = ErrorKind | LoadingKind | BlankKind | NoReviewsKind | GroupsKind

  /** An error message is shown when it is present and non-empty (JavaScript truthiness). */
  predicate HasError(props: ListProps) {
    props.error.Some? && props.error.value != ""
  }

  /** The first-match choice of panel: error, then loading, then the two empty states, then the groups. */
  function SelectPanel(props: ListProps): (kind: PanelKind)
    ensures kind == ErrorKind <==> HasError(props)
    ensures kind == LoadingKind <==> !HasError(props) && (props.isLoading || props.hasDataInconsistency)
    ensures kind == BlankKind <==>
      !HasError(props) && !props.isLoading && !props.hasDataInconsistency && |props.groupedReviews| == 0 && props.isFetching
    ensures kind == NoReviewsKind <==>
      !HasError(props) && !props.isLoading && !props.hasDataInconsistency && |props.groupedReviews| == 0 && !props.isFetching
    ensures kind == GroupsKind <==>
      !HasError(props) && !props.isLoading && !props.hasDataInconsistency && |props.groupedReviews| > 0
  {
    if HasError(props) then ErrorKind
    else if props.isLoading || props.hasDataInconsistency then LoadingKind
    else if |props.groupedReviews| == 0 then (if props.isFetching then BlankKind else NoReviewsKind)
    else GroupsKind
  }

  /** `{reviewCount} review{reviewCount === 1 ? '' : 's'}`. */
  function ReviewCountLabel(n: int): (s: string)
    ensures n == 1 ==> s == "1 review"
    ensures n != 1 ==> s == IntToString(n) + " reviews"
  {
    IntToString(n) + " review" + (if n == 1 then "" else "s")
  }

  /** The load-more button: whether it is disabled and its text. */
  datatype LoadMoreButton = LoadMoreButton(disabled: bool, text: string)

  /** The button is there exactly when there is more, and disabled exactly while more is loading. */
  function LoadMore(hasMore: bool, isLoadingMore: bool): (b: Option<LoadMoreButton>)
    ensures b.Some? <==> hasMore
    ensures b.Some? ==> (b.value.disabled <==> isLoadingMore)
    ensures b.Some? ==> b.value.text == (if isLoadingMore then "Loading more..." else "Load More Reviews")
  {
    if hasMore then Some(LoadMoreButton(isLoadingMore, if isLoadingMore then "Loading more..." else "Load More Reviews"))
    else None
  }

  /** One review card, and whether it is the first new review (the one that gets the ref and the highlight). */
  datatype Card = Card(review: Review, isFirstNew: bool)

  /** One rendered group: its key, heading, count label and cards. */
  datatype RenderedGroup = RenderedGroup(key: string, heading: string, countLabel: string, cards: seq<Card>)

  /** What the list shows. */
  datatype Panel =
    | ErrorPanel(message: string)
    | LoadingPanel
    | BlankPanel
    | NoReviewsPanel
    | GroupsPanel(groups: seq<RenderedGroup>, loadMore: Option<LoadMoreButton>)

  /** All cards, group after group. */
  function AllCards(groups: seq<RenderedGroup>): seq<Card> {
    if |groups| == 0 then [] else AllCards(groups[..|groups| - 1]) + groups[|groups| - 1].cards
  }

  lemma {:induction false} FlattenAppend(a: seq<GroupedReviews>, b: seq<GroupedReviews>)
    ensures Flatten(a + b) == Flatten(a) + Flatten(b)
  {
    if |a| == 0 {
      assert a + b == b;
    } else {
      assert (a + b)[0] == a[0];
      assert (a + b)[1..] == a[1..] + b;
      FlattenAppend(a[1..], b);
    }
  }

  lemma FlattenSnoc(groups: seq<GroupedReviews>, g: nat)
    requires g < |groups|
    ensures Flatten(groups[..g + 1]) == Flatten(groups[..g]) + groups[g].reviews
  {
    assert groups[..g + 1] == groups[..g] + [groups[g]];
    FlattenAppend(groups[..g], [groups[g]]);
  }

  /** The cards so far visit the reviews so far in order, each marked exactly when its position is `start`. */
  ghost predicate CardsFollow(cards: seq<Card>, reviews: seq<Review>, start: int) {
    |cards| == |reviews| && forall p :: 0 <= p < |cards| ==> cards[p] == Card(reviews[p], p == start)
  }

  /** One more group's cards, numbered on from where the previous groups left off, keep the correspondence. */
  lemma CardsFollowAppend(cards: seq<Card>, reviews: seq<Review>, more: seq<Card>, moreReviews: seq<Review>, start: int)
    requires CardsFollow(cards, reviews, start)
    requires |more| == |moreReviews|
    requires forall q :: 0 <= q < |more| ==> more[q] == Card(moreReviews[q], |cards| + q == start)
    ensures CardsFollow(cards + more, reviews + moreReviews, start)
  {
  }

  /** Each rendered group shows its group's key, heading and count, with one card per review. */
  ghost predicate RendersGroups(rendered: seq<RenderedGroup>, groups: seq<GroupedReviews>) {
    && |rendered| == |groups|
    && forall g :: 0 <= g < |rendered| ==>
         && rendered[g].key == groups[g].group
         && rendered[g].heading == groups[g].labelText
         && rendered[g].countLabel == ReviewCountLabel(|groups[g].reviews|)
         && |rendered[g].cards| == |groups[g].reviews|
  }

  /**
   * The inner walk over one group's reviews: each card is marked exactly when
   * the running counter, which starts at `index`, equals `start`.
   */
  method RenderCards(reviews: seq<Review>, index: int, start: int) returns (cards: seq<Card>, next: int)
    ensures next == index + |reviews|
    ensures |cards| == |reviews|
    ensures forall q :: 0 <= q < |cards| ==> cards[q] == Card(reviews[q], index + q == start)
  {
    var currentReviewIndex := index;
    cards := [];
    for k := 0 to |reviews|
      invariant |cards| == k
      invariant currentReviewIndex == index + k
      invariant forall q :: 0 <= q < k ==> cards[q] == Card(reviews[q], index + q == start)
    {
      var isFirstNewReview := currentReviewIndex == start;
      cards := cards + [Card(reviews[k], isFirstNewReview)];
      currentReviewIndex := currentReviewIndex + 1;
    }
    next := currentReviewIndex;
  }

  /**
   * The walk over the groups: every group is rendered in order; the running
   * counter visits every review once, in flattened group order; and the card
   * whose position equals `start` is marked.
   */
  method RenderGroups(groups: seq<GroupedReviews>, start: int) returns (rendered: seq<RenderedGroup>)
    ensures RendersGroups(rendered, groups)
    ensures CardsFollow(AllCards(rendered), Flatten(groups), start)
  {
    var currentReviewIndex := 0;
    rendered := [];
    for g := 0 to |groups|
      invariant RendersGroups(rendered, groups[..g])
      invariant currentReviewIndex == |AllCards(rendered)|
      invariant CardsFollow(AllCards(rendered), Flatten(groups[..g]), start)
    {
      var group := groups[g];
      var cards;
      cards, currentReviewIndex := RenderCards(group.reviews, currentReviewIndex, start);
      var next := RenderedGroup(group.group, group.labelText, ReviewCountLabel(|group.reviews|), cards);
      RenderStep(rendered, groups, g, next, start);
      rendered := rendered + [next];
    }
    assert groups[..|groups|] == groups;
  }

  /** Rendering group `g` after the groups before it keeps both correspondences. */
  lemma RenderStep(rendered: seq<RenderedGroup>, groups: seq<GroupedReviews>, g: nat, next: RenderedGroup, start: int)
    requires g < |groups|
    requires RendersGroups(rendered, groups[..g])
    requires CardsFollow(AllCards(rendered), Flatten(groups[..g]), start)
    requires next.key == groups[g].group && next.heading == groups[g].labelText
    requires next.countLabel == ReviewCountLabel(|groups[g].reviews|)
    requires |next.cards| == |groups[g].reviews|
    requires forall q :: 0 <= q < |next.cards| ==>
               next.cards[q] == Card(groups[g].reviews[q], |AllCards(rendered)| + q == start)
    ensures RendersGroups(rendered + [next], groups[..g + 1])
    ensures CardsFollow(AllCards(rendered + [next]), Flatten(groups[..g + 1]), start)
  {
    FlattenSnoc(groups, g);
    CardsFollowAppend(AllCards(rendered), Flatten(groups[..g]), next.cards, groups[g].reviews, start);
    assert AllCards(rendered + [next]) == AllCards(rendered) + next.cards by {
      assert (rendered + [next])[..|rendered|] == rendered;
    }
    var r, gs := rendered + [next], groups[..g + 1];
    forall m | 0 <= m < |r|
      ensures r[m].key == gs[m].group && r[m].heading == gs[m].labelText
      ensures r[m].countLabel == ReviewCountLabel(|gs[m].reviews|) && |r[m].cards| == |gs[m].reviews|
    {
      if m < |rendered| {
        assert r[m] == rendered[m] && gs[m] == groups[..g][m];
      }
    }
  }

  /** The list view: the chosen panel, and for the groups panel the walk and the load-more button. */
  method Render(props: ListProps) returns (panel: Panel)
    ensures SelectPanel(props) == ErrorKind ==> panel == ErrorPanel(props.error.value)
    ensures SelectPanel(props) == LoadingKind ==> panel == LoadingPanel
    ensures SelectPanel(props) == BlankKind ==> panel == BlankPanel
    ensures SelectPanel(props) == NoReviewsKind ==> panel == NoReviewsPanel
    ensures SelectPanel(props) == GroupsKind ==> panel.GroupsPanel?
    ensures panel.GroupsPanel? ==>
      && RendersGroups(panel.groups, props.groupedReviews)
      && CardsFollow(AllCards(panel.groups), Flatten(props.groupedReviews), props.newReviewsStartIndex)
      && panel.loadMore == LoadMore(props.hasMore, props.isLoadingMore)
  {
    var kind := SelectPanel(props);
    if kind == ErrorKind {
      return ErrorPanel(props.error.value);
    } else if kind == LoadingKind {
      return LoadingPanel;
    } else if kind == BlankKind {
      return BlankPanel;
    } else if kind == NoReviewsKind {
      return NoReviewsPanel;
    }
    var rendered := RenderGroups(props.groupedReviews, props.newReviewsStartIndex);
    panel := GroupsPanel(rendered, LoadMore(props.hasMore, props.isLoadingMore));
  }

  /** The number of cards marked as the first new review. */
  function MarkedCount(cards: seq<Card>): (n: nat)
    ensures n <= |cards|
  {
    if |cards| == 0 then 0
    else MarkedCount(cards[..|cards| - 1]) + (if cards[|cards| - 1].isFirstNew then 1 else 0)
  }

  /**
   * Exactly one review is marked when `newReviewsStartIndex` is a position of
   * the flattened list, and it is the review at that position; otherwise none is.
   */
  lemma {:induction false} ExactlyOneMarked(cards: seq<Card>, reviews: seq<Review>, start: int)
    requires CardsFollow(cards, reviews, start)
    ensures MarkedCount(cards) == if 0 <= start < |reviews| then 1 else 0
    ensures 0 <= start < |reviews| ==> cards[start] == Card(reviews[start], true)
  {
    if |cards| > 0 {
      var n := |cards| - 1;
      assert CardsFollow(cards[..n], reviews[..n], start);
      ExactlyOneMarked(cards[..n], reviews[..n], start);
    }
  }

  /** The group count labels for one review and for several. */
  lemma ReviewCountLabelExamples()
    ensures ReviewCountLabel(1) == "1 review"
    ensures ReviewCountLabel(12) == "12 reviews"
  {
    assert IntToString(12) == "12" by {
      assert NatToString(12) == NatToString(1) + [DigitChar(2)];
    }
  }
}

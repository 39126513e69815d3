/**
 * The date grouping of `apps/frontend/src/lib/utils.ts`: each review is put
 * in the first matching bucket among today, yesterday, this week, last week,
 * this month and last month, or else in a bucket for its own month; the
 * buckets are then ordered by a fixed priority, month buckets last and newest
 * first. The current instant `now` is a parameter.
 */
module DateGroups {
  import opened Calendar
  import opened Text
  import opened ReviewTypes

  // ---------------------------------------------------------------------------
  // Classifying one date
  // ---------------------------------------------------------------------------

  /** The group key and heading of one date (the object `getDateGroup` returns). */
  datatype GroupInfo = GroupInfo(group: string, labelText: string)

  predicate IsToday(t: int, now: int) {
    DayOf(t) == DayOf(now)
  }

  predicate IsYesterday(t: int, now: int) {
    DayOf(t) == DayOf(now) - 1
  }

  /** Same Monday-started week as `now`. */
  predicate IsThisWeek(t: int, now: int) {
    StartOfWeek(DayOf(t)) == StartOfWeek(DayOf(now))
  }

  /** Within the inclusive interval from the Monday of the week a week ago to the end of its Sunday. */
  predicate IsLastWeek(t: int, now: int) {
    var weekAgo := DayOf(now - 7 * MsPerDay);
    var start := StartOfWeek(weekAgo);
    StartOfDay(start) <= t <= EndOfDay(start + 6)
  }

  predicate IsThisMonth(t: int, now: int) {
    MonthOf(DayOf(t)) == MonthOf(DayOf(now))
  }

  /** Within the inclusive interval from the first to the end of the last day of the month before `now`'s. */
  predicate IsLastMonth(t: int, now: int) {
    var lastMonth := PrevMonth(MonthOf(DayOf(now)));
    StartOfDay(DayNumber(lastMonth, 1)) <= t <= EndOfDay(DayNumber(lastMonth, DaysInMonth(lastMonth)))
  }

  /** date-fns `MMM` in English. */
  function MonthAbbrev(month: int): (s: string)
    requires 1 <= month <= 12
    ensures |s| == 3
  {
    ["Jan", "Feb", "Mar", "Apr", "May", "Jun", "Jul", "Aug", "Sep", "Oct", "Nov", "Dec"][month - 1]
  }

  function PadTo4(s: string): (r: string)
    ensures |r| >= 4
    decreases 4 - |s|
  {
    if |s| >= 4 then s else PadTo4("0" + s)
  }

  /** date-fns `yyyy`: the year of the era, zero-padded to four digits (year 0 is 1 BC). */
  function YearText(year: int): string {
    PadTo4(NatToString(if year > 0 then year else 1 - year))
  }

  /** date-fns `format(d, 'MMM yyyy')` for the month `ym`. */
  function MonthYearText(ym: YearMonth): (s: string)
    requires ValidMonth(ym)
    ensures |s| >= 8 && s[3] == ' '
  {
    MonthAbbrev(ym.month) + " " + YearText(ym.year)
  }

  /** `getDateGroup`: the first bucket, in the fixed order, whose test the date passes. */
  function GetDateGroup(t: int, now: int): GroupInfo {
    if IsToday(t, now) then GroupInfo("today", "Today")
    else if IsYesterday(t, now) then GroupInfo("yesterday", "Yesterday")
    else if IsThisWeek(t, now) then GroupInfo("this-week", "This Week")
    else if IsLastWeek(t, now) then GroupInfo("last-week", "Last Week")
    else if IsThisMonth(t, now) then GroupInfo("this-month", "This Month")
    else if IsLastMonth(t, now) then GroupInfo("last-month", "Last Month")
    else
      var monthYear := MonthYearText(MonthOf(DayOf(t)));
      GroupInfo(monthYear, monthYear)
  }

  /** The six fixed keys; no month key is one of them. */
  predicate IsFixedKey(key: string) {
    key in ["today", "yesterday", "this-week", "last-week", "this-month", "last-month"]
  }

  /** The heading that belongs to a key: the fixed headings, or the key itself for a month. */
  function LabelForKey(key: string): string {
    if key == "today" then "Today"
    else if key == "yesterday" then "Yesterday"
    else if key == "this-week" then "This Week"
    else if key == "last-week" then "Last Week"
    else if key == "this-month" then "This Month"
    else if key == "last-month" then "Last Month"
    else key
  }

  /** `getDateGroup` at a fixed `now`, as the function value the grouping applies to each date. */
  function Bucketer(now: int): int -> GroupInfo {
    t => GetDateGroup(t, now)
  }

  /**
   * First match wins: each fixed bucket takes exactly the dates that pass its
   * own test and none of the earlier ones; every other date gets a month
   * bucket whose key is also its heading, and every heading is the one that
   * belongs to its key.
   */
  lemma GetDateGroupFirstMatch(t: int, now: int)
    ensures var g := GetDateGroup(t, now);
      && (g.group == "today" <==> IsToday(t, now))
      && (g.group == "yesterday" <==> !IsToday(t, now) && IsYesterday(t, now))
      && (g.group == "this-week" <==>
            !IsToday(t, now) && !IsYesterday(t, now) && IsThisWeek(t, now))
      && (g.group == "last-week" <==>
            !IsToday(t, now) && !IsYesterday(t, now) && !IsThisWeek(t, now) && IsLastWeek(t, now))
      && (g.group == "this-month" <==>
            !IsToday(t, now) && !IsYesterday(t, now) && !IsThisWeek(t, now) && !IsLastWeek(t, now)
            && IsThisMonth(t, now))
      && (g.group == "last-month" <==>
            !IsToday(t, now) && !IsYesterday(t, now) && !IsThisWeek(t, now) && !IsLastWeek(t, now)
            && !IsThisMonth(t, now) && IsLastMonth(t, now))
      && (!IsFixedKey(g.group) ==> g.group == g.labelText == MonthYearText(MonthOf(DayOf(t))))
      && g.labelText == LabelForKey(g.group)
  {
    var today, yesterday, thisWeek := IsToday(t, now), IsYesterday(t, now), IsThisWeek(t, now);
    var lastWeek, thisMonth, lastMonth := IsLastWeek(t, now), IsThisMonth(t, now), IsLastMonth(t, now);
    var monthYear := MonthYearText(MonthOf(DayOf(t)));
    MonthYearIsNotFixed(MonthOf(DayOf(t)));
    if today {
    } else if yesterday {
    } else if thisWeek {
    } else if lastWeek {
    } else if thisMonth {
    } else if lastMonth {
    } else {
      assert GetDateGroup(t, now) == GroupInfo(monthYear, monthYear);
    }
  }

  lemma MonthYearIsNotFixed(ym: YearMonth)
    requires ValidMonth(ym)
    ensures !IsFixedKey(MonthYearText(ym))
    ensures LabelForKey(MonthYearText(ym)) == MonthYearText(ym)
  {
    var s := MonthYearText(ym);
    assert s[3] == ' ';
  }

  /** A week ago is seven days back. */
  lemma WeekAgo(now: int)
    ensures DayOf(now - 7 * MsPerDay) == DayOf(now) - 7
  {
  }

  /** Last week is exactly the Monday-to-Sunday week before the week of `now`. */
  lemma LastWeekIsWeekBefore(t: int, now: int)
    ensures IsLastWeek(t, now) <==> StartOfWeek(DayOf(t)) == StartOfWeek(DayOf(now)) - 7
  {
    WeekAgo(now);
    StartOfWeekShift(DayOf(now));
    var start := StartOfWeek(DayOf(now)) - 7;
    assert StartOfWeek(DayOf(now - 7 * MsPerDay)) == start;
    DayOfWithin(t, DayOf(t));
    assert IsLastWeek(t, now) <==> start <= DayOf(t) <= start + 6;
    StartOfWeekIs(DayOf(t), start);
  }

  /** The last-month interval ends one millisecond before this month begins: no gap, no overlap. */
  lemma LastMonthEndsWhereThisMonthStarts(now: int)
    ensures var thisMonth := MonthOf(DayOf(now));
      var lastMonth := PrevMonth(thisMonth);
      EndOfDay(DayNumber(lastMonth, DaysInMonth(lastMonth))) + 1 == StartOfDay(DayNumber(thisMonth, 1))
  {
    MonthsAdjoin(MonthOf(DayOf(now)));
  }

  /** Last month is exactly the days whose month is the month before `now`'s. */
  lemma LastMonthIsPreviousMonth(t: int, now: int)
    ensures IsLastMonth(t, now) <==> MonthOf(DayOf(t)) == PrevMonth(MonthOf(DayOf(now)))
  {
    var lastMonth := PrevMonth(MonthOf(DayOf(now)));
    DayOfBetween(t, DayNumber(lastMonth, 1), DayNumber(lastMonth, DaysInMonth(lastMonth)));
    MonthOfWithin(DayOf(t), lastMonth);
  }

  // Worked examples, with `now` at 2024-03-15T10:00 (a Friday, day 19797).

  /** 23:59 on the same day is today. */
  lemma TodayExample()
    ensures GetDateGroup(1710547140000, 1710496800000).group == "today"
  {
    assert DayOf(1710496800000) == 19797 && DayOf(1710547140000) == 19797;
  }

  /** 00:01 on the day before is yesterday. */
  lemma YesterdayExample()
    ensures GetDateGroup(1710374460000, 1710496800000).group == "yesterday"
  {
    assert DayOf(1710496800000) == 19797 && DayOf(1710374460000) == 19796;
  }

  /** Midnight on the Monday of the same week is this week. */
  lemma ThisWeekExample()
    ensures GetDateGroup(1710115200000, 1710496800000).group == "this-week"
  {
    assert DayOf(1710496800000) == 19797 && DayOf(1710115200000) == 19793;
    assert StartOfWeek(19797) == 19793 && StartOfWeek(19793) == 19793;
  }

  /** 2024-01-02 is older than last month and falls in the bucket "Jan 2024". */
  lemma MonthYearExample()
    ensures GetDateGroup(1704153600000, 1710496800000) == GroupInfo("Jan 2024", "Jan 2024")
  {
    JanuaryNotThisWeek();
    JanuaryNotThisMonth();
    JanuaryText();
  }

  lemma JanuaryText()
    ensures MonthYearText(YearMonth(2024, 1)) == "Jan 2024"
  {
    assert NatToString(2) == "2";
    assert NatToString(20) == "20";
    assert NatToString(202) == "202";
    assert NatToString(2024) == "2024";
    assert YearText(2024) == "2024";
  }

  /** 2024-01-02 is neither today, yesterday, this week nor last week at 2024-03-15. */
  lemma JanuaryNotThisWeek()
    ensures !IsToday(1704153600000, 1710496800000) && !IsYesterday(1704153600000, 1710496800000)
    ensures !IsThisWeek(1704153600000, 1710496800000) && !IsLastWeek(1704153600000, 1710496800000)
  {
    assert DayOf(1710496800000) == 19797 && DayOf(1704153600000) == 19724;
    assert StartOfWeek(19797) == 19793 && StartOfWeek(19724) == 19723;
    assert DayOf(1710496800000 - 7 * MsPerDay) == 19790 && StartOfWeek(19790) == 19786;
  }

  /** 2024-01-02 is in neither March nor February 2024. */
  lemma JanuaryNotThisMonth()
    ensures MonthOf(DayOf(1704153600000)) == YearMonth(2024, 1)
    ensures !IsThisMonth(1704153600000, 1710496800000) && !IsLastMonth(1704153600000, 1710496800000)
  {
    assert DayOf(1710496800000) == 19797 && DayOf(1704153600000) == 19724;
    MarchFifteenth();
    JanuarySecond();
    February2024();
  }

  /** February 2024 runs from day 19754 to day 19782 (a leap year's 29 days). */
  lemma February2024()
    ensures PrevMonth(YearMonth(2024, 3)) == YearMonth(2024, 2)
    ensures DayNumber(YearMonth(2024, 2), 1) == 19754
    ensures DaysInMonth(YearMonth(2024, 2)) == 29 && DayNumber(YearMonth(2024, 2), 29) == 19782
  {
    assert IsLeapYear(2024);
  }

  lemma MarchFifteenth()
    ensures MonthOf(19797) == YearMonth(2024, 3)
  {
    assert 739265 / 146097 == 5;
    assert (8780 - 8780 / 1460 + 8780 / 36524 - 8780 / 146096) / 365 == 24;
    assert (5 * 14 + 2) / 153 == 0;
  }

  lemma JanuarySecond()
    ensures MonthOf(19724) == YearMonth(2024, 1)
  {
    assert 739192 / 146097 == 5;
    assert (8707 - 8707 / 1460 + 8707 / 36524 - 8707 / 146096) / 365 == 23;
    assert (5 * 307 + 2) / 153 == 10;
  }

  lemma MarchFirst()
    ensures MonthOf(19783) == YearMonth(2024, 3)
  {
    assert 739251 / 146097 == 5;
    assert (8766 - 8766 / 1460 + 8766 / 36524 - 8766 / 146096) / 365 == 24;
    assert (5 * 0 + 2) / 153 == 0;
  }

  /**
   * A day of this week that lies in the previous month is "this-week", not
   * "last-month": with `now` on Friday 2024-03-01, Monday 2024-02-26 passes
   * the last-month test too, but the week test comes first.
   */
  lemma ThisWeekBeforeLastMonth()
    ensures IsLastMonth(1708905600000, 1709251200000)
    ensures GetDateGroup(1708905600000, 1709251200000).group == "this-week"
  {
    MondayInFebruary();
    MondayThisWeek();
  }

  /** Monday 2024-02-26 starts the week of Friday 2024-03-01, and is neither that day nor the day before. */
  lemma MondayThisWeek()
    ensures DayOf(1709251200000) == 19783 && DayOf(1708905600000) == 19779
    ensures IsThisWeek(1708905600000, 1709251200000)
  {
    assert DayOf(1709251200000) == 19783 && DayOf(1708905600000) == 19779;
    assert StartOfWeek(19783) == 19779 && StartOfWeek(19779) == 19779;
  }

  /** Monday 2024-02-26 lies in the month before Friday 2024-03-01. */
  lemma MondayInFebruary()
    ensures IsLastMonth(1708905600000, 1709251200000)
  {
    assert DayOf(1709251200000) == 19783;
    MarchFirst();
    February2024();
    assert StartOfDay(19754) <= 1708905600000 <= EndOfDay(19782);
  }

  // ---------------------------------------------------------------------------
  // Grouping a list of reviews
  // ---------------------------------------------------------------------------

  /** A date classifier such as `Bucketer(now)`. */
  type Classifier = int -> GroupInfo

  /** Every heading the classifier gives is the one that belongs to the key it gives. */
  ghost predicate LabelsFollowKeys(classify: Classifier) {
    forall t :: classify(t).labelText == LabelForKey(classify(t).group)
  }

  lemma BucketerLabelsFollowKeys(now: int)
    ensures LabelsFollowKeys(Bucketer(now))
  {
    forall t ensures Bucketer(now)(t).labelText == LabelForKey(Bucketer(now)(t).group) {
      GetDateGroupFirstMatch(t, now);
    }
  }

  function KeyOf(r: Review, classify: Classifier): string {
    classify(r.date).group
  }

  /** The reviews whose bucket is `key`, in input order. */
  function ReviewsInGroup(reviews: seq<Review>, key: string, classify: Classifier): (rs: seq<Review>)
    ensures |rs| <= |reviews|
    ensures forall i :: 0 <= i < |rs| ==> rs[i] in reviews && KeyOf(rs[i], classify) == key
  {
    if |reviews| == 0 then []
    else
      var last := reviews[|reviews| - 1];
      ReviewsInGroup(reviews[..|reviews| - 1], key, classify) + (if KeyOf(last, classify) == key then [last] else [])
  }

  lemma ReviewsInGroupSnoc(reviews: seq<Review>, r: Review, key: string, classify: Classifier)
    ensures ReviewsInGroup(reviews + [r], key, classify)
         == ReviewsInGroup(reviews, key, classify) + (if KeyOf(r, classify) == key then [r] else [])
  {
    assert (reviews + [r])[..|reviews|] == reviews;
  }

  /** No review of the list belongs to bucket `key`, so that bucket's list is empty. */
  lemma {:induction false} ReviewsInGroupAbsent(reviews: seq<Review>, key: string, classify: Classifier)
    requires forall k :: 0 <= k < |reviews| ==> KeyOf(reviews[k], classify) != key
    ensures ReviewsInGroup(reviews, key, classify) == []
  {
    if |reviews| > 0 {
      ReviewsInGroupAbsent(reviews[..|reviews| - 1], key, classify);
    }
  }

  function GroupKeys(groups: seq<GroupedReviews>): set<string> {
    set i | 0 <= i < |groups| :: groups[i].group
  }

  predicate DistinctKeys(groups: seq<GroupedReviews>) {
    forall i, j :: 0 <= i < j < |groups| ==> groups[i].group != groups[j].group
  }

  /** Group `g` holds exactly the reviews of its bucket, in input order, and at least one of them. */
  predicate IsGroupOf(g: GroupedReviews, reviews: seq<Review>, classify: Classifier) {
    && g.reviews == ReviewsInGroup(reviews, g.group, classify)
    && |g.reviews| > 0
    && g.labelText == LabelForKey(g.group)
  }
  /** `groups.has(key)` / `groups.get(key)` on the insertion-ordered map of groups. */
  function FindGroup(groups: seq<GroupedReviews>, key: string): (j: nat)
    ensures j <= |groups|
    ensures j < |groups| ==> groups[j].group == key
    ensures forall i :: 0 <= i < j ==> groups[i].group != key
    ensures j == |groups| <==> key !in GroupKeys(groups)
  {
    if |groups| == 0 then 0
    else if groups[0].group == key then 0
    else
      GroupKeysCons(groups);
      1 + FindGroup(groups[1..], key)
  }

  lemma GroupKeysCons(groups: seq<GroupedReviews>)
    requires |groups| > 0
    ensures GroupKeys(groups) == {groups[0].group} + GroupKeys(groups[1..])
  {
    forall key | key in GroupKeys(groups)
      ensures key in {groups[0].group} + GroupKeys(groups[1..])
    {
      var i :| 0 <= i < |groups| && groups[i].group == key;
      if i > 0 {
        assert groups[1..][i - 1].group == key;
      }
    }
    forall key | key in GroupKeys(groups[1..])
      ensures key in GroupKeys(groups)
    {
      var i :| 0 <= i < |groups[1..]| && groups[1..][i].group == key;
      assert groups[i + 1].group == key;
    }
  }

  // The order of the groups: the comparator given to `sort`.

  /** `sortOrder[key] ?? 1000`. */
  function Priority(key: string): (p: int)
    ensures 0 <= p <= 5 || p == 1000
    ensures p == 1000 <==> !IsFixedKey(key)
  {
    if key == "today" then 0
    else if key == "yesterday" then 1
    else if key == "this-week" then 2
    else if key == "last-week" then 3
    else if key == "this-month" then 4
    else if key == "last-month" then 5
    else 1000
  }

  /**
   * The comparator: by priority, then, between two month groups, by the date
   * of the first review, newest first. A group without reviews has no date
   * (NaN), which `sort` reads as 0.
   */
  function CompareGroups(a: GroupedReviews, b: GroupedReviews): int {
    var priorityA, priorityB := Priority(a.group), Priority(b.group);
    if priorityA != priorityB then priorityA - priorityB
    else if priorityA == 1000 && priorityB == 1000 then
      if |a.reviews| == 0 || |b.reviews| == 0 then 0
      else b.reviews[0].date - a.reviews[0].date
    else 0
  }

  /** `a` may come before `b`: lower priority first, month groups newest first. */
  predicate GroupBefore(a: GroupedReviews, b: GroupedReviews) {
    var priorityA, priorityB := Priority(a.group), Priority(b.group);
    priorityA < priorityB
    || (priorityA == priorityB
        && (priorityA != 1000 || |a.reviews| == 0 || |b.reviews| == 0 || b.reviews[0].date <= a.reviews[0].date))
  }

  /** The comparator keeps `a` first (a result of at most 0) exactly when `GroupBefore(a, b)`. */
  lemma CompareGroupsAgrees(a: GroupedReviews, b: GroupedReviews)
    ensures CompareGroups(a, b) <= 0 <==> GroupBefore(a, b)
  {
  }

  predicate SortedGroups(groups: seq<GroupedReviews>) {
    forall i, j :: 0 <= i < j < |groups| ==> GroupBefore(groups[i], groups[j])
  }

  predicate NonEmptyGroups(groups: seq<GroupedReviews>) {
    forall i :: 0 <= i < |groups| ==> |groups[i].reviews| > 0
  }

  lemma GroupKeysSnoc(groups: seq<GroupedReviews>, g: GroupedReviews)
    ensures GroupKeys(groups + [g]) == GroupKeys(groups) + {g.group}
  {
    var r := groups + [g];
    assert forall i :: 0 <= i < |groups| ==> r[i] == groups[i];
    assert r[|groups|] == g;
  }

  /** On groups with reviews, `GroupBefore` is transitive. */
  lemma GroupBeforeTransitive(a: GroupedReviews, b: GroupedReviews, c: GroupedReviews)
    requires |a.reviews| > 0 && |b.reviews| > 0 && |c.reviews| > 0
    requires GroupBefore(a, b) && GroupBefore(b, c)
    ensures GroupBefore(a, c)
  {
  }

  /** Any two groups can be ordered one way or the other. */
  lemma GroupBeforeTotal(a: GroupedReviews, b: GroupedReviews)
    ensures GroupBefore(a, b) || GroupBefore(b, a)
  {
  }

  /** Appending a group that every earlier one may precede keeps the order. */
  lemma SortedSnoc(front: seq<GroupedReviews>, last: GroupedReviews)
    requires SortedGroups(front)
    requires forall x | x in multiset(front) :: GroupBefore(x, last)
    ensures SortedGroups(front + [last])
  {
    var r := front + [last];
    forall i, j | 0 <= i < j < |r| ensures GroupBefore(r[i], r[j]) {
      if j == |front| {
        assert r[i] in multiset(front);
      } else {
        assert r[i] == front[i] && r[j] == front[j];
      }
    }
  }

  /** Everything in a sorted list of groups with reviews may precede what its last group may precede. */
  lemma SortedBeforeLast(sorted: seq<GroupedReviews>, g: GroupedReviews)
    requires SortedGroups(sorted) && NonEmptyGroups(sorted) && |g.reviews| > 0
    requires |sorted| > 0 && GroupBefore(sorted[|sorted| - 1], g)
    ensures forall x | x in multiset(sorted) :: GroupBefore(x, g)
  {
    forall x | x in multiset(sorted) ensures GroupBefore(x, g) {
      var k :| 0 <= k < |sorted| && sorted[k] == x;
      if k < |sorted| - 1 {
        GroupBeforeTransitive(x, sorted[|sorted| - 1], g);
      }
    }
  }

  /** Insert `g` after every group that may precede it (one step of a stable insertion sort). */
  function InsertGroup(sorted: seq<GroupedReviews>, g: GroupedReviews): (r: seq<GroupedReviews>)
    ensures multiset(r) == multiset(sorted) + multiset{g}
  {
    if |sorted| == 0 || GroupBefore(sorted[|sorted| - 1], g) then
      sorted + [g]
    else
      var prefix := sorted[..|sorted| - 1];
      assert sorted == prefix + [sorted[|sorted| - 1]];
      InsertGroup(prefix, g) + [sorted[|sorted| - 1]]
  }

  /** Whatever holds the groups before the last one, plus a group that may precede it, may precede it. */
  lemma PrecedeLast(sorted: seq<GroupedReviews>, g: GroupedReviews, front: seq<GroupedReviews>)
    requires SortedGroups(sorted) && |sorted| > 0
    requires GroupBefore(g, sorted[|sorted| - 1])
    requires multiset(front) == multiset(sorted[..|sorted| - 1]) + multiset{g}
    ensures forall x | x in multiset(front) :: GroupBefore(x, sorted[|sorted| - 1])
  {
    var prefix := sorted[..|sorted| - 1];
    forall x | x in multiset(front) ensures GroupBefore(x, sorted[|sorted| - 1]) {
      assert x in multiset(prefix) || x == g;
      if x != g {
        var k :| 0 <= k < |prefix| && prefix[k] == x;
        assert sorted[k] == x;
      }
    }
  }

  /** Inserting a group with reviews into a sorted list of groups with reviews keeps it sorted. */
  lemma {:induction false} InsertGroupSorted(sorted: seq<GroupedReviews>, g: GroupedReviews)
    requires SortedGroups(sorted) && NonEmptyGroups(sorted) && |g.reviews| > 0
    ensures SortedGroups(InsertGroup(sorted, g)) && NonEmptyGroups(InsertGroup(sorted, g))
  {
    if |sorted| == 0 {
    } else if GroupBefore(sorted[|sorted| - 1], g) {
      SortedBeforeLast(sorted, g);
      SortedSnoc(sorted, g);
    } else {
      var last := sorted[|sorted| - 1];
      var prefix := sorted[..|sorted| - 1];
      assert sorted == prefix + [last];
      InsertGroupSorted(prefix, g);
      var front := InsertGroup(prefix, g);
      GroupBeforeTotal(last, g);
      PrecedeLast(sorted, g, front);
      SortedSnoc(front, last);
    }
  }

  /** Inserting adds exactly the key of `g`. */
  lemma {:induction false} InsertGroupKeys(sorted: seq<GroupedReviews>, g: GroupedReviews)
    ensures GroupKeys(InsertGroup(sorted, g)) == GroupKeys(sorted) + {g.group}
  {
    if |sorted| == 0 || GroupBefore(sorted[|sorted| - 1], g) {
      GroupKeysSnoc(sorted, g);
    } else {
      var last := sorted[|sorted| - 1];
      var prefix := sorted[..|sorted| - 1];
      assert sorted == prefix + [last];
      GroupKeysSnoc(prefix, last);
      InsertGroupKeys(prefix, g);
      GroupKeysSnoc(InsertGroup(prefix, g), last);
    }
  }

  /** Inserting a group with a new key keeps the keys distinct. */
  lemma {:induction false} InsertGroupDistinct(sorted: seq<GroupedReviews>, g: GroupedReviews)
    requires DistinctKeys(sorted) && g.group !in GroupKeys(sorted)
    ensures DistinctKeys(InsertGroup(sorted, g))
  {
    if |sorted| == 0 || GroupBefore(sorted[|sorted| - 1], g) {
      DistinctSnoc(sorted, g);
    } else {
      var last := sorted[|sorted| - 1];
      var prefix := sorted[..|sorted| - 1];
      DistinctPrefix(sorted);
      assert last.group in GroupKeys(sorted);
      InsertGroupDistinct(prefix, g);
      InsertGroupKeys(prefix, g);
      DistinctSnoc(InsertGroup(prefix, g), last);
    }
  }

  /** A group whose key is new keeps the keys distinct when appended. */
  lemma DistinctSnoc(groups: seq<GroupedReviews>, g: GroupedReviews)
    requires DistinctKeys(groups) && g.group !in GroupKeys(groups)
    ensures DistinctKeys(groups + [g])
  {
    var r := groups + [g];
    forall i, j | 0 <= i < j < |r| ensures r[i].group != r[j].group {
      assert r[i] == groups[i];
      if j < |groups| {
        assert r[j] == groups[j];
      } else {
        assert groups[i].group in GroupKeys(groups);
      }
    }
  }

  /** `sort` with the comparator above: a stable insertion sort. */
  function SortGroups(groups: seq<GroupedReviews>): (r: seq<GroupedReviews>)
    ensures multiset(r) == multiset(groups)
  {
    if |groups| == 0 then []
    else
      var prefix := groups[..|groups| - 1];
      assert groups == prefix + [groups[|groups| - 1]];
      InsertGroup(SortGroups(prefix), groups[|groups| - 1])
  }

  /** Sorting groups that all have reviews puts them in the comparator's order. */
  lemma {:induction false} SortGroupsSorted(groups: seq<GroupedReviews>)
    requires NonEmptyGroups(groups)
    ensures SortedGroups(SortGroups(groups)) && NonEmptyGroups(SortGroups(groups))
  {
    if |groups| > 0 {
      var prefix := groups[..|groups| - 1];
      SortGroupsSorted(prefix);
      InsertGroupSorted(SortGroups(prefix), groups[|groups| - 1]);
    }
  }

  /** Sorting keeps the set of keys. */
  lemma {:induction false} SortGroupsKeys(groups: seq<GroupedReviews>)
    ensures GroupKeys(SortGroups(groups)) == GroupKeys(groups)
  {
    if |groups| > 0 {
      var prefix := groups[..|groups| - 1];
      var last := groups[|groups| - 1];
      assert groups == prefix + [last];
      GroupKeysSnoc(prefix, last);
      SortGroupsKeys(prefix);
      InsertGroupKeys(SortGroups(prefix), last);
    }
  }

  /** Sorting keeps the keys distinct. */
  lemma {:induction false} SortGroupsDistinct(groups: seq<GroupedReviews>)
    requires DistinctKeys(groups)
    ensures DistinctKeys(SortGroups(groups))
  {
    if |groups| > 0 {
      var prefix := groups[..|groups| - 1];
      var last := groups[|groups| - 1];
      DistinctPrefix(groups);
      SortGroupsDistinct(prefix);
      SortGroupsKeys(prefix);
      InsertGroupDistinct(SortGroups(prefix), last);
    }
  }

  /** Without its last group, a list of distinct keys keeps them distinct, and lacks the last key. */
  lemma DistinctPrefix(groups: seq<GroupedReviews>)
    requires DistinctKeys(groups) && |groups| > 0
    ensures DistinctKeys(groups[..|groups| - 1])
    ensures groups[|groups| - 1].group !in GroupKeys(groups[..|groups| - 1])
  {
    var prefix := groups[..|groups| - 1];
    forall i | 0 <= i < |prefix| ensures prefix[i].group != groups[|groups| - 1].group {
      assert prefix[i] == groups[i];
    }
  }

  /** Two lists of groups with the same key at every position have the same keys. */
  lemma SameKeys(a: seq<GroupedReviews>, b: seq<GroupedReviews>)
    requires |a| == |b|
    requires forall m :: 0 <= m < |a| ==> a[m].group == b[m].group
    ensures GroupKeys(a) == GroupKeys(b)
  {
    forall key | key in GroupKeys(a) ensures key in GroupKeys(b) {
      var m :| 0 <= m < |a| && a[m].group == key;
      assert b[m].group == key;
    }
    forall key | key in GroupKeys(b) ensures key in GroupKeys(a) {
      var m :| 0 <= m < |b| && b[m].group == key;
      assert a[m].group == key;
    }
  }

  // The groups partition the reviews.

  /** All the reviews of the groups, group after group. */
  function Flatten(groups: seq<GroupedReviews>): seq<Review> {
    if |groups| == 0 then [] else groups[0].reviews + Flatten(groups[1..])
  }

  /** Groups that all have reviews hold at least one review per group. */
  lemma {:induction false} FlattenAtLeastGroups(groups: seq<GroupedReviews>)
    requires NonEmptyGroups(groups)
    ensures |Flatten(groups)| >= |groups|
  {
    if |groups| > 0 {
      FlattenAtLeastGroups(groups[1..]);
    }
  }

  /** The reviews whose bucket is one of `keys`, in input order. */
  function ReviewsInKeys(reviews: seq<Review>, keys: set<string>, classify: Classifier): (rs: seq<Review>)
    ensures |rs| <= |reviews|
  {
    if |reviews| == 0 then []
    else
      var last := reviews[|reviews| - 1];
      ReviewsInKeys(reviews[..|reviews| - 1], keys, classify) + (if KeyOf(last, classify) in keys then [last] else [])
  }

  /** Taking one more bucket adds exactly that bucket's reviews. */
  lemma {:induction false} ReviewsInKeysAdd(reviews: seq<Review>, key: string, keys: set<string>, classify: Classifier)
    requires key !in keys
    ensures multiset(ReviewsInKeys(reviews, {key} + keys, classify))
         == multiset(ReviewsInGroup(reviews, key, classify)) + multiset(ReviewsInKeys(reviews, keys, classify))
  {
    if |reviews| > 0 {
      var prefix, last := reviews[..|reviews| - 1], reviews[|reviews| - 1];
      ReviewsInKeysAdd(prefix, key, keys, classify);
      var k := KeyOf(last, classify);
      var extraBoth := if k in {key} + keys then [last] else [];
      var extraGroup := if k == key then [last] else [];
      var extraKeys := if k in keys then [last] else [];
      assert extraBoth == extraGroup + extraKeys;
      MultisetsAddUp(ReviewsInKeys(prefix, {key} + keys, classify), ReviewsInGroup(prefix, key, classify),
                     ReviewsInKeys(prefix, keys, classify), extraGroup, extraKeys);
    }
  }

  /** Appending to both sides of a multiset sum keeps it. */
  lemma MultisetsAddUp(both: seq<Review>, group: seq<Review>, others: seq<Review>, moreGroup: seq<Review>, moreOthers: seq<Review>)
    requires multiset(both) == multiset(group) + multiset(others)
    ensures multiset(both + (moreGroup + moreOthers)) == multiset(group + moreGroup) + multiset(others + moreOthers)
  {
  }

  /** When every review's bucket is among `keys`, nothing is dropped. */
  lemma {:induction false} ReviewsInKeysAll(reviews: seq<Review>, keys: set<string>, classify: Classifier)
    requires forall k :: 0 <= k < |reviews| ==> KeyOf(reviews[k], classify) in keys
    ensures ReviewsInKeys(reviews, keys, classify) == reviews
  {
    if |reviews| > 0 {
      ReviewsInKeysAll(reviews[..|reviews| - 1], keys, classify);
      assert reviews[..|reviews| - 1] + [reviews[|reviews| - 1]] == reviews;
    }
  }

  /** Groups of distinct buckets hold, together, the reviews of exactly those buckets. */
  lemma {:induction false} FlattenIsReviewsInKeys(groups: seq<GroupedReviews>, reviews: seq<Review>, classify: Classifier)
    requires forall i :: 0 <= i < |groups| ==> IsGroupOf(groups[i], reviews, classify)
    requires DistinctKeys(groups)
    ensures multiset(Flatten(groups)) == multiset(ReviewsInKeys(reviews, GroupKeys(groups), classify))
  {
    if |groups| == 0 {
      assert GroupKeys(groups) == {};
      ReviewsInKeysNone(reviews, classify);
    } else {
      GroupKeysCons(groups);
      FlattenIsReviewsInKeys(groups[1..], reviews, classify);
      assert groups[0].group !in GroupKeys(groups[1..]) by {
        forall i | 0 <= i < |groups[1..]| ensures groups[1..][i].group != groups[0].group {
          assert groups[1..][i] == groups[i + 1];
        }
      }
      ReviewsInKeysAdd(reviews, groups[0].group, GroupKeys(groups[1..]), classify);
    }
  }

  lemma {:induction false} ReviewsInKeysNone(reviews: seq<Review>, classify: Classifier)
    ensures ReviewsInKeys(reviews, {}, classify) == []
  {
    if |reviews| > 0 {
      ReviewsInKeysNone(reviews[..|reviews| - 1], classify);
    }
  }

  /**
   * Groups that each hold their bucket's reviews, have distinct keys and
   * cover every review's bucket together hold every review exactly once.
   */
  lemma GroupsPartitionReviews(groups: seq<GroupedReviews>, reviews: seq<Review>, classify: Classifier)
    requires forall i :: 0 <= i < |groups| ==> IsGroupOf(groups[i], reviews, classify)
    requires forall k :: 0 <= k < |reviews| ==> KeyOf(reviews[k], classify) in GroupKeys(groups)
    requires DistinctKeys(groups)
    ensures multiset(Flatten(groups)) == multiset(reviews)
  {
    FlattenIsReviewsInKeys(groups, reviews, classify);
    ReviewsInKeysAll(reviews, GroupKeys(groups), classify);
  }

  /** What the loop has built after reading `seen`: one group per bucket met so far. */
  ghost predicate GroupsSoFar(groups: seq<GroupedReviews>, seen: seq<Review>, classify: Classifier) {
    && (forall j :: 0 <= j < |groups| ==> IsGroupOf(groups[j], seen, classify))
    && (forall k :: 0 <= k < |seen| ==> KeyOf(seen[k], classify) in GroupKeys(groups))
    && DistinctKeys(groups)
  }

  /**
   * One turn of the loop: create the group of the review's bucket if it is
   * not there yet (at the end, as a `Map` inserts), then push the review onto it.
   */
  function AddReview(groups: seq<GroupedReviews>, review: Review, classify: Classifier): (r: seq<GroupedReviews>)
    ensures |r| == |groups| || |r| == |groups| + 1
    ensures forall j :: 0 <= j < |groups| ==> r[j].group == groups[j].group
  {
    var info := classify(review.date);
    var j := FindGroup(groups, info.group);
    var withGroup := if j == |groups| then groups + [GroupedReviews(info.group, info.labelText, [])] else groups;
    withGroup[j := withGroup[j].(reviews := withGroup[j].reviews + [review])]
  }

  /** The keys after adding a review: the old ones and the review's own. */
  lemma AddReviewKeys(groups: seq<GroupedReviews>, review: Review, classify: Classifier)
    ensures GroupKeys(AddReview(groups, review, classify)) == GroupKeys(groups) + {KeyOf(review, classify)}
    ensures DistinctKeys(groups) ==> DistinctKeys(AddReview(groups, review, classify))
  {
    var info := classify(review.date);
    var j := FindGroup(groups, info.group);
    var withGroup := if j == |groups| then groups + [GroupedReviews(info.group, info.labelText, [])] else groups;
    var r := AddReview(groups, review, classify);
    if j == |groups| {
      GroupKeysSnoc(groups, GroupedReviews(info.group, info.labelText, []));
    }
    SameKeys(r, withGroup);
  }

  /** After adding a review, every group holds exactly its bucket's reviews among those read. */
  lemma AddReviewGroupsOf(groups: seq<GroupedReviews>, seen: seq<Review>, review: Review, classify: Classifier)
    requires LabelsFollowKeys(classify)
    requires forall j :: 0 <= j < |groups| ==> IsGroupOf(groups[j], seen, classify)
    requires forall k :: 0 <= k < |seen| ==> KeyOf(seen[k], classify) in GroupKeys(groups)
    requires DistinctKeys(groups)
    ensures forall m :: 0 <= m < |AddReview(groups, review, classify)| ==>
              IsGroupOf(AddReview(groups, review, classify)[m], seen + [review], classify)
  {
    var info := classify(review.date);
    var j := FindGroup(groups, info.group);
    var r := AddReview(groups, review, classify);
    if j == |groups| {
      ReviewsInGroupAbsent(seen, info.group, classify);
    }
    var withGroup := if j == |groups| then groups + [GroupedReviews(info.group, info.labelText, [])] else groups;
    forall m | 0 <= m < |r| ensures IsGroupOf(r[m], seen + [review], classify) {
      ReviewsInGroupSnoc(seen, review, r[m].group, classify);
      if m == j {
        assert withGroup[j].reviews == ReviewsInGroup(seen, info.group, classify);
        assert r[m].reviews == withGroup[j].reviews + [review];
      } else {
        assert r[m] == groups[m];
        assert groups[m].group != info.group;
      }
    }
  }

  /** Adding the next review keeps the loop's invariant. */
  lemma AddReviewKeepsGroups(groups: seq<GroupedReviews>, seen: seq<Review>, review: Review, classify: Classifier)
    requires LabelsFollowKeys(classify)
    requires GroupsSoFar(groups, seen, classify)
    ensures GroupsSoFar(AddReview(groups, review, classify), seen + [review], classify)
  {
    AddReviewGroupsOf(groups, seen, review, classify);
    AddReviewKeys(groups, review, classify);
    var all := seen + [review];
    forall k | 0 <= k < |all| ensures KeyOf(all[k], classify) in GroupKeys(AddReview(groups, review, classify)) {
      if k < |seen| {
        assert all[k] == seen[k];
      }
    }
  }

  /** The loop's step, stated on the prefixes of the input. */
  lemma GroupStep(groups: seq<GroupedReviews>, reviews: seq<Review>, i: nat, classify: Classifier)
    requires i < |reviews|
    requires LabelsFollowKeys(classify)
    requires GroupsSoFar(groups, reviews[..i], classify)
    ensures GroupsSoFar(AddReview(groups, reviews[i], classify), reviews[..i + 1], classify)
  {
    AddReviewKeepsGroups(groups, reviews[..i], reviews[i], classify);
    assert reviews[..i + 1] == reviews[..i] + [reviews[i]];
  }

  /** Sorting the finished groups keeps every property the loop established, and partitions the reviews. */
  lemma SortKeepsGroups(groups: seq<GroupedReviews>, reviews: seq<Review>, classify: Classifier)
    requires GroupsSoFar(groups, reviews, classify)
    ensures forall i :: 0 <= i < |SortGroups(groups)| ==> IsGroupOf(SortGroups(groups)[i], reviews, classify)
    ensures forall k :: 0 <= k < |reviews| ==> KeyOf(reviews[k], classify) in GroupKeys(SortGroups(groups))
    ensures DistinctKeys(SortGroups(groups))
    ensures SortedGroups(SortGroups(groups))
    ensures multiset(Flatten(SortGroups(groups))) == multiset(reviews)
  {
    SortGroupsSorted(groups);
    SortGroupsKeys(groups);
    SortGroupsDistinct(groups);
    var result := SortGroups(groups);
    forall i | 0 <= i < |result| ensures IsGroupOf(result[i], reviews, classify) {
      assert result[i] in multiset(groups);
    }
    GroupsPartitionReviews(result, reviews, classify);
  }

  /**
   * The loop and the sort of `groupReviewsByDate`, for any classifier: one
   * group per bucket that occurs, holding that bucket's reviews in input
   * order under the bucket's heading; every review lands in the group of its
   * bucket; keys are pairwise distinct; and the groups come in the
   * comparator's order.
   */
  method GroupReviews(reviews: seq<Review>, classify: Classifier) returns (result: seq<GroupedReviews>)
    requires LabelsFollowKeys(classify)
    ensures forall i :: 0 <= i < |result| ==> IsGroupOf(result[i], reviews, classify)
    ensures forall k :: 0 <= k < |reviews| ==> KeyOf(reviews[k], classify) in GroupKeys(result)
    ensures DistinctKeys(result)
    ensures SortedGroups(result)
    ensures multiset(Flatten(result)) == multiset(reviews)
  {
    var groups: seq<GroupedReviews> := [];
    for i := 0 to |reviews|
      invariant GroupsSoFar(groups, reviews[..i], classify)
    {
      GroupStep(groups, reviews, i, classify);
      groups := AddReview(groups, reviews[i], classify);
    }
    assert reviews[..|reviews|] == reviews;
    SortKeepsGroups(groups, reviews, classify);
    result := SortGroups(groups);
  }

  /** `groupReviewsByDate(reviews)` with the clock reading `now`. */
  method GroupReviewsByDate(reviews: seq<Review>, now: int) returns (result: seq<GroupedReviews>)
    ensures forall i :: 0 <= i < |result| ==> IsGroupOf(result[i], reviews, Bucketer(now))
    ensures forall k :: 0 <= k < |reviews| ==> KeyOf(reviews[k], Bucketer(now)) in GroupKeys(result)
    ensures DistinctKeys(result)
    ensures SortedGroups(result)
    ensures multiset(Flatten(result)) == multiset(reviews)
  {
    BucketerLabelsFollowKeys(now);
    result := GroupReviews(reviews, Bucketer(now));
  }
}

/** The learning statistics (StatsController): the streak of active days, the
    seven-day window, and the overview. Each SQL count is a function from a day
    number to the count the query returns, which may be null. */
module StatsController {
  import opened Common

  /** The streak looks back at most this many days. */
  const StreakHorizon := 365
  /** Days in the weekly window, ending with today. */
  const WeekLength := 7
  /** The daily goal the overview reports, whatever the user's setting. */
  const OverviewDailyGoal := 20

  /** A day is active when its count is non-null and positive. */
  predicate Active(countOn: int -> Option<int>, day: int) {
    countOn(day).Some? && countOn(day).value > 0
  }

  /** The day `i` days before today is active. */
  predicate ActiveAgo(countOn: int -> Option<int>, today: int, i: int) {
    Active(countOn, today - i)
  }

  /** The number of consecutive active days from `i` days ago going back,
      not looking past the horizon. */
  function Run(countOn: int -> Option<int>, today: int, i: int): int
    requires 0 <= i <= StreakHorizon
    decreases StreakHorizon - i
  {
    if i == StreakHorizon || !ActiveAgo(countOn, today, i) then 0
    else 1 + Run(countOn, today, i + 1)
  }

  /** The streak: the run from today, or from yesterday when today is inactive. */
  function Streak(countOn: int -> Option<int>, today: int): int {
    if Active(countOn, today) then Run(countOn, today, 0) else Run(countOn, today, 1)
  }

  /** A run is a block of active days that ends at the horizon or at an
      inactive day. */
  lemma {:induction false} RunMeaning(countOn: int -> Option<int>, today: int, i: int)
    requires 0 <= i <= StreakHorizon
    ensures 0 <= Run(countOn, today, i) <= StreakHorizon - i
    ensures forall k :: i <= k < i + Run(countOn, today, i) ==> ActiveAgo(countOn, today, k)
    ensures i + Run(countOn, today, i) == StreakHorizon || !ActiveAgo(countOn, today, i + Run(countOn, today, i))
    decreases StreakHorizon - i
  {
    if i < StreakHorizon && ActiveAgo(countOn, today, i) {
      RunMeaning(countOn, today, i + 1);
    }
  }

  /** The streak lies in [0, 365]; it counts the active days from its start,
      which is today when today is active and yesterday otherwise, and it stops
      at the first inactive day after that start. */
  lemma StreakMeaning(countOn: int -> Option<int>, today: int)
    ensures 0 <= Streak(countOn, today) <= StreakHorizon
    ensures var start := if Active(countOn, today) then 0 else 1;
      && (forall k :: start <= k < start + Streak(countOn, today) ==> ActiveAgo(countOn, today, k))
      && (start + Streak(countOn, today) == StreakHorizon
          || !ActiveAgo(countOn, today, start + Streak(countOn, today)))
  {
    RunMeaning(countOn, today, 0);
    RunMeaning(countOn, today, 1);
  }

  /** An inactive today does not break the streak: yesterday's run counts. */
  lemma InactiveTodayKeepsStreak(countOn: int -> Option<int>, today: int)
    requires !Active(countOn, today) && Active(countOn, today - 1)
    ensures Streak(countOn, today) >= 1
  {
    RunMeaning(countOn, today, 2);
  }

  /** calculateStreak: count active days from today backwards; an inactive
      day stops the count, except today. */
  method CalculateStreak(countOn: int -> Option<int>, today: int) returns (streak: int)
    ensures streak == Streak(countOn, today)
  {
    streak := 0;
    var i := 0;
    while i < StreakHorizon
      invariant 0 <= i <= StreakHorizon
      invariant i == 0 ==> streak == 0
      invariant i >= 1 ==> streak + Run(countOn, today, i) == Streak(countOn, today)
    {
      var count := countOn(today - i);
      if count.Some? && count.value > 0 {
        streak := streak + 1;
      } else if i > 0 {
        break;
      }
      i := i + 1;
    }
  }

  /** One day of the weekly window. */
  datatype DayStat = DayStat(date: int, count: int, reviewCount: int)

  /** getWeeklyStats: the seven days ending with today, oldest first, null
      counts reported as 0. */
  method GetWeeklyStats(today: int, learnedOn: int -> Option<int>, reviewedOn: int -> Option<int>)
    returns (week: seq<DayStat>)
    ensures |week| == WeekLength
    ensures forall k :: 0 <= k < |week| ==> week[k].date == today - (WeekLength - 1) + k
    ensures forall k :: 0 <= k < |week| ==>
      week[k].count == OrElse(learnedOn(week[k].date), 0)
      && week[k].reviewCount == OrElse(reviewedOn(week[k].date), 0)
    ensures week[|week| - 1].date == today
    ensures forall j, k :: 0 <= j < k < |week| ==> week[j].date < week[k].date
  {
    week := [];
    var i := WeekLength - 1;
    while i >= 0
      invariant -1 <= i <= WeekLength - 1
      invariant |week| == WeekLength - 1 - i
      invariant forall k :: 0 <= k < |week| ==> week[k].date == today - (WeekLength - 1) + k
      invariant forall k :: 0 <= k < |week| ==>
        week[k].count == OrElse(learnedOn(week[k].date), 0)
        && week[k].reviewCount == OrElse(reviewedOn(week[k].date), 0)
    {
      var date := today - i;
      var learnCount := learnedOn(date);
      var reviewCount := reviewedOn(date);
      week := week + [DayStat(date, if learnCount.Some? then learnCount.value else 0,
                                    if reviewCount.Some? then reviewCount.value else 0)];
      i := i - 1;
    }
  }

  /** The overview figures. */
  datatype Overview = Overview(todayLearned: int, pendingReview: int, totalWords: int,
                               streakDays: int, dailyGoal: int)

  /** getOverview: the three counts with null as 0, the streak, and the
      constant daily goal. */
  method GetOverview(todayLearned: Option<int>, pendingReview: Option<int>, totalWords: Option<int>,
                     createdOn: int -> Option<int>, today: int)
    returns (r: Overview)
    ensures r.todayLearned == OrElse(todayLearned, 0)
    ensures r.pendingReview == OrElse(pendingReview, 0)
    ensures r.totalWords == OrElse(totalWords, 0)
    ensures r.streakDays == Streak(createdOn, today) && 0 <= r.streakDays <= StreakHorizon
    ensures r.dailyGoal == OverviewDailyGoal
  {
    var streak := CalculateStreak(createdOn, today);
    StreakMeaning(createdOn, today);
    r := Overview(if todayLearned.Some? then todayLearned.value else 0,
                  if pendingReview.Some? then pendingReview.value else 0,
                  if totalWords.Some? then totalWords.value else 0,
                  streak, OverviewDailyGoal);
  }
}

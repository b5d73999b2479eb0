/**
 Streak counters of the learning features. Courses and patterns count calendar
 days; LeetCode and HackerRank count attempts. Dates are day numbers.
 */
module Streaks {
  import opened Outcomes

  datatype Streak = Streak(current: nat, longest: nat, last: Option<int>)

  const FRESH := Streak(0, 0, None)

  function Max(a: nat, b: nat): nat {
    if a < b then b else a
  }

  /** Courses and patterns: another activity on the same day changes nothing. */
  function CountDay(s: Streak, today: int): Streak {
    var current :=
      if s.last.None? then 1
      else if today - s.last.value <= 1 then (if today != s.last.value then s.current + 1 else s.current)
      else 1;
    Streak(current, Max(s.longest, current), Some(today))
  }

  /** LeetCode and HackerRank: every attempt within a day of the previous one counts. */
  function CountAttempt(s: Streak, today: int): Streak {
    var current := if s.last.Some? && today - s.last.value <= 1 then s.current + 1 else 1;
    Streak(current, Max(s.longest, current), Some(today))
  }

  /** A progress row of a course or of the pattern trainer. */
  class LearningProgress {
    var streak: nat
    var longestStreak: nat
    var lastActivity: Option<int>

    constructor ()
      ensures State() == FRESH
    {
      streak, longestStreak, lastActivity := 0, 0, None;
    }

    function State(): Streak
      reads this
    {
      Streak(streak, longestStreak, lastActivity)
    }

    method BumpStreak(today: int)
      modifies this
      ensures State() == CountDay(old(State()), today)
      ensures lastActivity == Some(today) && longestStreak == if old(longestStreak) < streak then streak else old(longestStreak)
      ensures streak ==
        if old(lastActivity).None? || old(lastActivity).value + 1 < today then 1
        else if old(lastActivity).value == today then old(streak)
        else old(streak) + 1
    {
      if lastActivity.Some? {
        if today - lastActivity.value <= 1 {
          if today != lastActivity.value {
            streak := streak + 1;
          }
        } else if today != lastActivity.value {
          streak := 1;
        }
      } else {
        streak := 1;
      }
      longestStreak := Max(longestStreak, streak);
      lastActivity := Some(today);
    }
  }

  /** A progress row of LeetCode or HackerRank. */
  class AttemptProgress {
    var streak: nat
    var longestStreak: nat
    var lastActivity: Option<int>

    constructor ()
      ensures State() == FRESH
    {
      streak, longestStreak, lastActivity := 0, 0, None;
    }

    function State(): Streak
      reads this
    {
      Streak(streak, longestStreak, lastActivity)
    }

    method BumpStreak(today: int)
      modifies this
      ensures State() == CountAttempt(old(State()), today)
      ensures lastActivity == Some(today) && longestStreak == if old(longestStreak) < streak then streak else old(longestStreak)
      ensures streak == if old(lastActivity).None? || old(lastActivity).value + 1 < today then 1 else old(streak) + 1
    {
      if lastActivity.Some? {
        if today - lastActivity.value <= 1 {
          streak := streak + 1;
        } else if today != lastActivity.value {
          streak := 1;
        }
      } else {
        streak := 1;
      }
      longestStreak := Max(longestStreak, streak);
      lastActivity := Some(today);
    }
  }

  // ---------------------------------------------------------------- histories

  /** The row after activities on the given days. */
  function Days(dates: seq<int>): Streak {
    if dates == [] then FRESH else CountDay(Days(dates[..|dates| - 1]), dates[|dates| - 1])
  }

  function Attempts(dates: seq<int>): Streak {
    if dates == [] then FRESH else CountAttempt(Attempts(dates[..|dates| - 1]), dates[|dates| - 1])
  }

  /** On every history, dates that go back included, the longest streak is the largest value the current one ever had. */
  lemma {:induction false} LongestIsTheLargest(dates: seq<int>) returns (day: nat, attempt: nat)
    ensures day <= |dates| && attempt <= |dates|
    ensures Days(dates).longest == Days(dates[..day]).current && Attempts(dates).longest == Attempts(dates[..attempt]).current
    ensures forall k :: 0 <= k <= |dates| ==> Days(dates[..k]).current <= Days(dates).longest
    ensures forall k :: 0 <= k <= |dates| ==> Attempts(dates[..k]).current <= Attempts(dates).longest
  {
    day, attempt := 0, 0;
    assert dates[..|dates|] == dates;
    if dates != [] {
      var before := dates[..|dates| - 1];
      day, attempt := LongestIsTheLargest(before);
      assert forall k :: 0 <= k < |dates| ==> dates[..k] == before[..k];
      day := if Days(before).longest < Days(dates).current then |dates| else day;
      attempt := if Attempts(before).longest < Attempts(dates).current then |dates| else attempt;
    }
  }

  predicate NonDecreasing(dates: seq<int>) {
    forall i, j :: 0 <= i < j < |dates| ==> dates[i] <= dates[j]
  }

  predicate Active(dates: seq<int>, day: int) {
    day in dates
  }

  /** Every day from `first` up to but excluding `end` has an activity. */
  ghost predicate RunOfDays(dates: seq<int>, first: int, end: int) {
    forall day :: first <= day < end ==> Active(dates, day)
  }

  lemma SplitLast(dates: seq<int>)
    requires dates != []
    ensures forall day :: Active(dates, day) <==> Active(dates[..|dates| - 1], day) || day == dates[|dates| - 1]
  {
    assert dates == dates[..|dates| - 1] + [dates[|dates| - 1]];
  }

  /** The current streak is the length of the run of consecutive days that ends on the last date: it cannot be extended. */
  lemma {:induction false} CurrentStreakIsTheRun(dates: seq<int>)
    requires dates != [] && NonDecreasing(dates)
    ensures
      var last, streak := dates[|dates| - 1], Days(dates).current;
      && Days(dates).last == Some(last)
      && streak >= 1
      && RunOfDays(dates, last - streak + 1, last + 1)
      && !Active(dates, last - streak)
  {
    var before := dates[..|dates| - 1];
    SplitLast(dates);
    if before != [] {
      CurrentStreakIsTheRun(before);
    }
  }

  /** No run of consecutive days anywhere is longer than the longest streak. */
  lemma {:induction false} LongestStreakIsAnUpperBound(dates: seq<int>, first: int, length: nat)
    requires NonDecreasing(dates) && RunOfDays(dates, first, first + length)
    ensures length <= Days(dates).longest
  {
    if dates == [] {
      assert length > 0 ==> Active(dates, first);
    } else {
      var before, last := dates[..|dates| - 1], dates[|dates| - 1];
      SplitLast(dates);
      CurrentStreakIsTheRun(dates);
      if first <= last < first + length {
        assert Active(dates, first + length - 1);
        assert !(first <= last - Days(dates).current);
      } else {
        assert forall day :: first <= day < first + length && Active(dates, day) ==> Active(before, day);
        LongestStreakIsAnUpperBound(before, first, length);
      }
    }
  }

  /** The longest streak is the length of some run of consecutive days. */
  lemma {:induction false} LongestStreakIsReached(dates: seq<int>) returns (first: int)
    requires NonDecreasing(dates)
    ensures RunOfDays(dates, first, first + Days(dates).longest)
  {
    first := 0;
    if dates != [] {
      var before, last := dates[..|dates| - 1], dates[|dates| - 1];
      SplitLast(dates);
      CurrentStreakIsTheRun(dates);
      if Days(dates).longest == Days(dates).current {
        first := last - Days(dates).current + 1;
      } else {
        first := LongestStreakIsReached(before);
      }
    }
  }

  // ------------------------------------------------------------ the two counters

  /** The dates of the current run, repetitions included, are the last `Attempts(dates).current` ones. */
  lemma {:induction false} AttemptsOfTheRun(dates: seq<int>)
    requires dates != [] && NonDecreasing(dates)
    ensures
      var last, n, streak := dates[|dates| - 1], Attempts(dates).current, Days(dates).current;
      && Attempts(dates).last == Some(last)
      && 1 <= n <= |dates|
      && (forall i :: |dates| - n <= i < |dates| ==> last - streak < dates[i])
      && (forall i :: 0 <= i < |dates| - n ==> dates[i] < last - streak)
  {
    var before := dates[..|dates| - 1];
    CurrentStreakIsTheRun(dates);
    if before != [] {
      AttemptsOfTheRun(before);
      CurrentStreakIsTheRun(before);
    }
  }

  /** No two activities of the current run fall on one day. */
  ghost predicate NoDayRepeats(dates: seq<int>, streak: nat) {
    dates != [] ==>
      forall i, j :: 0 <= i < j < |dates| && dates[|dates| - 1] - streak < dates[i] ==> dates[i] != dates[j]
  }

  /** Counting attempts never gives less than counting days, and the same exactly when no day of the run repeats. */
  lemma {:induction false} AttemptsAgainstDays(dates: seq<int>)
    requires NonDecreasing(dates)
    ensures Days(dates).current <= Attempts(dates).current
    ensures Days(dates).current == Attempts(dates).current <==> NoDayRepeats(dates, Days(dates).current)
  {
    hide RunOfDays, Active;
    if |dates| > 1 {
      var before, last := dates[..|dates| - 1], dates[|dates| - 1];
      AttemptsAgainstDays(before);
      CurrentStreakIsTheRun(before);
      AttemptsOfTheRun(before);
      var previous := before[|before| - 1];
      if last == previous {
        assert dates[|dates| - 2] == dates[|dates| - 1];
      } else if last == previous + 1 {
        assert forall i :: 0 <= i < |before| ==> dates[i] == before[i] && before[i] != last;
      }
    }
  }

  /** The longest attempt streak dominates the longest day streak as well. */
  lemma {:induction false} LongestAttemptsAgainstDays(dates: seq<int>)
    requires NonDecreasing(dates)
    ensures Days(dates).longest <= Attempts(dates).longest
  {
    if dates != [] {
      LongestAttemptsAgainstDays(dates[..|dates| - 1]);
      AttemptsAgainstDays(dates);
    }
  }

  /** A clock that goes back earns days that were never a run: the order of the dates is needed. */
  lemma BackwardClockInflates()
    ensures Days([5, 3]).current == 2 && !Active([5, 3], 4)
  {
    assert [5, 3][..1] == [5] && [5][..0] == [];
    assert Days([5]) == CountDay(FRESH, 5);
    assert Days([5, 3]) == CountDay(Days([5]), 3);
  }
}

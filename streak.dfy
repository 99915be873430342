/**
 * The streak calculator (`calculateStreak` in `useStreak`): from the set of days a user has logged,
 * whether today is logged and how many consecutive days end at today, or at yesterday when today
 * is not logged yet. Days are day numbers, so "yesterday" is `today - 1`.
 */
module Streak {
  import opened Wrappers
  import Activity

  /** Days `anchor`, `anchor - 1`, ..., `anchor - (k - 1)` are logged and `anchor - k` is not: a maximal run of length `k`. */
  ghost predicate IsRun(days: set<int>, anchor: int, k: nat) {
    && (forall d | anchor - k < d <= anchor :: d in days)
    && anchor - k !in days
  }

  /** A maximal run from a given anchor has only one length. */
  lemma RunUnique(days: set<int>, anchor: int, k1: nat, k2: nat)
    requires IsRun(days, anchor, k1) && IsRun(days, anchor, k2)
    ensures k1 == k2
  {
  }

  /** The length of the run of logged days ending at `anchor`. */
  function RunLength(days: set<int>, anchor: int): (k: nat)
    ensures k <= |days|
    ensures IsRun(days, anchor, k)
    decreases |days|
  {
    if anchor in days then
      var k := RunLength(days - {anchor}, anchor - 1);
      RunExtends(days, anchor, k);
      1 + k
    else 0
  }

  /** A run from `anchor - 1` in the log without `anchor`, plus a logged `anchor`, is a run one longer from `anchor`. */
  lemma RunExtends(days: set<int>, anchor: int, k: nat)
    requires anchor in days && IsRun(days - {anchor}, anchor - 1, k)
    ensures IsRun(days, anchor, k + 1)
  {
    forall d | anchor - (k + 1) < d <= anchor ensures d in days {
      if d < anchor { assert d in days - {anchor}; }
    }
  }

  /** A run of `hi - lo` logged days fits in the log: the walk cannot count more days than there are. */
  lemma {:induction false} CountedDaysFit(days: set<int>, lo: int, hi: int)
    requires lo <= hi
    requires forall d | lo < d <= hi :: d in days
    ensures hi - lo <= |days|
  {
    if lo < hi {
      CountedDaysFit(days - {hi}, lo, hi - 1);
    }
  }

  /** The backward walk: count days from `anchor` down while each one is logged. */
  method CountRun(days: set<int>, anchor: int) returns (count: nat)
    ensures IsRun(days, anchor, count)
    ensures count == RunLength(days, anchor)
  {
    count := 0;
    var checkDate := anchor;
    while true
      invariant checkDate == anchor - count
      invariant forall d | checkDate < d <= anchor :: d in days
      invariant count <= |days|
      decreases |days| - count
    {
      if checkDate in days {
        CountedDaysFit(days, checkDate - 1, anchor);
        count := count + 1;
        checkDate := checkDate - 1;
      } else {
        break;
      }
    }
    RunUnique(days, anchor, count, RunLength(days, anchor));
  }

  /** Where the walk starts: today if logged, else yesterday if logged, else nowhere (the streak is broken). */
  function Anchor(days: set<int>, today: int): (a: Option<int>)
    ensures a.None? <==> today !in days && today - 1 !in days
    ensures a.Some? ==> a.value in days
    ensures a.Some? && today in days ==> a.value == today
    ensures a.Some? && today !in days ==> a.value == today - 1
  {
    if !(today in days) && !(today - 1 in days) then None
    else if today in days then Some(today)
    else Some(today - 1)
  }

  /** The streak for a non-empty log. */
  function StreakLength(days: set<int>, today: int): (n: nat)
    ensures n <= |days|
    ensures n == 0 <==> today !in days && today - 1 !in days
    ensures n > 0 ==> IsRun(days, Anchor(days, today).value, n)
  {
    match Anchor(days, today)
    case None => 0
    case Some(a) => RunLength(days, a)
  }

  /** The set of dates `new Set(logs.map(l => l.date))`. */
  function DaySet(dates: seq<int>): (days: set<int>)
    ensures forall d :: d in days <==> d in dates
  {
    set d | d in dates
  }

  /** The streak is `k` exactly when the anchor starts a maximal run of `k` logged days (`k > 0`). */
  lemma StreakIsRun(days: set<int>, today: int, k: nat)
    requires k > 0
    ensures StreakLength(days, today) == k <==>
      Anchor(days, today).Some? && IsRun(days, Anchor(days, today).value, k)
  {
    if Anchor(days, today).Some? && IsRun(days, Anchor(days, today).value, k) {
      RunUnique(days, Anchor(days, today).value, k, StreakLength(days, today));
    }
  }

  /** Logging today, when today was not yet logged, lengthens the streak by exactly one day. */
  lemma LoggingTodayExtends(days: set<int>, today: int)
    requires today !in days
    ensures StreakLength(days + {today}, today) == StreakLength(days, today) + 1
  {
    var after := days + {today};
    var k := StreakLength(days, today);
    if today - 1 in days {
      assert IsRun(days, today - 1, k);
      assert IsRun(after, today, k + 1);
      RunUnique(after, today, k + 1, StreakLength(after, today));
    } else {
      assert IsRun(after, today, 1);
      RunUnique(after, today, 1, StreakLength(after, today));
    }
  }

  /** Recording activity in the store makes the streak one day longer when today had no row yet. */
  lemma RecordingTodayExtendsStreak(rows: map<Activity.Key, int>, user: string, today: int)
    requires (user, today) !in rows
    ensures StreakLength(Activity.DaysOf(Activity.AfterLog(rows, user, today, Activity.NoFault), user), today)
         == StreakLength(Activity.DaysOf(rows, user), today) + 1
  {
    Activity.LoggingAddsToday(rows, user, today);
    LoggingTodayExtends(Activity.DaysOf(rows, user), today);
  }

  /** Records on days D, D-1 and D-2 but not D-3, today D: streak 3. */
  lemma ThreeDaysUpToToday(d: int)
    ensures StreakLength({d, d - 1, d - 2}, d) == 3
  {
    StreakIsRun({d, d - 1, d - 2}, d, 3);
  }

  /** Records on D-1, D-2 and D-3 but none today: yesterday still counts, streak 3. */
  lemma GraceDay(d: int)
    ensures StreakLength({d - 1, d - 2, d - 3}, d) == 3
  {
    StreakIsRun({d - 1, d - 2, d - 3}, d, 3);
  }

  /** Records on D-2 and D-3 only: the streak is broken. */
  lemma BrokenStreak(d: int)
    ensures StreakLength({d - 2, d - 3}, d) == 0
  {
  }

  /** Records on D, D-1 and D-5: the disconnected day D-5 is not counted. */
  lemma DisconnectedDayIgnored(d: int)
    ensures StreakLength({d, d - 1, d - 5}, d) == 2
  {
    StreakIsRun({d, d - 1, d - 5}, d, 2);
  }

  /** With today not logged and yesterday logged, the streak is the run ending at yesterday. */
  lemma GraceDayRule(days: set<int>, today: int)
    requires today !in days && today - 1 in days
    ensures StreakLength(days, today) == RunLength(days, today - 1) >= 1
  {
  }

  /** With neither today nor yesterday logged, the streak is 0 whatever older days are logged. */
  lemma BrokenStreakRule(days: set<int>, today: int)
    requires today !in days && today - 1 !in days
    ensures StreakLength(days, today) == 0
  {
  }

  /** A day logged beyond the first gap before the anchor does not change the streak. */
  lemma DayBeyondGapIgnored(days: set<int>, today: int, e: int)
    requires Anchor(days, today).Some? && e < Anchor(days, today).value - StreakLength(days, today)
    ensures StreakLength(days + {e}, today) == StreakLength(days, today)
  {
    var a := Anchor(days, today).value;
    var k := StreakLength(days, today);
    assert Anchor(days + {e}, today) == Some(a);
    assert IsRun(days + {e}, a, k);
    RunUnique(days + {e}, a, k, StreakLength(days + {e}, today));
  }

  /** The state `useStreak` exposes, updated by `calculateStreak` once the component mounts. */
  class StreakHook {
    var streak: int
    var hasLoggedToday: bool
    var loading: bool

    constructor ()
      ensures streak == 0 && !hasLoggedToday && loading
    {
      streak, hasLoggedToday, loading := 0, false, true;
    }

    /**
     * `calculateStreak`: `user` is the signed-in user, if any; `fetched` is the answer to the query
     * for that user's log dates (`None` when the query fails); `today` is the current day.
     */
    method CalculateStreak(user: Option<string>, fetched: Option<seq<int>>, today: int)
      modifies this
      ensures !loading
      ensures user.None? || fetched.None? ==>
        streak == old(streak) && hasLoggedToday == old(hasLoggedToday)
      ensures user.Some? && fetched.Some? && fetched.value == [] ==>
        streak == 0 && !hasLoggedToday
      ensures user.Some? && fetched.Some? && fetched.value != [] ==>
        && streak == StreakLength(DaySet(fetched.value), today)
        && hasLoggedToday == (old(hasLoggedToday) || today in fetched.value)
    {
      if user.None? {
        loading := false;
        return;
      }
      if fetched.None? {
        loading := false;  // the error is logged
        return;
      }
      var logs := fetched.value;
      if |logs| == 0 {
        streak, hasLoggedToday, loading := 0, false, false;
        return;
      }
      var yesterday := today - 1;
      var logDates := DaySet(logs);
      if today in logDates {
        hasLoggedToday := true;
      }
      if !(today in logDates) && !(yesterday in logDates) {
        streak, loading := 0, false;
        return;
      }
      var dateToStart := if today in logDates then today else yesterday;
      var currentStreak := CountRun(logDates, dateToStart);
      streak, loading := currentStreak, false;
    }
  }
}

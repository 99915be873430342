/**
 * The activity recorder: the `progress_logs` table keyed by (user id, day), and `logActivity`,
 * which looks up today's row for the user and then either increments its `value` or inserts
 * a row with value 1. Every failure is swallowed.
 */
module Activity {
  import opened Wrappers

  /** A row's natural key: (user id, day number). */
  type Key = (string, int)

  /** The error code the store reports when a single-row lookup finds no row. */
  const NO_ROWS := "PGRST116"

  /** What goes wrong, if anything, during one call; injected because the store is remote. */
  datatype Fault =
    | NoFault
    | LookupError(code: string)  // the lookup answers with this error code instead of the row
    | LookupThrew                // the lookup request throws; the catch block only logs
    | WriteLost                  // the update or insert fails; its error is never inspected

  /** The table after one call of `logActivity(user)` on day `today`, as a function of the table before. */
  function AfterLog(rows: map<Key, int>, user: string, today: int, fault: Fault): (r: map<Key, int>)
    ensures forall k | k in rows && k != (user, today) :: k in r && r[k] == rows[k]
    ensures forall k | k in r :: k in rows || k == (user, today)
    ensures fault.NoFault? ==> (user, today) in r
    ensures fault.NoFault? && (user, today) in rows ==> r[(user, today)] == rows[(user, today)] + 1
    ensures fault.NoFault? && (user, today) !in rows ==> r[(user, today)] == 1
    ensures fault.LookupThrew? || fault.WriteLost? ==> r == rows
    ensures fault.LookupError? && fault.code != NO_ROWS ==> r == rows
    ensures fault.LookupError? && fault.code == NO_ROWS ==> r == rows[(user, today) := 1]
  {
    var key := (user, today);
    match fault
    case LookupThrew => rows
    case WriteLost => rows
    case LookupError(code) => if code != NO_ROWS then rows else rows[key := 1]
    case NoFault => if key in rows then rows[key := rows[key] + 1] else rows[key := 1]
  }

  /** The days on which `user` has a row: what the streak query reads. */
  function DaysOf(rows: map<Key, int>, user: string): (days: set<int>)
    ensures forall d :: d in days <==> (user, d) in rows
  {
    set k | k in rows && k.0 == user :: k.1
  }

  /** A successful call adds today to the user's logged days. */
  lemma LoggingAddsToday(rows: map<Key, int>, user: string, today: int)
    ensures DaysOf(AfterLog(rows, user, today, NoFault), user) == DaysOf(rows, user) + {today}
  {
    var r := AfterLog(rows, user, today, NoFault);
    assert forall d :: d in DaysOf(r, user) <==> d in DaysOf(rows, user) + {today};
  }

  /** A call for one user, whatever its fault, leaves every other user's logged days alone. */
  lemma LoggingKeepsOtherUsers(rows: map<Key, int>, user: string, today: int, fault: Fault, other: string)
    requires other != user
    ensures DaysOf(AfterLog(rows, user, today, fault), other) == DaysOf(rows, other)
  {
    var r := AfterLog(rows, user, today, fault);
    assert forall d :: d in DaysOf(r, other) <==> d in DaysOf(rows, other);
  }

  /** `n` successful calls for the same user on the same day. */
  function LogRepeatedly(rows: map<Key, int>, user: string, today: int, n: nat): map<Key, int>
  {
    if n == 0 then rows else AfterLog(LogRepeatedly(rows, user, today, n - 1), user, today, NoFault)
  }

  /** Starting with no row for (user, today), `n` successful calls leave one row whose value is `n`, and change no other row. */
  lemma {:induction false} RepeatedLogsCount(rows: map<Key, int>, user: string, today: int, n: nat)
    requires (user, today) !in rows
    ensures n > 0 ==> (user, today) in LogRepeatedly(rows, user, today, n)
    ensures n > 0 ==> LogRepeatedly(rows, user, today, n)[(user, today)] == n
    ensures LogRepeatedly(rows, user, today, n) - {(user, today)} == rows
  {
    if n > 0 {
      RepeatedLogsCount(rows, user, today, n - 1);
    }
  }

  /** The table as a mutable store; `Valid` says every row's value is a positive count. */
  class ProgressLogs {
    var rows: map<Key, int>

    ghost predicate Valid()
      reads this
    {
      forall k | k in rows :: rows[k] >= 1
    }

    constructor ()
      ensures Valid() && rows == map[]
    {
      rows := map[];
    }

    /** `logActivity(userId)` on day `today`: look up, then update or insert; never raises. */
    method LogActivity(userId: string, today: int, fault: Fault)
      requires Valid()
      modifies this
      ensures Valid()
      ensures rows == AfterLog(old(rows), userId, today, fault)
    {
      var key := (userId, today);
      if fault.LookupThrew? {
        return;  // caught and logged
      }
      var data: Option<int>;
      var error: Option<string>;
      if fault.LookupError? {
        data, error := None, Some(fault.code);
      } else if key in rows {
        data, error := Some(rows[key]), None;
      } else {
        data, error := None, Some(NO_ROWS);
      }
      if error.Some? && error.value != NO_ROWS {
        return;  // logged, nothing written
      }
      if fault.WriteLost? {
        return;  // the write's own error is not looked at
      }
      if data.Some? {
        rows := rows[key := data.value + 1];
      } else {
        rows := rows[key := 1];
      }
    }
  }
}

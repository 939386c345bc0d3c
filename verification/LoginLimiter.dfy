/**
  The lockout after failed sign-ins, for one subject: a row with a failure count, the start
  of its window and the end of its lock.

  Times are whole seconds. A subject is an account or a client address; accounts lock after
  five failures, addresses after twenty.
 */
module LoginLimiter {
  import opened Common

  const WINDOW := 900
  const LOCK := 900
  const RETENTION := 86400
  const ACCOUNT_LIMIT := 5
  const IP_LIMIT := 20

  datatype Lock = Open | Until(time: int)

  datatype Row = Row(count: nat, windowStart: int, lock: Lock, updatedAt: int)

  /** One failure at `now`, for a row that may not exist yet. */
  function Upsert(row: Option<Row>, now: int, limit: nat): Row {
    match row
    case None => Row(1, now, Open, now)
    case Some(r) =>
      if r.windowStart < now - WINDOW then Row(1, now, Open, now)
      else Row(r.count + 1, r.windowStart, if r.count + 1 >= limit then Until(now + LOCK) else r.lock, now)
  }

  /** How long a row still keeps its subject out. */
  function Remaining(row: Option<Row>, now: int): nat {
    match row
    case None => 0
    case Some(r) => if r.lock.Open? || r.lock.time <= now then 0 else r.lock.time - now
  }

  // ---------------------------------------------------------------- the failures of one subject

  function Last(ts: seq<int>): int
    requires ts != []
  {
    ts[|ts| - 1]
  }

  function Init(ts: seq<int>): seq<int>
    requires ts != []
  {
    ts[..|ts| - 1]
  }

  /** The row after failures at these times. */
  function RowOf(ts: seq<int>, limit: nat): Option<Row> {
    if ts == [] then None else Some(Upsert(RowOf(Init(ts), limit), Last(ts), limit))
  }

  /** Times in order, none of them while the subject was locked out. */
  ghost predicate Admitted(ts: seq<int>, limit: nat)
  {
    ts != [] ==>
      && Admitted(Init(ts), limit)
      && (Init(ts) != [] ==> Last(Init(ts)) <= Last(ts))
      && Remaining(RowOf(Init(ts), limit), Last(ts)) == 0
  }

  /** Where the present window begins. */
  function WindowFrom(ts: seq<int>): (g: nat)
    requires ts != []
    ensures g < |ts|
  {
    if |ts| == 1 then 0
    else
      var g := WindowFrom(Init(ts));
      if ts[g] < Last(ts) - WINDOW then |ts| - 1 else g
  }

  /** The row counts the failures since the window began, and is locked from the limit on. */
  lemma {:induction false} RowShape(ts: seq<int>, limit: nat)
    requires ts != [] && limit >= 2
    ensures var g := WindowFrom(ts);
      var lock := if |ts| - g >= limit then Until(Last(ts) + LOCK) else Open;
      RowOf(ts, limit) == Some(Row(|ts| - g, ts[g], lock, Last(ts)))
  {
    if |ts| > 1 {
      RowShape(Init(ts), limit);
    } else {
      assert RowOf(Init(ts), limit) == None;
    }
  }

  /** After a failure that reached the limit the next is a whole lock later. */
  lemma LockHolds(ts: seq<int>, limit: nat)
    requires |ts| > 1 && limit >= 2 && Admitted(ts, limit)
    requires |Init(ts)| - WindowFrom(Init(ts)) >= limit
    ensures Last(ts) >= Last(Init(ts)) + LOCK
  {
    RowShape(Init(ts), limit);
  }

  lemma {:induction false} AdmittedPrefix(ts: seq<int>, limit: nat, k: nat)
    requires Admitted(ts, limit) && k <= |ts|
    ensures Admitted(ts[..k], limit)
  {
    if k < |ts| {
      AdmittedPrefix(Init(ts), limit, k);
      assert Init(ts)[..k] == ts[..k];
    } else {
      assert ts[..k] == ts;
    }
  }

  lemma {:induction false} InOrder(ts: seq<int>, limit: nat, i: nat, j: nat)
    requires Admitted(ts, limit) && i <= j < |ts|
    ensures ts[i] <= ts[j]
    decreases |ts|
  {
    if j < |ts| - 1 {
      InOrder(Init(ts), limit, i, j);
    } else if i < j {
      InOrder(Init(ts), limit, i, j - 1);
    }
  }

  /** Within its window every prefix has the same start. */
  lemma {:induction false} WindowOfPrefix(ts: seq<int>, k: nat)
    requires ts != [] && WindowFrom(ts) < k <= |ts|
    ensures WindowFrom(ts[..k]) == WindowFrom(ts)
  {
    if k < |ts| {
      WindowOfPrefix(Init(ts), k);
      assert Init(ts)[..k] == ts[..k];
    } else {
      assert ts[..k] == ts;
    }
  }

  /** A window starts more than its length after the one before it. */
  lemma {:induction false} WindowsApart(ts: seq<int>)
    requires ts != [] && WindowFrom(ts) > 0
    ensures var g := WindowFrom(ts); ts[WindowFrom(ts[..g])] < ts[g] - WINDOW
  {
    var g := WindowFrom(ts);
    if g < |ts| - 1 {
      WindowsApart(Init(ts));
      assert Init(ts)[..g] == ts[..g];
    } else {
      assert ts[..g] == Init(ts);
    }
  }

  /** Failure number `k` of the list, counted from zero, came at the limit of its window or past it. */
  lemma GapAfterLimit(ts: seq<int>, limit: nat, k: nat)
    requires Admitted(ts, limit) && limit >= 2 && 0 < k < |ts|
    requires k - WindowFrom(ts[..k]) >= limit
    ensures ts[k] >= ts[k - 1] + LOCK
  {
    AdmittedPrefix(ts, limit, k + 1);
    assert Init(ts[..k + 1]) == ts[..k];
    LockHolds(ts[..k + 1], limit);
  }

  /** A half-open span of fifteen minutes that ends with the newest failure. */
  lemma SpanToNewest(ts: seq<int>, limit: nat, i: nat)
    requires Admitted(ts, limit) && limit >= 2 && i < |ts|
    requires Last(ts) < ts[i] + WINDOW
    ensures |ts| - i <= 2 * limit - 2
  {
    var n, g := |ts|, WindowFrom(ts);
    if n - g > limit {
      WindowOfPrefix(ts, n - 1);
      GapAfterLimit(ts, limit, n - 1);
      if i < n - 1 {
        InOrder(ts, limit, i, n - 2);
      }
    } else if i < g {
      InOrder(ts, limit, g, n - 1);
      var before := ts[..g];
      var h := WindowFrom(before);
      WindowsApart(ts);
      if i <= h {
        InOrder(ts, limit, i, h);
      }
      if g - h >= limit {
        GapAfterLimit(ts, limit, g);
        InOrder(ts, limit, i, g - 1);
      }
    }
  }

  /** No half-open span of fifteen minutes holds more than twice the limit less two failures. */
  lemma FailuresInAnySpan(ts: seq<int>, limit: nat, i: nat, j: nat)
    requires Admitted(ts, limit) && limit >= 2 && i <= j < |ts|
    requires ts[j] < ts[i] + WINDOW
    ensures j - i + 1 <= 2 * limit - 2
  {
    AdmittedPrefix(ts, limit, j + 1);
    SpanToNewest(ts[..j + 1], limit, i);
  }

  function CountIn(ts: seq<int>, from: int): nat {
    if ts == [] then 0
    else CountIn(Init(ts), from) + if from <= Last(ts) < from + WINDOW then 1 else 0
  }

  /** The failures of a span are consecutive. */
  lemma {:induction false} CountIsRun(ts: seq<int>, limit: nat, from: int)
    requires Admitted(ts, limit) && CountIn(ts, from) > 0
    ensures exists i, j ::
      0 <= i <= j < |ts| && CountIn(ts, from) <= j - i + 1 && from <= ts[i] && ts[j] < from + WINDOW
  {
    var init := Init(ts);
    if CountIn(init, from) > 0 {
      CountIsRun(init, limit, from);
      var i, j :| 0 <= i <= j < |init| && CountIn(init, from) <= j - i + 1 && from <= init[i]
        && init[j] < from + WINDOW;
      assert init[i] == ts[i] && init[j] == ts[j];
      if from <= Last(ts) < from + WINDOW {
        assert CountIn(ts, from) <= (|ts| - 1) - i + 1;
      }
    } else {
      assert from <= ts[|ts| - 1] < from + WINDOW;
    }
  }

  lemma SpanHoldsAtMost(ts: seq<int>, limit: nat, from: int)
    requires Admitted(ts, limit) && limit >= 2
    ensures CountIn(ts, from) <= 2 * limit - 2
  {
    if CountIn(ts, from) > 0 {
      CountIsRun(ts, limit, from);
      var i, j :| 0 <= i <= j < |ts| && CountIn(ts, from) <= j - i + 1 && from <= ts[i] && ts[j] < from + WINDOW;
      FailuresInAnySpan(ts, limit, i, j);
    }
  }

  // ---------------------------------------------------------------- the bound is met

  function Repeat(ts: seq<int>, t: int, n: nat): (r: seq<int>)
    ensures |r| == |ts| + n && r[..|ts|] == ts
    ensures n > 0 ==> Last(r) == t
  {
    if n == 0 then ts else Repeat(ts, t, n - 1) + [t]
  }

  lemma OneMore(ts: seq<int>, t: int, limit: nat)
    requires ts != [] && Admitted(ts, limit) && limit >= 2
    requires Last(ts) <= t <= ts[WindowFrom(ts)] + WINDOW && |ts| - WindowFrom(ts) < limit
    ensures Admitted(ts + [t], limit) && WindowFrom(ts + [t]) == WindowFrom(ts)
  {
    assert Init(ts + [t]) == ts;
    RowShape(ts, limit);
  }

  lemma NewWindow(ts: seq<int>, t: int, limit: nat)
    requires ts != [] && Admitted(ts, limit) && limit >= 2
    requires Last(ts) <= t && ts[WindowFrom(ts)] < t - WINDOW && |ts| - WindowFrom(ts) < limit
    ensures Admitted(ts + [t], limit) && WindowFrom(ts + [t]) == |ts|
  {
    assert Init(ts + [t]) == ts;
    RowShape(ts, limit);
  }

  lemma CountOneMore(ts: seq<int>, t: int, from: int)
    ensures CountIn(ts + [t], from) == CountIn(ts, from) + if from <= t < from + WINDOW then 1 else 0
  {
    assert Init(ts + [t]) == ts;
  }

  lemma {:induction false} RepeatCounts(ts: seq<int>, t: int, n: nat, from: int)
    requires from <= t < from + WINDOW
    ensures CountIn(Repeat(ts, t, n), from) == CountIn(ts, from) + n
  {
    if n > 0 {
      RepeatCounts(ts, t, n - 1, from);
      CountOneMore(Repeat(ts, t, n - 1), t, from);
    }
  }

  /** Failures at one moment, within the present window and up to its limit, are all admitted. */
  lemma {:induction false} RepeatIsAdmitted(ts: seq<int>, t: int, n: nat, limit: nat)
    requires ts != [] && Admitted(ts, limit) && limit >= 2
    requires Last(ts) <= t <= ts[WindowFrom(ts)] + WINDOW && |ts| - WindowFrom(ts) + n <= limit
    ensures Admitted(Repeat(ts, t, n), limit) && WindowFrom(Repeat(ts, t, n)) == WindowFrom(ts)
  {
    if n > 0 {
      var before := Repeat(ts, t, n - 1);
      RepeatIsAdmitted(ts, t, n - 1, limit);
      var g := WindowFrom(ts);
      assert before[g] == before[..|ts|][g] == ts[g];
      OneMore(before, t, limit);
    }
  }

  /** One early failure, then all but two of the limit as its window ends, then a full new window. */
  function Densest(limit: nat): seq<int>
    requires limit >= 2
  {
    Repeat(Repeat([0], WINDOW, limit - 2) + [WINDOW + 1], WINDOW + 1, limit - 1)
  }

  lemma FirstIsAdmitted(limit: nat, first: seq<int>)
    requires first == [0]
    ensures Admitted(first, limit) && WindowFrom(first) == 0 && CountIn(first, WINDOW) == 0
  {
    assert Init(first) == [];
    assert Admitted(Init(first), limit) && CountIn(Init(first), WINDOW) == 0;
  }

  lemma BoundIsMet(limit: nat)
    requires limit >= 2
    ensures Admitted(Densest(limit), limit) && CountIn(Densest(limit), WINDOW) == 2 * limit - 2
  {
    var first := [0];
    FirstIsAdmitted(limit, first);
    var early := Repeat(first, WINDOW, limit - 2);
    RepeatIsAdmitted(first, WINDOW, limit - 2, limit);
    RepeatCounts(first, WINDOW, limit - 2, WINDOW);
    assert early[0] == early[..1][0] == 0;
    var next := early + [WINDOW + 1];
    NewWindow(early, WINDOW + 1, limit);
    CountOneMore(early, WINDOW + 1, WINDOW);
    RepeatIsAdmitted(next, WINDOW + 1, limit - 1, limit);
    RepeatCounts(next, WINDOW + 1, limit - 1, WINDOW);
  }
}

/**
  Runs of sign-in attempts over the table of lockout rows: every attempt looks at the rows
  of its subjects first, a failed one counts against them all and then drops rows a day old,
  and a success clears its account.
 */
module LoginRuns {
  import opened Common
  import opened LoginLimiter

  datatype Subject = Account(name: string) | Address(ip: string)

  type Table = map<Subject, Row>

  function LimitOf(s: Subject): nat {
    if s.Account? then ACCOUNT_LIMIT else IP_LIMIT
  }

  /** An attempt without a known account counts against the address alone. */
  function Subjects(account: string, ip: string): seq<Subject> {
    if account == "" then [Address(ip)] else [Account(account), Address(ip)]
  }

  function Lookup(t: Table, s: Subject): Option<Row> {
    if s in t then Some(t[s]) else None
  }

  function Longer(a: nat, b: nat): nat {
    if a < b then b else a
  }

  /** How long the attempt must wait: the longest lock among its subjects. */
  function RetryAfter(t: Table, subjects: seq<Subject>, now: int): nat {
    if subjects == [] then 0
    else Longer(RetryAfter(t, subjects[..|subjects| - 1], now), Remaining(Lookup(t, subjects[|subjects| - 1]), now))
  }

  function UpsertAll(t: Table, subjects: seq<Subject>, now: int): Table {
    if subjects == [] then t
    else
      var s := subjects[|subjects| - 1];
      var rest := UpsertAll(t, subjects[..|subjects| - 1], now);
      rest[s := Upsert(Lookup(rest, s), now, LimitOf(s))]
  }

  /** Rows not touched for a day go. */
  function Fresh(t: Table, now: int): Table {
    map s | s in t && t[s].updatedAt >= now - RETENTION :: t[s]
  }

  function Recorded(t: Table, subjects: seq<Subject>, now: int): Table {
    Fresh(UpsertAll(t, subjects, now), now)
  }

  function Cleared(t: Table, account: string): Table {
    if account == "" then t else t - {Account(account)}
  }

  // ---------------------------------------------------------------- the table

  class LimitTable {
    var rows: Table

    constructor ()
      ensures rows == map[]
    {
      rows := map[];
    }

    method CheckLoginRateLimit(account: string, ip: string, now: int) returns (retryAfter: nat)
      ensures retryAfter == RetryAfter(rows, Subjects(account, ip), now)
    {
      var subjects := Subjects(account, ip);
      retryAfter := 0;
      for i := 0 to |subjects|
        invariant retryAfter == RetryAfter(rows, subjects[..i], now)
      {
        assert subjects[..i + 1][..i] == subjects[..i];
        if subjects[i] in rows {
          var remaining := Remaining(Some(rows[subjects[i]]), now);
          if remaining > retryAfter {
            retryAfter := remaining;
          }
        }
      }
      assert subjects[..|subjects|] == subjects;
    }

    /** Counts a failure against each subject, drops old rows, and looks again. */
    method RecordLoginFailure(account: string, ip: string, now: int) returns (retryAfter: nat)
      modifies this
      ensures rows == Recorded(old(rows), Subjects(account, ip), now)
      ensures retryAfter == RetryAfter(rows, Subjects(account, ip), now)
    {
      var subjects := Subjects(account, ip);
      for i := 0 to |subjects|
        invariant rows == UpsertAll(old(rows), subjects[..i], now)
      {
        assert subjects[..i + 1][..i] == subjects[..i];
        rows := rows[subjects[i] := Upsert(Lookup(rows, subjects[i]), now, LimitOf(subjects[i]))];
      }
      assert subjects[..|subjects|] == subjects;
      rows := Fresh(rows, now);
      retryAfter := CheckLoginRateLimit(account, ip, now);
    }

    method ClearLoginAccountFailures(account: string)
      modifies this
      ensures rows == Cleared(old(rows), account)
    {
      if account != "" {
        rows := rows - {Account(account)};
      }
    }
  }

  // ---------------------------------------------------------------- runs

  /** How an admitted attempt ends; a success may clear its account. */
  datatype Outcome = Failed | Succeeded | Abandoned

  /**
    An attempt. What it checks and what it counts against can differ: a second-factor attempt
    whose challenge fails checks the address only, and may then know the account.
   */
  datatype Attempt = Attempt(checked: string, account: string, ip: string, checkedAt: int, recordedAt: int,
                             outcome: Outcome)

  function Refused(t: Table, a: Attempt): bool {
    RetryAfter(t, Subjects(a.checked, a.ip), a.checkedAt) > 0
  }

  /** The table after an attempt; `pruned` says whether old rows are dropped. */
  function After(t: Table, a: Attempt, pruned: bool): Table {
    if Refused(t, a) then t
    else match a.outcome
      case Failed =>
        var counted := UpsertAll(t, Subjects(a.account, a.ip), a.recordedAt);
        if pruned then Fresh(counted, a.recordedAt) else counted
      case Succeeded => Cleared(t, a.account)
      case Abandoned => t
  }

  function TableAfter(attempts: seq<Attempt>, pruned: bool): Table {
    if attempts == [] then map[]
    else After(TableAfter(attempts[..|attempts| - 1], pruned), attempts[|attempts| - 1], pruned)
  }

  /** One attempt at a time, by a clock that does not go back. */
  ghost predicate InTime(attempts: seq<Attempt>) {
    && (forall i :: 0 <= i < |attempts| ==> attempts[i].checkedAt <= attempts[i].recordedAt)
    && (forall i, j :: 0 <= i < j < |attempts| ==> attempts[i].recordedAt <= attempts[j].checkedAt)
  }

  // ---------------------------------------------------------------- dropping old rows is harmless

  /** Rows never reach further than their last update. */
  predicate Bounded(r: Row) {
    r.windowStart <= r.updatedAt && (r.lock.Until? ==> r.lock.time <= r.updatedAt + LOCK)
  }

  predicate Stale(r: Row, now: int) {
    r.updatedAt < now - RETENTION
  }

  /** The two tables agree, except that the first may lack stale rows. */
  ghost predicate SameButStale(pruned: Table, full: Table, now: int) {
    && (forall s :: s in full ==> Bounded(full[s]) && full[s].updatedAt <= now)
    && (forall s :: s in pruned ==> s in full && pruned[s] == full[s])
    && (forall s :: s in full && s !in pruned ==> Stale(full[s], now))
  }

  lemma StaleIsNone(r: Row, now: int, limit: nat)
    requires Bounded(r) && Stale(r, now)
    ensures Remaining(Some(r), now) == Remaining(None, now) && Upsert(Some(r), now, limit) == Upsert(None, now, limit)
  {
  }

  lemma {:induction false} SameAnswer(pruned: Table, full: Table, subjects: seq<Subject>, now: int)
    requires SameButStale(pruned, full, now)
    ensures RetryAfter(pruned, subjects, now) == RetryAfter(full, subjects, now)
  {
    if subjects != [] {
      SameAnswer(pruned, full, subjects[..|subjects| - 1], now);
    }
  }

  lemma {:induction false} SameUpserts(pruned: Table, full: Table, subjects: seq<Subject>, now: int)
    requires SameButStale(pruned, full, now)
    ensures SameButStale(UpsertAll(pruned, subjects, now), UpsertAll(full, subjects, now), now)
  {
    if subjects != [] {
      var s := subjects[|subjects| - 1];
      var init := subjects[..|subjects| - 1];
      SameUpserts(pruned, full, init, now);
      var f := UpsertAll(full, init, now);
      if s in f && Stale(f[s], now) {
        StaleIsNone(f[s], now, LimitOf(s));
      }
      assert Bounded(Upsert(Lookup(f, s), now, LimitOf(s)));
    }
  }

  lemma FreshIsSame(pruned: Table, full: Table, now: int)
    requires SameButStale(pruned, full, now)
    ensures SameButStale(Fresh(pruned, now), full, now)
  {
  }

  lemma StepStaysSame(pruned: Table, full: Table, a: Attempt)
    requires SameButStale(pruned, full, a.checkedAt) && a.checkedAt <= a.recordedAt
    ensures Refused(pruned, a) == Refused(full, a)
    ensures SameButStale(After(pruned, a, true), After(full, a, false), a.recordedAt)
  {
    SameAnswer(pruned, full, Subjects(a.checked, a.ip), a.checkedAt);
    assert SameButStale(pruned, full, a.recordedAt);
    if !Refused(full, a) && a.outcome.Failed? {
      var subjects := Subjects(a.account, a.ip);
      SameUpserts(pruned, full, subjects, a.recordedAt);
      FreshIsSame(UpsertAll(pruned, subjects, a.recordedAt), UpsertAll(full, subjects, a.recordedAt), a.recordedAt);
    }
  }

  lemma {:induction false} RunsStaySame(attempts: seq<Attempt>, now: int)
    requires InTime(attempts) && (attempts != [] ==> attempts[|attempts| - 1].recordedAt <= now)
    ensures SameButStale(TableAfter(attempts, true), TableAfter(attempts, false), now)
  {
    if attempts != [] {
      var init, a := attempts[..|attempts| - 1], attempts[|attempts| - 1];
      RunsStaySame(init, a.checkedAt);
      StepStaysSame(TableAfter(init, true), TableAfter(init, false), a);
    }
  }

  /** Dropping old rows never changes what an attempt is told. */
  lemma CleanupChangesNoDecision(attempts: seq<Attempt>, next: Attempt)
    requires InTime(attempts + [next])
    ensures Refused(TableAfter(attempts, true), next) == Refused(TableAfter(attempts, false), next)
    ensures RetryAfter(TableAfter(attempts + [next], true), Subjects(next.account, next.ip), next.recordedAt)
         == RetryAfter(TableAfter(attempts + [next], false), Subjects(next.account, next.ip), next.recordedAt)
  {
    var all := attempts + [next];
    assert all[..|attempts|] == attempts;
    InTimeBefore(attempts, next);
    RunsStaySame(attempts, next.checkedAt);
    SameAnswer(TableAfter(attempts, true), TableAfter(attempts, false), Subjects(next.checked, next.ip),
      next.checkedAt);
    RunsStaySame(all, next.recordedAt);
    SameAnswer(TableAfter(all, true), TableAfter(all, false), Subjects(next.account, next.ip), next.recordedAt);
  }

  // ---------------------------------------------------------------- the bound for one address

  /** Whether the newest of `attempts` counted against an address. */
  predicate Counted(attempts: seq<Attempt>, ip: string)
    requires attempts != []
  {
    var a := attempts[|attempts| - 1];
    a.ip == ip && a.outcome.Failed? && !Refused(TableAfter(attempts[..|attempts| - 1], true), a)
  }

  /** When failures were recorded for an address. */
  function FailureTimes(attempts: seq<Attempt>, ip: string): seq<int> {
    if attempts == [] then []
    else
      FailureTimes(attempts[..|attempts| - 1], ip)
      + if Counted(attempts, ip) then [attempts[|attempts| - 1].recordedAt] else []
  }

  lemma UpsertedAddress(t: Table, account: string, ip: string, now: int)
    ensures Lookup(UpsertAll(t, Subjects(account, ip), now), Address(ip)) ==
      Some(Upsert(Lookup(t, Address(ip)), now, IP_LIMIT))
    ensures forall other :: other != ip ==>
      Lookup(UpsertAll(t, Subjects(account, ip), now), Address(other)) == Lookup(t, Address(other))
  {
    var subjects := Subjects(account, ip);
    var init := subjects[..|subjects| - 1];
    if account == "" {
      assert init == [];
    } else {
      assert init == [Account(account)];
      var first := UpsertAll(t, init, now);
      assert init[..|init| - 1] == [];
      assert UpsertAll(t, [], now) == t;
      assert first == t[Account(account) := Upsert(Lookup(t, Account(account)), now, ACCOUNT_LIMIT)];
      assert UpsertAll(t, subjects, now) == first[Address(ip) := Upsert(Lookup(first, Address(ip)), now, IP_LIMIT)];
    }
  }

  lemma OwnLockCounts(t: Table, account: string, ip: string, now: int)
    requires RetryAfter(t, Subjects(account, ip), now) == 0
    ensures Remaining(Lookup(t, Address(ip)), now) == 0
  {
  }

  /** The address's row is the one its own failures make, and none of them came while it was locked. */
  lemma {:induction false} AddressRow(attempts: seq<Attempt>, ip: string)
    requires InTime(attempts)
    ensures var ts := FailureTimes(attempts, ip);
      && Lookup(TableAfter(attempts, false), Address(ip)) == RowOf(ts, IP_LIMIT)
      && Admitted(ts, IP_LIMIT)
      && (ts != [] ==> attempts != [] && Last(ts) <= attempts[|attempts| - 1].recordedAt)
  {
    if attempts != [] {
      var init, a := attempts[..|attempts| - 1], attempts[|attempts| - 1];
      AddressRow(init, ip);
      RunsStaySame(init, a.checkedAt);
      SameAnswer(TableAfter(init, true), TableAfter(init, false), Subjects(a.checked, a.ip), a.checkedAt);
      AddressStep(TableAfter(init, false), a, ip, FailureTimes(init, ip));
    }
  }

  lemma AddressStep(t: Table, a: Attempt, ip: string, ts: seq<int>)
    requires Lookup(t, Address(ip)) == RowOf(ts, IP_LIMIT) && Admitted(ts, IP_LIMIT)
    requires a.checkedAt <= a.recordedAt && (ts != [] ==> Last(ts) <= a.checkedAt)
    ensures var more := ts + if a.ip == ip && a.outcome.Failed? && !Refused(t, a) then [a.recordedAt] else [];
      Lookup(After(t, a, false), Address(ip)) == RowOf(more, IP_LIMIT) && Admitted(more, IP_LIMIT)
  {
    if !Refused(t, a) && a.outcome.Failed? {
      UpsertedAddress(t, a.account, a.ip, a.recordedAt);
      if a.ip == ip {
        OwnLockCounts(t, a.checked, ip, a.checkedAt);
        assert Init(ts + [a.recordedAt]) == ts;
      } else {
        assert ts + [] == ts;
      }
    } else {
      assert ts + [] == ts;
    }
  }

  /** Whatever the attempts, an address records at most 38 failures in any half-open quarter hour. */
  lemma AddressBound(attempts: seq<Attempt>, ip: string, from: int)
    requires InTime(attempts)
    ensures CountIn(FailureTimes(attempts, ip), from) <= 2 * IP_LIMIT - 2
  {
    AddressRow(attempts, ip);
    SpanHoldsAtMost(FailureTimes(attempts, ip), IP_LIMIT, from);
  }

  // ---------------------------------------------------------------- who is refused

  /** When failures were recorded for an account since it last signed in. */
  function AccountFailures(attempts: seq<Attempt>, account: string): seq<int> {
    if attempts == [] then []
    else
      var before, a := attempts[..|attempts| - 1], attempts[|attempts| - 1];
      var times := AccountFailures(before, account);
      if Refused(TableAfter(before, true), a) || a.account != account then times
      else match a.outcome
        case Failed => times + [a.recordedAt]
        case Succeeded => []
        case Abandoned => times
  }

  lemma UpsertedAccount(t: Table, account: string, ip: string, now: int, name: string)
    requires name != ""
    ensures Lookup(UpsertAll(t, Subjects(account, ip), now), Account(name)) ==
      if account == name then Some(Upsert(Lookup(t, Account(name)), now, 5)) else Lookup(t, Account(name))
  {
    var subjects := Subjects(account, ip);
    var init := subjects[..|subjects| - 1];
    if account == "" {
      assert init == [] && UpsertAll(t, init, now) == t;
    } else {
      assert init == [Account(account)] && init[..|init| - 1] == [];
      assert UpsertAll(t, [], now) == t;
      assert UpsertAll(t, init, now) == t[Account(account) := Upsert(Lookup(t, Account(account)), now, 5)];
    }
  }

  lemma AccountStep(t: Table, a: Attempt, name: string, ts: seq<int>)
    requires name != "" && Lookup(t, Account(name)) == RowOf(ts, 5) && !Refused(t, a)
    ensures Lookup(After(t, a, false), Account(name)) ==
      if a.account != name || a.outcome.Abandoned? then RowOf(ts, 5)
      else RowOf(if a.outcome.Failed? then ts + [a.recordedAt] else [], 5)
  {
    if a.outcome.Failed? {
      UpsertedAccount(t, a.account, a.ip, a.recordedAt, name);
      assert Init(ts + [a.recordedAt]) == ts;
    }
  }

  /** The account's row is the one its own failures since the last success make. */
  lemma {:induction false} AccountRow(attempts: seq<Attempt>, name: string)
    requires InTime(attempts) && name != ""
    ensures Lookup(TableAfter(attempts, false), Account(name)) == RowOf(AccountFailures(attempts, name), 5)
  {
    if attempts != [] {
      var init, a := attempts[..|attempts| - 1], attempts[|attempts| - 1];
      AccountRow(init, name);
      RunsStaySame(init, a.checkedAt);
      SameAnswer(TableAfter(init, true), TableAfter(init, false), Subjects(a.checked, a.ip), a.checkedAt);
      if !Refused(TableAfter(init, false), a) {
        AccountStep(TableAfter(init, false), a, name, AccountFailures(init, name));
      }
    }
  }

  /** At least `limit` failures since the present window began, the last of them less than 900 seconds ago. */
  predicate LockedOut(ts: seq<int>, limit: nat, now: int) {
    ts != [] && |ts| - WindowFrom(ts) >= limit && now < Last(ts) + 900
  }

  lemma LockedOutIff(ts: seq<int>, limit: nat, now: int)
    requires limit >= 2
    ensures Remaining(RowOf(ts, limit), now) > 0 <==> LockedOut(ts, limit, now)
  {
    if ts != [] {
      RowShape(ts, limit);
    }
  }

  lemma WaitsForBoth(t: Table, account: string, ip: string, now: int)
    ensures RetryAfter(t, Subjects(account, ip), now) > 0 <==>
      || (account != "" && Remaining(Lookup(t, Account(account)), now) > 0)
      || Remaining(Lookup(t, Address(ip)), now) > 0
  {
    var subjects := Subjects(account, ip);
    var init := subjects[..|subjects| - 1];
    assert RetryAfter(t, [], now) == 0;
    if account == "" {
      assert init == [];
    } else {
      assert init == [Account(account)] && init[..0] == [];
    }
  }

  /**
    An attempt is refused exactly when its account, if one is checked, has five failures since
    the window began, from whatever addresses, or its address has twenty, on whatever accounts,
    and the last of them is less than 900 seconds ago.
   */
  lemma RefusedIff(attempts: seq<Attempt>, next: Attempt)
    requires InTime(attempts + [next])
    ensures Refused(TableAfter(attempts, true), next) <==>
      || (next.checked != "" && LockedOut(AccountFailures(attempts, next.checked), 5, next.checkedAt))
      || LockedOut(FailureTimes(attempts, next.ip), 20, next.checkedAt)
  {
    InTimeBefore(attempts, next);
    var full := TableAfter(attempts, false);
    RunsStaySame(attempts, next.checkedAt);
    SameAnswer(TableAfter(attempts, true), full, Subjects(next.checked, next.ip), next.checkedAt);
    WaitsForBoth(full, next.checked, next.ip, next.checkedAt);
    AddressRow(attempts, next.ip);
    LockedOutIff(FailureTimes(attempts, next.ip), 20, next.checkedAt);
    if next.checked != "" {
      AccountRow(attempts, next.checked);
      LockedOutIff(AccountFailures(attempts, next.checked), 5, next.checkedAt);
    }
  }

  lemma InTimeBefore(attempts: seq<Attempt>, next: Attempt)
    requires InTime(attempts + [next])
    ensures InTime(attempts) && (attempts != [] ==> attempts[|attempts| - 1].recordedAt <= next.checkedAt)
  {
    var all := attempts + [next];
    assert forall i :: 0 <= i < |attempts| ==> attempts[i] == all[i];
    assert all[|attempts|] == next;
  }

  lemma {:induction false} OneWindow(ts: seq<int>)
    requires ts != [] && Last(ts) <= ts[0] + WINDOW && forall i, j :: 0 <= i <= j < |ts| ==> ts[i] <= ts[j]
    ensures WindowFrom(ts) == 0
  {
    if |ts| > 1 {
      OneWindow(Init(ts));
    }
  }

  lemma {:induction false} AccountTimesInOrder(attempts: seq<Attempt>, name: string)
    requires InTime(attempts)
    ensures var ts := AccountFailures(attempts, name);
      && (forall i, j :: 0 <= i <= j < |ts| ==> ts[i] <= ts[j])
      && (ts != [] ==> attempts != [] && Last(ts) <= attempts[|attempts| - 1].recordedAt)
  {
    if attempts != [] {
      AccountTimesInOrder(attempts[..|attempts| - 1], name);
    }
  }

  /** In particular: once an account has failed five times within 900 seconds it is refused for 900
      more, whatever address it tries from; with four failures it never is on its own account. */
  lemma FiveFailuresRefuse(attempts: seq<Attempt>, next: Attempt)
    requires InTime(attempts + [next]) && next.checked != ""
    requires var ts := AccountFailures(attempts, next.checked); ts != [] && Last(ts) <= ts[0] + 900
    ensures var ts := AccountFailures(attempts, next.checked);
      && (|ts| >= 5 && next.checkedAt < Last(ts) + 900 ==> Refused(TableAfter(attempts, true), next))
      && (|ts| < 5 && Refused(TableAfter(attempts, true), next) ==>
            LockedOut(FailureTimes(attempts, next.ip), 20, next.checkedAt))
  {
    InTimeBefore(attempts, next);
    AccountTimesInOrder(attempts, next.checked);
    OneWindow(AccountFailures(attempts, next.checked));
    RefusedIff(attempts, next);
  }

  /** What a failure leaves in the table was touched within a day. */
  lemma RecordedIsFresh(t: Table, account: string, ip: string, now: int)
    ensures var rows := Recorded(t, Subjects(account, ip), now);
      && (forall s :: s in rows ==> rows[s].updatedAt >= now - 86400)
      && Address(ip) in rows
      && (forall s :: s in t && t[s].updatedAt >= now - 86400 ==> s in rows)
  {
    UpsertedAddress(t, account, ip, now);
    UpsertsKeepFresh(t, Subjects(account, ip), now);
  }

  lemma {:induction false} UpsertsKeepFresh(t: Table, subjects: seq<Subject>, now: int)
    ensures forall s :: s in t && t[s].updatedAt >= now - 86400 ==>
      s in UpsertAll(t, subjects, now) && UpsertAll(t, subjects, now)[s].updatedAt >= now - 86400
  {
    if subjects != [] {
      UpsertsKeepFresh(t, subjects[..|subjects| - 1], now);
    }
  }
}

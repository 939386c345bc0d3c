/**
  Self-service mailbox creation under the owned-mailbox and per-day limits.

  A creation locks the user's row, counts, inserts and commits in separate statements;
  several workers interleave them. What a transaction has written is private to it until it
  commits. Deletions and ownership transfers take no lock on the user's row.
 */
module MailboxQuota {
  import opened Common
  import opened RollingWindow

  /** Committed rows: the lifetime counter by user, the owner by mailbox, the creation log. */
  datatype Db = Db(users: map<nat, nat>, mailboxes: map<nat, nat>, events: seq<Event>)

  /** 0 means unlimited; both are 0 when no limit is enforced, as for administrators. */
  datatype Limits = Limits(count: nat, daily: nat)

  datatype Verdict = Admitted | DailyReached | CountReached | NotFound

  function OwnedSet(db: Db, user: nat): set<nat> {
    set id | id in db.mailboxes && db.mailboxes[id] == user
  }

  function Owned(db: Db, user: nat): nat {
    |OwnedSet(db, user)|
  }

  function CreatedSince(db: Db, user: nat, from: int): nat {
    Used(db.events, user, from, Messages)
  }

  /** The guards of the UPDATE in `consumeMailboxQuotaTx`. */
  predicate WithinLimits(db: Db, user: nat, limits: Limits, windowNow: int) {
    && (limits.count > 0 ==> Owned(db, user) < limits.count)
    && (limits.daily > 0 ==> CreatedSince(db, user, windowNow - DAY) < limits.daily)
  }

  /** The UPDATE, and on zero affected rows the reads that tell the guards apart. */
  function Consume(db: Db, user: nat, limits: Limits, windowNow: int): Verdict {
    if user in db.users && WithinLimits(db, user, limits, windowNow) then Admitted
    else if limits.daily > 0 && CreatedSince(db, user, windowNow - DAY) >= limits.daily then DailyReached
    else if limits.count > 0 && Owned(db, user) >= limits.count then CountReached
    else NotFound
  }

  function Created(db: Db, user: nat, mailbox: nat, now: int): Db
    requires user in db.users
  {
    Db(db.users[user := db.users[user] + 1],
       db.mailboxes[mailbox := user],
       db.events + [Event(user, now, 1)])
  }

  function Deleted(db: Db, mailbox: nat): Db {
    db.(mailboxes := db.mailboxes - {mailbox})
  }

  function Transferred(db: Db, mailbox: nat, to: nat): Db {
    if mailbox in db.mailboxes then db.(mailboxes := db.mailboxes[mailbox := to]) else db
  }

  // ---------------------------------------------------------------- interleaved workers

  /** A creation in progress. `now` stamps the rows, `windowNow` is the second reading of the
      clock that the daily window is counted back from. */
  datatype Tx =
    | Idle
    | Open(user: nat, limits: Limits)
    | Consumed(user: nat, limits: Limits, now: int, windowNow: int)
    | Inserted(user: nat, limits: Limits, now: int, windowNow: int, mailbox: nat)

  /** `locks` maps a user row to the worker holding it. */
  datatype System = System(db: Db, txs: map<nat, Tx>, locks: map<nat, nat>, nextId: nat)

  datatype Step =
    | Begin(w: nat, user: nat, limits: Limits)
    | Count(w: nat, now: int, windowNow: int)
    | Insert(w: nat)
    | Commit(w: nat)
    | Rollback(w: nat)
    | Delete(mailbox: nat)
    | Transfer(mailbox: nat, to: nat)

  function TxAt(s: System, w: nat): Tx {
    if w in s.txs then s.txs[w] else Idle
  }

  predicate Enforced(limits: Limits) {
    limits.count > 0 || limits.daily > 0
  }

  predicate HasLock(s: System, user: nat, w: nat) {
    user in s.locks && s.locks[user] == w
  }

  predicate CanLock(s: System, user: nat, w: nat) {
    user !in s.locks || s.locks[user] == w
  }

  function Release(s: System, w: nat): map<nat, nat> {
    map user | user in s.locks && s.locks[user] != w :: s.locks[user]
  }

  /** One statement. A worker that has to wait for a lock, or is not at that point, stays put. */
  function Next(s: System, step: Step): System {
    match step
    case Begin(w, user, limits) =>
      if TxAt(s, w) != Idle || (Enforced(limits) && !CanLock(s, user, w)) then s
      else s.(txs := s.txs[w := Open(user, limits)], locks := if Enforced(limits) then s.locks[user := w] else s.locks)
    case Count(w, now, windowNow) =>
      var tx := TxAt(s, w);
      // The UPDATE itself locks the row when no limit made the worker lock it before.
      if !tx.Open? || !CanLock(s, tx.user, w) then s
      else if Consume(s.db, tx.user, tx.limits, windowNow) != Admitted then Ended(s, w)
      else s.(txs := s.txs[w := Consumed(tx.user, tx.limits, now, windowNow)], locks := s.locks[tx.user := w])
    case Insert(w) =>
      var tx := TxAt(s, w);
      if !tx.Consumed? then s
      else s.(txs := s.txs[w := Inserted(tx.user, tx.limits, tx.now, tx.windowNow, s.nextId)], nextId := s.nextId + 1)
    case Commit(w) =>
      var tx := TxAt(s, w);
      if !tx.Inserted? || tx.user !in s.db.users then s
      else Ended(s.(db := Created(s.db, tx.user, tx.mailbox, tx.now)), w)
    case Rollback(w) => Ended(s, w)
    case Delete(mailbox) => s.(db := Deleted(s.db, mailbox))
    case Transfer(mailbox, to) => s.(db := Transferred(s.db, mailbox, to))
  }

  function Ended(s: System, w: nat): System {
    s.(txs := s.txs[w := Idle], locks := Release(s, w))
  }

  function Run(s: System, steps: seq<Step>): System
    decreases |steps|
  {
    if steps == [] then s else Next(Run(s, steps[..|steps| - 1]), steps[|steps| - 1])
  }

  // ---------------------------------------------------------------- the serial run

  datatype SerialOp =
    | SerialCreate(user: nat, limits: Limits, mailbox: nat, now: int, windowNow: int)
    | SerialDelete(mailbox: nat)
    | SerialTransfer(mailbox: nat, to: nat)

  function SerialApply(db: Db, op: SerialOp): Db {
    match op
    case SerialCreate(user, limits, mailbox, now, windowNow) =>
      if Consume(db, user, limits, windowNow) == Admitted then Created(db, user, mailbox, now) else db
    case SerialDelete(mailbox) => Deleted(db, mailbox)
    case SerialTransfer(mailbox, to) => Transferred(db, mailbox, to)
  }

  function SerialRun(db: Db, ops: seq<SerialOp>): Db
    decreases |ops|
  {
    if ops == [] then db else SerialApply(SerialRun(db, ops[..|ops| - 1]), ops[|ops| - 1])
  }

  /** What a step amounts to in the serial run: a creation takes effect, checks included,
      where it commits; a refused one where it is refused. */
  function Effect(s: System, step: Step): seq<SerialOp> {
    match step
    case Commit(w) =>
      var tx := TxAt(s, w);
      if tx.Inserted? && tx.user in s.db.users then [SerialCreate(tx.user, tx.limits, tx.mailbox, tx.now, tx.windowNow)]
      else []
    case Count(w, now, windowNow) =>
      var tx := TxAt(s, w);
      if tx.Open? && CanLock(s, tx.user, w) && Consume(s.db, tx.user, tx.limits, windowNow) != Admitted
      then [SerialCreate(tx.user, tx.limits, s.nextId, now, windowNow)] else []
    case Delete(mailbox) => [SerialDelete(mailbox)]
    case Transfer(mailbox, to) => [SerialTransfer(mailbox, to)]
    case _ => []
  }

  function Effects(s: System, steps: seq<Step>): seq<SerialOp>
    decreases |steps|
  {
    if steps == [] then []
    else
      var before := steps[..|steps| - 1];
      Effects(s, before) + Effect(Run(s, before), steps[|steps| - 1])
  }

  // ---------------------------------------------------------------- invariant

  predicate Counting(tx: Tx) {
    tx.Consumed? || tx.Inserted?
  }

  /** What nothing disturbs: the lock, the fresh id and the daily count. */
  ghost predicate TxLocked(s: System, w: nat) {
    var tx := TxAt(s, w);
    && (tx.Open? && tx.limits != Limits(0, 0) ==> HasLock(s, tx.user, w))
    && (Counting(tx) ==> HasLock(s, tx.user, w) && tx.user in s.db.users)
    && (Counting(tx) && tx.limits.daily > 0 ==> CreatedSince(s.db, tx.user, tx.windowNow - DAY) < tx.limits.daily)
    && (tx.Inserted? ==> tx.mailbox !in s.db.mailboxes && tx.mailbox < s.nextId)
  }

  /** What a transfer to the user can disturb: the count of owned mailboxes. */
  ghost predicate CountHolds(s: System, w: nat) {
    var tx := TxAt(s, w);
    Counting(tx) && tx.limits.count > 0 ==> Owned(s.db, tx.user) < tx.limits.count
  }

  ghost predicate FreshIds(s: System) {
    && (forall id :: id in s.db.mailboxes ==> id < s.nextId)
    && (forall v, w | v in s.txs && w in s.txs && s.txs[v].Inserted? && s.txs[w].Inserted? ::
          s.txs[v].mailbox == s.txs[w].mailbox ==> v == w)
  }

  /** Holds in every run. */
  ghost predicate Locked(s: System) {
    FreshIds(s) && forall w :: TxLocked(s, w)
  }

  ghost predicate Inv(s: System) {
    Locked(s) && forall w :: CountHolds(s, w)
  }

  lemma OwnedSetAfterCreated(db: Db, user: nat, mailbox: nat, now: int, other: nat)
    requires user in db.users && mailbox !in db.mailboxes
    ensures OwnedSet(Created(db, user, mailbox, now), other) ==
      OwnedSet(db, other) + if other == user then {mailbox} else {}
  {
    forall m ensures m in OwnedSet(Created(db, user, mailbox, now), other)
        <==> m in OwnedSet(db, other) || (other == user && m == mailbox) {
      assert m in Created(db, user, mailbox, now).mailboxes <==> m in db.mailboxes || m == mailbox;
    }
  }

  lemma OwnedAfterCreated(db: Db, user: nat, mailbox: nat, now: int, other: nat)
    requires user in db.users && mailbox !in db.mailboxes
    ensures Owned(Created(db, user, mailbox, now), other) == Owned(db, other) + if other == user then 1 else 0
  {
    OwnedSetAfterCreated(db, user, mailbox, now, other);
    assert mailbox !in OwnedSet(db, other);
  }

  lemma CreatedSinceAfterCreated(db: Db, user: nat, mailbox: nat, now: int, other: nat, from: int)
    requires user in db.users
    ensures CreatedSince(Created(db, user, mailbox, now), other, from)
      == CreatedSince(db, other, from) + if other == user && now >= from then 1 else 0
  {
    var b := Created(db, user, mailbox, now);
    assert b.events[..|db.events|] == db.events;
  }

  lemma OwnedAfterDeleted(db: Db, mailbox: nat, user: nat)
    ensures Owned(Deleted(db, mailbox), user) <= Owned(db, user)
  {
    assert OwnedSet(Deleted(db, mailbox), user) == OwnedSet(db, user) - {mailbox};
  }

  lemma OwnedAfterTransferred(db: Db, mailbox: nat, to: nat, user: nat)
    requires user != to
    ensures Owned(Transferred(db, mailbox, to), user) <= Owned(db, user)
  {
    assert OwnedSet(Transferred(db, mailbox, to), user) <= OwnedSet(db, user);
    SubsetIsSmaller(OwnedSet(Transferred(db, mailbox, to), user), OwnedSet(db, user));
  }

  /** Whatever else moves, `user` stays and has no creations added. */
  ghost predicate NoneCreated(a: Db, b: Db, user: nat) {
    && (user in a.users ==> user in b.users)
    && forall from :: CreatedSince(b, user, from) <= CreatedSince(a, user, from)
  }

  lemma OthersStayLocked(s: System, t: System, w: nat)
    requires TxLocked(s, w) && TxAt(t, w) == TxAt(s, w) && s.nextId <= t.nextId
    requires TxAt(s, w) != Idle && HasLock(s, TxAt(s, w).user, w) ==>
      HasLock(t, TxAt(s, w).user, w) && NoneCreated(s.db, t.db, TxAt(s, w).user)
    requires TxAt(s, w).Inserted? ==> TxAt(s, w).mailbox !in t.db.mailboxes
    ensures TxLocked(t, w)
  {
  }

  lemma EndedStaysLocked(s: System, w: nat)
    requires Locked(s)
    ensures Locked(Ended(s, w))
  {
    var t := Ended(s, w);
    forall v ensures TxLocked(t, v) {
      if v != w {
        OthersStayLocked(s, t, v);
      }
    }
  }

  /** The steps of one worker that change no rows. */
  lemma WorkerStaysLocked(s: System, step: Step)
    requires Locked(s) && (step.Begin? || step.Count? || step.Insert?)
    ensures Locked(Next(s, step))
  {
    var t := Next(s, step);
    assert TxLocked(s, step.w);
    if t == Ended(s, step.w) {
      EndedStaysLocked(s, step.w);
    } else if t != s {
      forall v | v in s.txs && s.txs[v].Inserted? ensures s.txs[v].mailbox < s.nextId {
        assert TxLocked(s, v);
      }
      forall v ensures TxLocked(t, v) {
        if v != step.w {
          OthersStayLocked(s, t, v);
        }
      }
    }
  }

  lemma CommitStaysLocked(s: System, w: nat)
    requires Locked(s)
    ensures Locked(Next(s, Commit(w)))
  {
    var tx := TxAt(s, w);
    assert TxLocked(s, w);
    if tx.Inserted? {
      var t := Ended(s.(db := Created(s.db, tx.user, tx.mailbox, tx.now)), w);
      forall v ensures TxLocked(t, v) {
        if v != w && TxAt(s, v) != Idle {
          CommitLeavesOther(s, t, w, v);
        }
      }
    }
  }

  lemma CommitLeavesOther(s: System, t: System, w: nat, v: nat)
    requires Locked(s) && TxAt(s, w).Inserted? && v != w && TxAt(s, v) != Idle
    requires var tx := TxAt(s, w);
      tx.user in s.db.users && t == Ended(s.(db := Created(s.db, tx.user, tx.mailbox, tx.now)), w)
    ensures TxLocked(t, v)
  {
    var tx, other := TxAt(s, w), TxAt(s, v);
    assert TxLocked(s, w) && TxLocked(s, v);
    if HasLock(s, other.user, v) {
      assert other.user != tx.user;
      forall from {
        CreatedSinceAfterCreated(s.db, tx.user, tx.mailbox, tx.now, other.user, from);
      }
    }
    OthersStayLocked(s, t, v);
  }

  /** Deletions and transfers add no creations. */
  lemma OwnershipStaysLocked(s: System, step: Step)
    requires Locked(s) && (step.Delete? || step.Transfer?)
    ensures Locked(Next(s, step))
  {
    var t := Next(s, step);
    forall v ensures TxLocked(t, v) {
      assert TxLocked(s, v);
      OthersStayLocked(s, t, v);
    }
  }

  lemma NextStaysLocked(s: System, step: Step)
    requires Locked(s)
    ensures Locked(Next(s, step))
  {
    match step
    case Commit(w) => CommitStaysLocked(s, w);
    case Rollback(w) => EndedStaysLocked(s, w);
    case Delete(_) => OwnershipStaysLocked(s, step);
    case Transfer(_, _) => OwnershipStaysLocked(s, step);
    case _ => WorkerStaysLocked(s, step);
  }

  /** The row lock does its work in every run, whatever is deleted or handed over meanwhile. */
  lemma {:induction false} RunStaysLocked(s: System, steps: seq<Step>)
    requires Locked(s)
    ensures Locked(Run(s, steps))
    decreases |steps|
  {
    if steps != [] {
      RunStaysLocked(s, steps[..|steps| - 1]);
      NextStaysLocked(Run(s, steps[..|steps| - 1]), steps[|steps| - 1]);
    }
  }

  /** In any such state: of the creations for one user that have counted, or are to count against a
      limit, only one is under way. */
  lemma OneAtATime(s: System, v: nat, w: nat)
    requires Locked(s) && TxAt(s, v) != Idle && TxAt(s, w) != Idle && TxAt(s, v).user == TxAt(s, w).user
    requires !TxAt(s, v).Open? || TxAt(s, v).limits != Limits(0, 0)
    requires !TxAt(s, w).Open? || TxAt(s, w).limits != Limits(0, 0)
    ensures v == w
  {
    assert TxLocked(s, v) && TxLocked(s, w);
  }

  // ---------------------------------------------------------------- which answer

  /** One more creation by the user would fit the day, told from the creations of the last 24 hours. */
  predicate DayHasRoom(db: Db, user: nat, limits: Limits, windowNow: int) {
    || limits.daily == 0
    || UsedIn(db.events, user, windowNow - 86_400_000_000_000, windowNow, Messages) + 1 <= limits.daily
  }

  /** One more mailbox would fit among those the user owns. */
  predicate CountHasRoom(db: Db, user: nat, limits: Limits) {
    limits.count == 0 || |set id | id in db.mailboxes && db.mailboxes[id] == user| + 1 <= limits.count
  }

  /**
    With no later creations on record: admitted exactly when the user is there and both limits
    have room for one more; the day's limit is named first when both are full, and an unknown
    user only when neither is.
   */
  lemma AnswerIff(db: Db, user: nat, limits: Limits, windowNow: int)
    requires forall e :: e in db.events ==> e.at <= windowNow
    ensures var answer := Consume(db, user, limits, windowNow);
      var day, count := DayHasRoom(db, user, limits, windowNow), CountHasRoom(db, user, limits);
      && (answer == Admitted <==> user in db.users && day && count)
      && (answer == DailyReached <==> !day)
      && (answer == CountReached <==> day && !count)
  {
    WindowIsAll(db.events, user, windowNow - DAY, windowNow, Messages);
    assert (set id | id in db.mailboxes && db.mailboxes[id] == user) == OwnedSet(db, user);
  }

  // ---------------------------------------------------------------- the owned count

  /** No creation of the receiver that has counted already would find its limit reached. */
  ghost predicate LeavesRoom(s: System, mailbox: nat, to: nat) {
    && mailbox in s.db.mailboxes && s.db.mailboxes[mailbox] != to ==>
      forall w :: RoomFor(TxAt(s, w), to, Owned(s.db, to) + 1)
  }

  predicate RoomFor(tx: Tx, user: nat, owned: nat) {
    Counting(tx) && tx.user == user && tx.limits.count > 0 ==> owned < tx.limits.count
  }

  lemma OwnedSetAfterTransferred(db: Db, mailbox: nat, to: nat)
    ensures Owned(Transferred(db, mailbox, to), to) ==
      Owned(db, to) + if mailbox in db.mailboxes && db.mailboxes[mailbox] != to then 1 else 0
  {
    var b := Transferred(db, mailbox, to);
    if mailbox in db.mailboxes && db.mailboxes[mailbox] != to {
      assert OwnedSet(b, to) == OwnedSet(db, to) + {mailbox};
    } else {
      assert OwnedSet(b, to) == OwnedSet(db, to);
    }
  }

  /** A transfer keeps every count valid exactly when it leaves room for the receiver's creations. */
  lemma TransferKeepsIff(s: System, mailbox: nat, to: nat)
    requires Inv(s)
    ensures Inv(Next(s, Transfer(mailbox, to))) <==> LeavesRoom(s, mailbox, to)
  {
    var t := Next(s, Transfer(mailbox, to));
    NextStaysLocked(s, Transfer(mailbox, to));
    OwnedSetAfterTransferred(s.db, mailbox, to);
    forall w ensures CountHolds(t, w) <==>
        !(mailbox in s.db.mailboxes && s.db.mailboxes[mailbox] != to) || RoomFor(TxAt(s, w), to, Owned(s.db, to) + 1)
    {
      assert CountHolds(s, w);
      if TxAt(s, w) != Idle && TxAt(s, w).user != to {
        OwnedAfterTransferred(s.db, mailbox, to, TxAt(s, w).user);
      }
    }
  }

  /** Only a commit and a transfer can add to what a user owns. */
  lemma CountHoldsNext(s: System, step: Step, w: nat)
    requires Locked(s) && CountHolds(s, w)
    requires step.Transfer? && TxAt(s, w) != Idle ==> step.to != TxAt(s, w).user
    ensures CountHolds(Next(s, step), w)
  {
    var tx := TxAt(s, w);
    match step
    case Commit(v) =>
      CountHoldsCommit(s, v, w);
    case Delete(mailbox) =>
      if tx != Idle {
        OwnedAfterDeleted(s.db, mailbox, tx.user);
      }
    case Transfer(mailbox, to) =>
      if tx != Idle {
        OwnedAfterTransferred(s.db, mailbox, to, tx.user);
      }
    case _ =>
  }

  lemma CountHoldsCommit(s: System, v: nat, w: nat)
    requires Locked(s) && CountHolds(s, w)
    ensures CountHolds(Next(s, Commit(v)), w)
  {
    var tx, other := TxAt(s, v), TxAt(s, w);
    assert TxLocked(s, v) && TxLocked(s, w);
    if v != w && tx.Inserted? && Counting(other) {
      OwnedAfterCreated(s.db, tx.user, tx.mailbox, tx.now, other.user);
    }
  }

  lemma NextKeeps(s: System, step: Step)
    requires Inv(s) && (step.Transfer? ==> LeavesRoom(s, step.mailbox, step.to))
    ensures Inv(Next(s, step))
  {
    if step.Transfer? {
      TransferKeepsIff(s, step.mailbox, step.to);
    } else {
      NextStaysLocked(s, step);
      forall w ensures CountHolds(Next(s, step), w) {
        CountHoldsNext(s, step, w);
      }
    }
  }

  /** Every transfer of the run leaves room for the creations it meets. */
  ghost predicate Undisturbed(s: System, steps: seq<Step>) {
    forall k :: 0 <= k < |steps| && steps[k].Transfer? ==>
      LeavesRoom(Run(s, steps[..k]), steps[k].mailbox, steps[k].to)
  }

  lemma UndisturbedSplits(s: System, steps: seq<Step>)
    requires steps != []
    ensures var before, last := steps[..|steps| - 1], steps[|steps| - 1];
      Undisturbed(s, steps) <==>
        Undisturbed(s, before) && (last.Transfer? ==> LeavesRoom(Run(s, before), last.mailbox, last.to))
  {
    var before := steps[..|steps| - 1];
    assert forall k :: 0 <= k <= |before| ==> before[..k] == steps[..k];
    assert forall k :: 0 <= k < |before| ==> before[k] == steps[k];
  }

  /** The invariant holds all along a run exactly when every transfer leaves room. */
  lemma {:induction false} RunKeepsIff(s: System, steps: seq<Step>)
    requires Inv(s)
    ensures Undisturbed(s, steps) <==> forall k :: 0 <= k <= |steps| ==> Inv(Run(s, steps[..k]))
    decreases |steps|
  {
    assert steps[..|steps|] == steps;
    if steps == [] {
      assert forall k :: 0 <= k <= |steps| ==> steps[..k] == [];
    } else {
      var before, last := steps[..|steps| - 1], steps[|steps| - 1];
      RunKeepsIff(s, before);
      assert before[..|before|] == before;
      UndisturbedSplits(s, steps);
      if forall k :: 0 <= k <= |steps| ==> Inv(Run(s, steps[..k])) {
        InvBefore(s, steps, before);
        LastKeepsIff(Run(s, before), last);
      } else if Undisturbed(s, steps) {
        LastKeepsIff(Run(s, before), last);
        InvAfter(s, steps, before);
      }
    }
  }

  lemma LastKeepsIff(s: System, step: Step)
    requires Inv(s)
    ensures Inv(Next(s, step)) <==> (step.Transfer? ==> LeavesRoom(s, step.mailbox, step.to))
  {
    if step.Transfer? {
      TransferKeepsIff(s, step.mailbox, step.to);
    } else {
      NextKeeps(s, step);
    }
  }

  lemma InvBefore(s: System, steps: seq<Step>, before: seq<Step>)
    requires steps != [] && before == steps[..|steps| - 1]
    requires forall k :: 0 <= k <= |steps| ==> Inv(Run(s, steps[..k]))
    ensures Inv(Run(s, steps)) && forall k :: 0 <= k <= |before| ==> Inv(Run(s, before[..k]))
  {
    assert steps[..|steps|] == steps;
    forall k | 0 <= k <= |before| ensures Inv(Run(s, before[..k])) {
      assert before[..k] == steps[..k];
    }
  }

  lemma InvAfter(s: System, steps: seq<Step>, before: seq<Step>)
    requires steps != [] && before == steps[..|steps| - 1] && Inv(Run(s, steps))
    requires forall k :: 0 <= k <= |before| ==> Inv(Run(s, before[..k]))
    ensures forall k :: 0 <= k <= |steps| ==> Inv(Run(s, steps[..k]))
  {
    forall k | 0 <= k <= |steps| ensures Inv(Run(s, steps[..k])) {
      if k < |steps| {
        assert steps[..k] == before[..k];
      } else {
        assert steps[..k] == steps;
      }
    }
  }

  lemma RunKeeps(s: System, steps: seq<Step>)
    requires Inv(s) && Undisturbed(s, steps)
    ensures Inv(Run(s, steps))
  {
    RunKeepsIff(s, steps);
    assert steps[..|steps|] == steps;
  }

  // ---------------------------------------------------------------- equal to a serial run

  lemma {:induction false} SerialConcat(db: Db, a: seq<SerialOp>, b: seq<SerialOp>)
    ensures SerialRun(db, a + b) == SerialRun(SerialRun(db, a), b)
    decreases |b|
  {
    if b == [] {
      assert a + b == a;
    } else {
      assert (a + b)[..|a + b| - 1] == a + b[..|b| - 1];
      SerialConcat(db, a, b[..|b| - 1]);
    }
  }

  lemma StepIsItsEffect(s: System, step: Step)
    requires Inv(s)
    ensures SerialRun(s.db, Effect(s, step)) == Next(s, step).db
  {
    if step.Commit? {
      assert TxLocked(s, step.w) && CountHolds(s, step.w);
    }
    var effect := Effect(s, step);
    if effect != [] {
      assert effect[..0] == [] && SerialRun(s.db, []) == s.db;
      assert SerialRun(s.db, effect) == SerialApply(s.db, effect[0]);
    }
  }

  /** Every interleaving ends in the same rows as running its creations one after another,
      in commit order, each with its checks made at the moment it commits. */
  lemma {:induction false} RunIsSerial(s: System, steps: seq<Step>)
    requires Inv(s) && Undisturbed(s, steps)
    ensures Run(s, steps).db == SerialRun(s.db, Effects(s, steps))
    decreases |steps|
  {
    if steps != [] {
      var before := steps[..|steps| - 1];
      UndisturbedSplits(s, steps);
      RunIsSerial(s, before);
      RunKeeps(s, before);
      StepIsItsEffect(Run(s, before), steps[|steps| - 1]);
      SerialConcat(s.db, Effects(s, before), Effect(Run(s, before), steps[|steps| - 1]));
    }
  }

  lemma InsertedIsAdmitted(s: System, w: nat)
    requires Inv(s) && TxAt(s, w).Inserted?
    ensures var tx := TxAt(s, w); Consume(s.db, tx.user, tx.limits, tx.windowNow) == Admitted
  {
    assert TxLocked(s, w) && CountHolds(s, w);
  }

  /** In particular no committed creation would have been refused in the serial run. */
  lemma CommitsAreAdmitted(s: System, steps: seq<Step>, t: System, w: nat)
    requires Inv(s) && Undisturbed(s, steps) && t == Run(s, steps) && TxAt(t, w).Inserted?
    ensures var tx := TxAt(t, w);
      Consume(SerialRun(s.db, Effects(s, steps)), tx.user, tx.limits, tx.windowNow) == Admitted
  {
    RunKeeps(s, steps);
    RunIsSerial(s, steps);
    InsertedIsAdmitted(t, w);
  }

  // ---------------------------------------------------------------- the limits hold

  /**
    A user whose limits stay fixed. `skew` bounds the time between the two clock readings of
    one creation.
   */
  ghost predicate FixedLimits(steps: seq<Step>, user: nat, limits: Limits, skew: nat) {
    forall k :: 0 <= k < |steps| ==> FixedAt(steps[k], user, limits, skew)
  }

  predicate FixedAt(step: Step, user: nat, limits: Limits, skew: nat) {
    && (step.Begin? && step.user == user ==> step.limits == limits)
    && (step.Count? ==> step.windowNow <= step.now + skew)
  }

  /** Nobody hands the user a mailbox. */
  ghost predicate NoneHanded(steps: seq<Step>, user: nat) {
    forall k :: 0 <= k < |steps| && steps[k].Transfer? ==> steps[k].to != user
  }

  ghost predicate UserTxs(s: System, user: nat, limits: Limits, skew: nat) {
    && (forall w :: TxAt(s, w) != Idle && TxAt(s, w).user == user ==> TxAt(s, w).limits == limits)
    && (forall w :: Counting(TxAt(s, w)) ==> TxAt(s, w).windowNow <= TxAt(s, w).now + skew)
  }

  ghost predicate DailyRespected(s: System, user: nat, limits: Limits, skew: nat) {
    && UserTxs(s, user, limits, skew)
    && (limits.daily > 0 ==> EachFitted(s.db.events, user, DAY - skew, limits.daily, Messages))
  }

  /** The creations of one user have counted right, and the user's limit is kept. */
  ghost predicate CountRespected(s: System, user: nat, limits: Limits) {
    && (forall w :: TxAt(s, w) != Idle && TxAt(s, w).user == user ==> CountHolds(s, w))
    && (limits.count > 0 ==> Owned(s.db, user) <= limits.count)
  }

  lemma NextUserTxs(s: System, step: Step, user: nat, limits: Limits, skew: nat)
    requires UserTxs(s, user, limits, skew) && FixedAt(step, user, limits, skew)
    ensures UserTxs(Next(s, step), user, limits, skew)
  {
    if step.Delete? || step.Transfer? {
      assert forall v :: TxAt(Next(s, step), v) == TxAt(s, v);
    } else {
      assert forall v :: v != step.w ==> TxAt(Next(s, step), v) == TxAt(s, v);
    }
  }

  lemma NextDaily(s: System, step: Step, user: nat, limits: Limits, skew: nat)
    requires Locked(s) && DailyRespected(s, user, limits, skew) && FixedAt(step, user, limits, skew)
    ensures DailyRespected(Next(s, step), user, limits, skew)
  {
    NextUserTxs(s, step, user, limits, skew);
    NextEvents(s, step);
    if step.Commit? && TxAt(s, step.w).Inserted? && limits.daily > 0 {
      CommitFits(s, step.w, user, limits, skew);
    }
  }

  lemma CommitFits(s: System, w: nat, user: nat, limits: Limits, skew: nat)
    requires TxLocked(s, w) && DailyRespected(s, user, limits, skew) && TxAt(s, w).Inserted? && limits.daily > 0
    ensures var tx := TxAt(s, w);
      EachFitted(s.db.events + [Event(tx.user, tx.now, 1)], user, DAY - skew, limits.daily, Messages)
  {
    var tx := TxAt(s, w);
    CreationFits(s.db.events, Event(tx.user, tx.now, 1), user, tx.windowNow - DAY, DAY - skew, limits.daily);
  }

  lemma NextEvents(s: System, step: Step)
    ensures var log := Next(s, step).db.events;
      || log == s.db.events
      || (step.Commit? && TxAt(s, step.w).Inserted? &&
          log == s.db.events + [Event(TxAt(s, step.w).user, TxAt(s, step.w).now, 1)])
  {
  }

  /** What counted right at its own clock reading fits in the window that ends with its time stamp. */
  lemma CreationFits(log: seq<Event>, e: Event, user: nat, from: int, span: int, limit: nat)
    requires EachFitted(log, user, span, limit, Messages) && from <= e.at - span
    requires e.user == user ==> Used(log, user, from, Messages) < limit
    ensures EachFitted(log + [e], user, span, limit, Messages)
  {
    UsedMonotone(log, user, from, e.at - span, Messages);
    FittedAppend(log, e, user, span, limit, Messages);
  }

  lemma NextCount(s: System, step: Step, user: nat, limits: Limits, skew: nat)
    requires Locked(s) && UserTxs(s, user, limits, skew) && CountRespected(s, user, limits)
    requires step.Transfer? ==> step.to != user
    ensures CountRespected(Next(s, step), user, limits)
  {
    var t := Next(s, step);
    forall w | TxAt(t, w) != Idle && TxAt(t, w).user == user ensures CountHolds(t, w) {
      if TxAt(s, w) != Idle && TxAt(s, w).user == user {
        CountHoldsNext(s, step, w);
      }
    }
    OwnedAfterStep(s, step, user, limits);
  }

  lemma OwnedAfterStep(s: System, step: Step, user: nat, limits: Limits)
    requires Locked(s) && CountRespected(s, user, limits) && (step.Transfer? ==> step.to != user)
    requires forall w :: TxAt(s, w) != Idle && TxAt(s, w).user == user ==> TxAt(s, w).limits == limits
    ensures limits.count > 0 ==> Owned(Next(s, step).db, user) <= limits.count
  {
    match step
    case Commit(w) =>
      var tx := TxAt(s, w);
      assert TxLocked(s, w);
      if tx.Inserted? {
        OwnedAfterCreated(s.db, tx.user, tx.mailbox, tx.now, user);
        assert tx.user == user ==> CountHolds(s, w);
      }
    case Delete(mailbox) => OwnedAfterDeleted(s.db, mailbox, user);
    case Transfer(mailbox, to) => OwnedAfterTransferred(s.db, mailbox, to, user);
    case _ =>
  }

  lemma {:induction false} RunRespects(s: System, steps: seq<Step>, user: nat, limits: Limits, skew: nat)
    requires Locked(s) && DailyRespected(s, user, limits, skew) && CountRespected(s, user, limits)
    requires FixedLimits(steps, user, limits, skew)
    ensures DailyRespected(Run(s, steps), user, limits, skew)
    ensures NoneHanded(steps, user) ==> CountRespected(Run(s, steps), user, limits)
    decreases |steps|
  {
    if steps != [] {
      var before, last := steps[..|steps| - 1], steps[|steps| - 1];
      assert forall k :: 0 <= k < |before| ==> before[k] == steps[k];
      RunRespects(s, before, user, limits, skew);
      RunStaysLocked(s, before);
      NextDaily(Run(s, before), last, user, limits, skew);
      if NoneHanded(steps, user) {
        NextCount(Run(s, before), last, user, limits, skew);
      }
    }
  }

  function StartFrom(users: set<nat>): System {
    System(Db(map u | u in users :: 0, map[], []), map[], map[], 0)
  }

  lemma StartRespects(users: set<nat>, user: nat, limits: Limits, skew: nat)
    ensures var s := StartFrom(users);
      Locked(s) && DailyRespected(s, user, limits, skew) && CountRespected(s, user, limits)
  {
    assert OwnedSet(StartFrom(users).db, user) == {};
  }

  /** What the user creates in the window from `lo` on stays within the daily limit, if there is one. */
  ghost predicate WindowFits(db: Db, user: nat, limits: Limits, lo: int, span: int) {
    limits.daily > 0 ==> UsedIn(db.events, user, lo, lo + span, Messages) <= limits.daily
  }

  /**
    In every run, a user with fixed limits creates no more than the daily limit in any window
    of 24 hours less the time between a creation's two clock readings, whatever else happens;
    and self-service creation never takes a user to whom nobody hands mailboxes above the
    owned-mailbox limit, whoever else is handed some.
   */
  lemma LimitsHoldInEveryRun(users: set<nat>, steps: seq<Step>, user: nat, limits: Limits, skew: nat, lo: int)
    requires FixedLimits(steps, user, limits, skew)
    ensures var db := Run(StartFrom(users), steps).db;
      && WindowFits(db, user, limits, lo, DAY - skew)
      && (limits.count > 0 && NoneHanded(steps, user) ==> Owned(db, user) <= limits.count)
  {
    StartRespects(users, user, limits, skew);
    RunRespects(StartFrom(users), steps, user, limits, skew);
    FittedWindow(Run(StartFrom(users), steps), user, limits, skew, lo, DAY - skew);
  }

  lemma FittedWindow(s: System, user: nat, limits: Limits, skew: nat, lo: int, span: int)
    requires DailyRespected(s, user, limits, skew) && span <= DAY - skew
    ensures WindowFits(s.db, user, limits, lo, span)
  {
    if limits.daily > 0 {
      EveryWindowFits(s.db.events, user, DAY - skew, limits.daily, Messages, lo, lo + span);
    }
  }

  /** In every run whose creations read the clock twice at most `skew` apart, every window of
      length `span` fits. */
  ghost predicate DailyHolds(skew: nat, span: int) {
    forall users, steps, user, limits, lo :: FixedLimits(steps, user, limits, skew) ==>
      WindowFits(Run(StartFrom(users), steps).db, user, limits, lo, span)
  }

  /** The longest windows in which the daily limit holds in every run. */
  lemma DailyHoldsIff(skew: nat, span: int)
    ensures DailyHolds(skew, span) <==> span <= Max(DAY - skew, -1)
  {
    if span <= Max(DAY - skew, -1) {
      forall users, steps, user, limits, lo | FixedLimits(steps, user, limits, skew)
        ensures WindowFits(Run(StartFrom(users), steps).db, user, limits, lo, span)
      {
        ShortWindowFits(users, steps, user, limits, skew, lo, span);
      }
    } else {
      LateCreationOverfills(skew, Max(DAY - skew, -1) + 1, span);
    }
  }

  lemma ShortWindowFits(users: set<nat>, steps: seq<Step>, user: nat, limits: Limits, skew: nat, lo: int, span: int)
    requires FixedLimits(steps, user, limits, skew) && span <= Max(DAY - skew, -1)
    ensures WindowFits(Run(StartFrom(users), steps).db, user, limits, lo, span)
  {
    if span < 0 {
      EmptyWindow(Run(StartFrom(users), steps).db.events, user, lo, lo + span, Messages);
    } else {
      StartRespects(users, user, limits, skew);
      RunRespects(StartFrom(users), steps, user, limits, skew);
      FittedWindow(Run(StartFrom(users), steps), user, limits, skew, lo, span);
    }
  }

  const ONE_A_DAY := Limits(0, 1)

  /** One creation by user 0, undisturbed. */
  function OneCreation(now: int, windowNow: int): seq<Step> {
    [Begin(0, 0, ONE_A_DAY), Count(0, now, windowNow), Insert(0), Commit(0)]
  }

  /** Two creations `gap` apart. The second one takes its time between the two readings of the
      clock, and counts back from where the first one is out of sight. */
  function LateCreation(gap: int): seq<Step> {
    OneCreation(0, 0) + OneCreation(gap, DAY + 1)
  }

  function InTurn(s: System, now: int, windowNow: int): System {
    Next(Next(Next(Next(s, Begin(0, 0, ONE_A_DAY)), Count(0, now, windowNow)), Insert(0)), Commit(0))
  }

  lemma RunThen(s: System, before: seq<Step>, step: Step)
    ensures Run(s, before + [step]) == Next(Run(s, before), step)
  {
    assert (before + [step])[..|before|] == before;
  }

  lemma RunInTurn(s: System, before: seq<Step>, now: int, windowNow: int)
    ensures Run(s, before + OneCreation(now, windowNow)) == InTurn(Run(s, before), now, windowNow)
  {
    var a := before + [Begin(0, 0, ONE_A_DAY)];
    var b := a + [Count(0, now, windowNow)];
    var c := b + [Insert(0)];
    assert before + OneCreation(now, windowNow) == c + [Commit(0)];
    RunThen(s, before, Begin(0, 0, ONE_A_DAY));
    RunThen(s, a, Count(0, now, windowNow));
    RunThen(s, b, Insert(0));
    RunThen(s, c, Commit(0));
  }

  predicate Resting(s: System) {
    0 in s.db.users && TxAt(s, 0) == Idle && s.locks == map[]
  }

  lemma InTurnCreates(s: System, now: int, windowNow: int)
    requires Resting(s) && CreatedSince(s.db, 0, windowNow - DAY) == 0
    ensures var t := InTurn(s, now, windowNow); Resting(t) && t.db.events == s.db.events + [Event(0, now, 1)]
  {
    var a := Next(s, Begin(0, 0, ONE_A_DAY));
    assert Consume(a.db, 0, ONE_A_DAY, windowNow) == Admitted;
    var b := Next(a, Count(0, now, windowNow));
    assert TxAt(b, 0) == Consumed(0, ONE_A_DAY, now, windowNow) && b.locks == map[0 := 0];
    var c := Next(b, Insert(0));
    assert Release(c, 0) == map[];
  }

  lemma LateCreationRuns(gap: int)
    ensures Run(StartFrom({0}), LateCreation(gap)).db.events == [Event(0, 0, 1), Event(0, gap, 1)]
  {
    var s, first := StartFrom({0}), OneCreation(0, 0);
    assert [] + first == first;
    RunInTurn(s, [], 0, 0);
    InTurnCreates(s, 0, 0);
    var t := Run(s, first);
    assert [Event(0, 0, 1)][..0] == [];
    assert CreatedSince(t.db, 0, 1) == 0;
    RunInTurn(s, first, gap, DAY + 1);
    InTurnCreates(t, gap, DAY + 1);
  }

  /** With one day less `skew`, or nothing when that is negative, between two creations that
      both pass the limit of one a day. */
  lemma LateCreationOverfills(skew: nat, gap: int, span: int)
    requires gap == Max(DAY - skew, -1) + 1 && gap <= span
    ensures FixedLimits(LateCreation(gap), 0, ONE_A_DAY, skew)
    ensures !WindowFits(Run(StartFrom({0}), LateCreation(gap)).db, 0, ONE_A_DAY, 0, span)
  {
    LateCreationRuns(gap);
    BothInWindow(gap, span, Messages);
  }

  // ---------------------------------------------------------------- the lifetime counter

  function Creations(log: seq<Event>, user: nat): nat
    decreases |log|
  {
    if log == [] then 0
    else Creations(log[..|log| - 1], user) + if log[|log| - 1].user == user then 1 else 0
  }

  ghost predicate CountersMatch(db: Db) {
    && (forall user :: user in db.users ==> db.users[user] == Creations(db.events, user))
    && (forall e :: e in db.events ==> e.user in db.users)
  }

  lemma CreatedKeepsCounters(db: Db, user: nat, mailbox: nat, now: int)
    requires CountersMatch(db) && user in db.users
    ensures CountersMatch(Created(db, user, mailbox, now))
  {
    var b := Created(db, user, mailbox, now);
    assert b.events[..|b.events| - 1] == db.events;
  }

  /** The lifetime counter is the number of creations, whoever made them and whatever was
      deleted or handed over since. */
  lemma {:induction false} CountersMatchInEveryRun(users: set<nat>, steps: seq<Step>)
    ensures CountersMatch(Run(StartFrom(users), steps).db)
    decreases |steps|
  {
    if steps != [] {
      var s := Run(StartFrom(users), steps[..|steps| - 1]);
      CountersMatchInEveryRun(users, steps[..|steps| - 1]);
      var step := steps[|steps| - 1];
      if step.Commit? && TxAt(s, step.w).Inserted? && TxAt(s, step.w).user in s.db.users {
        CreatedKeepsCounters(s.db, TxAt(s, step.w).user, TxAt(s, step.w).mailbox, TxAt(s, step.w).now);
      }
    }
  }

  // ---------------------------------------------------------------- what the lock does not cover

  /**
    A transfer to the user that lands between the count and the commit takes the user above
    the limit exactly when the creation was to use up the last place: only user rows are locked.
   */
  lemma TransferBreaksTheLimitIff(s: System, w: nat, mailbox: nat)
    requires Inv(s) && TxAt(s, w).Inserted? && TxAt(s, w).limits.count > 0
    requires mailbox in s.db.mailboxes && s.db.mailboxes[mailbox] != TxAt(s, w).user
    ensures var tx := TxAt(s, w);
      var after := Next(Next(s, Transfer(mailbox, tx.user)), Commit(w)).db;
      Owned(after, tx.user) > tx.limits.count <==> Owned(s.db, tx.user) + 1 == tx.limits.count
  {
    var tx := TxAt(s, w);
    assert TxLocked(s, w) && CountHolds(s, w);
    var t := Next(s, Transfer(mailbox, tx.user));
    OwnedSetAfterTransferred(s.db, mailbox, tx.user);
    OwnedAfterCreated(t.db, tx.user, tx.mailbox, tx.now, tx.user);
  }

  /** Such a state is an ordinary one: one user at work, another with a mailbox to give. */
  lemma TransferCanBreakTheLimit(s: System)
    requires s.db == Db(map[1 := 0, 2 := 1], map[0 := 2], [])
    requires s.txs == map[7 := Inserted(1, Limits(1, 0), 0, 0, 1)] && s.locks == map[1 := 7] && s.nextId == 2
    ensures Inv(s) && Owned(Next(Next(s, Transfer(0, 1)), Commit(7)).db, 1) > 1
  {
    assert OwnedSet(s.db, 1) == {};
    assert TxAt(s, 7) == Inserted(1, Limits(1, 0), 0, 0, 1);
    TransferBreaksTheLimitIff(s, 7, 0);
  }

  // ---------------------------------------------------------------- in place

  class MailboxTables {
    var users: map<nat, nat>
    var mailboxes: map<nat, nat>
    var events: seq<Event>
    var nextId: nat

    function View(): Db
      reads this
    {
      Db(users, mailboxes, events)
    }

    /** `consumeMailboxQuotaTx`: the guarded increment, then telling the guards apart. */
    method ConsumeMailboxQuota(user: nat, limits: Limits, windowNow: int) returns (verdict: Verdict)
      modifies this`users
      ensures verdict == Consume(old(View()), user, limits, windowNow)
      ensures users == if verdict == Admitted then old(users)[user := old(users)[user] + 1] else old(users)
    {
      if user in users && WithinLimits(View(), user, limits, windowNow) {
        users := users[user := users[user] + 1];
        return Admitted;
      }
      if limits.count == 0 && limits.daily == 0 {
        return NotFound;
      }
      if limits.daily > 0 && CreatedSince(View(), user, windowNow - DAY) >= limits.daily {
        return DailyReached;
      }
      if limits.count > 0 && Owned(View(), user) >= limits.count {
        return CountReached;
      }
      verdict := NotFound;
    }

    /** One creation with nobody interfering, from the count to the commit. */
    method CreateMailbox(user: nat, limits: Limits, now: int, windowNow: int) returns (verdict: Verdict, mailbox: nat)
      modifies this
      ensures verdict == Consume(old(View()), user, limits, windowNow)
      ensures View() == SerialApply(old(View()), SerialCreate(user, limits, mailbox, now, windowNow))
      ensures mailbox == old(nextId) && nextId >= old(nextId)
    {
      mailbox := nextId;
      verdict := ConsumeMailboxQuota(user, limits, windowNow);
      if verdict == Admitted {
        nextId := nextId + 1;
        mailboxes := mailboxes[mailbox := user];
        events := events + [Event(user, now, 1)];
      }
    }
  }
}

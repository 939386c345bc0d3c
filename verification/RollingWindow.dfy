/** Event logs counted over a rolling window, and what pruning does to them. */
module RollingWindow {

  const SECOND := 1_000_000_000
  const MINUTE := 60 * SECOND
  const DAY := 24 * 60 * MINUTE

  /** One row of an event table. `weight` is the number of recipients it was charged for. */
  datatype Event = Event(user: nat, at: int, weight: nat)

  datatype Measure = Messages | Recipients

  function Charge(e: Event, m: Measure): nat {
    if m == Messages then 1 else e.weight
  }

  /** `SUM` or `COUNT` over the user's rows with `created_at >= from`. */
  function Used(log: seq<Event>, user: nat, from: int, m: Measure): nat
    decreases |log|
  {
    if log == [] then 0
    else
      var last := log[|log| - 1];
      Used(log[..|log| - 1], user, from, m) + if last.user == user && last.at >= from then Charge(last, m) else 0
  }

  /** What the user was charged in the closed window `[lo, hi]`. */
  function UsedIn(log: seq<Event>, user: nat, lo: int, hi: int, m: Measure): nat
    decreases |log|
  {
    if log == [] then 0
    else
      var last := log[|log| - 1];
      UsedIn(log[..|log| - 1], user, lo, hi, m) +
      if last.user == user && lo <= last.at <= hi then Charge(last, m) else 0
  }

  function Prune(log: seq<Event>, cutoff: int): seq<Event>
    decreases |log|
  {
    if log == [] then []
    else
      var last := log[|log| - 1];
      Prune(log[..|log| - 1], cutoff) + if last.at >= cutoff then [last] else []
  }

  /** Every event of the user fitted under `limit` when it was appended, counting back `span`
      from its own time stamp. Nothing is said about the order of the time stamps. */
  ghost predicate EachFitted(log: seq<Event>, user: nat, span: int, limit: nat, m: Measure) {
    forall i :: 0 <= i < |log| && log[i].user == user ==>
      Used(log[..i], user, log[i].at - span, m) + Charge(log[i], m) <= limit
  }

  lemma {:induction false} UsedMonotone(log: seq<Event>, user: nat, earlier: int, later: int, m: Measure)
    requires earlier <= later
    ensures Used(log, user, later, m) <= Used(log, user, earlier, m)
    decreases |log|
  {
    if log != [] {
      UsedMonotone(log[..|log| - 1], user, earlier, later, m);
    }
  }

  lemma {:induction false} WindowWithin(log: seq<Event>, user: nat, lo: int, hi: int, from: int, m: Measure)
    requires from <= lo
    ensures UsedIn(log, user, lo, hi, m) <= Used(log, user, from, m)
    decreases |log|
  {
    if log != [] {
      WindowWithin(log[..|log| - 1], user, lo, hi, from, m);
    }
  }

  lemma {:induction false} WindowIsAll(log: seq<Event>, user: nat, lo: int, hi: int, m: Measure)
    requires forall e :: e in log ==> e.at <= hi
    ensures UsedIn(log, user, lo, hi, m) == Used(log, user, lo, m)
    decreases |log|
  {
    if log != [] {
      WindowIsAll(log[..|log| - 1], user, lo, hi, m);
    }
  }

  /** The charge in every closed window no longer than `span` stays within the limit,
      however the time stamps are ordered: the event appended last into the window counted
      all the others. */
  lemma {:induction false} EveryWindowFits(log: seq<Event>, user: nat, span: int, limit: nat, m: Measure, lo: int,
                                           hi: int)
    requires EachFitted(log, user, span, limit, m) && hi - lo <= span
    ensures UsedIn(log, user, lo, hi, m) <= limit
    decreases |log|
  {
    if log != [] {
      var before, last := log[..|log| - 1], log[|log| - 1];
      if last.user == user && lo <= last.at <= hi {
        WindowWithin(before, user, lo, hi, last.at - span, m);
      } else {
        forall i | 0 <= i < |before| && before[i].user == user
          ensures Used(before[..i], user, before[i].at - span, m) + Charge(before[i], m) <= limit
        {
          assert before[..i] == log[..i];
        }
        EveryWindowFits(before, user, span, limit, m, lo, hi);
      }
    }
  }

  lemma {:induction false} FittedAppend(log: seq<Event>, e: Event, user: nat, span: int, limit: nat, m: Measure)
    requires EachFitted(log, user, span, limit, m)
    requires e.user == user ==> Used(log, user, e.at - span, m) + Charge(e, m) <= limit
    ensures EachFitted(log + [e], user, span, limit, m)
  {
    forall i | 0 <= i < |log + [e]| && (log + [e])[i].user == user
      ensures Used((log + [e])[..i], user, (log + [e])[i].at - span, m) + Charge((log + [e])[i], m) <= limit
    {
      assert (log + [e])[..i] == log[..i];
      assert log[..|log|] == log;
    }
  }

  lemma {:induction false} EmptyWindow(log: seq<Event>, user: nat, lo: int, hi: int, m: Measure)
    requires hi < lo
    ensures UsedIn(log, user, lo, hi, m) == 0
    decreases |log|
  {
    if log != [] {
      EmptyWindow(log[..|log| - 1], user, lo, hi, m);
    }
  }

  lemma BothInWindow(gap: int, span: int, m: Measure)
    requires 0 <= gap <= span
    ensures UsedIn([Event(0, 0, 1), Event(0, gap, 1)], 0, 0, span, m) == 2
  {
    assert [Event(0, 0, 1), Event(0, gap, 1)][..1] == [Event(0, 0, 1)];
    assert [Event(0, 0, 1)][..0] == [];
  }

  /** A window that starts no earlier than the cutoff does not see what was pruned. */
  lemma {:induction false} PruneUnseen(log: seq<Event>, cutoff: int, user: nat, from: int, m: Measure)
    requires cutoff <= from
    ensures Used(Prune(log, cutoff), user, from, m) == Used(log, user, from, m)
    decreases |log|
  {
    if log != [] {
      var before, last := log[..|log| - 1], log[|log| - 1];
      PruneUnseen(before, cutoff, user, from, m);
      if last.at >= cutoff {
        assert Prune(log, cutoff)[..|Prune(before, cutoff)|] == Prune(before, cutoff);
      } else {
        assert Prune(log, cutoff) == Prune(before, cutoff);
      }
    }
  }

  lemma PruneAppend(log: seq<Event>, e: Event, cutoff: int)
    ensures Prune(log + [e], cutoff) == Prune(log, cutoff) + if e.at >= cutoff then [e] else []
  {
    assert (log + [e])[..|log|] == log;
  }

  lemma {:induction false} PruneTwice(log: seq<Event>, a: int, b: int)
    ensures Prune(Prune(log, a), b) == Prune(log, if a < b then b else a)
    decreases |log|
  {
    if log != [] {
      var before, last := log[..|log| - 1], log[|log| - 1];
      PruneTwice(before, a, b);
      if last.at >= a {
        PruneAppend(Prune(before, a), last, b);
      } else {
        assert Prune(log, a) == Prune(before, a);
      }
    }
  }
}

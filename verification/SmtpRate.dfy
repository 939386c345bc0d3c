/**
  The SMTP allowance: a daily budget in recipients and a per-minute budget in messages, both
  counted over rolling windows of an event log that a background job prunes.

  Each call reads the clock before it takes the user's row lock, so readings may reach the
  log out of order; time is an integer number of nanoseconds.
 */
module SmtpRate {
  import opened Common
  import opened RollingWindow

  /** 0 means unlimited. */
  datatype Limits = Limits(daily: nat, minute: nat)

  datatype Verdict = Unmetered | Admitted | DailyLimited | MinuteLimited

  function Charged(recipients: int): nat {
    if recipients < 1 then 1 else recipients
  }

  function Decide(log: seq<Event>, user: nat, limits: Limits, recipients: int, now: int): Verdict {
    if limits.daily == 0 && limits.minute == 0 then Unmetered
    else if limits.daily > 0 && Used(log, user, now - DAY, Recipients) + Charged(recipients) > limits.daily then
      DailyLimited
    else if limits.minute > 0 && Used(log, user, now - MINUTE, Messages) >= limits.minute then MinuteLimited
    else Admitted
  }

  function Recorded(log: seq<Event>, user: nat, limits: Limits, recipients: int, now: int): seq<Event> {
    if Decide(log, user, limits, recipients, now) == Admitted then log + [Event(user, now, Charged(recipients))]
    else log
  }

  // ---------------------------------------------------------------- runs

  /** Limits stay fixed during a run; administrators are not in `policy`. */
  type Policy = map<nat, Limits>

  datatype Op = Send(user: nat, recipients: int, now: int) | Cleanup(now: int)

  function LimitsOf(policy: Policy, user: nat): Limits {
    if user in policy then policy[user] else Limits(0, 0)
  }

  function Apply(policy: Policy, log: seq<Event>, op: Op): seq<Event> {
    match op
    case Send(user, recipients, now) => Recorded(log, user, LimitsOf(policy, user), recipients, now)
    case Cleanup(now) => Prune(log, now - DAY)
  }

  function RunLog(policy: Policy, ops: seq<Op>): seq<Event>
    decreases |ops|
  {
    if ops == [] then [] else Apply(policy, RunLog(policy, ops[..|ops| - 1]), ops[|ops| - 1])
  }

  /** The same run with no cleanup ever happening. */
  function History(policy: Policy, ops: seq<Op>): seq<Event>
    decreases |ops|
  {
    if ops == [] then []
    else
      var before := History(policy, ops[..|ops| - 1]);
      if ops[|ops| - 1].Cleanup? then before else Apply(policy, before, ops[|ops| - 1])
  }

  function DecideLast(policy: Policy, log: seq<Event>, op: Op): Verdict
    requires op.Send?
  {
    Decide(log, op.user, LimitsOf(policy, op.user), op.recipients, op.now)
  }

  /** The event that a step adds to the log, if any. */
  function Added(policy: Policy, log: seq<Event>, op: Op): seq<Event> {
    if op.Send? && DecideLast(policy, log, op) == Admitted then [Event(op.user, op.now, Charged(op.recipients))] else []
  }

  /** The events admitted in the run as it really went, cleanups included. */
  function AdmittedEvents(policy: Policy, ops: seq<Op>): seq<Event>
    decreases |ops|
  {
    if ops == [] then []
    else
      var before := ops[..|ops| - 1];
      AdmittedEvents(policy, before) + Added(policy, RunLog(policy, before), ops[|ops| - 1])
  }

  // ---------------------------------------------------------------- what the log shows

  /**
    No cleanup has run with a clock more than `d` later than that of a send that follows it.
    A send that waits for the lock while a cleanup runs makes `d` as long as its wait.
    Readings of sends may be in any order among themselves.
   */
  ghost predicate CleanupsAtMostAhead(ops: seq<Op>, d: nat) {
    forall i, j :: 0 <= i < j < |ops| && ops[i].Cleanup? && ops[j].Send? ==> ops[i].now <= ops[j].now + d
  }

  datatype Horizon = NoneYet | At(cutoff: int)

  /** The latest cutoff of the cleanups so far. */
  function HorizonOf(ops: seq<Op>): Horizon
    decreases |ops|
  {
    if ops == [] then NoneYet
    else
      var h, last := HorizonOf(ops[..|ops| - 1]), ops[|ops| - 1];
      if last.Send? then h
      else if h.At? && h.cutoff >= last.now - DAY then h
      else At(last.now - DAY)
  }

  function PrunedTo(log: seq<Event>, h: Horizon): seq<Event> {
    if h.At? then Prune(log, h.cutoff) else log
  }

  lemma {:induction false} HorizonBehind(ops: seq<Op>, now: int)
    requires forall i :: 0 <= i < |ops| && ops[i].Cleanup? ==> ops[i].now <= now
    ensures HorizonOf(ops).At? ==> HorizonOf(ops).cutoff <= now - DAY
    decreases |ops|
  {
    if ops != [] {
      HorizonBehind(ops[..|ops| - 1], now);
    }
  }

  lemma UsedAppend(log: seq<Event>, e: Event, user: nat, from: int, m: Measure)
    ensures Used(log + [e], user, from, m) ==
      Used(log, user, from, m) + if e.user == user && e.at >= from then Charge(e, m) else 0
  {
    assert (log + [e])[..|log|] == log;
  }

  lemma ApplySend(policy: Policy, log: seq<Event>, op: Op)
    requires op.Send?
    ensures Apply(policy, log, op) == log + Added(policy, log, op) && |Added(policy, log, op)| <= 1
  {
  }

  lemma AddedCounts(log: seq<Event>, events: seq<Event>, added: seq<Event>, user: nat, from: int, m: Measure)
    requires Used(log, user, from, m) == Used(events, user, from, m) && |added| <= 1
    ensures Used(log + added, user, from, m) == Used(events + added, user, from, m)
  {
    if added == [] {
      assert log + added == log && events + added == events;
    } else {
      assert added == [added[0]];
      UsedAppend(log, added[0], user, from, m);
      UsedAppend(events, added[0], user, from, m);
    }
  }

  /** In every run the log counts from its horizon on as the record of all admitted messages does. */
  lemma {:induction false} LogCounts(policy: Policy, ops: seq<Op>, user: nat, from: int, m: Measure)
    requires HorizonOf(ops).At? ==> HorizonOf(ops).cutoff <= from
    ensures Used(RunLog(policy, ops), user, from, m) == Used(AdmittedEvents(policy, ops), user, from, m)
    decreases |ops|
  {
    if ops != [] {
      var prefix, last := ops[..|ops| - 1], ops[|ops| - 1];
      LogCounts(policy, prefix, user, from, m);
      var log, events := RunLog(policy, prefix), AdmittedEvents(policy, prefix);
      if last.Send? {
        ApplySend(policy, log, last);
        AddedCounts(log, events, Added(policy, log, last), user, from, m);
      } else {
        PruneUnseen(log, last.now - DAY, user, from, m);
        assert events + [] == events;
      }
    }
  }

  /**
    In every run: a send gets the verdict that the record of all messages admitted so far
    would give, unless a cleanup before it has read a later clock than it did.
   */
  lemma PruningChangesNoDecision(policy: Policy, ops: seq<Op>, k: nat)
    requires k < |ops| && ops[k].Send?
    requires forall i :: 0 <= i < k && ops[i].Cleanup? ==> ops[i].now <= ops[k].now
    ensures DecideLast(policy, RunLog(policy, ops[..k]), ops[k]) ==
      DecideLast(policy, AdmittedEvents(policy, ops[..k]), ops[k])
  {
    RecordDecides(policy, ops[..k], ops[k], RunLog(policy, ops[..k]), AdmittedEvents(policy, ops[..k]));
  }

  lemma RecordDecides(policy: Policy, prefix: seq<Op>, send: Op, log: seq<Event>, events: seq<Event>)
    requires send.Send? && forall i :: 0 <= i < |prefix| && prefix[i].Cleanup? ==> prefix[i].now <= send.now
    requires log == RunLog(policy, prefix) && events == AdmittedEvents(policy, prefix)
    ensures DecideLast(policy, log, send) == DecideLast(policy, events, send)
  {
    HorizonBehind(prefix, send.now);
    var dayAgo, minuteAgo := send.now - DAY, send.now - MINUTE;
    LogCounts(policy, prefix, send.user, dayAgo, Recipients);
    LogCounts(policy, prefix, send.user, minuteAgo, Messages);
    SameVerdict(policy, log, events, send, dayAgo, minuteAgo);
  }

  lemma SameVerdict(policy: Policy, log: seq<Event>, events: seq<Event>, send: Op, dayAgo: int, minuteAgo: int)
    requires send.Send? && dayAgo == send.now - DAY && minuteAgo == send.now - MINUTE
    requires Used(log, send.user, dayAgo, Recipients) == Used(events, send.user, dayAgo, Recipients)
    requires Used(log, send.user, minuteAgo, Messages) == Used(events, send.user, minuteAgo, Messages)
    ensures DecideLast(policy, log, send) == DecideLast(policy, events, send)
  {
  }

  lemma DecideBehindHorizon(log: seq<Event>, h: Horizon, user: nat, limits: Limits, recipients: int, now: int)
    requires h.At? ==> h.cutoff <= now - DAY
    ensures Decide(PrunedTo(log, h), user, limits, recipients, now) == Decide(log, user, limits, recipients, now)
  {
    if h.At? {
      PruneUnseen(log, h.cutoff, user, now - DAY, Recipients);
      PruneUnseen(log, h.cutoff, user, now - MINUTE, Messages);
    }
  }

  /**
    With no cleanup ahead of a later send: the log is the history without any cleanup, cut
    off at the horizon, and the messages admitted are those of that history.
   */
  lemma {:induction false} LogIsPrunedHistory(policy: Policy, ops: seq<Op>)
    requires CleanupsAtMostAhead(ops, 0)
    ensures RunLog(policy, ops) == PrunedTo(History(policy, ops), HorizonOf(ops))
    ensures AdmittedEvents(policy, ops) == History(policy, ops)
    decreases |ops|
  {
    if ops != [] {
      var prefix, last := ops[..|ops| - 1], ops[|ops| - 1];
      var log, history, h := RunLog(policy, prefix), History(policy, prefix), HorizonOf(prefix);
      LogIsPrunedHistory(policy, prefix);
      if last.Send? {
        HorizonBehind(prefix, last.now);
        SendStep(policy, history, h, last);
      } else {
        CleanupMovesHorizon(history, h, last.now);
        assert AdmittedEvents(policy, prefix) + [] == history;
      }
    }
  }

  lemma SendStep(policy: Policy, history: seq<Event>, h: Horizon, send: Op)
    requires send.Send? && (h.At? ==> h.cutoff <= send.now - DAY)
    ensures Apply(policy, PrunedTo(history, h), send) == PrunedTo(Apply(policy, history, send), h)
    ensures history + Added(policy, PrunedTo(history, h), send) == Apply(policy, history, send)
  {
    SendBehindHorizon(history, h, send.user, LimitsOf(policy, send.user), send.recipients, send.now);
    ApplySend(policy, history, send);
  }

  lemma SendBehindHorizon(history: seq<Event>, h: Horizon, user: nat, limits: Limits, recipients: int, now: int)
    requires h.At? ==> h.cutoff <= now - DAY
    ensures Decide(PrunedTo(history, h), user, limits, recipients, now) ==
      Decide(history, user, limits, recipients, now)
    ensures Recorded(PrunedTo(history, h), user, limits, recipients, now) ==
      PrunedTo(Recorded(history, user, limits, recipients, now), h)
  {
    DecideBehindHorizon(history, h, user, limits, recipients, now);
    if h.At? { PruneAppend(history, Event(user, now, Charged(recipients)), h.cutoff); }
  }

  lemma CleanupMovesHorizon(history: seq<Event>, h: Horizon, now: int)
    ensures Prune(PrunedTo(history, h), now - DAY)
      == PrunedTo(history, if h.At? && h.cutoff >= now - DAY then h else At(now - DAY))
  {
    if h.At? { PruneTwice(history, h.cutoff, now - DAY); }
    PrunedToLater(history, h, now - DAY);
  }

  lemma PrunedToLater(history: seq<Event>, h: Horizon, cutoff: int)
    ensures PrunedTo(history, if h.At? && h.cutoff >= cutoff then h else At(cutoff)) ==
      Prune(history, if h.At? && h.cutoff >= cutoff then h.cutoff else cutoff)
  {
  }

  // ---------------------------------------------------------------- the limits hold

  /** The limit on what is measured, and the window it is meant for. */
  function Bound(limits: Limits, m: Measure): nat {
    if m == Recipients then limits.daily else limits.minute
  }

  function Span(m: Measure): int {
    if m == Recipients then DAY else MINUTE
  }

  lemma AdmittedMeans(policy: Policy, log: seq<Event>, send: Op, m: Measure)
    requires send.Send? && DecideLast(policy, log, send) == Admitted && Bound(LimitsOf(policy, send.user), m) > 0
    ensures Used(log, send.user, send.now - Span(m), m)
      + (if m == Messages then 1 else Charged(send.recipients)) <= Bound(LimitsOf(policy, send.user), m)
  {
  }

  /** What is admitted fits, when the log counts as the record does over the span. */
  lemma StepFits(policy: Policy, log: seq<Event>, events: seq<Event>, op: Op, user: nat, m: Measure, span: int,
                 limit: nat)
    requires EachFitted(events, user, span, limit, m) && span <= Span(m)
    requires limit == Bound(LimitsOf(policy, user), m) > 0
    requires op.Send? ==> Used(log, user, op.now - span, m) == Used(events, user, op.now - span, m)
    ensures EachFitted(events + Added(policy, log, op), user, span, limit, m)
  {
    var added := Added(policy, log, op);
    if added == [] {
      assert events + added == events;
    } else {
      if op.user == user {
        AdmittedMeans(policy, log, op, m);
        UsedMonotone(log, user, op.now - Span(m), op.now - span, m);
      }
      FittedAppend(events, added[0], user, span, limit, m);
    }
  }

  /** Each admitted message fitted, counting back as far as cleanups cannot have reached. */
  lemma {:induction false} AdmittedFit(policy: Policy, ops: seq<Op>, user: nat, d: nat, m: Measure, span: int,
                                       limit: nat)
    requires CleanupsAtMostAhead(ops, d) && limit == Bound(LimitsOf(policy, user), m) > 0
    requires span == Min(Span(m), DAY - d)
    ensures EachFitted(AdmittedEvents(policy, ops), user, span, limit, m)
    decreases |ops|
  {
    if ops != [] {
      var prefix, last := ops[..|ops| - 1], ops[|ops| - 1];
      AdmittedFit(policy, prefix, user, d, m, span, limit);
      if last.Send? {
        HorizonBehind(prefix, last.now + d);
        LogCounts(policy, prefix, user, last.now - span, m);
      }
      StepFits(policy, RunLog(policy, prefix), AdmittedEvents(policy, prefix), last, user, m, span, limit);
    }
  }

  predicate IsRefusal(verdict: Verdict) {
    verdict == DailyLimited || verdict == MinuteLimited
  }

  /** The send after this run goes out. */
  predicate GoesOut(policy: Policy, ops: seq<Op>, send: Op) {
    send.Send? && !IsRefusal(DecideLast(policy, RunLog(policy, ops), send))
  }

  /** What a message weighs: its recipients, and one even if it names none; or just itself. */
  function Weight(send: Op, m: Measure): nat
    requires send.Send?
  {
    if m == Recipients then Max(1, send.recipients) else 1
  }

  /** What the user has sent in the run with clock readings in `[lo, hi]`: messages, or their recipients. */
  function SentIn(policy: Policy, ops: seq<Op>, user: nat, lo: int, hi: int, m: Measure): nat
    decreases |ops|
  {
    if ops == [] then 0
    else
      var before, last := ops[..|ops| - 1], ops[|ops| - 1];
      SentIn(policy, before, user, lo, hi, m) +
      if GoesOut(policy, before, last) && last.user == user && lo <= last.now <= hi then Weight(last, m) else 0
  }

  lemma SentInOne(events: seq<Event>, added: seq<Event>, user: nat, lo: int, hi: int, m: Measure)
    requires |added| <= 1
    ensures UsedIn(events + added, user, lo, hi, m) == UsedIn(events, user, lo, hi, m) +
      if added != [] && added[0].user == user && lo <= added[0].at <= hi then Charge(added[0], m) else 0
  {
    if added == [] {
      assert events + added == events;
    } else {
      assert (events + added)[..|events|] == events;
    }
  }

  /** Of a user with a limit, the record holds exactly the messages sent. */
  lemma {:induction false} SentIsRecorded(policy: Policy, ops: seq<Op>, user: nat, lo: int, hi: int, m: Measure)
    requires LimitsOf(policy, user) != Limits(0, 0)
    ensures SentIn(policy, ops, user, lo, hi, m) == UsedIn(AdmittedEvents(policy, ops), user, lo, hi, m)
    decreases |ops|
  {
    if ops != [] {
      var before, last := ops[..|ops| - 1], ops[|ops| - 1];
      var log, events := RunLog(policy, before), AdmittedEvents(policy, before);
      SentIsRecorded(policy, before, user, lo, hi, m);
      SentInOne(events, Added(policy, log, last), user, lo, hi, m);
      AddedIsSent(policy, log, last, user, m);
    }
  }

  lemma AddedIsSent(policy: Policy, log: seq<Event>, op: Op, user: nat, m: Measure)
    requires LimitsOf(policy, user) != Limits(0, 0)
    ensures var added := Added(policy, log, op);
      && |added| <= 1
      && (added != [] ==> op.Send? && added[0] == Event(op.user, op.now, Weight(op, Recipients)))
      && (added != [] ==> Charge(added[0], m) == Weight(op, m))
      && (op.Send? && op.user == user ==> (added == [] <==> IsRefusal(DecideLast(policy, log, op))))
  {
  }

  /** What the user sends in the window from `lo` on stays within the limit, if there is one. */
  ghost predicate WindowFits(policy: Policy, ops: seq<Op>, user: nat, m: Measure, lo: int, span: int) {
    var limit := Bound(LimitsOf(policy, user), m);
    limit > 0 ==> SentIn(policy, ops, user, lo, lo + span, m) <= limit
  }

  /**
    In every run whose cleanups are at most `d` ahead, whatever the order of the sends' clock
    readings: the recipients admitted for a user in any 24 hours less `d` stay within the
    daily limit, and the messages admitted in any 60 seconds (or 24 hours less `d`, when
    that is shorter) within the minute limit.
   */
  lemma LimitsHoldInEveryWindow(policy: Policy, ops: seq<Op>, user: nat, d: nat, m: Measure, lo: int)
    requires CleanupsAtMostAhead(ops, d)
    ensures WindowFits(policy, ops, user, m, lo, Min(Span(m), DAY - d))
  {
    var limit, span := Bound(LimitsOf(policy, user), m), Min(Span(m), DAY - d);
    if limit > 0 {
      AdmittedFit(policy, ops, user, d, m, span, limit);
      SentFits(policy, ops, user, m, lo, lo + span, span, limit);
    }
  }

  lemma SentFits(policy: Policy, ops: seq<Op>, user: nat, m: Measure, lo: int, hi: int, span: int, limit: nat)
    requires LimitsOf(policy, user) != Limits(0, 0) && hi <= lo + span
    requires EachFitted(AdmittedEvents(policy, ops), user, span, limit, m)
    ensures SentIn(policy, ops, user, lo, hi, m) <= limit
  {
    var events := AdmittedEvents(policy, ops);
    assert UsedIn(events, user, lo, hi, m) <= limit by {
      EveryWindowFits(events, user, span, limit, m, lo, hi);
    }
    SentIsRecorded(policy, ops, user, lo, hi, m);
  }

  /** In every run whose cleanups are at most `d` ahead, every window of length `span` fits. */
  ghost predicate Holds(m: Measure, d: nat, span: int) {
    forall policy, ops, user, lo :: CleanupsAtMostAhead(ops, d) ==> WindowFits(policy, ops, user, m, lo, span)
  }

  /** A run that admits two messages `gap` apart although the limit is one. */
  function LateSend(m: Measure, gap: int): seq<Op> {
    [Send(0, 1, 0)] + (if gap > Span(m) then [] else [Cleanup(DAY + 1)]) + [Send(0, 1, gap)]
  }

  function LimitOfOne(m: Measure): Policy {
    map[0 := if m == Recipients then Limits(1, 0) else Limits(0, 1)]
  }

  lemma FirstIsAdmitted(m: Measure, ops: seq<Op>)
    requires ops == [Send(0, 1, 0)]
    ensures RunLog(LimitOfOne(m), ops) == [Event(0, 0, 1)] && AdmittedEvents(LimitOfOne(m), ops) == [Event(0, 0, 1)]
  {
    assert ops[..0] == [];
  }

  lemma SecondIsAdmitted(m: Measure, gap: int)
    requires gap >= 0
    ensures AdmittedEvents(LimitOfOne(m), LateSend(m, gap)) == [Event(0, 0, 1), Event(0, gap, 1)]
  {
    var policy, first, ops := LimitOfOne(m), [Send(0, 1, 0)], LateSend(m, gap);
    var before := ops[..|ops| - 1];
    FirstIsAdmitted(m, first);
    if gap > Span(m) {
      assert before == first;
      assert [Event(0, 0, 1)][..0] == [];
    } else {
      assert before[..1] == first;
      assert [Event(0, 0, 1)][..0] == [];
    }
  }

  lemma LateSendIsAhead(m: Measure, d: nat, gap: int)
    requires gap == Min(Span(m), Max(DAY - d, -1)) + 1
    ensures CleanupsAtMostAhead(LateSend(m, gap), d) && gap >= 0
  {
  }

  /**
    The send read its clock at most `d` before the cleanup did and was counted after it: in
    the window of length `gap` it is one message too many.
   */
  lemma LateSendOverfills(m: Measure, d: nat, gap: int, span: int)
    requires gap == Min(Span(m), Max(DAY - d, -1)) + 1 && gap <= span
    ensures CleanupsAtMostAhead(LateSend(m, gap), d)
    ensures !WindowFits(LimitOfOne(m), LateSend(m, gap), 0, m, 0, span)
  {
    LateSendIsAhead(m, d, gap);
    TwoOverfill(m, gap, span);
  }

  lemma TwoOverfill(m: Measure, gap: int, span: int)
    requires 0 <= gap <= span
    ensures !WindowFits(LimitOfOne(m), LateSend(m, gap), 0, m, 0, span)
  {
    SecondIsAdmitted(m, gap);
    BothInWindow(gap, span, m);
    SentIsRecorded(LimitOfOne(m), LateSend(m, gap), 0, 0, span, m);
  }

  /** The longest windows in which the limits hold in every run whose cleanups are at most `d` ahead. */
  lemma HoldsIff(m: Measure, d: nat, span: int)
    ensures Holds(m, d, span) <==> span <= Min(Span(m), Max(DAY - d, -1))
  {
    if span <= Min(Span(m), Max(DAY - d, -1)) {
      forall policy, ops, user, lo | CleanupsAtMostAhead(ops, d)
        ensures WindowFits(policy, ops, user, m, lo, span)
      {
        ShortWindowFits(policy, ops, user, d, m, lo, span);
      }
    } else {
      LateSendOverfills(m, d, Min(Span(m), Max(DAY - d, -1)) + 1, span);
    }
  }

  lemma ShortWindowFits(policy: Policy, ops: seq<Op>, user: nat, d: nat, m: Measure, lo: int, span: int)
    requires CleanupsAtMostAhead(ops, d) && span <= Min(Span(m), Max(DAY - d, -1))
    ensures WindowFits(policy, ops, user, m, lo, span)
  {
    if span < 0 {
      NothingSentIn(policy, ops, user, lo, lo + span, m);
    } else {
      LimitsHoldInEveryWindow(policy, ops, user, d, m, lo);
      NarrowerFits(policy, ops, user, m, lo, span, Min(Span(m), DAY - d));
    }
  }

  lemma {:induction false} NothingSentIn(policy: Policy, ops: seq<Op>, user: nat, lo: int, hi: int, m: Measure)
    requires hi < lo
    ensures SentIn(policy, ops, user, lo, hi, m) == 0
    decreases |ops|
  {
    if ops != [] {
      NothingSentIn(policy, ops[..|ops| - 1], user, lo, hi, m);
    }
  }

  lemma {:induction false} LessIsSentIn(policy: Policy, ops: seq<Op>, user: nat, lo: int, hi: int, later: int,
                                        m: Measure)
    requires hi <= later
    ensures SentIn(policy, ops, user, lo, hi, m) <= SentIn(policy, ops, user, lo, later, m)
    decreases |ops|
  {
    if ops != [] {
      LessIsSentIn(policy, ops[..|ops| - 1], user, lo, hi, later, m);
    }
  }

  lemma NarrowerFits(policy: Policy, ops: seq<Op>, user: nat, m: Measure, lo: int, span: int, wider: int)
    requires span <= wider && WindowFits(policy, ops, user, m, lo, wider)
    ensures WindowFits(policy, ops, user, m, lo, span)
  {
    LessIsSentIn(policy, ops, user, lo, lo + span, lo + wider, m);
  }

  /** Nobody is turned away early: when the log holds no later readings, a refused message
      would really have overfilled the window that ends with it. */
  lemma RefusalsAreJustified(log: seq<Event>, user: nat, limits: Limits, recipients: int, now: int)
    requires forall e :: e in log ==> e.at <= now
    ensures Decide(log, user, limits, recipients, now) == DailyLimited ==>
      UsedIn(log, user, now - DAY, now, Recipients) + Max(1, recipients) > limits.daily > 0
    ensures Decide(log, user, limits, recipients, now) == MinuteLimited ==>
      UsedIn(log, user, now - MINUTE, now, Messages) + 1 > limits.minute > 0
  {
    WindowIsAll(log, user, now - DAY, now, Recipients);
    WindowIsAll(log, user, now - MINUTE, now, Messages);
  }

  lemma {:induction false} RecordedInTime(policy: Policy, ops: seq<Op>, now: int)
    requires forall i :: 0 <= i < |ops| ==> ops[i].now <= now
    ensures forall e :: e in AdmittedEvents(policy, ops) ==> e.at <= now
    decreases |ops|
  {
    if ops != [] {
      RecordedInTime(policy, ops[..|ops| - 1], now);
    }
  }

  /** What the record of a run counts from `from` on, for a send that no reading before it is ahead of. */
  lemma RecordCountsSent(policy: Policy, ops: seq<Op>, events: seq<Event>, user: nat, from: int, now: int, m: Measure)
    requires LimitsOf(policy, user) != Limits(0, 0) && forall i :: 0 <= i < |ops| ==> ops[i].now <= now
    requires events == AdmittedEvents(policy, ops)
    ensures Used(events, user, from, m) == SentIn(policy, ops, user, from, now, m)
  {
    assert forall e :: e in events ==> e.at <= now by {
      RecordedInTime(policy, ops, now);
    }
    WindowIsAll(events, user, from, now, m);
    SentIsRecorded(policy, ops, user, from, now, m);
  }

  /** Refused for the day when the day's recipients and its own exceed the limit, otherwise for the
      minute when the minute saw as many messages as allowed, otherwise not at all. */
  predicate RefusedRightly(verdict: Verdict, limits: Limits, recipients: int, day: nat, minute: nat) {
    && (verdict == DailyLimited <==> limits.daily > 0 && day + Max(1, recipients) > limits.daily)
    && (verdict == MinuteLimited <==> verdict != DailyLimited && limits.minute > 0 && minute + 1 > limits.minute)
  }

  /**
    In every run, where no reading before it is ahead: a message is refused exactly when it, or
    its recipients, and those of the messages sent in the last 60 seconds, or 24 hours, exceed
    the limit.
   */
  lemma RefusedIff(policy: Policy, ops: seq<Op>, send: Op, dayAgo: int, minuteAgo: int)
    requires send.Send? && forall i :: 0 <= i < |ops| ==> ops[i].now <= send.now
    requires dayAgo == send.now - 86_400_000_000_000 && minuteAgo == send.now - 60_000_000_000
    ensures RefusedRightly(
      DecideLast(policy, RunLog(policy, ops), send), LimitsOf(policy, send.user), send.recipients,
      SentIn(policy, ops, send.user, dayAgo, send.now, Recipients),
      SentIn(policy, ops, send.user, minuteAgo, send.now, Messages))
  {
    if LimitsOf(policy, send.user) != Limits(0, 0) {
      var events := AdmittedEvents(policy, ops);
      RecordCountsSent(policy, ops, events, send.user, dayAgo, send.now, Recipients);
      RecordCountsSent(policy, ops, events, send.user, minuteAgo, send.now, Messages);
      RecordDecides(policy, ops, send, RunLog(policy, ops), events);
      CountsDecide(policy, events, send, dayAgo, minuteAgo);
    }
  }

  lemma CountsDecide(policy: Policy, log: seq<Event>, send: Op, dayAgo: int, minuteAgo: int)
    requires send.Send? && LimitsOf(policy, send.user) != Limits(0, 0)
    requires dayAgo == send.now - DAY && minuteAgo == send.now - MINUTE
    ensures RefusedRightly(
      DecideLast(policy, log, send), LimitsOf(policy, send.user), send.recipients,
      Used(log, send.user, dayAgo, Recipients), Used(log, send.user, minuteAgo, Messages))
  {
  }

  ghost predicate CleanupHarmless(cleanup: int, now: int) {
    forall log, user, limits, recipients ::
      Decide(Prune(log, cleanup - DAY), user, limits, recipients, now) == Decide(log, user, limits, recipients, now)
  }

  /** Exactly when a cleanup can be ignored: when its clock reading is not later than the
      send's. A send that reads the clock, waits for the lock while a cleanup runs, and then
      counts can be admitted although its full window is used up. */
  lemma CleanupHarmlessIff(cleanup: int, now: int)
    ensures CleanupHarmless(cleanup, now) <==> cleanup <= now
  {
    if cleanup <= now {
      forall log, user, limits, recipients
        ensures Decide(Prune(log, cleanup - DAY), user, limits, recipients, now) ==
          Decide(log, user, limits, recipients, now)
      {
        DecideBehindHorizon(log, At(cleanup - DAY), user, limits, recipients, now);
      }
    } else {
      var e := Event(0, now - DAY, 1);
      assert [e][..0] == [];
      assert Used([e], 0, now - DAY, Recipients) == 1;
      assert Prune([e], cleanup - DAY) == [];
      assert Used([], 0, now - DAY, Recipients) == 0;
      assert Decide([e], 0, Limits(1, 0), 1, now) == DailyLimited;
      assert Decide(Prune([e], cleanup - DAY), 0, Limits(1, 0), 1, now) == Admitted;
    }
  }

  // ---------------------------------------------------------------- protocol commands

  /** IMAP and POP3 commands are counted one by one, against both limits. */
  function DecideCommand(log: seq<Event>, user: nat, limits: Limits, now: int): Verdict {
    if limits.daily == 0 && limits.minute == 0 then Unmetered
    else if limits.daily > 0 && Used(log, user, now - DAY, Messages) >= limits.daily then DailyLimited
    else if limits.minute > 0 && Used(log, user, now - MINUTE, Messages) >= limits.minute then MinuteLimited
    else Admitted
  }

  lemma {:induction false} CommandsWeighOne(log: seq<Event>, user: nat, from: int)
    requires forall e :: e in log ==> e.weight == 1
    ensures Used(log, user, from, Recipients) == Used(log, user, from, Messages)
    decreases |log|
  {
    if log != [] {
      CommandsWeighOne(log[..|log| - 1], user, from);
    }
  }

  /** So every result about messages with one recipient holds for protocol commands. */
  lemma CommandIsOneRecipient(log: seq<Event>, user: nat, limits: Limits, now: int)
    requires forall e :: e in log ==> e.weight == 1
    ensures DecideCommand(log, user, limits, now) == Decide(log, user, limits, 1, now)
  {
    CommandsWeighOne(log, user, now - DAY);
  }

  // ---------------------------------------------------------------- in place

  class EventTable {
    var events: seq<Event>

    constructor ()
      ensures events == []
    {
      events := [];
    }

    method RecordSmtpRate(user: nat, isAdmin: bool, limits: Limits, recipients: int, now: int)
        returns (verdict: Verdict)
      modifies this
      ensures isAdmin ==> verdict == Unmetered && events == old(events)
      ensures !isAdmin ==> verdict == Decide(old(events), user, limits, recipients, now)
      ensures !isAdmin ==> events == Recorded(old(events), user, limits, recipients, now)
    {
      if isAdmin || (limits.daily == 0 && limits.minute == 0) {
        return Unmetered;
      }
      var charged := if recipients < 1 then 1 else recipients;
      if limits.daily > 0 {
        var used := Used(events, user, now - DAY, Recipients);
        if used + charged > limits.daily {
          return DailyLimited;
        }
      }
      if limits.minute > 0 {
        var count := Used(events, user, now - MINUTE, Messages);
        if count >= limits.minute {
          return MinuteLimited;
        }
      }
      events := events + [Event(user, now, charged)];
      verdict := Admitted;
    }

    method CleanupStaleEvents(now: int)
      modifies this
      ensures events == Prune(old(events), now - DAY)
    {
      var kept: seq<Event> := [];
      for i := 0 to |events|
        invariant events == old(events) && kept == Prune(events[..i], now - DAY)
      {
        assert events[..i + 1][..i] == events[..i];
        if events[i].at >= now - DAY {
          kept := kept + [events[i]];
        }
      }
      assert events[..|events|] == events;
      events := kept;
    }
  }
}

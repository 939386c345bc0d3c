/**
  When a local delivery job can be claimed: how long a claim, a delivery transaction or a
  recorded failure keeps the other workers off, and that every job which is neither
  delivered nor failed can still be claimed, and delivered, whatever has happened to it.
 */
module LocalDeliveryLeases {
  import opened Common
  import opened LocalDelivery

  ghost predicate Unfinished(s: System, id: Id) {
    id in s.store.jobs && s.store.jobs[id].status != Delivered && s.store.jobs[id].status != Failed
  }

  /** A claim of the job by any idle worker succeeds exactly from that time on; before, it changes no row. */
  ghost predicate DueFrom(s: System, id: Id, due: int) {
    forall w: nat, now: int :: WorkerAt(s, w) == Idle ==> ClaimsExactlyFrom(s, id, due, w, now)
  }

  ghost predicate ClaimsExactlyFrom(s: System, id: Id, due: int, w: nat, now: int) {
    var t := Next(s, StepClaim(w, id, now));
    if due <= now then WorkerAt(t, w) == Holding(id, s.store.nextId, now) && Holds(t.store, id, s.store.nextId)
    else WorkerAt(t, w) == Idle && t.store.jobs == s.store.jobs
  }

  /** The time the row itself names. */
  function DueTime(job: Job): int
    requires job.status == Queued || (job.status == Sending && job.leaseUntil.Some?)
  {
    if job.status == Queued then job.nextAttempt else job.leaseUntil.value
  }

  lemma DueFromItsTime(s: System, id: Id)
    requires Inv(s) && Unfinished(s, id)
    ensures RowOk(s.store.jobs[id], s.store.files, s.store.nextId)
    ensures DueFrom(s, id, DueTime(s.store.jobs[id]))
  {
    assert RowOk(s.store.jobs[id], s.store.files, s.store.nextId);
    var job := s.store.jobs[id];
    forall w: nat, now: int | WorkerAt(s, w) == Idle ensures ClaimsExactlyFrom(s, id, DueTime(job), w, now) {
      assert Claimable(job, now) <==> DueTime(job) <= now;
    }
  }

  /** In every reachable state each job that is neither delivered nor failed is due from some time on. */
  lemma AlwaysDueFromSomeTime(steps: seq<Step>, id: Id) returns (due: int)
    requires Unfinished(Run(START, steps), id)
    ensures DueFrom(Run(START, steps), id, due)
  {
    RunKeeps(START, steps);
    DueFromItsTime(Run(START, steps), id);
    due := DueTime(Run(START, steps).store.jobs[id]);
  }

  // ---------------------------------------------------------------- how long others are kept off

  /** A step of someone else who does not claim the job at that time or later; the worker that
      holds it may crash. */
  predicate Spares(step: Step, w: nat, id: Id, due: int) {
    && (IsStepOf(step, w) ==> step.StepCrash?)
    && (step.StepClaim? && step.id == id ==> step.now < due)
  }

  ghost predicate AllSpare(steps: seq<Step>, w: nat, id: Id, due: int) {
    forall i :: 0 <= i < |steps| ==> Spares(steps[i], w, id, due)
  }

  /** Nobody but `w` holds the row under its token. */
  ghost predicate HeldByNoneBut(s: System, w: nat, id: Id) {
    && id in s.store.jobs
    && forall v :: v in s.workers && v != w && HasToken(s.workers[v]) ==>
      s.workers[v].token != s.store.jobs[id].leaseToken
  }

  lemma HolderIsAlone(s: System, w: nat, id: Id)
    requires Inv(s) && w in s.workers && HasToken(s.workers[w]) && Holds(s.store, id, s.workers[w].token)
    ensures HeldByNoneBut(s, w, id)
  {
    assert TokensApart(s.workers);
  }

  lemma FreeIsHeldByNone(s: System, w: nat, id: Id)
    requires Inv(s) && id in s.store.jobs && s.store.jobs[id].leaseToken == NONE
    ensures HeldByNoneBut(s, w, id)
  {
    forall v | v in s.workers && HasToken(s.workers[v]) ensures s.workers[v].token != NONE {
      assert WorkerOk(s.store, s.workers[v]);
    }
  }

  lemma SparedRow(s: System, step: Step, w: nat, id: Id)
    requires Inv(s) && Unfinished(s, id) && HeldByNoneBut(s, w, id)
    requires Spares(step, w, id, DueTimeOf(s, id))
    ensures var t := Next(s, step); id in t.store.jobs && t.store.jobs[id] == s.store.jobs[id]
  {
    assert RowOk(s.store.jobs[id], s.store.files, s.store.nextId);
    if step.StepClaim? && step.id == id {
      assert !Claimable(s.store.jobs[id], step.now);
    } else if !step.StepEnqueue? && !step.StepPurge? && step.w != w {
      StrangerKeeps(s, step, w, id);
    }
  }

  lemma StrangerKeeps(s: System, step: Step, w: nat, id: Id)
    requires HeldByNoneBut(s, w, id) && !step.StepEnqueue? && !step.StepPurge? && step.w != w
    requires !(step.StepClaim? && step.id == id)
    ensures var t := Next(s, step); id in t.store.jobs && t.store.jobs[id] == s.store.jobs[id]
  {
    if HasToken(WorkerAt(s, step.w)) {
      NotHeldIsKept(s, step, id);
    }
  }

  lemma NotHeldIsKept(s: System, step: Step, id: Id)
    requires id in s.store.jobs && !step.StepEnqueue? && !step.StepPurge? && !(step.StepClaim? && step.id == id)
    requires HasToken(WorkerAt(s, step.w)) && !Holds(s.store, id, WorkerAt(s, step.w).token)
    ensures var t := Next(s, step); id in t.store.jobs && t.store.jobs[id] == s.store.jobs[id]
  {
  }

  lemma TokensNext(s: System, step: Step, v: nat)
    requires HasToken(WorkerAt(Next(s, step), v))
    ensures var token := WorkerAt(Next(s, step), v).token;
      token == s.store.nextId || (HasToken(WorkerAt(s, v)) && token == WorkerAt(s, v).token)
  {
  }

  lemma SparedNext(s: System, step: Step, w: nat, id: Id)
    requires Inv(s) && Unfinished(s, id) && HeldByNoneBut(s, w, id)
    requires Spares(step, w, id, DueTimeOf(s, id))
    ensures var t := Next(s, step);
      id in t.store.jobs && t.store.jobs[id] == s.store.jobs[id] && HeldByNoneBut(t, w, id)
  {
    var t := Next(s, step);
    SparedRow(s, step, w, id);
    assert RowOk(s.store.jobs[id], s.store.files, s.store.nextId);
    forall v | v in t.workers && v != w && HasToken(t.workers[v])
      ensures t.workers[v].token != s.store.jobs[id].leaseToken {
      TokensNext(s, step, v);
    }
  }

  ghost function DueTimeOf(s: System, id: Id): int
    requires Inv(s) && Unfinished(s, id)
  {
    assert RowOk(s.store.jobs[id], s.store.files, s.store.nextId);
    DueTime(s.store.jobs[id])
  }

  /** The row rests as it is. */
  lemma {:induction false} SparedRun(s: System, steps: seq<Step>, w: nat, id: Id)
    requires Inv(s) && Unfinished(s, id) && HeldByNoneBut(s, w, id)
    requires AllSpare(steps, w, id, DueTimeOf(s, id))
    ensures var t := Run(s, steps);
      Inv(t) && id in t.store.jobs && t.store.jobs[id] == s.store.jobs[id] && HeldByNoneBut(t, w, id)
    decreases |steps|
  {
    if steps != [] {
      var before := Run(s, steps[..|steps| - 1]);
      SparedRun(s, steps[..|steps| - 1], w, id);
      SparedNext(before, steps[|steps| - 1], w, id);
      NextKeeps(before, steps[|steps| - 1]);
    }
  }

  lemma SparedIsDue(s: System, steps: seq<Step>, w: nat, id: Id, due: int)
    requires Inv(s) && Unfinished(s, id) && HeldByNoneBut(s, w, id) && due == DueTimeOf(s, id)
    requires AllSpare(steps, w, id, due)
    ensures Run(s, steps).store.jobs == Run(s, steps).store.jobs[id := s.store.jobs[id]]
    ensures DueFrom(Run(s, steps), id, due)
  {
    SparedRun(s, steps, w, id);
    DueFromItsTime(Run(s, steps), id);
  }

  lemma QueuedIsDue(s: System, steps: seq<Step>, w: nat, id: Id, due: int)
    requires Inv(s) && id in s.store.jobs && s.store.jobs[id].status == Queued && s.store.jobs[id].nextAttempt == due
    requires AllSpare(steps, w, id, due)
    ensures DueFrom(Run(s, steps), id, due)
  {
    assert RowOk(s.store.jobs[id], s.store.files, s.store.nextId);
    FreeIsHeldByNone(s, w, id);
    SparedIsDue(s, steps, w, id, due);
  }

  /**
    A claim at `t` keeps every other worker off the job until 300 seconds later, and no longer:
    as long as the claimer takes no further step but to crash, whatever everyone else does,
    claims before then fail and the first one from then on takes the job over.
   */
  lemma ClaimLeases(s: System, w: nat, id: Id, t: int, steps: seq<Step>)
    requires Inv(s) && WorkerAt(s, w) == Idle && WorkerAt(Next(s, StepClaim(w, id, t)), w) != Idle
    requires AllSpare(steps, w, id, t + 300)
    ensures DueFrom(Run(Next(s, StepClaim(w, id, t)), steps), id, t + 300)
  {
    var a := Next(s, StepClaim(w, id, t));
    NextKeeps(s, StepClaim(w, id, t));
    HolderIsAlone(a, w, id);
    SparedIsDue(a, steps, w, id, t + 300);
  }

  lemma Renewed(s: System, x: Worker, t: int)
    requires Inv(s) && x.Loaded? && WorkerOk(s.store, x) && Holds(s.store, x.id, x.token)
    ensures var b := InsertOnce(s.store, x.id, x.token, t);
      Holds(b, x.id, x.token) && b.jobs[x.id].status == Sending && b.jobs[x.id].leaseUntil == Some(t + 300)
  {
    assert RowOk(s.store.jobs[x.id], s.store.files, s.store.nextId);
  }

  /** The delivery transaction, run under a token that is still on the row, counts the 300 seconds again. */
  lemma TransactionRenews(s: System, w: nat, t: int, acknowledged: bool, steps: seq<Step>)
    requires Inv(s) && WorkerAt(s, w).Loaded? && Holds(s.store, WorkerAt(s, w).id, WorkerAt(s, w).token)
    requires AllSpare(steps, w, WorkerAt(s, w).id, t + 300)
    ensures DueFrom(Run(Next(s, StepTransact(w, t, acknowledged)), steps), WorkerAt(s, w).id, t + 300)
  {
    var a := Next(s, StepTransact(w, t, acknowledged));
    var x := WorkerAt(s, w);
    NextKeeps(s, StepTransact(w, t, acknowledged));
    Renewed(s, x, t);
    HolderIsAlone(a, w, x.id);
    SparedIsDue(a, steps, w, x.id, t + 300);
  }

  /** A recorded failure, claimed at reading `now`, keeps everyone off for 60 seconds after the
      first claim, twice as long after each further one. */
  lemma FailureDefers(s: System, w: nat, x: Worker, due: int, steps: seq<Step>)
    requires Inv(s) && WorkerAt(s, w) == x && x.Deferring? && Holds(s.store, x.id, x.token) && x.attempts < 8
    requires due == x.now + RetryDelaySeconds(x.attempts) && AllSpare(steps, w, x.id, due)
    ensures DueFrom(Run(Next(s, StepDefer(w)), steps), x.id, due)
  {
    NextKeeps(s, StepDefer(w));
    FailureOutcome(s, w, x);
    QueuedIsDue(Next(s, StepDefer(w)), steps, w, x.id, due);
  }

  /** After the eighth claim the job has failed; what is recorded of the error is its kind. */
  lemma FailureOutcome(s: System, w: nat, x: Worker)
    requires Inv(s) && WorkerAt(s, w) == x && x.Deferring? && Holds(s.store, x.id, x.token)
    ensures var b := Next(s, StepDefer(w)).store;
      && x.attempts == s.store.jobs[x.id].attempts && Holds(b, x.id, NONE)
      && b.jobs[x.id].lastError == (if x.quota then QuotaExceeded else DeliveryFailed)
      && b.jobs[x.id].status == (if x.attempts >= 8 then Failed else Queued)
      && b.jobs[x.id].nextAttempt == x.now + RetryDelaySeconds(x.attempts)
      && b.jobs[x.id].updatedAt == x.now && b.jobs[x.id].leaseUntil == None
  {
    assert WorkerOk(s.store, x);
  }

  lemma RetryDelays()
    ensures RetryDelaySeconds(1) == 60 && RetryDelaySeconds(2) == 120 && RetryDelaySeconds(3) == 240
    ensures RetryDelaySeconds(4) == 480 && RetryDelaySeconds(5) == 960 && RetryDelaySeconds(6) == 1920
    ensures forall n: nat :: n >= 7 ==> RetryDelaySeconds(n) == 3840
  {
    assert Pow2(3) == 8 && Pow2(4) == 2 * Pow2(3) && Pow2(5) == 2 * Pow2(4);
    assert Pow2(6) == 2 * Pow2(5) && Pow2(7) == 2 * Pow2(6);
  }

  /** A job enqueued at `now` is due at once, until someone claims it. */
  lemma NewJobIsDue(s: System, source: nat, target: nat, payload: string, now: int, w: nat, steps: seq<Step>)
    requires Inv(s) && payload != "" && !HasJobFor(s.store, source, target)
    requires AllSpare(steps, w, s.store.nextId, now)
    ensures var a := Next(s, StepEnqueue(source, target, payload, now));
      && s.store.nextId in a.store.jobs
      && a.store.jobs[s.store.nextId].payload == payload
      && DueFrom(Run(a, steps), s.store.nextId, now)
  {
    var a := Next(s, StepEnqueue(source, target, payload, now));
    NextKeeps(s, StepEnqueue(source, target, payload, now));
    QueuedIsDue(a, steps, w, s.store.nextId, now);
  }

  /** What a claim leaves in the row: one attempt more, and all that earlier claims achieved. */
  lemma ClaimOutcome(s: System, w: nat, id: Id, t: int)
    requires Inv(s) && WorkerAt(s, w) == Idle && WorkerAt(Next(s, StepClaim(w, id, t)), w) != Idle
    ensures id in s.store.jobs
    ensures var a, b := s.store.jobs[id], Next(s, StepClaim(w, id, t)).store.jobs[id];
      && b.status == Sending && b.attempts == a.attempts + 1 && b.leaseToken == s.store.nextId && b.updatedAt == t
      && b.payload == a.payload != "" && b.messageId == a.messageId && b.source == a.source && b.target == a.target
  {
    assert RowOk(s.store.jobs[id], s.store.files, s.store.nextId);
  }

  /** A superseded worker gets no further than the next statement that looks at the row. */
  lemma SupersededGivesUp(s: System, w: nat, x: Worker, t: int, acknowledged: bool)
    requires WorkerAt(s, w) == x && HasToken(x) && !Holds(s.store, x.id, x.token)
    ensures x.Holding? ==> WorkerAt(Next(s, StepLoad(w)), w).Failing?
    ensures x.Loaded? ==> WorkerAt(Next(s, StepTransact(w, t, acknowledged)), w).Failing?
    ensures x.Written? ==> WorkerAt(Next(s, StepFinish(w, t)), w) == Idle
    ensures x.Failing? ==> WorkerAt(Next(s, StepReadAttempts(w)), w) == Idle
  {
  }

  /** What finishing leaves in the row. */
  lemma FinishOutcome(s: System, w: nat, x: Worker, t: int)
    requires Inv(s) && WorkerAt(s, w) == x && x.Written? && Holds(s.store, x.id, x.token)
    ensures var b := Next(s, StepFinish(w, t)).store;
      && Holds(b, x.id, NONE) && b.jobs[x.id].status == Delivered && b.jobs[x.id].lastError == NoError
      && b.jobs[x.id].payload == "" && b.jobs[x.id].messageId == x.message
      && b.jobs[x.id].updatedAt == t && b.jobs[x.id].leaseUntil == None
  {
    assert WorkerOk(s.store, x);
    WrittenIsNamed(s.store, x);
  }

  // ---------------------------------------------------------------- how long rows are kept

  ghost predicate PurgesUpTo(steps: seq<Step>, t: int) {
    forall i :: 0 <= i < |steps| && steps[i].StepPurge? ==> steps[i].cutoff <= t
  }

  lemma WorkersKeepRows(s: System, step: Step)
    requires !step.StepEnqueue? && !step.StepPurge?
    ensures Next(s, step).store.jobs.Keys == s.store.jobs.Keys
  {
  }

  /** A row goes in exactly one case: a purge meets it delivered or failed, and last changed before the cutoff. */
  lemma RowGoesIff(s: System, step: Step, id: Id)
    requires Inv(s) && id in s.store.jobs
    ensures id !in Next(s, step).store.jobs <==>
      step.StepPurge? && !Unfinished(s, id) && s.store.jobs[id].updatedAt < step.cutoff
  {
    if !step.StepEnqueue? && !step.StepPurge? {
      WorkersKeepRows(s, step);
    }
  }

  lemma FinishedNext(s: System, step: Step, id: Id)
    requires Inv(s) && id in s.store.jobs && !Unfinished(s, id)
    requires step.StepPurge? ==> step.cutoff <= s.store.jobs[id].updatedAt
    ensures id in Next(s, step).store.jobs && Next(s, step).store.jobs[id] == s.store.jobs[id]
  {
    RowGoesIff(s, step, id);
    NextIsLater(s, step);
    assert id < s.store.nextId;
  }

  /** So a delivered or failed row stays as it is until a purge whose cutoff lies after its time stamp. */
  lemma {:induction false} FinishedIsKept(s: System, steps: seq<Step>, id: Id)
    requires Inv(s) && id in s.store.jobs && !Unfinished(s, id) && PurgesUpTo(steps, s.store.jobs[id].updatedAt)
    ensures id in Run(s, steps).store.jobs && Run(s, steps).store.jobs[id] == s.store.jobs[id]
    decreases |steps|
  {
    if steps != [] {
      var before, last := steps[..|steps| - 1], steps[|steps| - 1];
      FinishedIsKept(s, before, id);
      RunKeeps(s, before);
      FinishedNext(Run(s, before), last, id);
    }
  }

  // ---------------------------------------------------------------- delivery stays possible

  function DeliverySteps(w: nat, id: Id, now: int, later: int): seq<Step> {
    [StepClaim(w, id, now), StepLoad(w), StepTransact(w, later, true), StepWriteFile(w, true), StepFinish(w, later),
     StepControls(w)]
  }

  /**
    From every reachable state, each job that is neither delivered nor failed can still be
    delivered: by any idle worker, from some time on, if it is let through undisturbed.
   */
  lemma CanStillBeDelivered(steps: seq<Step>, id: Id, w: nat) returns (due: int)
    requires Unfinished(Run(START, steps), id) && WorkerAt(Run(START, steps), w) == Idle
    ensures forall now, later :: due <= now ==>
      IsDelivered(Run(Run(START, steps), DeliverySteps(w, id, now, later)), id)
  {
    var s := Run(START, steps);
    RunKeeps(START, steps);
    due := AlwaysDueFromSomeTime(steps, id);
    forall now, later | due <= now ensures IsDelivered(Run(s, DeliverySteps(w, id, now, later)), id) {
      assert ClaimsExactlyFrom(s, id, due, w, now);
      ClaimedGoesThrough(s, w, id, now, later);
    }
  }

  ghost predicate IsDelivered(s: System, id: Id) {
    && id in s.store.jobs && s.store.jobs[id].status == Delivered
    && s.store.jobs[id].messageId in s.store.files && WroteFor(s, id) && id in s.store.controls
  }

  ghost predicate WroteFor(s: System, id: Id)
    requires id in s.store.jobs
  {
    s.store.jobs[id].messageId in s.store.messages && s.store.messages[s.store.jobs[id].messageId] == id
  }

  /** The worker stands there, and its token is on the row. */
  ghost predicate Stands(s: System, w: nat, x: Worker) {
    WorkerAt(s, w) == x && HasToken(x) && x.token != NONE && Holds(s.store, x.id, x.token)
  }

  lemma LoadGoesThrough(s: System, w: nat, id: Id, token: Id, now: int)
    requires Stands(s, w, Holding(id, token, now))
    ensures Stands(Next(s, StepLoad(w)), w, Loaded(id, token, now))
  {
  }

  lemma TransactGoesThrough(s: System, w: nat, id: Id, token: Id, now: int, t: int) returns (message: Id)
    requires Stands(s, w, Loaded(id, token, now))
    ensures Stands(Next(s, StepTransact(w, t, true)), w, Stored(id, token, now, message))
  {
    message := InsertOnce(s.store, id, token, t).jobs[id].messageId;
  }

  lemma WriteGoesThrough(s: System, w: nat, id: Id, token: Id, now: int, message: Id)
    requires Stands(s, w, Stored(id, token, now, message))
    ensures Stands(Next(s, StepWriteFile(w, true)), w, Written(id, token, now, message))
  {
  }

  lemma FinishGoesThrough(s: System, w: nat, id: Id, token: Id, now: int, message: Id, t: int)
    requires Stands(s, w, Written(id, token, now, message))
    ensures var b := Next(Next(s, StepFinish(w, t)), StepControls(w));
      id in b.store.jobs && b.store.jobs[id].status == Delivered && id in b.store.controls
  {
  }

  lemma ClaimedGoesThrough(s: System, w: nat, id: Id, now: int, later: int)
    requires Inv(s) && Stands(Next(s, StepClaim(w, id, now)), w, Holding(id, s.store.nextId, now))
    ensures IsDelivered(Run(s, DeliverySteps(w, id, now, later)), id)
  {
    var n := s.store.nextId;
    var a := Next(s, StepClaim(w, id, now));
    LoadGoesThrough(a, w, id, n, now);
    var b := Next(a, StepLoad(w));
    var message := TransactGoesThrough(b, w, id, n, now, later);
    var c := Next(b, StepTransact(w, later, true));
    WriteGoesThrough(c, w, id, n, now, message);
    FinishGoesThrough(Next(c, StepWriteFile(w, true)), w, id, n, now, message, later);
    RunOfSix(s, StepClaim(w, id, now), StepLoad(w), StepTransact(w, later, true), StepWriteFile(w, true),
      StepFinish(w, later), StepControls(w));
    RunKeeps(s, DeliverySteps(w, id, now, later));
    DeliveredIsWhole(Run(s, DeliverySteps(w, id, now, later)), id);
  }

  lemma DeliveredIsWhole(s: System, id: Id)
    requires Inv(s) && id in s.store.jobs && s.store.jobs[id].status == Delivered && id in s.store.controls
    ensures IsDelivered(s, id)
  {
    assert RowOk(s.store.jobs[id], s.store.files, s.store.nextId);
  }

  lemma RunLast(s: System, init: seq<Step>, step: Step, steps: seq<Step>)
    requires steps == init + [step]
    ensures Run(s, steps) == Next(Run(s, init), step)
  {
    assert steps[..|steps| - 1] == init;
  }

  lemma RunOfSix(s: System, a: Step, b: Step, c: Step, d: Step, e: Step, f: Step)
    ensures Run(s, [a, b, c, d, e, f]) == Next(Next(Next(Next(Next(Next(s, a), b), c), d), e), f)
  {
    RunLast(s, [], a, [a]);
    RunLast(s, [a], b, [a, b]);
    RunLast(s, [a, b], c, [a, b, c]);
    RunLast(s, [a, b, c], d, [a, b, c, d]);
    RunLast(s, [a, b, c, d], e, [a, b, c, d, e]);
    RunLast(s, [a, b, c, d, e], f, [a, b, c, d, e, f]);
  }
}

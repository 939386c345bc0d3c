/**
  `processLocalDelivery` as one worker runs it: the job table updated in place, statement by
  statement, and the proof that an undisturbed call is one run of the step machine.
 */
module LocalDeliveryWorker {
  import opened Common
  import opened LocalDelivery

  datatype Transaction = RolledBack | CommittedUnacknowledged | Committed

  /** What the world answers while one call of `processLocalDelivery` runs. */
  datatype Answers = Answers(
    now: int,
    ready: bool,  // the payload decodes, the mailbox is active, its Inbox exists
    quota: bool,
    transaction: Transaction,
    fileWritten: bool,
    pathRecorded: bool,
    finished: bool,
    later: int)

  /** The store after one undisturbed call. */
  function Process(st: Store, id: Id, env: Answers): Store
    requires st.nextId != NONE
  {
    var claimed := Claim(st, id, env.now);
    if id in st.jobs && Claimable(st.jobs[id], env.now) then AfterClaim(claimed, id, st.nextId, env) else claimed
  }

  function AfterClaim(st: Store, id: Id, token: Id, env: Answers): Store
    requires Holds(st, id, token) && token != NONE
  {
    var written := UpToFile(st, id, token, env);
    if AllWell(env) then
      var delivered := MarkDelivered(written, id, token, env.later);
      delivered.(controls := delivered.controls + [id])
    else
      Defer(written, id, token, written.jobs[id].attempts, ExceededQuota(env), env.now)
  }

  /** Every stage goes through. */
  predicate AllWell(env: Answers) {
    env.ready && env.transaction == Committed && env.fileWritten && env.pathRecorded && env.finished
  }

  /** The delivery transaction and the Maildir file, as far as they come. */
  function UpToFile(st: Store, id: Id, token: Id, env: Answers): (written: Store)
    requires Holds(st, id, token) && token != NONE
    ensures Holds(written, id, token)
  {
    var inserted := if env.ready && env.transaction != RolledBack then InsertOnce(st, id, token, env.later) else st;
    if env.ready && env.transaction == Committed && env.fileWritten
    then inserted.(files := inserted.files + {inserted.jobs[id].messageId})
    else inserted
  }

  /** The quota check runs inside the delivery transaction and rolls it back. */
  predicate ExceededQuota(env: Answers) {
    env.ready && env.transaction == RolledBack && env.quota
  }

  function SoloSteps(w: nat, id: Id, env: Answers): seq<Step> {
    [StepClaim(w, id, env.now), StepLoad(w)] + SoloLoadedSteps(w, env)
  }

  function SoloLoadedSteps(w: nat, env: Answers): seq<Step> {
    var failed := [StepReadAttempts(w), StepDefer(w)];
    if !env.ready then [StepError(w, false)] + failed
    else if env.transaction == RolledBack then [StepError(w, env.quota)] + failed
    else if env.transaction == CommittedUnacknowledged then [StepTransact(w, env.later, false)] + failed
    else [StepTransact(w, env.later, true)] + SoloFileSteps(w, env)
  }

  function SoloFileSteps(w: nat, env: Answers): seq<Step> {
    var failed := [StepReadAttempts(w), StepDefer(w)];
    if !env.fileWritten then [StepError(w, false)] + failed
    else if !env.pathRecorded then [StepWriteFile(w, false)] + failed
    else if !env.finished then [StepWriteFile(w, true), StepError(w, false)] + failed
    else [StepWriteFile(w, true), StepFinish(w, env.later), StepControls(w)]
  }

  lemma {:induction false} RunConcat(s: System, a: seq<Step>, b: seq<Step>)
    ensures Run(s, a + b) == Run(Run(s, a), b)
    decreases |b|
  {
    if b == [] {
      assert a + b == a;
    } else {
      RunConcat(s, a, b[..|b| - 1]);
      assert (a + b)[..|a + b| - 1] == a + b[..|b| - 1];
    }
  }

  /** Reading a run from its first step. */
  lemma RunFirst(s: System, step: Step, rest: seq<Step>)
    ensures Run(s, [step] + rest) == Run(Next(s, step), rest)
  {
    RunConcat(s, [step], rest);
    assert [step][..0] == [];
  }

  lemma RunFailed(s: System, w: nat)
    requires WorkerAt(s, w).Failing? && Holds(s.store, WorkerAt(s, w).id, WorkerAt(s, w).token)
    ensures var x := WorkerAt(s, w);
      Run(s, [StepReadAttempts(w), StepDefer(w)]).store
        == Defer(s.store, x.id, x.token, s.store.jobs[x.id].attempts, x.quota, x.now)
  {
    RunFirst(s, StepReadAttempts(w), [StepDefer(w)]);
    RunFirst(Next(s, StepReadAttempts(w)), StepDefer(w), []);
    assert [StepReadAttempts(w)] + [StepDefer(w)] == [StepReadAttempts(w), StepDefer(w)];
    assert [StepDefer(w)] + [] == [StepDefer(w)];
  }

  lemma RunErrorFailed(s: System, w: nat, step: Step, t: System)
    requires t == Next(s, step) && WorkerAt(t, w).Failing? && Holds(t.store, WorkerAt(t, w).id, WorkerAt(t, w).token)
    ensures var x := WorkerAt(t, w);
      Run(s, [step] + [StepReadAttempts(w), StepDefer(w)]).store
        == Defer(t.store, x.id, x.token, t.store.jobs[x.id].attempts, x.quota, x.now)
  {
    RunFirst(s, step, [StepReadAttempts(w), StepDefer(w)]);
    RunFailed(t, w);
  }

  lemma RunWritten(s: System, w: nat, env: Answers)
    requires WorkerAt(s, w).Stored? && WorkerAt(s, w).token != NONE
    requires Holds(s.store, WorkerAt(s, w).id, WorkerAt(s, w).token)
    ensures var x := WorkerAt(s, w);
      var written := if env.fileWritten then s.store.(files := s.store.files + {x.message}) else s.store;
      Run(s, SoloFileSteps(w, env)).store ==
        if env.fileWritten && env.pathRecorded && env.finished then
          var delivered := MarkDelivered(written, x.id, x.token, env.later);
          delivered.(controls := delivered.controls + [x.id])
        else Defer(written, x.id, x.token, written.jobs[x.id].attempts, false, x.now)
  {
    var failed := [StepReadAttempts(w), StepDefer(w)];
    if !env.fileWritten {
      RunErrorFailed(s, w, StepError(w, false), Next(s, StepError(w, false)));
    } else if !env.pathRecorded {
      RunErrorFailed(s, w, StepWriteFile(w, false), Next(s, StepWriteFile(w, false)));
    } else {
      var t := Next(s, StepWriteFile(w, true));
      if !env.finished {
        RunFirst(s, StepWriteFile(w, true), [StepError(w, false)] + failed);
        assert [StepWriteFile(w, true)] + ([StepError(w, false)] + failed) == SoloFileSteps(w, env);
        RunErrorFailed(t, w, StepError(w, false), Next(t, StepError(w, false)));
      } else {
        RunFirst(s, StepWriteFile(w, true), [StepFinish(w, env.later), StepControls(w)]);
        assert [StepWriteFile(w, true)] + [StepFinish(w, env.later), StepControls(w)] == SoloFileSteps(w, env);
        RunFinished(t, w, env.later);
      }
    }
  }

  lemma RunFinished(s: System, w: nat, now: int)
    requires WorkerAt(s, w).Written? && Holds(s.store, WorkerAt(s, w).id, WorkerAt(s, w).token)
    ensures var x := WorkerAt(s, w);
      var delivered := MarkDelivered(s.store, x.id, x.token, now);
      Run(s, [StepFinish(w, now), StepControls(w)]).store == delivered.(controls := delivered.controls + [x.id])
  {
    RunFirst(s, StepFinish(w, now), [StepControls(w)]);
    RunFirst(Next(s, StepFinish(w, now)), StepControls(w), []);
    assert [StepFinish(w, now)] + [StepControls(w)] == [StepFinish(w, now), StepControls(w)];
    assert [StepControls(w)] + [] == [StepControls(w)];
  }

  lemma RunLoaded(s: System, w: nat, x: Worker, env: Answers)
    requires WorkerAt(s, w) == x && x.Loaded? && x.token != NONE && x.now == env.now && Holds(s.store, x.id, x.token)
    ensures Run(s, SoloLoadedSteps(w, env)).store == AfterClaim(s.store, x.id, x.token, env)
  {
    if !env.ready {
      RunErrorFailed(s, w, StepError(w, false), Next(s, StepError(w, false)));
    } else if env.transaction == RolledBack {
      RunErrorFailed(s, w, StepError(w, env.quota), Next(s, StepError(w, env.quota)));
    } else if env.transaction == CommittedUnacknowledged {
      RunErrorFailed(s, w, StepTransact(w, env.later, false), Next(s, StepTransact(w, env.later, false)));
    } else {
      RunFirst(s, StepTransact(w, env.later, true), SoloFileSteps(w, env));
      RunWritten(Next(s, StepTransact(w, env.later, true)), w, env);
    }
  }

  lemma ClaimStep(st: Store, w: nat, id: Id, now: int)
    requires id in st.jobs && Claimable(st.jobs[id], now)
    ensures Next(System(st, map[]), StepClaim(w, id, now)) ==
      System(Claim(st, id, now), map[w := Holding(id, st.nextId, now)])
    ensures Holds(Claim(st, id, now), id, st.nextId)
  {
  }

  lemma LoadStep(st: Store, w: nat, id: Id, token: Id, now: int)
    requires Holds(st, id, token)
    ensures Next(System(st, map[w := Holding(id, token, now)]), StepLoad(w)) ==
      System(st, map[w := Loaded(id, token, now)])
  {
  }

  lemma RunClaimed(st: Store, w: nat, id: Id, now: int, rest: seq<Step>)
    requires id in st.jobs && Claimable(st.jobs[id], now)
    ensures Run(System(st, map[]), [StepClaim(w, id, now), StepLoad(w)] + rest) ==
      Run(System(Claim(st, id, now), map[w := Loaded(id, st.nextId, now)]), rest)
  {
    ClaimStep(st, w, id, now);
    LoadStep(Claim(st, id, now), w, id, st.nextId, now);
    assert [StepClaim(w, id, now), StepLoad(w)] + rest == [StepClaim(w, id, now)] + ([StepLoad(w)] + rest);
    RunFirst(System(st, map[]), StepClaim(w, id, now), [StepLoad(w)] + rest);
    RunFirst(System(Claim(st, id, now), map[w := Holding(id, st.nextId, now)]), StepLoad(w), rest);
  }

  /** The call's effect is exactly that of the step machine running its steps in a row. */
  lemma ProcessIsARun(st: Store, w: nat, id: Id, env: Answers)
    requires st.nextId != NONE && id in st.jobs && Claimable(st.jobs[id], env.now)
    ensures Run(System(st, map[]), SoloSteps(w, id, env)).store == Process(st, id, env)
  {
    var x := Loaded(id, st.nextId, env.now);
    RunClaimed(st, w, id, env.now, SoloLoadedSteps(w, env));
    RunLoaded(System(Claim(st, id, env.now), map[w := x]), w, x, env);
  }

  /** What one undisturbed call achieves: the job ends delivered exactly when the world let
      every stage through, and otherwise it is queued again, or failed from the eighth claim
      on; the message is inserted at most once however often the call is repeated. */
  lemma ProcessOutcome(st: Store, id: Id, env: Answers)
    requires StoreInv(st) && id in st.jobs && Claimable(st.jobs[id], env.now)
    ensures StoreInv(Process(st, id, env).(controls := st.controls))
    ensures id in Process(st, id, env).jobs
    ensures var a, b := st.jobs[id], Process(st, id, env).jobs[id];
      && (b.status == Delivered <==> AllWell(env))
      && (b.status == Failed <==> !AllWell(env) && a.attempts + 1 >= MAX_ATTEMPTS)
      && (b.status == Queued ==> b.payload == a.payload != "" && env.now + 60 <= b.nextAttempt <= env.now + 3840)
      && b.attempts == a.attempts + 1
      && b.leaseToken == NONE
    ensures var a, b := st.jobs[id], Process(st, id, env).jobs[id];
      && (a.messageId != NONE ==> b.messageId == a.messageId && Process(st, id, env).messages == st.messages)
      && (b.messageId == NONE <==> a.messageId == NONE && !(env.ready && env.transaction != RolledBack))
      && (b.messageId != NONE == a.messageId ==> Process(st, id, env).messages == st.messages[b.messageId := id])
  {
    var token := st.nextId;
    var claimed := Claim(st, id, env.now);
    assert RowOk(st.jobs[id], st.files, st.nextId);
    assert StoreInv(AfterClaim(claimed, id, token, env).(controls := st.controls)) by {
      ClaimKeeps(st, id, env.now);
      AfterClaimKeeps(claimed, id, token, env);
    }
    AfterClaimRow(claimed, id, token, env);
  }

  lemma AfterClaimRow(st: Store, id: Id, token: Id, env: Answers)
    requires token != NONE && Holds(st, id, token) && st.jobs[id].attempts >= 1 && st.nextId != NONE
    ensures id in AfterClaim(st, id, token, env).jobs
    ensures var a, b := st.jobs[id], AfterClaim(st, id, token, env).jobs[id];
      && (AllWell(env) ==> b.status == Delivered)
      && (!AllWell(env) ==> b.status == if a.attempts >= MAX_ATTEMPTS then Failed else Queued)
      && (b.status == Queued ==> b.payload == a.payload && env.now + 60 <= b.nextAttempt <= env.now + 3840)
      && b.attempts == a.attempts
      && b.leaseToken == NONE
    ensures var a, b := st.jobs[id], AfterClaim(st, id, token, env);
      var tried := env.ready && env.transaction != RolledBack;
      && b.jobs[id].messageId == (if a.messageId == NONE && tried then st.nextId else a.messageId)
      && b.messages == (if a.messageId == NONE && tried then st.messages[st.nextId := id] else st.messages)
  {
    Pow2Grows(Min(st.jobs[id].attempts, 7));
  }

  lemma {:induction false} Pow2Grows(n: nat)
    requires n <= 7
    ensures 1 <= Pow2(n) <= 128 && (n >= 1 ==> Pow2(n) >= 2)
  {
    Pow2Monotone(n, 7);
    assert Pow2(7) == 128;
    if n > 0 {
      Pow2Grows(n - 1);
    }
  }

  lemma {:induction false} Pow2Monotone(m: nat, n: nat)
    requires m <= n
    ensures Pow2(m) <= Pow2(n)
  {
    if m < n {
      Pow2Monotone(m, n - 1);
    }
  }

  lemma AfterClaimKeeps(st: Store, id: Id, token: Id, env: Answers)
    requires StoreInv(st) && token != NONE && Holds(st, id, token)
    ensures StoreInv(AfterClaim(st, id, token, env).(controls := st.controls))
  {
    var written := UpToFile(st, id, token, env);
    UpToFileKeeps(st, id, token, env);
    if AllWell(env) {
      DeliveredKeeps(written, id, token, env.later, st.controls);
    } else {
      DeferKeeps(written, id, token, written.jobs[id].attempts, ExceededQuota(env), env.now);
    }
  }

  lemma UpToFileKeeps(st: Store, id: Id, token: Id, env: Answers)
    requires StoreInv(st) && token != NONE && Holds(st, id, token)
    ensures var written := UpToFile(st, id, token, env);
      && StoreInv(written) && written.controls == st.controls
      && (AllWell(env) ==> written.jobs[id].messageId != NONE && written.jobs[id].messageId in written.files)
  {
    InsertOnceKeeps(st, id, token, env.later);
    var inserted := if env.ready && env.transaction != RolledBack then InsertOnce(st, id, token, env.later) else st;
    MoreFilesKeep(inserted, UpToFile(st, id, token, env));
  }

  lemma DeliveredKeeps(st: Store, id: Id, token: Id, now: int, controls: seq<Id>)
    requires StoreInv(st) && token != NONE && Holds(st, id, token) && controls == st.controls
    requires st.jobs[id].messageId != NONE && st.jobs[id].messageId in st.files
    ensures StoreInv(MarkDelivered(st, id, token, now).(controls := controls))
  {
    MarkDeliveredKeeps(st, id, token, now);
  }

  lemma MoreFilesKeep(a: Store, b: Store)
    requires StoreInv(a) && b == a.(files := b.files) && a.files <= b.files
    ensures StoreInv(b)
  {
    forall k | k in b.jobs ensures 0 < k < b.nextId && RowOk(b.jobs[k], b.files, b.nextId) {
      assert RowOk(a.jobs[k], a.files, a.nextId);
    }
  }

  // ---------------------------------------------------------------- enqueuing

  function EnqueueAll(st: Store, source: nat, targets: seq<nat>, payload: string, now: int): Store {
    if targets == [] then st
    else Enqueue(EnqueueAll(st, source, targets[..|targets| - 1], payload, now), source, targets[|targets| - 1],
      payload, now)
  }

  predicate IsFor(job: Job, source: nat, target: nat) {
    job.source == source && job.target == target
  }

  /** The rows of `b` that `a` does not have: fresh jobs of that message for targets that had none. */
  ghost predicate NewRowsAre(a: Store, b: Store, source: nat, targets: seq<nat>, payload: string, now: int) {
    forall id :: id in b.jobs && id !in a.jobs ==>
      && b.jobs[id].source == source && b.jobs[id].target in targets && !HasJobFor(a, source, b.jobs[id].target)
      && b.jobs[id].payload == payload && b.jobs[id].status == Queued && b.jobs[id].nextAttempt == now
  }

  /** The rows of `a` are in `b` as they were, all targets have a row there, and nothing else is new. */
  ghost predicate Covers(a: Store, b: Store, source: nat, targets: seq<nat>, payload: string, now: int) {
    && (forall id :: id in a.jobs ==> id in b.jobs && b.jobs[id] == a.jobs[id])
    && (forall t :: t in targets ==> exists id :: id in b.jobs && IsFor(b.jobs[id], source, t))
    && NewRowsAre(a, b, source, targets, payload, now)
  }

  /** Existing rows stay as they are, every target has a row afterwards, and nothing else does. */
  lemma {:induction false} EnqueueAllCovers(st: Store, source: nat, targets: seq<nat>, payload: string, now: int)
    requires StoreInv(st) && payload != ""
    ensures StoreInv(EnqueueAll(st, source, targets, payload, now))
    ensures Covers(st, EnqueueAll(st, source, targets, payload, now), source, targets, payload, now)
  {
    if targets != [] {
      var init, last := targets[..|targets| - 1], targets[|targets| - 1];
      EnqueueAllCovers(st, source, init, payload, now);
      var a := EnqueueAll(st, source, init, payload, now);
      EnqueueKeeps(a, source, last, payload, now);
      EnqueueOne(a, source, last, payload, now);
      OneMoreCovers(st, a, Enqueue(a, source, last, payload, now), source, init, last, payload, now);
      assert init + [last] == targets;
    }
  }

  lemma EnqueueOne(st: Store, source: nat, target: nat, payload: string, now: int)
    requires StoreInv(st)
    ensures Covers(st, Enqueue(st, source, target, payload, now), source, [target], payload, now)
  {
    var b := Enqueue(st, source, target, payload, now);
    assert st.nextId !in st.jobs;
    if HasJobFor(st, source, target) {
      var id :| id in st.jobs && st.jobs[id].source == source && st.jobs[id].target == target;
      assert IsFor(b.jobs[id], source, target);
    } else {
      assert IsFor(b.jobs[st.nextId], source, target);
    }
  }

  lemma OneMoreCovers(st: Store, a: Store, b: Store, source: nat, init: seq<nat>, last: nat, payload: string, now: int)
    requires Covers(st, a, source, init, payload, now) && Covers(a, b, source, [last], payload, now)
    ensures Covers(st, b, source, init + [last], payload, now)
  {
    forall t | t in init + [last] ensures exists id :: id in b.jobs && IsFor(b.jobs[id], source, t) {
      if t != last {
        assert t in init;
        var id :| id in a.jobs && IsFor(a.jobs[id], source, t);
        assert IsFor(b.jobs[id], source, t);
      } else {
        assert t in [last];
      }
    }
    assert HasJobFor(st, source, last) ==> HasJobFor(a, source, last);
    forall id | id in b.jobs && id !in st.jobs
      ensures b.jobs[id].target in init + [last] && !HasJobFor(st, source, b.jobs[id].target)
    {
      assert id !in a.jobs ==> b.jobs[id].target in [last];
    }
  }

  /** Handing the same message in again, for any of its targets, adds no job and changes none. */
  lemma EnqueueAgainIsIdle(st: Store, source: nat, targets: seq<nat>, again: seq<nat>, payload: string, now: int,
                           later: int)
    requires StoreInv(st) && payload != "" && forall t :: t in again ==> t in targets
    ensures var b := EnqueueAll(st, source, targets, payload, now);
      EnqueueAll(b, source, again, payload, later).jobs == b.jobs
  {
    EnqueueAllCovers(st, source, targets, payload, now);
    var b := EnqueueAll(st, source, targets, payload, now);
    forall t | t in again ensures HasJobFor(b, source, t) {
      var id :| id in b.jobs && IsFor(b.jobs[id], source, t);
    }
    CoveredIsIdle(b, source, again, payload, later);
  }

  lemma {:induction false} CoveredIsIdle(st: Store, source: nat, targets: seq<nat>, payload: string, now: int)
    requires forall t :: t in targets ==> HasJobFor(st, source, t)
    ensures EnqueueAll(st, source, targets, payload, now).jobs == st.jobs
  {
    if targets != [] {
      var init, last := targets[..|targets| - 1], targets[|targets| - 1];
      CoveredIsIdle(st, source, init, payload, now);
      assert last in targets;
      assert HasJobFor(st, source, last);
    }
  }

  /** The table and its statements, in place. */
  class JobTable {
    var jobs: map<Id, Job>
    var messages: map<Id, Id>
    var files: set<Id>
    var controls: seq<Id>
    var nextId: Id

    function View(): Store
      reads this
    {
      Store(jobs, messages, files, controls, nextId)
    }

    constructor ()
      ensures View() == EMPTY_STORE
    {
      jobs, messages, files, controls, nextId := map[], map[], {}, [], 1;
    }

    method FreshId() returns (id: Id)
      modifies this`nextId
      ensures id == old(nextId) && nextId == id + 1
    {
      id := nextId;
      nextId := nextId + 1;
    }

    /** One job for each target of a message, none of them twice. */
    method EnqueueJob(source: nat, target: nat, payload: string, now: int)
      modifies this
      ensures View() == Enqueue(old(View()), source, target, payload, now)
    {
      var id := FreshId();
      if !(exists k :: k in jobs && jobs[k].source == source && jobs[k].target == target) {
        jobs := jobs[id := Job(source, target, payload, Queued, 0, now, NONE, None, NONE, NoError, now, 0, 0)];
      }
    }

    /** The enqueuing transaction of `deliverLocalRecipients`. */
    method EnqueueTargets(source: nat, targets: seq<nat>, payload: string, now: int)
      modifies this
      ensures View() == EnqueueAll(old(View()), source, targets, payload, now)
    {
      for i := 0 to |targets|
        invariant View() == EnqueueAll(old(View()), source, targets[..i], payload, now)
      {
        assert targets[..i + 1][..i] == targets[..i];
        EnqueueJob(source, targets[i], payload, now);
      }
      assert targets[..|targets|] == targets;
    }

    method ClaimJob(id: Id, now: int) returns (token: Id, claimed: bool)
      modifies this
      ensures View() == Claim(old(View()), id, now)
      ensures token == old(nextId) && claimed == (id in old(jobs) && Claimable(old(jobs)[id], now))
    {
      token := FreshId();
      claimed := false;
      if id in jobs {
        var job := jobs[id];
        if job.status == Sending {
          // Taken over from a worker whose lease has run out.
          claimed := job.leaseUntil == None || job.leaseUntil.value <= now;
          job := job.(takeovers := job.takeovers + 1);
        } else {
          claimed := job.status == Queued && job.nextAttempt <= now;
        }
        if claimed {
          jobs := jobs[id := job.(
            status := Sending, leaseToken := token, leaseUntil := Some(now + LEASE_SECONDS),
            attempts := job.attempts + 1, updatedAt := now)];
        }
      }
    }

    /** `found` is false when the token was superseded: the transaction then ends in error. */
    method InsertMessageOnce(id: Id, token: Id, now: int) returns (found: bool, message: Id)
      modifies this
      ensures View() == InsertOnce(old(View()), id, token, now)
      ensures found == Holds(old(View()), id, token)
      ensures found ==> id in jobs && message == jobs[id].messageId
    {
      found, message := id in jobs && jobs[id].leaseToken == token, NONE;
      if found {
        var job := jobs[id].(leaseUntil := Some(now + LEASE_SECONDS));
        if job.messageId == NONE {
          message := FreshId();
          messages := messages[message := id];
          job := job.(messageId := message);
        }
        message := job.messageId;
        jobs := jobs[id := job];
      }
    }

    method FinishJob(id: Id, token: Id, now: int) returns (affected: bool)
      modifies this
      ensures View() == MarkDelivered(old(View()), id, token, now)
      ensures affected == Holds(old(View()), id, token)
    {
      affected := id in jobs && jobs[id].leaseToken == token;
      if affected {
        jobs := jobs[id := jobs[id].(
          status := Delivered, payload := "", lastError := NoError,
          leaseToken := NONE, leaseUntil := None, updatedAt := now)];
      }
    }

    /** The failure path of `processLocalDelivery`: read the attempts, then record. */
    method RecordFailure(id: Id, token: Id, quota: bool, now: int)
      modifies this
      ensures View() == if Holds(old(View()), id, token)
        then Defer(old(View()), id, token, old(jobs)[id].attempts, quota, now) else old(View())
    {
      if id !in jobs || jobs[id].leaseToken != token {
        return;
      }
      var job := jobs[id];
      var status := if job.attempts >= MAX_ATTEMPTS then Failed else Queued;
      jobs := jobs[id := job.(
        status := status,
        nextAttempt := now + RetryDelaySeconds(job.attempts),
        lastError := if quota then QuotaExceeded else DeliveryFailed,
        leaseToken := NONE,
        leaseUntil := None,
        payload := if status == Failed then "" else job.payload,
        updatedAt := now,
        requeues := if status == Queued then job.requeues + 1 else job.requeues)];
    }

    method PurgeTerminal(cutoff: int)
      modifies this`jobs
      ensures View() == Purge(old(View()), cutoff)
    {
      jobs := map id | id in jobs && !(Terminal(jobs[id]) && jobs[id].updatedAt < cutoff) :: jobs[id];
    }

    /** `processLocalDelivery` with `completeLocalDelivery` inside it. */
    method ProcessLocalDelivery(id: Id, env: Answers)
      requires nextId != NONE
      modifies this
      ensures View() == Process(old(View()), id, env)
    {
      var token, claimed := ClaimJob(id, env.now);
      if !claimed {
        return;
      }
      var failed, quota := true, false;
      if env.ready {
        if env.transaction == RolledBack {
          quota := env.quota;
        } else {
          var found, message := InsertMessageOnce(id, token, env.later);
          if found && env.transaction == Committed && env.fileWritten {
            files := files + {message};
            if env.pathRecorded && env.finished {
              var affected := FinishJob(id, token, env.later);
              if affected {
                controls := controls + [id];
              }
              failed := false;
            }
          }
        }
      }
      if failed {
        RecordFailure(id, token, quota, env.now);
      }
    }
  }
}

/**
  Durable local delivery jobs: the rows of `local_delivery_jobs`, the statements that
  workers issue against them, and every interleaving of those statements.

  A worker claims a job under a fresh lease token, inserts the message and records its id
  in one transaction, writes the Maildir file, and only then marks the job delivered.
  Every statement is one step; a worker may stop for ever between any two of its steps,
  and another worker may take the job over once the lease has run out.

  Clock readings are parameters of the steps and are not constrained at all, so the
  results hold for skewed and stale readings too.
 */
module LocalDelivery {
  import opened Common

  // Identifiers come from `newID`: never handed out twice. 0 stands for the empty string.
  type Id = nat
  const NONE: Id := 0

  const LEASE_SECONDS := 300
  const MAX_ATTEMPTS := 8

  datatype Status = Queued | Sending | Delivered | Failed

  datatype LastError = NoError | DeliveryFailed | QuotaExceeded

  /** One row. `requeues` and `takeovers` are history, not columns: how often a claim
      recorded "try again", and how often a claim was superseded with no outcome recorded. */
  datatype Job = Job(
    source: nat,
    target: nat,
    payload: string,
    status: Status,
    attempts: nat,
    nextAttempt: int,
    leaseToken: Id,
    leaseUntil: Option<int>,
    messageId: Id,
    lastError: LastError,
    updatedAt: int,
    requeues: nat,
    takeovers: nat)

  /** `messages` maps each message row inserted by local delivery to the job that inserted
      it, `files` holds the messages whose Maildir file has been written, `controls` lists
      the jobs for which inbound controls were applied, in order. */
  datatype Store = Store(
    jobs: map<Id, Job>,
    messages: map<Id, Id>,
    files: set<Id>,
    controls: seq<Id>,
    nextId: Id)

  const EMPTY_STORE := Store(map[], map[], {}, [], 1)

  // ---------------------------------------------------------------- statements

  predicate Terminal(job: Job) {
    job.status == Delivered || job.status == Failed
  }

  predicate Claimable(job: Job, now: int) {
    || (job.status == Queued && job.nextAttempt <= now)
    || (job.status == Sending && (job.leaseUntil == None || job.leaseUntil.value <= now))
  }

  /** `WHERE id=? AND lease_token=?` */
  predicate Holds(st: Store, id: Id, token: Id) {
    id in st.jobs && st.jobs[id].leaseToken == token
  }

  predicate HasJobFor(st: Store, source: nat, target: nat) {
    exists id :: id in st.jobs && st.jobs[id].source == source && st.jobs[id].target == target
  }

  /** Insert a queued row; the unique key (source, target) keeps an existing one untouched. */
  function Enqueue(st: Store, source: nat, target: nat, payload: string, now: int): Store {
    if HasJobFor(st, source, target) then
      st.(nextId := st.nextId + 1)
    else
      var job := Job(source, target, payload, Queued, 0, now, NONE, None, NONE, NoError, now, 0, 0);
      st.(jobs := st.jobs[st.nextId := job], nextId := st.nextId + 1)
  }

  function ClaimRow(job: Job, token: Id, now: int): Job {
    job.(
      status := Sending,
      leaseToken := token,
      leaseUntil := Some(now + LEASE_SECONDS),
      attempts := job.attempts + 1,
      updatedAt := now,
      takeovers := if job.status == Sending then job.takeovers + 1 else job.takeovers)
  }

  /** The claiming UPDATE under the fresh token `st.nextId`. */
  function Claim(st: Store, id: Id, now: int): Store {
    if id in st.jobs && Claimable(st.jobs[id], now) then
      st.(jobs := st.jobs[id := ClaimRow(st.jobs[id], st.nextId, now)], nextId := st.nextId + 1)
    else
      st.(nextId := st.nextId + 1)
  }

  /** The delivery transaction: extend the lease, and insert the message together with its
      id on the row unless an earlier claim already did. */
  function InsertOnce(st: Store, id: Id, token: Id, now: int): Store {
    if !Holds(st, id, token) then
      st
    else
      var job := st.jobs[id].(leaseUntil := Some(now + LEASE_SECONDS));
      if job.messageId != NONE then
        st.(jobs := st.jobs[id := job])
      else
        st.(jobs := st.jobs[id := job.(messageId := st.nextId)],
            messages := st.messages[st.nextId := id],
            nextId := st.nextId + 1)
  }

  function MarkDelivered(st: Store, id: Id, token: Id, now: int): Store {
    if !Holds(st, id, token) then
      st
    else
      st.(jobs := st.jobs[id := st.jobs[id].(
        status := Delivered, payload := "", lastError := NoError,
        leaseToken := NONE, leaseUntil := None, updatedAt := now)])
  }

  function Pow2(n: nat): nat {
    if n == 0 then 1 else 2 * Pow2(n - 1)
  }

  function RetryDelaySeconds(attempts: nat): nat {
    30 * Pow2(Min(attempts, 7))
  }

  /** Record a failed claim: back to the queue, or failed for good once the attempts are
      used up. `now` is the reading taken when the job was claimed. */
  function Defer(st: Store, id: Id, token: Id, attempts: nat, quota: bool, now: int): Store {
    if !Holds(st, id, token) then
      st
    else
      var job := st.jobs[id];
      var status := if attempts >= MAX_ATTEMPTS then Failed else Queued;
      st.(jobs := st.jobs[id := job.(
        status := status,
        nextAttempt := now + RetryDelaySeconds(attempts),
        lastError := if quota then QuotaExceeded else DeliveryFailed,
        leaseToken := NONE,
        leaseUntil := None,
        payload := if status == Failed then "" else job.payload,
        updatedAt := now,
        requeues := if status == Queued then job.requeues + 1 else job.requeues)])
  }

  function Purge(st: Store, cutoff: int): Store {
    st.(jobs := map id | id in st.jobs && !(Terminal(st.jobs[id]) && st.jobs[id].updatedAt < cutoff) :: st.jobs[id])
  }

  // ---------------------------------------------------------------- workers

  /** Where a worker stands inside `processLocalDelivery`. */
  datatype Worker =
    | Idle
    | Holding(id: Id, token: Id, now: int)
    | Loaded(id: Id, token: Id, now: int)
    | Stored(id: Id, token: Id, now: int, message: Id)
    | Written(id: Id, token: Id, now: int, message: Id)
    | Finished(id: Id)
    | Failing(id: Id, token: Id, now: int, quota: bool)
    | Deferring(id: Id, token: Id, now: int, quota: bool, attempts: nat)

  predicate HasToken(w: Worker) {
    w.Holding? || w.Loaded? || w.Stored? || w.Written? || w.Failing? || w.Deferring?
  }

  datatype System = System(store: Store, workers: map<nat, Worker>)

  const START := System(EMPTY_STORE, map[])

  function WorkerAt(s: System, w: nat): Worker {
    if w in s.workers then s.workers[w] else Idle
  }

  datatype Step =
    | StepEnqueue(source: nat, target: nat, payload: string, now: int)
    | StepClaim(w: nat, id: Id, now: int)
    | StepLoad(w: nat)
    // Any error before the row is finished: bad payload, inactive mailbox, rolled back
    // transaction, Maildir failure, database failure.
    | StepError(w: nat, quota: bool)
    // `acknowledged` is false when the commit took effect but the worker saw an error.
    | StepTransact(w: nat, now: int, acknowledged: bool)
    | StepWriteFile(w: nat, recorded: bool)
    | StepFinish(w: nat, now: int)
    | StepControls(w: nat)
    | StepReadAttempts(w: nat)
    | StepDefer(w: nat)
    | StepCrash(w: nat)
    | StepPurge(cutoff: int)

  function Put(s: System, st: Store, w: nat, worker: Worker): System {
    System(st, s.workers[w := worker])
  }

  /** One step of the whole system. A step its worker is not ready for does nothing. */
  function Next(s: System, step: Step): System {
    match step
    case StepEnqueue(source, target, payload, now) =>
      if payload == "" then s else s.(store := Enqueue(s.store, source, target, payload, now))
    case StepPurge(cutoff) => s.(store := Purge(s.store, cutoff))
    case StepCrash(w) => Put(s, s.store, w, Idle)
    case StepClaim(w, id, now) =>
      if WorkerAt(s, w) != Idle then s else
      var claimed := id in s.store.jobs && Claimable(s.store.jobs[id], now);
      Put(s, Claim(s.store, id, now), w, if claimed then Holding(id, s.store.nextId, now) else Idle)
    case StepLoad(w) =>
      (match WorkerAt(s, w)
       case Holding(id, token, now) =>
         Put(s, s.store, w,
           if Holds(s.store, id, token) then Loaded(id, token, now) else Failing(id, token, now, false))
       case _ => s)
    case StepError(w, quota) =>
      (match WorkerAt(s, w)
       case Loaded(id, token, now) => Put(s, s.store, w, Failing(id, token, now, quota))
       case Stored(id, token, now, _) => Put(s, s.store, w, Failing(id, token, now, quota))
       case Written(id, token, now, _) => Put(s, s.store, w, Failing(id, token, now, quota))
       case _ => s)
    case StepTransact(w, t, acknowledged) =>
      (match WorkerAt(s, w)
       case Loaded(id, token, now) =>
         var st := InsertOnce(s.store, id, token, t);
         if Holds(s.store, id, token) && acknowledged then
           Put(s, st, w, Stored(id, token, now, st.jobs[id].messageId))
         else
           Put(s, st, w, Failing(id, token, now, false))
       case _ => s)
    case StepWriteFile(w, recorded) =>
      (match WorkerAt(s, w)
       case Stored(id, token, now, message) =>
         var st := s.store.(files := s.store.files + {message});
         Put(s, st, w, if recorded then Written(id, token, now, message) else Failing(id, token, now, false))
       case _ => s)
    case StepFinish(w, t) =>
      (match WorkerAt(s, w)
       case Written(id, token, now, message) =>
         Put(s, MarkDelivered(s.store, id, token, t), w, if Holds(s.store, id, token) then Finished(id) else Idle)
       case _ => s)
    case StepControls(w) =>
      (match WorkerAt(s, w)
       case Finished(id) => Put(s, s.store.(controls := s.store.controls + [id]), w, Idle)
       case _ => s)
    case StepReadAttempts(w) =>
      (match WorkerAt(s, w)
       case Failing(id, token, now, quota) =>
         Put(s, s.store, w,
           if Holds(s.store, id, token) then Deferring(id, token, now, quota, s.store.jobs[id].attempts) else Idle)
       case _ => s)
    case StepDefer(w) =>
      (match WorkerAt(s, w)
       case Deferring(id, token, now, quota, attempts) =>
         Put(s, Defer(s.store, id, token, attempts, quota, now), w, Idle)
       case _ => s)
  }

  function Run(s: System, steps: seq<Step>): System
    decreases |steps|
  {
    if steps == [] then s else Next(Run(s, steps[..|steps| - 1]), steps[|steps| - 1])
  }

  // ---------------------------------------------------------------- invariant

  /** What one row promises. */
  ghost predicate RowOk(job: Job, files: set<Id>, nextId: Id) {
    && (job.status == Sending <==> job.leaseToken != NONE)
    && (job.status == Sending ==> job.leaseUntil.Some?)
    && (Terminal(job) <==> job.payload == "")
    && (job.status == Delivered ==> job.messageId != NONE && job.messageId in files)
    && (job.status == Failed ==> job.attempts >= MAX_ATTEMPTS)
    && (job.status == Queued ==> job.attempts < MAX_ATTEMPTS)
    && job.requeues < MAX_ATTEMPTS
    && job.attempts == job.requeues + job.takeovers + (if job.status == Queued then 0 else 1)
    && job.leaseToken < nextId
  }

  ghost predicate RowsOk(st: Store) {
    && st.nextId > 0
    && (forall id :: id in st.jobs ==> 0 < id < st.nextId && RowOk(st.jobs[id], st.files, st.nextId))
  }

  ghost predicate KeysUnique(st: Store) {
    forall i, j | i in st.jobs && j in st.jobs ::
      st.jobs[i].source == st.jobs[j].source && st.jobs[i].target == st.jobs[j].target ==> i == j
  }

  ghost predicate TokensUnique(st: Store) {
    forall i, j | i in st.jobs && j in st.jobs ::
      st.jobs[i].leaseToken == st.jobs[j].leaseToken != NONE ==> i == j
  }

  /** A row carries a message id exactly when that job inserted that message, and no job
      ever inserted two. */
  ghost predicate MessagesOk(st: Store) {
    && (forall m :: m in st.messages ==> 0 < m < st.nextId && 0 < st.messages[m] < st.nextId)
    && InsertedOnce(st.messages)
    && (forall id, m :: id in st.jobs && m in st.messages && st.messages[m] == id ==> st.jobs[id].messageId == m)
    && RowsNameMessages(st)
  }

  ghost predicate InsertedOnce(messages: map<Id, Id>) {
    forall m, n :: m in messages && n in messages && messages[m] == messages[n] ==> m == n
  }

  ghost predicate RowsNameMessages(st: Store) {
    forall id :: id in st.jobs && st.jobs[id].messageId != NONE ==>
      st.jobs[id].messageId in st.messages && st.messages[st.jobs[id].messageId] == id
  }

  ghost predicate ControlsOk(st: Store) {
    && (forall i, j :: 0 <= i < j < |st.controls| ==> st.controls[i] != st.controls[j])
    && (forall i :: 0 <= i < |st.controls| ==>
          st.controls[i] < st.nextId && (st.controls[i] in st.jobs ==> st.jobs[st.controls[i]].status == Delivered))
  }

  ghost predicate WorkerOk(st: Store, w: Worker) {
    && (HasToken(w) ==> 0 < w.token < st.nextId && 0 < w.id < st.nextId)
    && (HasToken(w) ==> forall id :: id in st.jobs && st.jobs[id].leaseToken == w.token ==> id == w.id)
    && (w.Stored? || w.Written? ==> w.message in st.messages && st.messages[w.message] == w.id)
    && (w.Written? ==> w.message in st.files)
    && (w.Deferring? && Holds(st, w.id, w.token) ==> w.attempts == st.jobs[w.id].attempts)
    && (w.Finished? ==> 0 < w.id < st.nextId && w.id !in st.controls)
    && (w.Finished? && w.id in st.jobs ==> st.jobs[w.id].status == Delivered)
  }

  ghost predicate WorkersOk(s: System) {
    && (forall w :: w in s.workers ==> WorkerOk(s.store, s.workers[w]))
    && FinishedApart(s.workers)
    && TokensApart(s.workers)
  }

  ghost predicate FinishedApart(workers: map<nat, Worker>) {
    forall v, w | v in workers && w in workers && workers[v].Finished? && workers[w].Finished? ::
      workers[v].id == workers[w].id ==> v == w
  }

  ghost predicate TokensApart(workers: map<nat, Worker>) {
    forall v, w | v in workers && w in workers && HasToken(workers[v]) && HasToken(workers[w]) ::
      workers[v].token == workers[w].token ==> v == w
  }

  ghost predicate StoreInv(st: Store) {
    RowsOk(st) && KeysUnique(st) && TokensUnique(st) && MessagesOk(st) && ControlsOk(st)
  }

  ghost predicate Inv(s: System) {
    StoreInv(s.store) && WorkersOk(s)
  }

  /** How one statement may move the store, as far as anyone else can tell: ids stay spent,
      inserted messages and recorded message ids stay put, terminal rows are frozen, and a
      lease token only ever gives way to a fresh one or to none. */
  ghost predicate Follows(a: Store, b: Store) {
    && a.nextId <= b.nextId
    && a.files <= b.files
    && a.controls == b.controls
    && (forall id :: id in b.jobs && id !in a.jobs ==> id >= a.nextId && b.jobs[id].leaseToken == NONE)
    && (forall m :: m in a.messages ==> m in b.messages && a.messages[m] == b.messages[m])
    && (forall id :: id in a.jobs && id in b.jobs ==> RowFollows(a.jobs[id], b.jobs[id], a.nextId))
  }

  ghost predicate RowFollows(a: Job, b: Job, nextId: Id) {
    && (b.leaseToken == a.leaseToken || b.leaseToken == NONE || b.leaseToken >= nextId)
    && (b.leaseToken == a.leaseToken ==> b.attempts == a.attempts)
    && (a.messageId != NONE ==> b.messageId == a.messageId)
    && (Terminal(a) ==> b == a)
    && a.source == b.source && a.target == b.target
    && (Terminal(b) || b.payload == a.payload)
    && a.attempts <= b.attempts
  }

  // ---------------------------------------------------------------- one row at a time

  /** `b` is `a` with row `id` replaced, ids possibly spent, and possibly one message, with
      the freshly spent id, inserted for that row. */
  ghost predicate RowReplaced(a: Store, b: Store, id: Id) {
    && id in a.jobs && id in b.jobs
    && b.jobs == a.jobs[id := b.jobs[id]]
    && a.nextId <= b.nextId
    && b.files == a.files
    && b.controls == a.controls
    && (b.messages == a.messages || (b.messages == a.messages[a.nextId := id] && a.nextId < b.nextId))
  }

  ghost predicate RowStep(a: Store, b: Store, id: Id) {
    && RowReplaced(a, b, id)
    && RowOk(b.jobs[id], b.files, b.nextId)
    && !Terminal(a.jobs[id])
    && RowFollows(a.jobs[id], b.jobs[id], a.nextId)
    && b.jobs[id].messageId == (if b.messages == a.messages then a.jobs[id].messageId else a.nextId)
    && (b.messages == a.messages || a.jobs[id].messageId == NONE)
  }

  lemma RowStepRows(a: Store, b: Store, id: Id)
    requires RowsOk(a) && RowStep(a, b, id)
    ensures RowsOk(b)
  {
    forall k | k in b.jobs ensures 0 < k < b.nextId && RowOk(b.jobs[k], b.files, b.nextId) {
      if k != id { assert RowOk(a.jobs[k], a.files, a.nextId); }
    }
  }

  lemma RowStepUnique(a: Store, b: Store, id: Id)
    requires RowsOk(a) && RowStep(a, b, id) && KeysUnique(a) && TokensUnique(a)
    ensures KeysUnique(b) && TokensUnique(b)
  {
    forall i, j | i in b.jobs && j in b.jobs && b.jobs[i].leaseToken == b.jobs[j].leaseToken != NONE ensures i == j {
      assert i in a.jobs && j in a.jobs;
      assert RowOk(a.jobs[i], a.files, a.nextId) && RowOk(a.jobs[j], a.files, a.nextId);
    }
  }

  lemma RowStepSameMessages(a: Store, b: Store, id: Id)
    requires RowStep(a, b, id) && MessagesOk(a) && b.messages == a.messages
    ensures MessagesOk(b)
  {
    assert b.jobs[id].messageId == a.jobs[id].messageId;
    assert forall k :: k in b.jobs ==> b.jobs[k].messageId == a.jobs[k].messageId;
  }

  lemma RowStepNewMessage(a: Store, b: Store, id: Id)
    requires RowsOk(a) && RowStep(a, b, id) && MessagesOk(a) && b.messages != a.messages
    ensures MessagesOk(b)
  {
    NewMessageKeeps(a, b, id, a.nextId);
  }

  lemma NewMessageKeeps(a: Store, b: Store, id: Id, m: Id)
    requires MessagesOk(a) && id in a.jobs && a.jobs[id].messageId == NONE
    requires 0 < id < m == a.nextId < b.nextId && b.messages == a.messages[m := id]
    requires id in b.jobs && b.jobs[id].messageId == m && b.jobs == a.jobs[id := b.jobs[id]]
    ensures MessagesOk(b)
  {
    assert m !in a.messages;
    assert RowsNameMessages(b);
    assert forall k :: k in a.messages ==> a.messages[k] != id;
    NewMessageOnce(a.messages, id, m);
  }

  lemma NewMessageOnce(messages: map<Id, Id>, id: Id, m: Id)
    requires InsertedOnce(messages) && m !in messages && forall k :: k in messages ==> messages[k] != id
    ensures InsertedOnce(messages[m := id])
  {
  }

  lemma RowStepMessages(a: Store, b: Store, id: Id)
    requires RowsOk(a) && RowStep(a, b, id) && MessagesOk(a)
    ensures MessagesOk(b)
  {
    if b.messages == a.messages {
      RowStepSameMessages(a, b, id);
    } else {
      RowStepNewMessage(a, b, id);
    }
  }

  lemma RowStepFollows(a: Store, b: Store, id: Id)
    requires MessagesOk(a) && RowStep(a, b, id)
    ensures Follows(a, b)
  {
    assert forall m :: m in a.messages ==> m != a.nextId;
    forall k | k in a.jobs && k in b.jobs ensures RowFollows(a.jobs[k], b.jobs[k], a.nextId) {}
  }

  lemma RowStepControls(a: Store, b: Store, id: Id)
    requires ControlsOk(a) && RowStep(a, b, id)
    ensures ControlsOk(b)
  {
  }

  lemma RowStepKeeps(a: Store, b: Store, id: Id)
    requires StoreInv(a) && RowStep(a, b, id)
    ensures StoreInv(b) && Follows(a, b)
  {
    assert RowsOk(b) by { RowStepRows(a, b, id); }
    assert KeysUnique(b) && TokensUnique(b) by { RowStepUnique(a, b, id); }
    assert MessagesOk(b) by { RowStepMessages(a, b, id); }
    assert ControlsOk(b) by { RowStepControls(a, b, id); }
    assert Follows(a, b) by { RowStepFollows(a, b, id); }
  }

  lemma NewRowKeeps(st: Store, job: Job)
    requires RowsOk(st) && KeysUnique(st) && TokensUnique(st) && !HasJobFor(st, job.source, job.target)
    requires RowOk(job, st.files, st.nextId) && job.leaseToken == NONE
    ensures var b := st.(jobs := st.jobs[st.nextId := job], nextId := st.nextId + 1);
      RowsOk(b) && KeysUnique(b) && TokensUnique(b)
  {
    var b := st.(jobs := st.jobs[st.nextId := job], nextId := st.nextId + 1);
    forall k | k in b.jobs ensures 0 < k < b.nextId && RowOk(b.jobs[k], b.files, b.nextId) {
      if k in st.jobs { assert RowOk(st.jobs[k], st.files, st.nextId); }
    }
  }

  lemma NewRowFollows(st: Store, job: Job)
    requires StoreInv(st) && job.leaseToken == NONE && job.messageId == NONE
    ensures var b := st.(jobs := st.jobs[st.nextId := job], nextId := st.nextId + 1);
      MessagesOk(b) && ControlsOk(b) && Follows(st, b)
  {
    assert st.nextId !in st.jobs;
  }

  lemma SpentIdKeeps(st: Store)
    requires StoreInv(st)
    ensures var b := st.(nextId := st.nextId + 1); StoreInv(b) && Follows(st, b)
  {
    var b := st.(nextId := st.nextId + 1);
    forall k | k in b.jobs ensures 0 < k < b.nextId && RowOk(b.jobs[k], b.files, b.nextId) {
      assert RowOk(st.jobs[k], st.files, st.nextId);
    }
  }

  lemma EnqueueKeeps(st: Store, source: nat, target: nat, payload: string, now: int)
    requires StoreInv(st) && payload != ""
    ensures StoreInv(Enqueue(st, source, target, payload, now))
    ensures Follows(st, Enqueue(st, source, target, payload, now))
  {
    if HasJobFor(st, source, target) {
      SpentIdKeeps(st);
    } else {
      var job := Job(source, target, payload, Queued, 0, now, NONE, None, NONE, NoError, now, 0, 0);
      NewRowKeeps(st, job);
      NewRowFollows(st, job);
    }
  }

  lemma ClaimKeeps(st: Store, id: Id, now: int)
    requires StoreInv(st)
    ensures StoreInv(Claim(st, id, now)) && Follows(st, Claim(st, id, now))
  {
    if id in st.jobs && Claimable(st.jobs[id], now) {
      assert RowOk(st.jobs[id], st.files, st.nextId);
      RowStepKeeps(st, Claim(st, id, now), id);
    }
  }

  lemma InsertOnceKeeps(st: Store, id: Id, token: Id, now: int)
    requires StoreInv(st) && token != NONE
    ensures StoreInv(InsertOnce(st, id, token, now)) && Follows(st, InsertOnce(st, id, token, now))
  {
    if Holds(st, id, token) {
      assert RowOk(st.jobs[id], st.files, st.nextId);
      assert st.nextId !in st.messages;
      RowStepKeeps(st, InsertOnce(st, id, token, now), id);
    }
  }

  lemma MarkDeliveredKeeps(st: Store, id: Id, token: Id, now: int)
    requires StoreInv(st) && token != NONE
    requires Holds(st, id, token) ==> st.jobs[id].messageId != NONE && st.jobs[id].messageId in st.files
    ensures StoreInv(MarkDelivered(st, id, token, now)) && Follows(st, MarkDelivered(st, id, token, now))
  {
    if Holds(st, id, token) {
      assert RowOk(st.jobs[id], st.files, st.nextId);
      RowStepKeeps(st, MarkDelivered(st, id, token, now), id);
    }
  }

  lemma DeferKeeps(st: Store, id: Id, token: Id, attempts: nat, quota: bool, now: int)
    requires StoreInv(st) && token != NONE
    requires Holds(st, id, token) ==> st.jobs[id].attempts == attempts
    ensures StoreInv(Defer(st, id, token, attempts, quota, now))
    ensures Follows(st, Defer(st, id, token, attempts, quota, now))
  {
    if Holds(st, id, token) {
      assert RowOk(st.jobs[id], st.files, st.nextId);
      RowStepKeeps(st, Defer(st, id, token, attempts, quota, now), id);
    }
  }

  lemma PurgeKeeps(st: Store, cutoff: int)
    requires StoreInv(st)
    ensures StoreInv(Purge(st, cutoff)) && Follows(st, Purge(st, cutoff))
  {
    FewerRowsOk(st, Purge(st, cutoff));
    FewerRowsFollow(st, Purge(st, cutoff));
  }

  ghost predicate FewerRows(a: Store, b: Store) {
    b.(jobs := a.jobs) == a && forall id :: id in b.jobs ==> id in a.jobs && b.jobs[id] == a.jobs[id]
  }

  lemma FewerRowsOk(a: Store, b: Store)
    requires RowsOk(a) && KeysUnique(a) && TokensUnique(a) && FewerRows(a, b)
    ensures RowsOk(b) && KeysUnique(b) && TokensUnique(b)
  {
    forall id | id in b.jobs ensures RowOk(b.jobs[id], b.files, b.nextId) {
      assert RowOk(a.jobs[id], a.files, a.nextId);
    }
  }

  lemma FewerRowsFollow(a: Store, b: Store)
    requires MessagesOk(a) && ControlsOk(a) && FewerRows(a, b)
    ensures MessagesOk(b) && ControlsOk(b) && Follows(a, b)
  {
  }

  // ---------------------------------------------------------------- whole system

  lemma WorkerKeeps(a: Store, b: Store, w: Worker)
    requires RowsOk(a) && WorkerOk(a, w) && Follows(a, b)
    ensures WorkerOk(b, w)
  {
  }

  /** No other worker has that token. */
  ghost predicate TokenIsOwn(s: System, w: nat, token: Id) {
    forall v :: v in s.workers && v != w && HasToken(s.workers[v]) ==> s.workers[v].token != token
  }

  /** A step by worker `w` that leaves it as `worker` keeps the rest of the system well. */
  lemma PutKeeps(s: System, st: Store, w: nat, worker: Worker)
    requires Inv(s) && StoreInv(st) && Follows(s.store, st) && WorkerOk(st, worker)
    requires worker.Finished? ==> forall v :: v in s.workers && s.workers[v].Finished? ==> s.workers[v].id != worker.id
    requires HasToken(worker) ==> TokenIsOwn(s, w, worker.token)
    ensures Inv(Put(s, st, w, worker))
  {
    forall v | v in s.workers ensures WorkerOk(st, s.workers[v]) {
      WorkerKeeps(s.store, st, s.workers[v]);
    }
  }

  lemma NextKeeps(s: System, step: Step)
    requires Inv(s)
    ensures Inv(Next(s, step)) && (step.StepControls? || Follows(s.store, Next(s, step).store))
  {
    match step
    case StepEnqueue(_, _, _, _) => StoreStepKeeps(s, step);
    case StepPurge(_) => StoreStepKeeps(s, step);
    case StepCrash(w) => PutKeeps(s, s.store, w, Idle);
    case StepClaim(w, id, now) => ClaimStepKeeps(s, w, id, now);
    case StepLoad(w) => LocalStepKeeps(s, step, w, WorkerAt(Next(s, step), w));
    case StepError(w, _) => LocalStepKeeps(s, step, w, WorkerAt(Next(s, step), w));
    case StepReadAttempts(w) => LocalStepKeeps(s, step, w, WorkerAt(Next(s, step), w));
    case StepTransact(w, t, acknowledged) => TransactStepKeeps(s, w, t, acknowledged);
    case StepWriteFile(w, recorded) => WriteFileStepKeeps(s, w, recorded);
    case StepFinish(w, t) => FinishStepKeeps(s, w, t);
    case StepControls(w) => ControlsStepKeeps(s, w);
    case StepDefer(w) => DeferStepKeeps(s, w);
  }

  lemma StoreStepKeeps(s: System, step: Step)
    requires Inv(s) && (step.StepEnqueue? || step.StepPurge?)
    ensures Inv(Next(s, step)) && Follows(s.store, Next(s, step).store)
  {
    match step
    case StepEnqueue(source, target, payload, now) =>
      if payload != "" {
        EnqueueKeeps(s.store, source, target, payload, now);
        StoreMovesKeep(s, Enqueue(s.store, source, target, payload, now));
      }
    case StepPurge(cutoff) =>
      PurgeKeeps(s.store, cutoff);
      StoreMovesKeep(s, Purge(s.store, cutoff));
  }

  lemma DeferStepKeeps(s: System, w: nat)
    requires Inv(s)
    ensures Inv(Next(s, StepDefer(w))) && Follows(s.store, Next(s, StepDefer(w)).store)
  {
    var worker := WorkerAt(s, w);
    if worker.Deferring? {
      assert WorkerOk(s.store, worker);
      DeferredKeeps(s, w, worker);
    }
  }

  lemma DeferredKeeps(s: System, w: nat, worker: Worker)
    requires Inv(s) && worker.Deferring? && WorkerOk(s.store, worker)
    ensures var b := Defer(s.store, worker.id, worker.token, worker.attempts, worker.quota, worker.now);
      Inv(Put(s, b, w, Idle)) && Follows(s.store, b)
  {
    DeferKeeps(s.store, worker.id, worker.token, worker.attempts, worker.quota, worker.now);
    PutKeeps(s, Defer(s.store, worker.id, worker.token, worker.attempts, worker.quota, worker.now), w, Idle);
  }

  lemma StoreMovesKeep(s: System, st: Store)
    requires Inv(s) && StoreInv(st) && Follows(s.store, st)
    ensures Inv(s.(store := st))
  {
    forall v | v in s.workers ensures WorkerOk(st, s.workers[v]) {
      WorkerKeeps(s.store, st, s.workers[v]);
    }
  }

  lemma ClaimStepKeeps(s: System, w: nat, id: Id, now: int)
    requires Inv(s)
    ensures Inv(Next(s, StepClaim(w, id, now))) && Follows(s.store, Next(s, StepClaim(w, id, now)).store)
  {
    if WorkerAt(s, w) == Idle {
      var st := s.store;
      var b := Claim(st, id, now);
      ClaimKeeps(st, id, now);
      if id in st.jobs && Claimable(st.jobs[id], now) {
        assert forall k :: k in st.jobs ==> RowOk(st.jobs[k], st.files, st.nextId);
        assert WorkerOk(b, Holding(id, st.nextId, now));
        PutKeeps(s, b, w, Holding(id, st.nextId, now));
      } else {
        PutKeeps(s, b, w, Idle);
      }
    }
  }

  /** A worker that has taken note of something, or seen an error, and changed no row. */
  ghost predicate TookNote(st: Store, before: Worker, after: Worker) {
    && HasToken(before)
    && (|| after == Idle
        || after == Loaded(before.id, before.token, before.now)
        || (after.Failing? && after.id == before.id && after.token == before.token)
        || (after.Deferring? && after.id == before.id && after.token == before.token &&
            Holds(st, after.id, after.token) && after.attempts == st.jobs[after.id].attempts))
  }

  lemma LocalStepKeeps(s: System, step: Step, w: nat, after: Worker)
    requires Inv(s) && after == WorkerAt(Next(s, step), w)
    requires step == StepLoad(w) || step == StepReadAttempts(w) || (step.StepError? && step.w == w)
    ensures Inv(Next(s, step)) && Follows(s.store, Next(s, step).store)
  {
    if Next(s, step) != s {
      LocalStepTakesNote(s, step, w, after);
      NoteKeeps(s, w, after);
    }
  }

  lemma LocalStepTakesNote(s: System, step: Step, w: nat, after: Worker)
    requires after == WorkerAt(Next(s, step), w) && Next(s, step) != s
    requires step == StepLoad(w) || step == StepReadAttempts(w) || (step.StepError? && step.w == w)
    ensures TookNote(s.store, WorkerAt(s, w), after) && Next(s, step) == Put(s, s.store, w, after)
  {
  }

  lemma NoteKeeps(s: System, w: nat, after: Worker)
    requires Inv(s) && TookNote(s.store, WorkerAt(s, w), after)
    ensures Inv(Put(s, s.store, w, after)) && Follows(s.store, s.store)
  {
    var before := WorkerAt(s, w);
    assert WorkerOk(s.store, before) && TokenIsOwn(s, w, before.token);
    PutKeeps(s, s.store, w, after);
  }

  lemma StoredIsNamed(a: Store, worker: Worker, t: int)
    requires MessagesOk(a) && worker.Loaded? && Holds(a, worker.id, worker.token)
    requires WorkerOk(InsertOnce(a, worker.id, worker.token, t), worker)
    ensures var b := InsertOnce(a, worker.id, worker.token, t);
      WorkerOk(b, Stored(worker.id, worker.token, worker.now, b.jobs[worker.id].messageId))
  {
  }

  lemma TransactedKeeps(s: System, w: nat, worker: Worker, t: int, st: Store, next: Worker)
    requires Inv(s) && WorkerOk(s.store, worker) && worker.Loaded? && TokenIsOwn(s, w, worker.token)
    requires st == InsertOnce(s.store, worker.id, worker.token, t)
    requires
      || next == Failing(worker.id, worker.token, worker.now, false)
      || (Holds(s.store, worker.id, worker.token) &&
          next == Stored(worker.id, worker.token, worker.now, st.jobs[worker.id].messageId))
    ensures Inv(Put(s, st, w, next)) && Follows(s.store, st)
  {
    InsertOnceKeeps(s.store, worker.id, worker.token, t);
    WorkerKeeps(s.store, st, worker);
    if next.Stored? {
      StoredIsNamed(s.store, worker, t);
    }
    PutKeeps(s, st, w, next);
  }

  lemma TransactStepKeeps(s: System, w: nat, t: int, acknowledged: bool)
    requires Inv(s)
    ensures Inv(Next(s, StepTransact(w, t, acknowledged)))
    ensures Follows(s.store, Next(s, StepTransact(w, t, acknowledged)).store)
  {
    if WorkerAt(s, w).Loaded? {
      var u := Next(s, StepTransact(w, t, acknowledged));
      assert WorkerOk(s.store, s.workers[w]);
      TransactedKeeps(s, w, s.workers[w], t, u.store, u.workers[w]);
    }
  }

  lemma NewFileKeeps(st: Store, message: Id)
    requires StoreInv(st)
    ensures var b := st.(files := st.files + {message}); StoreInv(b) && Follows(st, b)
  {
    var b := st.(files := st.files + {message});
    forall k | k in b.jobs ensures 0 < k < b.nextId && RowOk(b.jobs[k], b.files, b.nextId) {
      assert RowOk(st.jobs[k], st.files, st.nextId);
    }
  }

  lemma WroteFileKeeps(s: System, w: nat, worker: Worker, st: Store, next: Worker)
    requires Inv(s) && WorkerOk(s.store, worker) && worker.Stored? && TokenIsOwn(s, w, worker.token)
    requires st == s.store.(files := s.store.files + {worker.message})
    requires
      || next == Written(worker.id, worker.token, worker.now, worker.message)
      || next == Failing(worker.id, worker.token, worker.now, false)
    ensures Inv(Put(s, st, w, next)) && Follows(s.store, st)
  {
    NewFileKeeps(s.store, worker.message);
    WorkerKeeps(s.store, st, worker);
    PutKeeps(s, st, w, next);
  }

  lemma WriteFileStepKeeps(s: System, w: nat, recorded: bool)
    requires Inv(s)
    ensures Inv(Next(s, StepWriteFile(w, recorded))) && Follows(s.store, Next(s, StepWriteFile(w, recorded)).store)
  {
    if WorkerAt(s, w).Stored? {
      var u := Next(s, StepWriteFile(w, recorded));
      assert WorkerOk(s.store, s.workers[w]);
      WroteFileKeeps(s, w, s.workers[w], u.store, u.workers[w]);
    }
  }

  lemma FinishedWorkerKeeps(st: Store, worker: Worker, t: int)
    requires StoreInv(st) && WorkerOk(st, worker) && worker.Written? && Holds(st, worker.id, worker.token)
    ensures var b := MarkDelivered(st, worker.id, worker.token, t);
      StoreInv(b) && Follows(st, b) && WorkerOk(b, Finished(worker.id))
  {
    WrittenIsNamed(st, worker);
    MarkDeliveredKeeps(st, worker.id, worker.token, t);
    DeliveredIsFinished(st, worker.id, worker.token, t);
  }

  lemma WrittenIsNamed(st: Store, worker: Worker)
    requires MessagesOk(st) && WorkerOk(st, worker) && worker.Written? && Holds(st, worker.id, worker.token)
    ensures st.jobs[worker.id].messageId == worker.message && worker.message != NONE && worker.message in st.files
  {
  }

  lemma DeliveredIsFinished(st: Store, id: Id, token: Id, t: int)
    requires RowsOk(st) && ControlsOk(st) && Holds(st, id, token) && token != NONE
    ensures WorkerOk(MarkDelivered(st, id, token, t), Finished(id))
  {
    assert RowOk(st.jobs[id], st.files, st.nextId);
    assert st.jobs[id].status == Sending;
  }

  lemma FinishPutKeeps(s: System, w: nat, worker: Worker, t: int)
    requires Inv(s) && WorkerOk(s.store, worker) && worker.Written? && Holds(s.store, worker.id, worker.token)
    ensures var b := MarkDelivered(s.store, worker.id, worker.token, t);
      Inv(Put(s, b, w, Finished(worker.id))) && Follows(s.store, b)
  {
    FinishedWorkerKeeps(s.store, worker, t);
    SendingIsNotFinished(s, worker);
    PutKeeps(s, MarkDelivered(s.store, worker.id, worker.token, t), w, Finished(worker.id));
  }

  lemma FinishStepKeeps(s: System, w: nat, t: int)
    requires Inv(s)
    ensures Inv(Next(s, StepFinish(w, t))) && Follows(s.store, Next(s, StepFinish(w, t)).store)
  {
    var worker := WorkerAt(s, w);
    if worker.Written? {
      if Holds(s.store, worker.id, worker.token) {
        FinishPutKeeps(s, w, worker, t);
      } else {
        PutKeeps(s, s.store, w, Idle);
      }
    }
  }

  /** While someone holds the lease, nobody has finished the job. */
  lemma SendingIsNotFinished(s: System, worker: Worker)
    requires Inv(s) && HasToken(worker) && WorkerOk(s.store, worker) && Holds(s.store, worker.id, worker.token)
    ensures forall v :: v in s.workers && s.workers[v].Finished? ==> s.workers[v].id != worker.id
  {
    assert RowOk(s.store.jobs[worker.id], s.store.files, s.store.nextId);
    forall v | v in s.workers && s.workers[v].Finished? ensures s.workers[v].id != worker.id {
      assert WorkerOk(s.store, s.workers[v]);
    }
  }

  lemma ControlledKeeps(s: System, w: nat, st: Store)
    requires Inv(s) && w in s.workers && s.workers[w].Finished?
    requires st == s.store.(controls := s.store.controls + [s.workers[w].id])
    ensures StoreInv(st) && forall v :: v in s.workers && v != w ==> WorkerOk(st, s.workers[v])
  {
    assert WorkerOk(s.store, s.workers[w]);
    assert ControlsOk(st);
    forall v | v in s.workers && v != w ensures WorkerOk(st, s.workers[v]) {
      assert WorkerOk(s.store, s.workers[v]);
    }
  }

  lemma IdleStaysApart(workers: map<nat, Worker>, w: nat)
    requires FinishedApart(workers) && TokensApart(workers)
    ensures FinishedApart(workers[w := Idle]) && TokensApart(workers[w := Idle])
  {
  }

  lemma ControlsStepKeeps(s: System, w: nat)
    requires Inv(s)
    ensures Inv(Next(s, StepControls(w)))
  {
    if WorkerAt(s, w).Finished? {
      var st := s.store.(controls := s.store.controls + [WorkerAt(s, w).id]);
      ControlledKeeps(s, w, st);
      IdleStaysApart(s.workers, w);
      assert Next(s, StepControls(w)) == Put(s, st, w, Idle);
    }
  }

  // ---------------------------------------------------------------- main results

  lemma {:induction false} RunKeeps(s: System, steps: seq<Step>)
    requires Inv(s)
    ensures Inv(Run(s, steps))
    decreases |steps|
  {
    if steps != [] {
      RunKeeps(s, steps[..|steps| - 1]);
      NextKeeps(Run(s, steps[..|steps| - 1]), steps[|steps| - 1]);
    }
  }

  /** Whatever the interleaving: a job inserts at most one message row, its row carries a
      message id exactly when that row was inserted, and (source, target) names one row. */
  lemma OneMessagePerJob(steps: seq<Step>)
    ensures var st := Run(START, steps).store;
      && (forall m, n | m in st.messages && n in st.messages :: st.messages[m] == st.messages[n] ==> m == n)
      && (forall id | id in st.jobs ::
            if st.jobs[id].messageId == NONE then id !in st.messages.Values
            else st.jobs[id].messageId in st.messages && st.messages[st.jobs[id].messageId] == id)
      && KeysUnique(st)
  {
    RunKeeps(START, steps);
  }

  /** Inbound controls are applied at most once per job, and never before it is delivered. */
  lemma ControlsAtMostOnce(steps: seq<Step>)
    ensures var st := Run(START, steps).store;
      && (forall i, j | 0 <= i < j < |st.controls| :: st.controls[i] != st.controls[j])
      && (forall id | id in st.controls && id in st.jobs :: st.jobs[id].status == Delivered)
  {
    RunKeeps(START, steps);
  }

  /** Claimable rows still hold their payload and terminal rows never do; a delivered row
      has its message and that message's Maildir file; a row fails only after its eighth
      claim, and is claimed at most eight times more than claims were superseded. */
  lemma RowsInEveryRun(steps: seq<Step>, id: Id)
    requires id in Run(START, steps).store.jobs
    ensures var st := Run(START, steps).store;
      var job := st.jobs[id];
      && (Terminal(job) <==> job.payload == "")
      && (forall now :: Claimable(job, now) ==> job.payload != "")
      && (job.status == Delivered ==>
            job.messageId in st.messages && st.messages[job.messageId] == id && job.messageId in st.files)
      && (job.status == Failed ==> job.attempts >= 8)
      && job.attempts <= 8 + job.takeovers
  {
    RunKeeps(START, steps);
    assert RowOk(Run(START, steps).store.jobs[id], Run(START, steps).store.files, Run(START, steps).store.nextId);
  }

  /** A token that is not on its row is not written there any more. */
  lemma NotHeldNext(s: System, step: Step, id: Id, token: Id)
    requires NONE < token < s.store.nextId && !Holds(s.store, id, token)
    ensures token < Next(s, step).store.nextId && !Holds(Next(s, step).store, id, token)
  {
  }

  lemma {:induction false} NotHeldEver(s: System, steps: seq<Step>, id: Id, token: Id)
    requires NONE < token < s.store.nextId && !Holds(s.store, id, token)
    ensures token < Run(s, steps).store.nextId && !Holds(Run(s, steps).store, id, token)
    decreases |steps|
  {
    if steps != [] {
      NotHeldEver(s, steps[..|steps| - 1], id, token);
      NotHeldNext(Run(s, steps[..|steps| - 1]), steps[|steps| - 1], id, token);
    }
  }

  /** The worker that takes a step, if it is a worker's step. */
  predicate IsStepOf(step: Step, w: nat) {
    !step.StepEnqueue? && !step.StepPurge? && step.w == w
  }

  ghost predicate OnlyFilesChange(a: Store, b: Store) {
    a.jobs == b.jobs && a.messages == b.messages && a.controls == b.controls
  }

  lemma PowerlessStep(s: System, step: Step, w: nat)
    requires HasToken(WorkerAt(s, w)) && !Holds(s.store, WorkerAt(s, w).id, WorkerAt(s, w).token) && IsStepOf(step, w)
    ensures OnlyFilesChange(s.store, Next(s, step).store)
  {
  }

  /**
    Once a worker's token is no longer on the row, it never is again, whatever happens; so
    every step that this worker takes under that token, however much later, changes no row,
    inserts no message and triggers no controls.
   */
  lemma SupersededIsPowerless(s: System, w: nat, steps: seq<Step>, step: Step)
    requires Inv(s) && HasToken(WorkerAt(s, w)) && !Holds(s.store, WorkerAt(s, w).id, WorkerAt(s, w).token)
    requires IsStepOf(step, w)
    ensures var worker, later := WorkerAt(s, w), Run(s, steps);
      var after := WorkerAt(later, w);
      && !Holds(later.store, worker.id, worker.token)
      && (HasToken(after) && after.token == worker.token && after.id == worker.id ==>
            OnlyFilesChange(later.store, Next(later, step).store))
  {
    var worker, later := WorkerAt(s, w), Run(s, steps);
    NotHeldEver(s, steps, worker.id, worker.token);
    var after := WorkerAt(later, w);
    if HasToken(after) && after.token == worker.token && after.id == worker.id {
      PowerlessStep(later, step, w);
    }
  }

  /** `b` comes later than `a`: recorded message ids and inserted messages stay, terminal
      rows are frozen until they are purged, and a purged row never comes back. */
  ghost predicate Later(a: Store, b: Store) {
    && a.nextId <= b.nextId
    && (forall m :: m in a.messages ==> m in b.messages && b.messages[m] == a.messages[m])
    && (forall id :: id in b.jobs && id < a.nextId ==> id in a.jobs && RowLater(a.jobs[id], b.jobs[id]))
  }

  ghost predicate RowLater(a: Job, b: Job) {
    && (a.messageId != NONE ==> b.messageId == a.messageId)
    && (Terminal(a) ==> b == a)
    && a.source == b.source && a.target == b.target
    && (Terminal(b) || b.payload == a.payload)
    && a.attempts <= b.attempts
  }

  lemma NextIsLater(s: System, step: Step)
    requires Inv(s)
    ensures Later(s.store, Next(s, step).store)
  {
    NextKeeps(s, step);
    if step.StepControls? {
      var worker := WorkerAt(s, step.w);
      assert Next(s, step).store == s.store.(controls := Next(s, step).store.controls);
    } else {
      FollowsIsLater(s.store, Next(s, step).store);
    }
  }

  lemma FollowsIsLater(a: Store, b: Store)
    requires Follows(a, b)
    ensures Later(a, b)
  {
  }

  lemma LaterTransitive(a: Store, b: Store, c: Store)
    requires Later(a, b) && Later(b, c)
    ensures Later(a, c)
  {
  }

  /** Whatever happens next, the later store only extends the earlier one. */
  lemma {:induction false} RunIsLater(s: System, steps: seq<Step>)
    requires Inv(s)
    ensures Later(s.store, Run(s, steps).store)
    decreases |steps|
  {
    if steps != [] {
      var before := Run(s, steps[..|steps| - 1]);
      RunIsLater(s, steps[..|steps| - 1]);
      RunKeeps(s, steps[..|steps| - 1]);
      NextIsLater(before, steps[|steps| - 1]);
      LaterTransitive(s.store, before.store, Run(s, steps).store);
    }
  }
}

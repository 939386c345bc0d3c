/**
  Drawing a UID outside a transaction: the counters are read, written back and used in three
  separate statements, with other draws and whole operations in between.
 */
module ImapInterleaved {
  import opened Common
  import opened ImapAllocator

  /** Where a worker stands: it has read a folder's counters, or has written them and holds a UID. */
  datatype Phase =
    | HasRead(folder: Id, read: Folder)
    | HasDrawn(folder: Id, uid: int, modSeq: int)

  datatype System = System(store: State, workers: map<nat, Phase>)

  datatype Step =
    | Read(w: nat, folder: Id)
    | Write(w: nat)
    | Put(w: nat, id: Id)
    | Quit(w: nat)
    | Whole(op: Op)

  /** The write stores one more than was read, whatever is there now. */
  function Written(s: State, f: Id, read: Folder): State
    requires f in s.folders
  {
    LateWrite(s, f, read).(issued := s.issued + [Issue(f, read.uidNext)])
  }

  predicate Taken(s: State, f: Id, uid: int) {
    exists id :: id in s.messages && s.messages[id].folder == f && s.messages[id].uid == uid
  }

  function Next(s: System, step: Step): System {
    match step
    case Read(w, f) =>
      if w in s.workers || f !in s.store.folders then s
      else s.(workers := s.workers[w := HasRead(f, s.store.folders[f])])
    case Write(w) =>
      if w !in s.workers || !s.workers[w].HasRead? then s
      else
        var f, read := s.workers[w].folder, s.workers[w].read;
        if f !in s.store.folders then s.(workers := s.workers - {w})
        else System(Written(s.store, f, read), s.workers[w := HasDrawn(f, read.uidNext, NextModSeq(read.highest))])
    case Put(w, id) =>
      if w !in s.workers || !s.workers[w].HasDrawn? then s
      else
        var d := s.workers[w];
        // A folder that is gone, or a UID that is taken, makes the statement fail.
        if d.folder !in s.store.folders || Taken(s.store, d.folder, d.uid) then s.(workers := s.workers - {w})
        else
          System(
            s.store.(messages := s.store.messages[id := Message(d.folder, d.uid, d.modSeq)]),
            s.workers - {w})
    case Quit(w) => s.(workers := s.workers - {w})
    case Whole(op) => s.(store := Apply(s.store, op))
  }

  function Run(s: System, steps: seq<Step>): System {
    if steps == [] then s else Next(Run(s, steps[..|steps| - 1]), steps[|steps| - 1])
  }

  lemma RunLast(s: System, init: seq<Step>, step: Step, steps: seq<Step>)
    requires steps == init + [step]
    ensures Run(s, steps) == Next(Run(s, init), step)
  {
    assert steps[..|steps| - 1] == init;
  }

  lemma WrittenIsDrawn(s: State, f: Id, id: Id)
    requires Sound(s) && f in s.folders
    ensures var now := s.folders[f]; var t := Written(s, f, now);
      && t.(messages := t.messages[id := Message(f, now.uidNext, NextModSeq(now.highest))]) == Place(s, id, f)
      && !Taken(t, f, now.uidNext)
  {
    assert CountersOk(s.folders[f]);
    assert forall m :: m in s.messages ==> MessageOk(s, s.messages[m]);
  }

  lemma WriteThenPut(s: System, w: nat, f: Id, id: Id)
    requires Sound(s.store) && f in s.store.folders && w in s.workers && s.workers[w] == HasRead(f, s.store.folders[f])
    ensures Next(Next(s, Write(w)), Put(w, id)) == System(Place(s.store, id, f), s.workers - {w})
  {
    WrittenIsDrawn(s.store, f, id);
  }

  /** The three statements in a row, with nothing between them, are a draw as a whole. */
  lemma DrawInARow(s: System, w: nat, f: Id, id: Id)
    requires Sound(s.store) && w !in s.workers && f in s.store.folders
    ensures Run(s, [Read(w, f), Write(w), Put(w, id)]) == System(Place(s.store, id, f), s.workers)
  {
    var a := Next(s, Read(w, f));
    WriteThenPut(a, w, f, id);
    assert a.workers - {w} == s.workers;
    RunLast(s, [], Read(w, f), [Read(w, f)]);
    RunLast(s, [Read(w, f)], Write(w), [Read(w, f), Write(w)]);
    RunLast(s, [Read(w, f), Write(w)], Put(w, id), [Read(w, f), Write(w), Put(w, id)]);
  }

  /** A drawn UID is stored unless its folder has gone, or another message of the folder has it by now. */
  lemma PutOutcome(s: System, w: nat, id: Id)
    requires w in s.workers && s.workers[w].HasDrawn?
    ensures var d, t := s.workers[w], Next(s, Put(w, id));
      var others := set m | m in s.store.messages && s.store.messages[m].folder == d.folder;
      var refused := d.folder !in s.store.folders || exists m :: m in others && s.store.messages[m].uid == d.uid;
      && w !in t.workers && t.store.folders == s.store.folders && t.store.issued == s.store.issued
      && t.store.messages == if refused then s.store.messages
        else s.store.messages[id := Message(d.folder, d.uid, d.modSeq)]
  {
  }

  // ---------------------------------------------------------------- what whole operations do

  /** Every UID a counter passes has been handed out, and messages only take UIDs never handed out before. */
  ghost predicate Steady(a: State, b: State) {
    && Advances(a, b)
    && (forall f, u :: f in a.folders && f in b.folders && a.folders[f].uidNext <= u < b.folders[f].uidNext ==>
        Issue(f, u) in b.issued)
    && (forall id :: id in b.messages ==> KeepsOrNew(a, b, id))
  }

  predicate KeepsOrNew(a: State, b: State, id: Id)
    requires id in b.messages
  {
    var m := b.messages[id];
    || (id in a.messages && a.messages[id].folder == m.folder && a.messages[id].uid == m.uid)
    || m.folder == ""
    || Issue(m.folder, m.uid) !in a.issued
  }

  lemma IssuedStays(a: State, b: State, i: Issue)
    requires Advances(a, b) && i in a.issued
    ensures i in b.issued
  {
    var k :| 0 <= k < |a.issued| && a.issued[k] == i;
    assert b.issued[..|a.issued|][k] == b.issued[k];
  }

  lemma SteadyTrans(a: State, b: State, c: State)
    requires Steady(a, b) && Steady(b, c)
    requires forall f :: f in a.folders && f in c.folders ==> f in b.folders
    ensures Steady(a, c)
  {
    AdvancesTrans(a, b, c);
    forall f, u | f in a.folders && f in c.folders && a.folders[f].uidNext <= u < c.folders[f].uidNext
      ensures Issue(f, u) in c.issued
    {
      if u < b.folders[f].uidNext {
        IssuedStays(b, c, Issue(f, u));
      }
    }
    forall id | id in c.messages ensures KeepsOrNew(a, c, id) {
      if id in b.messages && b.messages[id].folder == c.messages[id].folder
        && b.messages[id].uid == c.messages[id].uid {
        assert KeepsOrNew(a, b, id);
      } else if c.messages[id].folder != "" && Issue(c.messages[id].folder, c.messages[id].uid) in a.issued {
        IssuedStays(a, b, Issue(c.messages[id].folder, c.messages[id].uid));
      }
    }
  }

  /** Rows and counters other than UIDs may change. */
  lemma SameUidsSteady(a: State, b: State)
    requires Advances(a, b)
    requires forall f :: f in a.folders && f in b.folders ==> a.folders[f].uidNext == b.folders[f].uidNext
    requires forall id :: id in b.messages ==>
      id in a.messages && a.messages[id].folder == b.messages[id].folder && a.messages[id].uid == b.messages[id].uid
    ensures Steady(a, b)
  {
  }

  lemma BumpSteady(s: State, f: Id)
    requires Sound(s)
    ensures Steady(s, Bump(s, f))
  {
    BumpKeeps(s, f);
    SameUidsSteady(s, Bump(s, f));
  }

  lemma PlaceSteady(s: State, id: Id, f: Id)
    requires Sound(s) && f in s.folders && s.folders[f].uidNext < MAX_INT64
    ensures Steady(s, Place(s, id, f))
  {
    var t := Place(s, id, f);
    PlaceKeeps(s, id, f);
    DrawCounters(s, f);
    DrawnIsNew(s, f);
    assert t.issued[|s.issued|] == Issue(f, s.folders[f].uidNext);
  }

  lemma {:induction false} PlaceAllSteady(s: State, ids: seq<Id>, f: Id)
    requires Sound(s) && f in s.folders && s.folders[f].uidNext + |ids| <= MAX_INT64
    requires forall id :: id in ids ==> id in s.messages
    ensures Steady(s, PlaceAll(s, ids, f))
  {
    if ids == [] {
      SameUidsSteady(s, s);
    } else {
      var init, last := ids[..|ids| - 1], ids[|ids| - 1];
      assert forall id :: id in init ==> id in ids;
      PlaceAllKeeps(s, init, f);
      PlaceAllSteady(s, init, f);
      PlaceSteady(PlaceAll(s, init, f), last, f);
      SteadyTrans(s, PlaceAll(s, init, f), PlaceAll(s, ids, f));
    }
  }

  lemma BumpPlaceSteady(s: State, source: Id, bump: bool, id: Id, target: Id)
    requires Sound(s) && HasRoom(s, target, 1)
    ensures var t := if bump then Bump(s, source) else s;
      var u := if target in t.folders then Place(t, id, target) else t;
      Steady(s, t) && Steady(s, u)
  {
    var t := if bump then Bump(s, source) else s;
    SameUidsSteady(s, s);
    BumpSteady(s, source);
    BumpKeeps(s, source);
    if target in t.folders {
      PlaceSteady(t, id, target);
      SteadyTrans(s, t, Place(t, id, target));
    }
  }

  lemma TouchSteady(s: State, id: Id, f: Id)
    requires Sound(s) && (id in s.messages ==> f == "" || f == s.messages[id].folder)
    ensures Steady(s, Touch(s, id, f))
  {
    OwnTouchKeeps(s, id, f);
    TouchLeavesUids(s, id, f);
    TouchLeavesRows(s, id, f);
    SameUidsSteady(s, Touch(s, id, f));
  }

  lemma TouchLeavesUids(s: State, id: Id, f: Id)
    ensures var t := Touch(s, id, f);
      t.folders.Keys == s.folders.Keys && forall g :: g in s.folders ==> t.folders[g].uidNext == s.folders[g].uidNext
  {
  }

  lemma TouchLeavesRows(s: State, id: Id, f: Id)
    ensures var t := Touch(s, id, f).messages;
      && t.Keys == s.messages.Keys
      && forall j :: j in t ==> t[j] == s.messages[j].(modSeq := t[j].modSeq)
  {
  }

  lemma InsertSteady(s: State, id: Id, f: Id)
    requires Sound(s) && HasRoom(s, f, 1)
    ensures Steady(s, Insert(s, id, f))
  {
    SameUidsSteady(s, s);
    if id !in s.messages && f in s.folders {
      PlaceSteady(s, id, f);
    } else {
      InsertKeeps(s, id, f);
    }
  }

  lemma RewriteSteady(s: State, id: Id, folder: Id, updateFolder: bool, env: Maildir)
    requires Sound(s) && (id in s.messages ==> updateFolder || folder == "" || folder == s.messages[id].folder)
    requires id in s.messages ==> HasRoom(s, if folder == "" then s.messages[id].folder else folder, 1)
    ensures Steady(s, Rewrite(s, id, folder, updateFolder, env))
  {
    SameUidsSteady(s, s);
    if env.root && id in s.messages {
      var own := s.messages[id].folder;
      var here := if folder == "" then own else folder;
      BumpPlaceSteady(s, own, folder != "" && updateFolder && own != "" && own != here, id, here);
      if folder == "" || !updateFolder {
        TouchSteady(s, id, here);
      }
    }
  }

  lemma MoveSteady(s: State, id: Id, target: Id, env: Maildir)
    requires Sound(s) && HasRoom(s, target, 1) && target != ""
    ensures Steady(s, MoveMaildir(s, id, target, env))
  {
    SameUidsSteady(s, s);
    if id in s.messages {
      var own := s.messages[id].folder;
      if env.root && env.file != Present {
        RewriteSteady(s, id, target, true, env);
      }
      BumpPlaceSteady(s, own, !env.root && own != "" && own != target, id, target);
    }
  }

  lemma ReconcileSteady(s: State, id: Id, folder: Id, samePath: bool, flagsDiffer: bool)
    requires Sound(s) && HasRoom(s, folder, 1)
    ensures Steady(s, Reconcile(s, id, folder, samePath, flagsDiffer))
  {
    SameUidsSteady(s, s);
    if id in s.messages {
      var own := s.messages[id].folder;
      if samePath && own == folder {
        TouchSteady(s, id, folder);
      } else {
        BumpPlaceSteady(s, own, own != "" && own != folder, id, folder);
      }
    }
  }

  lemma DeleteFolderSteady(s: State, f: Id, inbox: Id, ids: seq<Id>)
    requires Sound(s) && Lists(ids, s, In(f)) && HasRoom(s, inbox, |ids|)
    ensures Steady(s, DeleteFolder(s, f, inbox, ids))
  {
    SameUidsSteady(s, s);
    if f in s.folders && inbox in s.folders && f != inbox {
      PlaceAllKeeps(s, ids, inbox);
      PlaceAllSteady(s, ids, inbox);
      var t := PlaceAll(s, ids, inbox);
      var u := t.(folders := t.folders - {f});
      SameUidsSteady(t, u);
      SteadyTrans(s, t, u);
      DeleteFolderEmpties(s, f, inbox, ids);
      BumpSteady(u, inbox);
      BumpKeeps(u, inbox);
      SteadyTrans(s, u, Bump(u, inbox));
    }
  }

  lemma RemoveSteady(s: State, id: Id)
    requires Sound(s)
    ensures Steady(s, Remove(s, id))
  {
    RemoveKeeps(s, id);
    SameUidsSteady(s, Remove(s, id));
  }

  lemma CreateSteady(s: State, f: Id)
    requires Sound(s) && NeverUsed(s, f)
    ensures Steady(s, CreateFolder(s, f))
  {
    CreateFolderKeeps(s, f);
    SameUidsSteady(s, CreateFolder(s, f));
  }

  lemma OpSteady(s: State, op: Op)
    requires Sound(s) && Allowed(s, op)
    ensures Steady(s, Apply(s, op)) && Sound(Apply(s, op))
  {
    StepKeeps(s, op);
    match op
    case DoInsert(id, f) => InsertSteady(s, id, f);
    case DoMove(id, f, env) => MoveSteady(s, id, f, env);
    case DoRewrite(id, env) => RewriteSteady(s, id, "", false, env);
    case DoReconcile(id, f, samePath, flagsDiffer) => ReconcileSteady(s, id, f, samePath, flagsDiffer);
    case DoTouch(id, f) => TouchSteady(s, id, f);
    case DoBump(f) => BumpSteady(s, f);
    case DoRemove(id) => RemoveSteady(s, id);
    case DoCreate(f) => CreateSteady(s, f);
    case DoDelete(f, inbox, ids) => DeleteFolderSteady(s, f, inbox, ids);
    case DoBackfill(f, ids) =>
      if f in s.folders {
        PlaceAllSteady(s, ids, f);
      } else {
        SameUidsSteady(s, s);
      }
  }

  // ---------------------------------------------------------------- histories only grow

  /** The history grows, and no folder comes. */
  ghost predicate Grows(a: State, b: State) {
    a.issued <= b.issued && b.folders.Keys <= a.folders.Keys
  }

  lemma PlaceGrows(s: State, id: Id, f: Id)
    requires f in s.folders
    ensures Grows(s, Place(s, id, f)) && f in Place(s, id, f).folders
  {
  }

  lemma {:induction false} PlaceAllGrows(s: State, ids: seq<Id>, f: Id)
    requires f in s.folders
    ensures Grows(s, PlaceAll(s, ids, f)) && f in PlaceAll(s, ids, f).folders
  {
    if ids != [] {
      PlaceAllGrows(s, ids[..|ids| - 1], f);
      PlaceGrows(PlaceAll(s, ids[..|ids| - 1], f), ids[|ids| - 1], f);
    }
  }

  lemma BumpPlaceGrows(s: State, source: Id, bump: bool, id: Id, target: Id)
    ensures var t := if bump then Bump(s, source) else s;
      Grows(s, t) && Grows(s, if target in t.folders then Place(t, id, target) else t)
  {
    var t := if bump then Bump(s, source) else s;
    assert t.issued == s.issued && t.folders.Keys == s.folders.Keys;
    if target in t.folders {
      PlaceGrows(t, id, target);
    }
  }

  lemma TouchGrows(s: State, id: Id, f: Id)
    ensures Grows(s, Touch(s, id, f))
  {
    TouchLeavesUids(s, id, f);
  }

  lemma RewriteGrows(s: State, id: Id, folder: Id, updateFolder: bool, env: Maildir)
    ensures Grows(s, Rewrite(s, id, folder, updateFolder, env))
  {
    if env.root && id in s.messages {
      var own := s.messages[id].folder;
      var here := if folder == "" then own else folder;
      var bump := folder != "" && updateFolder && own != "" && own != here;
      BumpPlaceGrows(s, own, bump, id, here);
      TouchGrows(if bump then Bump(s, own) else s, id, here);
    }
  }

  lemma MoveGrows(s: State, id: Id, target: Id, env: Maildir)
    ensures Grows(s, MoveMaildir(s, id, target, env))
  {
    if id in s.messages {
      var own := s.messages[id].folder;
      RewriteGrows(s, id, target, true, env);
      BumpPlaceGrows(s, own, !env.root && own != "" && own != target, id, target);
    }
  }

  lemma ReconcileGrows(s: State, id: Id, folder: Id, samePath: bool, flagsDiffer: bool)
    ensures Grows(s, Reconcile(s, id, folder, samePath, flagsDiffer))
  {
    if id in s.messages {
      var own := s.messages[id].folder;
      TouchGrows(s, id, folder);
      BumpPlaceGrows(s, own, own != "" && own != folder, id, folder);
    }
  }

  lemma DeleteGrows(s: State, f: Id, inbox: Id, ids: seq<Id>)
    ensures Grows(s, DeleteFolder(s, f, inbox, ids))
  {
    if f in s.folders && inbox in s.folders && f != inbox {
      PlaceAllGrows(s, ids, inbox);
    }
  }

  /** Only the creation of a folder brings a folder. */
  lemma OpGrows(s: State, op: Op)
    ensures s.issued <= Apply(s, op).issued
    ensures forall f :: f in Apply(s, op).folders && f !in s.folders ==> op.DoCreate? && op.folder == f
  {
    match op
    case DoInsert(id, f) => BumpPlaceGrows(s, "", false, id, f);
    case DoMove(id, f, env) => MoveGrows(s, id, f, env);
    case DoRewrite(id, env) => RewriteGrows(s, id, "", false, env);
    case DoReconcile(id, f, samePath, flagsDiffer) => ReconcileGrows(s, id, f, samePath, flagsDiffer);
    case DoTouch(id, f) => TouchGrows(s, id, f);
    case DoBump(_) =>
    case DoRemove(_) =>
    case DoCreate(_) =>
    case DoDelete(f, inbox, ids) => DeleteGrows(s, f, inbox, ids);
    case DoBackfill(f, ids) =>
      if f in s.folders {
        PlaceAllGrows(s, ids, f);
      }
  }

  lemma NextGrows(s: System, step: Step)
    ensures s.store.issued <= Next(s, step).store.issued
  {
    if step.Whole? {
      OpGrows(s.store, step.op);
    }
  }

  // ---------------------------------------------------------------- what workers hold

  ghost predicate ReadOk(s: State, f: Id, read: Folder) {
    && f != "" && CountersOk(read)
    && (f in s.folders ==>
          && read.uidNext <= s.folders[f].uidNext && read.highest <= s.folders[f].highest
          && forall u :: read.uidNext <= u < s.folders[f].uidNext ==> Issue(f, u) in s.issued)
  }

  ghost predicate DrawnOk(s: State, f: Id, uid: int, modSeq: int) {
    && f != "" && uid > 0 && Issue(f, uid) in s.issued
    && (f in s.folders ==> uid < s.folders[f].uidNext && modSeq <= s.folders[f].highest)
    && forall id :: id in s.messages ==> s.messages[id].folder != f || s.messages[id].uid != uid
  }

  ghost predicate HeldOk(s: State, p: Phase) {
    match p
    case HasRead(f, read) => ReadOk(s, f, read)
    case HasDrawn(f, uid, modSeq) => DrawnOk(s, f, uid, modSeq)
  }

  predicate Different(p: Phase, q: Phase) {
    p.HasDrawn? && q.HasDrawn? && p.folder == q.folder ==> p.uid != q.uid
  }

  ghost predicate Inv(s: System) {
    && Sound(s.store)
    && (forall w :: w in s.workers ==> HeldOk(s.store, s.workers[w]))
    && (forall v, w :: v in s.workers && w in s.workers && v != w ==> Different(s.workers[v], s.workers[w]))
  }

  /** What a worker holds survives whatever is steady, unless its folder is created only now. */
  lemma HeldStays(a: State, b: State, p: Phase)
    requires HeldOk(a, p) && Steady(a, b) && (p.folder in b.folders ==> p.folder in a.folders)
    ensures HeldOk(b, p)
  {
    match p
    case HasRead(f, read) =>
      if f in b.folders {
        forall u | read.uidNext <= u < b.folders[f].uidNext ensures Issue(f, u) in b.issued {
          if u < a.folders[f].uidNext {
            IssuedStays(a, b, Issue(f, u));
          }
        }
      }
    case HasDrawn(f, uid, _) =>
      IssuedStays(a, b, Issue(f, uid));
      forall id | id in b.messages ensures b.messages[id].folder != f || b.messages[id].uid != uid {
        assert KeepsOrNew(a, b, id);
      }
  }

  // ---------------------------------------------------------------- writes in time and late

  /** The counter still shows what the worker read. */
  ghost predicate InTime(s: System, step: Step) {
    step.Write? && step.w in s.workers && s.workers[step.w].HasRead? && s.workers[step.w].folder in s.store.folders ==>
      s.workers[step.w].read.uidNext == s.store.folders[s.workers[step.w].folder].uidNext
  }

  /** Whole operations are the server's own, folder ids are new, and counters have room. */
  ghost predicate Proper(s: System, step: Step) {
    match step
    case Whole(op) =>
      && Allowed(s.store, op)
      && (op.DoCreate? ==> forall w :: w in s.workers ==> s.workers[w].folder != op.folder)
    case Write(w) => w in s.workers && s.workers[w].HasRead? ==> s.workers[w].read.uidNext < MAX_INT64
    case _ => true
  }

  lemma WrittenSteady(s: State, f: Id, read: Folder)
    requires Sound(s) && f in s.folders && ReadOk(s, f, read)
    requires read.uidNext == s.folders[f].uidNext < MAX_INT64
    ensures var t := Written(s, f, read); Sound(t) && Steady(s, t) && Issue(f, read.uidNext) !in s.issued
    ensures Written(s, f, read).folders[f].uidNext == Draw(s, f).state.folders[f].uidNext
  {
    var t := Written(s, f, read);
    assert CountersOk(s.folders[f]) && "" !in s.folders;
    DrawnIsNew(s, f);
    assert t.issued[|s.issued|] == Issue(f, read.uidNext);
    assert Advances(s, t);
    WrittenSound(s, f, read);
  }

  lemma WrittenSound(s: State, f: Id, read: Folder)
    requires Sound(s) && f in s.folders && ReadOk(s, f, read)
    requires read.uidNext == s.folders[f].uidNext < MAX_INT64
    requires Advances(s, Written(s, f, read)) && Issue(f, read.uidNext) !in s.issued
    ensures Sound(Written(s, f, read))
  {
    var t := Written(s, f, read);
    assert CountersOk(s.folders[f]);
    WrittenKeepsRows(s, t);
    assert forall i :: 0 <= i < |s.issued| ==> t.issued[i] == s.issued[i] && s.issued[i] in s.issued;
    assert forall g :: g in t.folders && g != f ==> CountersOk(s.folders[g]);
  }

  lemma WrittenKeepsRows(s: State, t: State)
    requires Sound(s) && Advances(s, t) && t.messages == s.messages && t.folders.Keys == s.folders.Keys
    ensures MessagesOk(t) && UidsDistinct(t)
  {
    forall id | id in t.messages ensures MessageOk(t, t.messages[id]) {
      MessageStays(s, t, s.messages[id]);
    }
  }

  lemma WriteInTimeKeeps(s: System, w: nat)
    requires Inv(s) && Proper(s, Write(w)) && InTime(s, Write(w))
    ensures Inv(Next(s, Write(w))) && Advances(s.store, Next(s, Write(w)).store)
  {
    if w in s.workers && s.workers[w].HasRead? && s.workers[w].folder in s.store.folders {
      assert HeldOk(s.store, s.workers[w]);
      WrittenKeeps(s, w, s.workers[w].folder, s.workers[w].read);
    }
  }

  lemma WrittenKeeps(s: System, w: nat, f: Id, read: Folder)
    requires Inv(s) && w in s.workers && f in s.store.folders && ReadOk(s.store, f, read)
    requires read.uidNext == s.store.folders[f].uidNext < MAX_INT64
    ensures var t := Written(s.store, f, read);
      Advances(s.store, t) && Inv(System(t, s.workers[w := HasDrawn(f, read.uidNext, NextModSeq(read.highest))]))
  {
    var t := Written(s.store, f, read);
    var drawn := HasDrawn(f, read.uidNext, NextModSeq(read.highest));
    WrittenSteady(s.store, f, read);
    NewlyDrawn(s.store, f, read);
    forall v | v in s.workers && v != w ensures HeldOk(t, s.workers[v]) && Different(s.workers[v], drawn) {
      HeldStays(s.store, t, s.workers[v]);
      assert HeldOk(s.store, s.workers[v]);
    }
  }

  lemma NewlyDrawn(s: State, f: Id, read: Folder)
    requires Sound(s) && f in s.folders && ReadOk(s, f, read) && read.uidNext == s.folders[f].uidNext < MAX_INT64
    ensures DrawnOk(Written(s, f, read), f, read.uidNext, NextModSeq(read.highest))
  {
    var t := Written(s, f, read);
    assert t.issued[|s.issued|] == Issue(f, read.uidNext);
    assert CountersOk(s.folders[f]) && "" !in s.folders;
    forall id | id in t.messages && t.messages[id].folder == f ensures t.messages[id].uid != read.uidNext {
      assert MessageOk(s, s.messages[id]);
    }
  }

  /** A late write hands out a UID that was handed out before. */
  lemma LateWriteRepeats(s: System, w: nat)
    requires Inv(s) && !InTime(s, Write(w))
    ensures !NoRepeats(Next(s, Write(w)).store.issued)
  {
    var f, read := s.workers[w].folder, s.workers[w].read;
    assert HeldOk(s.store, s.workers[w]);
    var issue := Issue(f, read.uidNext);
    assert issue in s.store.issued;
    var k :| 0 <= k < |s.store.issued| && s.store.issued[k] == issue;
    var after := Next(s, Write(w)).store.issued;
    assert after == s.store.issued + [issue];
    assert after[k] == after[|s.store.issued|];
  }

  lemma PutKeeps(s: System, w: nat, id: Id)
    requires Inv(s)
    ensures Inv(Next(s, Put(w, id))) && Advances(s.store, Next(s, Put(w, id)).store)
  {
    var t := Next(s, Put(w, id));
    if t.store != s.store {
      var d := s.workers[w];
      assert HeldOk(s.store, d);
      PutKeepsStore(s.store, id, d);
      forall v | v in t.workers ensures HeldOk(t.store, t.workers[v]) {
        assert HeldOk(s.store, s.workers[v]) && Different(s.workers[v], d);
      }
    }
  }

  lemma PutKeepsStore(s: State, id: Id, d: Phase)
    requires Sound(s) && d.HasDrawn? && HeldOk(s, d) && d.folder in s.folders && !Taken(s, d.folder, d.uid)
    ensures Sound(s.(messages := s.messages[id := Message(d.folder, d.uid, d.modSeq)]))
  {
    var t := s.(messages := s.messages[id := Message(d.folder, d.uid, d.modSeq)]);
    forall j | j in t.messages ensures MessageOk(t, t.messages[j]) {
      assert j != id ==> MessageOk(s, s.messages[j]);
    }
    forall i, j | i in t.messages && j in t.messages && i != j ensures Apart(t.messages[i], t.messages[j]) {
      if i != id && j != id {
        assert Apart(s.messages[i], s.messages[j]);
      }
    }
  }

  lemma WholeKeeps(s: System, op: Op)
    requires Inv(s) && Proper(s, Whole(op))
    ensures Inv(Next(s, Whole(op))) && Advances(s.store, Apply(s.store, op))
  {
    OpSteady(s.store, op);
    OpGrows(s.store, op);
    forall w | w in s.workers ensures HeldOk(Apply(s.store, op), s.workers[w]) {
      HeldStays(s.store, Apply(s.store, op), s.workers[w]);
    }
  }

  /** A step keeps all invariants exactly when it is not a late write. */
  lemma NextKeepsIff(s: System, step: Step)
    requires Inv(s) && Proper(s, step)
    ensures Inv(Next(s, step)) <==> InTime(s, step)
    ensures NoRepeats(Next(s, step).store.issued) <==> InTime(s, step)
    ensures InTime(s, step) ==> Advances(s.store, Next(s, step).store)
  {
    match step
    case Write(w) =>
      if InTime(s, step) {
        WriteInTimeKeeps(s, w);
      } else {
        LateWriteRepeats(s, w);
      }
    case Put(w, id) => PutKeeps(s, w, id);
    case Whole(op) => WholeKeeps(s, op);
    case Read(w, f) =>
      if w !in s.workers && f in s.store.folders {
        assert CountersOk(s.store.folders[f]);
      }
    case Quit(_) =>
  }

  // ---------------------------------------------------------------- every run

  ghost predicate AllProper(s: System, steps: seq<Step>) {
    steps != [] ==>
      var init := steps[..|steps| - 1];
      AllProper(s, init) && Proper(Run(s, init), steps[|steps| - 1])
  }

  ghost predicate AllInTime(s: System, steps: seq<Step>) {
    steps != [] ==>
      var init := steps[..|steps| - 1];
      AllInTime(s, init) && InTime(Run(s, init), steps[|steps| - 1])
  }

  /**
    In every run, with draws interleaved in any way: no UID of a folder is handed out twice
    exactly when no write comes late, and then all else holds too: UIDs of a folder's messages
    are distinct and below `uid_next`, and mod-sequences at most the highest.
   */
  lemma {:induction false} RunHandsOutOnceIff(s: System, steps: seq<Step>)
    requires Inv(s) && AllProper(s, steps)
    ensures NoRepeats(Run(s, steps).store.issued) <==> AllInTime(s, steps)
    ensures AllInTime(s, steps) ==> Inv(Run(s, steps))
  {
    if steps != [] {
      var init := steps[..|steps| - 1];
      RunHandsOutOnceIff(s, init);
      if AllInTime(s, init) {
        NextKeepsIff(Run(s, init), steps[|steps| - 1]);
      } else {
        NextGrows(Run(s, init), steps[|steps| - 1]);
        RepeatsStay(Run(s, init).store.issued, Run(s, steps).store.issued);
      }
    }
  }

  lemma RepeatsStay(a: seq<Issue>, b: seq<Issue>)
    requires a <= b && !NoRepeats(a)
    ensures !NoRepeats(b)
  {
    var i, j :| 0 <= i < j < |a| && a[i] == a[j];
    assert b[i] == b[j];
  }

  /** Two workers that read before either writes: the second hands out the first one's UID. */
  lemma TwoReadersShareAUid(s: System, f: Id, v: nat, w: nat)
    requires Inv(s) && f in s.store.folders && s.store.folders[f].uidNext < MAX_INT64
    requires v != w && v !in s.workers && w !in s.workers
    ensures var t := Next(Next(Next(Next(s, Read(v, f)), Read(w, f)), Write(v)), Write(w));
      && t.workers[v].HasDrawn? && t.workers[w].HasDrawn? && t.workers[v].uid == t.workers[w].uid
      && !NoRepeats(t.store.issued)
  {
    var read := s.store.folders[f];
    var a := Next(Next(s, Read(v, f)), Read(w, f));
    var b := Next(a, Write(v));
    var t := Next(b, Write(w));
    assert t.store.issued == s.store.issued + [Issue(f, read.uidNext)] + [Issue(f, read.uidNext)];
    assert t.store.issued[|s.store.issued|] == t.store.issued[|s.store.issued| + 1];
  }
}

/**
  The two counters of a folder, `uid_next` and `highest_modseq`, and the operations that draw
  on them: inserts, moves, flag changes, removals, folder deletions and the backfill of rows
  that never had a UID (section 2.3.1.1 of RFC 3501, section 3.1.2 of RFC 7162).

  Counters are signed 64-bit numbers. A message in no folder has the folder id "".
 */
module ImapAllocator {
  import opened Common

  type Id = string

  const MAX_INT64: int := 0x7FFF_FFFF_FFFF_FFFF

  /** An addition that overflows comes out negative. */
  function Wrap(x: int): int {
    if x > MAX_INT64 then x - 2 * (MAX_INT64 + 1) else x
  }

  datatype Folder = Folder(uidNext: int, highest: int)

  datatype Message = Message(folder: Id, uid: int, modSeq: int)

  /** A UID handed out in a folder, kept for good to say that it is not handed out again. */
  datatype Issue = Issue(folder: Id, uid: int)

  datatype State = State(folders: map<Id, Folder>, messages: map<Id, Message>, issued: seq<Issue>)

  // ---------------------------------------------------------------- what always holds

  predicate CountersOk(f: Folder) {
    1 <= f.uidNext <= MAX_INT64 && 1 <= f.highest <= MAX_INT64
  }

  ghost predicate FoldersOk(s: State) {
    && "" !in s.folders
    && forall f :: f in s.folders ==> CountersOk(s.folders[f])
  }

  predicate MessageOk(s: State, m: Message) {
    m.folder != "" ==>
      && m.folder in s.folders
      && 0 <= m.uid < s.folders[m.folder].uidNext
      && m.modSeq <= s.folders[m.folder].highest
      && (m.uid > 0 ==> Issue(m.folder, m.uid) in s.issued)
  }

  ghost predicate MessagesOk(s: State) {
    forall id :: id in s.messages ==> MessageOk(s, s.messages[id])
  }

  predicate Apart(a: Message, b: Message) {
    a.folder != "" && a.folder == b.folder && a.uid > 0 ==> a.uid != b.uid
  }

  ghost predicate UidsDistinct(s: State) {
    forall i, j :: i in s.messages && j in s.messages && i != j ==> Apart(s.messages[i], s.messages[j])
  }

  ghost predicate IssuedOnce(s: State) {
    && (forall i :: 0 <= i < |s.issued| ==> s.issued[i].folder != "")
    && (forall i :: 0 <= i < |s.issued| && s.issued[i].folder in s.folders ==>
        0 < s.issued[i].uid < s.folders[s.issued[i].folder].uidNext)
    && (forall i, j :: 0 <= i < j < |s.issued| ==> s.issued[i] != s.issued[j])
  }

  ghost predicate Sound(s: State) {
    FoldersOk(s) && MessagesOk(s) && UidsDistinct(s) && IssuedOnce(s)
  }

  /** Counters never go down, and the history of UIDs only grows. */
  ghost predicate Advances(a: State, b: State) {
    && |a.issued| <= |b.issued| && b.issued[..|a.issued|] == a.issued
    && forall f :: f in a.folders && f in b.folders ==>
        a.folders[f].uidNext <= b.folders[f].uidNext && a.folders[f].highest <= b.folders[f].highest
  }

  lemma AdvancesTrans(a: State, b: State, c: State)
    requires Advances(a, b) && Advances(b, c)
    requires forall f :: f in a.folders && f in c.folders ==> f in b.folders
    ensures Advances(a, c)
  {
    assert c.issued[..|a.issued|] == c.issued[..|b.issued|][..|a.issued|];
  }

  // ---------------------------------------------------------------- the two ways to draw

  function NextModSeq(highest: int): int {
    if Wrap(highest + 1) < 1 then 1 else Wrap(highest + 1)
  }

  /** A new UID and mod-sequence in `f`. */
  datatype Drawn = Drawn(state: State, uid: int, modSeq: int)

  function Draw(s: State, f: Id): Drawn
    requires f in s.folders
  {
    var folder := s.folders[f];
    var uid := if folder.uidNext < 1 then 1 else folder.uidNext;
    var modSeq := NextModSeq(folder.highest);
    Drawn(
      State(
        s.folders[f := Folder(Wrap(uid + 1), Max(folder.highest, modSeq))],
        s.messages,
        s.issued + [Issue(f, uid)]),
      uid,
      modSeq)
  }

  /** The next mod-sequence of a folder; it stops short of the largest 64-bit value. */
  function Bumped(highest: int): int {
    var next := Wrap(highest + 1);
    if next < 1 || next == MAX_INT64 then highest else next
  }

  function Bump(s: State, f: Id): State {
    if f !in s.folders then s
    else
      var highest := Max(s.folders[f].highest, Bumped(s.folders[f].highest));
      s.(folders := s.folders[f := s.folders[f].(highest := highest)])
  }

  /** What `bumpFolderModSeq` answers: zero when there is no such folder. */
  function BumpResult(s: State, f: Id): int {
    if f !in s.folders then 0 else Bumped(s.folders[f].highest)
  }

  /** Stores a drawn UID in a message. */
  function Place(s: State, id: Id, f: Id): State
    requires f in s.folders
  {
    var d := Draw(s, f);
    d.state.(messages := d.state.messages[id := Message(f, d.uid, d.modSeq)])
  }

  // ---------------------------------------------------------------- operations

  /** A message is stored; without a folder it has no UID, with an unknown one it is refused. */
  function Insert(s: State, id: Id, f: Id): State {
    if id in s.messages then s
    else if f == "" then s.(messages := s.messages[id := Message("", 0, 1)])
    else if f !in s.folders then s
    else Place(s, id, f)
  }

  /** A message moves, with or without a bump of the folder it leaves; the callers below decide. */
  function Move(s: State, id: Id, target: Id, bumpSource: bool): State {
    if id !in s.messages || target !in s.folders then s
    else
      var source := s.messages[id].folder;
      Place(if bumpSource && source != "" && source != target then Bump(s, source) else s, id, target)
  }

  /** A flag changes; `f` is the folder the caller believes the message to be in, "" to look it up. */
  function Touch(s: State, id: Id, f: Id): State {
    if id !in s.messages then s
    else
      var folder := if f == "" then s.messages[id].folder else f;
      if folder !in s.folders then s
      else
        var t := Bump(s, folder);
        if BumpResult(s, folder) == 0 then t
        else t.(messages := t.messages[id := t.messages[id].(modSeq := BumpResult(s, folder))])
  }

  /** The file a message's path names: none, one outside the Maildir, one that is gone, or one in place. */
  datatype FileAt = NoPath | Foreign | Missing | Present

  /**
    What the Maildir code meets: whether a root is configured, whether the message has a
    mailbox, its file, and whether building, writing or renaming it works.
   */
  datatype Maildir = Maildir(root: bool, mailbox: bool, file: FileAt, works: bool)

  /** `writeRawMessageToMaildirFolder`: `folder` is "" for the message's own. */
  function Rewrite(s: State, id: Id, folder: Id, updateFolder: bool, env: Maildir): State {
    if !env.root || id !in s.messages then s
    else
      var own := s.messages[id].folder;
      var here := if folder == "" then own else folder;
      var t := if folder != "" && updateFolder && own != "" && own != here then Bump(s, own) else s;
      if !env.mailbox || here == "" || !env.works then t
      else if updateFolder && !(s.messages[id].uid > 0 && folder == "") then
        if here in t.folders then Place(t, id, here) else t
      else Touch(t, id, here)
  }

  /** `moveMessageMaildir` */
  function MoveMaildir(s: State, id: Id, target: Id, env: Maildir): State {
    if id !in s.messages then s
    else if !env.root then
      var own := s.messages[id].folder;
      var t := if own != "" && own != target then Bump(s, own) else s;
      if target in t.folders then Place(t, id, target) else t
    else if !env.mailbox then s
    else if env.file != Present then Rewrite(s, id, target, true, env)
    else if !env.works then s
    else
      // The message's folder is overwritten before it is compared with the target.
      var folder := target;
      var t := if folder != "" && folder != target then Bump(s, folder) else s;
      if target in t.folders then Place(t, id, target) else t
  }

  /** `syncExistingMaildirMessageState`, for a row found by its path or as a candidate without a file. */
  function Reconcile(s: State, id: Id, folder: Id, samePath: bool, flagsDiffer: bool): State {
    if id !in s.messages then s
    else
      var own := s.messages[id].folder;
      if samePath && own == folder then (if flagsDiffer then Touch(s, id, folder) else s)
      else
        var t := if own != "" && own != folder then Bump(s, own) else s;
        if folder in t.folders then Place(t, id, folder) else t
  }

  function Remove(s: State, id: Id): State {
    if id !in s.messages then s
    else Bump(s.(messages := s.messages - {id}), s.messages[id].folder)
  }

  function CreateFolder(s: State, f: Id): State {
    if f == "" || f in s.folders then s else s.(folders := s.folders[f := Folder(1, 1)])
  }

  function PlaceAll(s: State, ids: seq<Id>, f: Id): State
    requires f in s.folders
  {
    if ids == [] then s else Place(PlaceAll(s, ids[..|ids| - 1], f), ids[|ids| - 1], f)
  }

  /** `ids` lists, in some order and once each, the messages that `p` selects. */
  ghost predicate Lists(ids: seq<Id>, s: State, p: Message -> bool) {
    && (forall i, j :: 0 <= i < j < |ids| ==> ids[i] != ids[j])
    && (forall id :: id in ids <==> id in s.messages && p(s.messages[id]))
  }

  function In(f: Id): Message -> bool {
    (m: Message) => m.folder == f
  }

  function Unnumbered(f: Id): Message -> bool {
    (m: Message) => m.folder == f && m.uid == 0
  }

  /** A folder is deleted: its messages, in the order of `ids`, go to the inbox first. */
  function DeleteFolder(s: State, f: Id, inbox: Id, ids: seq<Id>): State {
    if f !in s.folders || inbox !in s.folders || f == inbox then s
    else
      var t := PlaceAll(s, ids, inbox);
      Bump(t.(folders := t.folders - {f}), inbox)
  }

  /** The largest value of a column over a folder's messages, at least `floor`. */
  ghost predicate IsLargest(s: State, f: Id, value: Message -> int, floor: int, most: int) {
    && most >= floor
    && (forall id :: id in s.messages && s.messages[id].folder == f ==> value(s.messages[id]) <= most)
    && (most == floor || exists id :: id in s.messages && s.messages[id].folder == f && value(s.messages[id]) == most)
  }

  /** Lifts a folder's counters above the values found in it. */
  function Lift(t: State, f: Id, maxUid: int, maxModSeq: int): State
    requires f in t.folders
  {
    var folder := t.folders[f];
    t.(folders := t.folders[f := Folder(Max(folder.uidNext, Wrap(maxUid + 1)), Max(folder.highest, maxModSeq))])
  }

  // ---------------------------------------------------------------- each operation keeps it

  /** Only `f` may have moved on, and no folder came or went. */
  predicate OnlyFolder(a: State, b: State, f: Id) {
    && a.folders.Keys == b.folders.Keys
    && forall g :: g in a.folders && g != f ==> b.folders[g] == a.folders[g]
  }

  lemma DrawCounters(s: State, f: Id)
    requires Sound(s) && f in s.folders && s.folders[f].uidNext < MAX_INT64
    ensures var d := Draw(s, f);
      && OnlyFolder(s, d.state, f)
      && d.uid == s.folders[f].uidNext && d.state.folders[f].uidNext == d.uid + 1
      && s.folders[f].highest <= d.state.folders[f].highest <= MAX_INT64
      && d.modSeq <= d.state.folders[f].highest
      && (s.folders[f].highest < MAX_INT64 ==> d.modSeq > s.folders[f].highest)
      && d.state.issued == s.issued + [Issue(f, d.uid)]
  {
    assert CountersOk(s.folders[f]);
  }

  /** A UID just drawn was never drawn before in its folder. */
  lemma DrawnIsNew(s: State, f: Id)
    requires Sound(s) && f in s.folders
    ensures Issue(f, s.folders[f].uidNext) !in s.issued
  {
  }

  lemma DrawIssuedOnce(s: State, f: Id)
    requires Sound(s) && f in s.folders && s.folders[f].uidNext < MAX_INT64
    ensures IssuedOnce(Draw(s, f).state) && FoldersOk(Draw(s, f).state)
  {
    DrawCounters(s, f);
    DrawnIsNew(s, f);
    var t := Draw(s, f).state;
    assert forall g :: g in t.folders && g != f ==> CountersOk(s.folders[g]);
    assert forall i :: 0 <= i < |s.issued| ==> t.issued[i] == s.issued[i];
    assert forall i :: 0 <= i < |s.issued| ==> s.issued[i] in s.issued;
  }

  /** A message keeps its place while counters and history only grow. */
  lemma MessageStays(s: State, t: State, m: Message)
    requires MessageOk(s, m) && s.folders.Keys <= t.folders.Keys && Advances(s, t)
    ensures MessageOk(t, m)
  {
    if m.folder != "" && m.uid > 0 {
      var i :| 0 <= i < |s.issued| && s.issued[i] == Issue(m.folder, m.uid);
      assert t.issued[..|s.issued|][i] == t.issued[i];
    }
  }

  lemma PlaceKeeps(s: State, id: Id, f: Id)
    requires Sound(s) && f in s.folders && s.folders[f].uidNext < MAX_INT64
    ensures Sound(Place(s, id, f)) && Advances(s, Place(s, id, f))
    ensures OnlyFolder(s, Place(s, id, f), f)
    ensures Place(s, id, f).folders[f].uidNext == s.folders[f].uidNext + 1
    ensures s.folders[f].highest < MAX_INT64 ==> Place(s, id, f).folders[f].highest == s.folders[f].highest + 1
  {
    var d := Draw(s, f);
    var t := Place(s, id, f);
    DrawCounters(s, f);
    DrawIssuedOnce(s, f);
    assert Advances(s, t);
    assert d.state.issued[|s.issued|] == Issue(f, d.uid);
    forall j | j in t.messages ensures MessageOk(t, t.messages[j]) {
      if j != id {
        MessageStays(s, t, s.messages[j]);
      }
    }
    forall i, j | i in t.messages && j in t.messages && i != j ensures Apart(t.messages[i], t.messages[j]) {
      if i != id && j != id {
        assert Apart(s.messages[i], s.messages[j]);
      } else {
        assert MessageOk(s, s.messages[if i == id then j else i]);
      }
    }
  }

  /** Drawing keeps the invariant exactly as long as the UID counter does not overflow. */
  lemma DrawNeedsRoom(s: State, id: Id, f: Id)
    requires Sound(s) && f in s.folders
    ensures Sound(Place(s, id, f)) <==> s.folders[f].uidNext < MAX_INT64
  {
    assert CountersOk(s.folders[f]);
    if s.folders[f].uidNext < MAX_INT64 {
      PlaceKeeps(s, id, f);
    } else {
      assert !CountersOk(Place(s, id, f).folders[f]);
    }
  }

  lemma BumpKeeps(s: State, f: Id)
    requires Sound(s)
    ensures Sound(Bump(s, f)) && Advances(s, Bump(s, f)) && OnlyFolder(s, Bump(s, f), f)
    ensures f in s.folders ==> Bump(s, f).folders[f].uidNext == s.folders[f].uidNext
    ensures f in s.folders ==> Bumped(s.folders[f].highest) == Bump(s, f).folders[f].highest
    ensures f in s.folders && s.folders[f].highest < MAX_INT64 - 1 ==>
      Bump(s, f).folders[f].highest == s.folders[f].highest + 1
  {
    if f in s.folders {
      assert CountersOk(s.folders[f]);
      var t := Bump(s, f);
      assert Advances(s, t);
      forall j | j in t.messages ensures MessageOk(t, t.messages[j]) {
        MessageStays(s, t, s.messages[j]);
      }
      forall i, j | i in t.messages && j in t.messages && i != j ensures Apart(t.messages[i], t.messages[j]) {
        assert Apart(s.messages[i], s.messages[j]);
      }
      assert forall g :: g in t.folders && g != f ==> CountersOk(s.folders[g]);
    }
  }

  /** Dropping a message, or giving it another mod-sequence its folder has reached. */
  lemma RowKeeps(s: State, t: State, id: Id)
    requires Sound(s) && t.folders == s.folders && t.issued == s.issued && id in s.messages
    requires t.messages.Keys <= s.messages.Keys
    requires forall j :: j in t.messages && j != id ==> t.messages[j] == s.messages[j]
    requires id in t.messages ==>
      t.messages[id] == s.messages[id].(modSeq := t.messages[id].modSeq) && MessageOk(s, t.messages[id])
    ensures Sound(t) && Advances(s, t)
  {
    forall j | j in t.messages ensures MessageOk(t, t.messages[j]) {
      if j != id {
        assert MessageOk(s, s.messages[j]);
      }
    }
    forall i, j | i in t.messages && j in t.messages && i != j ensures Apart(t.messages[i], t.messages[j]) {
      assert Apart(s.messages[i], s.messages[j]);
    }
  }

  lemma InsertKeeps(s: State, id: Id, f: Id)
    requires Sound(s) && (f in s.folders ==> s.folders[f].uidNext < MAX_INT64)
    ensures Sound(Insert(s, id, f)) && Advances(s, Insert(s, id, f))
    ensures id !in s.messages && (f == "" || f in s.folders) ==>
      var t := Insert(s, id, f);
      && t.messages == s.messages[id := t.messages[id]] && t.messages[id].folder == f
      && (f in s.folders ==> Issue(f, t.messages[id].uid) !in s.issued)
  {
    if id !in s.messages && f in s.folders {
      PlaceKeeps(s, id, f);
      DrawnIsNew(s, f);
      assert CountersOk(s.folders[f]);
    } else {
      var t := Insert(s, id, f);
      forall j | j in t.messages ensures MessageOk(t, t.messages[j]) {
        assert j in s.messages ==> MessageOk(s, s.messages[j]);
      }
      forall i, j | i in t.messages && j in t.messages && i != j ensures Apart(t.messages[i], t.messages[j]) {
        assert i in s.messages && j in s.messages ==> Apart(s.messages[i], s.messages[j]);
      }
    }
  }

  /**
    A message has arrived in a folder: under a UID never issued there, and with a mod-sequence
    above all that the folder showed before. All other messages stay.
   */
  ghost predicate ArrivesNew(s: State, t: State, id: Id, f: Id) {
    && id in t.messages && t.messages == s.messages[id := t.messages[id]] && t.messages[id].folder == f
    && t.messages[id].uid > 0 && Issue(f, t.messages[id].uid) !in s.issued
    && f in s.folders && f in t.folders
    && s.folders[f].highest < t.messages[id].modSeq == t.folders[f].highest
  }

  /** The folder shows a client that something has changed in it. */
  predicate Shown(s: State, t: State, f: Id) {
    f in s.folders && f in t.folders && t.folders[f].highest == s.folders[f].highest + 1
  }

  /** A stored message arrives anew in its folder; without one it has no UID, and with an unknown one it is refused. */
  lemma InsertOutcome(s: State, id: Id, f: Id)
    requires Sound(s) && id !in s.messages
    requires f in s.folders ==> s.folders[f].uidNext < MAX_INT64 && s.folders[f].highest < MAX_INT64
    ensures var t := Insert(s, id, f);
      && (f in s.folders ==> ArrivesNew(s, t, id, f) && OnlyFolder(s, t, f))
      && (f == "" ==> t == s.(messages := s.messages[id := Message("", 0, 1)]))
      && (f != "" && f !in s.folders ==> t == s)
  {
    if f in s.folders {
      PlacedIsNew(s, id, f);
    }
  }

  /** The first message of a new folder gets UID 1. */
  lemma FirstMessageGetsOne(s: State, f: Id, id: Id)
    requires f != "" && f !in s.folders && id !in s.messages
    ensures var t := Insert(CreateFolder(s, f), id, f);
      id in t.messages && t.messages[id] == Message(f, 1, 2) && t.folders == s.folders[f := Folder(2, 2)]
  {
  }

  /** A message keeps its place and UID, and its mod-sequence alone is above all the folder showed before. */
  ghost predicate Topped(s: State, t: State, id: Id, f: Id) {
    && Shown(s, t, f) && OnlyFolder(s, t, f) && t.issued == s.issued && id in s.messages
    && t.messages == s.messages[id := s.messages[id].(modSeq := t.folders[f].highest)]
  }

  lemma PlacedIsNew(s: State, id: Id, f: Id)
    requires Sound(s) && f in s.folders && s.folders[f].uidNext < MAX_INT64 && s.folders[f].highest < MAX_INT64
    ensures ArrivesNew(s, Place(s, id, f), id, f) && OnlyFolder(s, Place(s, id, f), f)
  {
    DrawCounters(s, f);
    DrawnIsNew(s, f);
    assert CountersOk(s.folders[f]);
  }

  /** At the largest mod-sequence there is nothing above: a message then arrives with mod-sequence 1. */
  lemma PlacedAtTheTop(s: State, id: Id, f: Id)
    requires Sound(s) && f in s.folders && s.folders[f].highest == MAX_INT64
    ensures var t := Place(s, id, f);
      t.messages[id].modSeq == 1 && t.folders[f].highest == MAX_INT64 && t.messages[id].uid == s.folders[f].uidNext
  {
    assert CountersOk(s.folders[f]);
  }

  /** It arrives so whether or not the folder it leaves is bumped first, and that one shows it if it is. */
  lemma MovedIsNew(s: State, id: Id, target: Id, bumpSource: bool)
    requires Sound(s) && id in s.messages && target in s.folders
    requires s.folders[target].uidNext < MAX_INT64 && s.folders[target].highest < MAX_INT64
    ensures var t, source := Move(s, id, target, bumpSource), s.messages[id].folder;
      && ArrivesNew(s, t, id, target)
      && (bumpSource && source != target && CanRise(s, source) ==> Shown(s, t, source))
      && (!bumpSource || source == target ==> OnlyFolder(s, t, target))
  {
    var source := s.messages[id].folder;
    var b := if bumpSource && source != "" && source != target then Bump(s, source) else s;
    BumpKeeps(s, source);
    PlacedIsNew(b, id, target);
  }

  /** The paths of `moveMessageMaildir` on which the folder a message leaves is bumped. */
  predicate BumpsSource(env: Maildir) {
    !env.root || (env.mailbox && env.file != Present)
  }

  /** On every path a move is a move with or without a bump, or a bump alone, or nothing. */
  lemma MoveMaildirIs(s: State, id: Id, target: Id, env: Maildir)
    requires Sound(s) && id in s.messages && target in s.folders
    ensures MoveMaildir(s, id, target, env) ==
      if !env.root || (env.mailbox && env.works) then Move(s, id, target, BumpsSource(env))
      else if env.mailbox && env.file != Present && s.messages[id].folder !in {"", target} then
        Bump(s, s.messages[id].folder)
      else s
  {
    assert "" !in s.folders;
  }

  /**
    The folder a message leaves shows the move exactly when the path is one of the bumping
    ones and the folder's counter has room: not when the file is renamed.
   */
  lemma SourceSeesMoveIff(s: State, id: Id, target: Id, env: Maildir)
    requires Sound(s) && id in s.messages && target in s.folders && s.folders[target].uidNext < MAX_INT64
    requires s.messages[id].folder != "" && s.messages[id].folder != target
    ensures var source := s.messages[id].folder;
      source in MoveMaildir(s, id, target, env).folders
    ensures var source := s.messages[id].folder;
      var shown := MoveMaildir(s, id, target, env).folders[source].highest > s.folders[source].highest;
      shown <==> BumpsSource(env) && s.folders[source].highest < MAX_INT64 - 1
  {
    var source := s.messages[id].folder;
    assert MessageOk(s, s.messages[id]);
    MoveMaildirIs(s, id, target, env);
    BumpKeeps(s, source);
    PlaceKeeps(if BumpsSource(env) then Bump(s, source) else s, id, target);
  }

  /** A rename that works moves the message and leaves its old folder as it was. */
  lemma RenameIsSilent(s: State, id: Id, target: Id)
    requires Sound(s) && id in s.messages && target in s.folders && s.folders[target].uidNext < MAX_INT64
    requires s.messages[id].folder != "" && s.messages[id].folder != target
    ensures var t := MoveMaildir(s, id, target, Maildir(true, true, Present, true));
      var source := s.messages[id].folder;
      t.messages[id].folder == target && source in t.folders && t.folders[source] == s.folders[source]
  {
    assert MessageOk(s, s.messages[id]);
    MoveMaildirIs(s, id, target, Maildir(true, true, Present, true));
    PlaceKeeps(s, id, target);
  }

  /**
    A flag change keeps the invariant exactly when the folder the caller names is the
    message's own, or does not matter, or has counted no further than the message's own.
   */
  lemma TouchKeepsIff(s: State, id: Id, f: Id)
    requires Sound(s) && id in s.messages
    ensures var own := s.messages[id].folder;
      Sound(Touch(s, id, f)) <==>
        f == "" || f !in s.folders || own == "" || own == f || Bumped(s.folders[f].highest) <= s.folders[own].highest
    ensures Sound(Touch(s, id, f)) ==> Advances(s, Touch(s, id, f))
  {
    var own := s.messages[id].folder;
    var folder := if f == "" then own else f;
    assert MessageOk(s, s.messages[id]);
    if folder in s.folders {
      var t := Touch(s, id, f);
      var b := Bump(s, folder);
      BumpKeeps(s, folder);
      assert MessageOk(b, b.messages[id]);
      assert t.folders == b.folders;
      if MessageOk(b, t.messages[id]) {
        RowKeeps(b, t, id);
        AdvancesTrans(s, b, t);
      } else {
        assert !MessageOk(t, t.messages[id]);
      }
    }
  }

  /** A flag change gives the message a mod-sequence above all its folder showed before. */
  lemma TouchShows(s: State, id: Id)
    requires Sound(s) && id in s.messages && CanRise(s, s.messages[id].folder)
    ensures Topped(s, Touch(s, id, ""), id, s.messages[id].folder)
  {
    BumpKeeps(s, s.messages[id].folder);
  }

  predicate CanRise(s: State, f: Id) {
    f in s.folders && s.folders[f].highest < MAX_INT64 - 1
  }

  /** The message is gone, and its folder shows it while the counter has room. */
  lemma RemoveKeeps(s: State, id: Id)
    requires Sound(s)
    ensures Sound(Remove(s, id)) && Advances(s, Remove(s, id))
    ensures Remove(s, id).messages == s.messages - {id} && Remove(s, id).issued == s.issued
    ensures id in s.messages && CanRise(s, s.messages[id].folder) ==>
      Remove(s, id).folders[s.messages[id].folder].highest == s.folders[s.messages[id].folder].highest + 1
  {
    assert id !in s.messages ==> s.messages - {id} == s.messages;
    if id in s.messages {
      var t := s.(messages := s.messages - {id});
      RowKeeps(s, t, id);
      BumpKeeps(t, s.messages[id].folder);
      AdvancesTrans(s, t, Remove(s, id));
    }
  }

  /** A file met in another folder than its message's, or a row whose file has a new path: it arrives there. */
  lemma MetElsewhere(s: State, id: Id, folder: Id, samePath: bool, flagsDiffer: bool)
    requires Sound(s) && id in s.messages && folder in s.folders && !(samePath && s.messages[id].folder == folder)
    requires s.folders[folder].uidNext < MAX_INT64 && s.folders[folder].highest < MAX_INT64
    ensures var t, own := Reconcile(s, id, folder, samePath, flagsDiffer), s.messages[id].folder;
      && ArrivesNew(s, t, id, folder)
      && (own != folder && CanRise(s, own) ==> Shown(s, t, own))
      && (own == folder ==> OnlyFolder(s, t, folder))
  {
    assert "" !in s.folders;
    MovedIsNew(s, id, folder, true);
    assert Reconcile(s, id, folder, samePath, flagsDiffer) == Move(s, id, folder, true);
  }

  /** Met at its own place a message keeps its UID, and its mod-sequence tops the folder exactly when flags differ. */
  lemma MetInPlace(s: State, id: Id, flagsDiffer: bool)
    requires Sound(s) && id in s.messages && CanRise(s, s.messages[id].folder)
    ensures var f := s.messages[id].folder;
      var t := Reconcile(s, id, f, true, flagsDiffer);
      && (!flagsDiffer ==> t == s)
      && (flagsDiffer ==> Topped(s, t, id, f))
  {
    TouchShows(s, id);
  }

  /**
    Writing a message's file: given another folder to move to, the message arrives there and the
    one it leaves shows it; told to keep its folder, or with a UID and no other folder given, it
    keeps the UID and tops its folder.
   */
  lemma RewriteOutcome(s: State, id: Id, folder: Id, updateFolder: bool, env: Maildir)
    requires Sound(s) && id in s.messages && env.root && env.mailbox && env.works
    requires folder != "" ==> folder in s.folders
    requires var here := if folder == "" then s.messages[id].folder else folder;
      CanRise(s, here) && s.folders[here].uidNext < MAX_INT64
    ensures var t, own := Rewrite(s, id, folder, updateFolder, env), s.messages[id].folder;
      var here := if folder == "" then own else folder;
      && (updateFolder && (folder != "" || s.messages[id].uid == 0) ==>
            ArrivesNew(s, t, id, here) && (own != here && CanRise(s, own) ==> Shown(s, t, own)))
      && (!updateFolder || (folder == "" && s.messages[id].uid > 0) ==>
            Topped(s, t, id, here))
  {
    var own := s.messages[id].folder;
    var here := if folder == "" then own else folder;
    assert "" !in s.folders && MessageOk(s, s.messages[id]);
    if updateFolder && (folder != "" || s.messages[id].uid == 0) {
      MovedIsNew(s, id, here, true);
      assert Rewrite(s, id, folder, updateFolder, env) == Move(s, id, here, true);
    } else {
      BumpKeeps(s, here);
    }
  }

  /** Where the file cannot be written no message changes; only the folder it was to leave shows something. */
  lemma RewriteFails(s: State, id: Id, folder: Id, updateFolder: bool, env: Maildir)
    requires Sound(s) && id in s.messages && (!env.root || !env.mailbox || !env.works)
    ensures var t, own := Rewrite(s, id, folder, updateFolder, env), s.messages[id].folder;
      && t.messages == s.messages && t.issued == s.issued && OnlyFolder(s, t, own)
      && (CanRise(s, own) ==> (Shown(s, t, own) <==> env.root && updateFolder && folder != "" && folder != own))
  {
    BumpKeeps(s, s.messages[id].folder);
  }

  lemma OwnTouchKeeps(s: State, id: Id, f: Id)
    requires Sound(s) && (id in s.messages ==> f == "" || f == s.messages[id].folder)
    ensures Sound(Touch(s, id, f)) && Advances(s, Touch(s, id, f))
  {
    if id in s.messages {
      TouchKeepsIff(s, id, f);
    }
  }

  /** A bump, and a new place when there is one. */
  lemma BumpPlaceKeeps(s: State, source: Id, bump: bool, id: Id, target: Id)
    requires Sound(s) && (target in s.folders ==> s.folders[target].uidNext < MAX_INT64)
    ensures var t := if bump then Bump(s, source) else s;
      var u := if target in t.folders then Place(t, id, target) else t;
      Sound(t) && Advances(s, t) && Sound(u) && Advances(s, u)
  {
    var t := if bump then Bump(s, source) else s;
    BumpKeeps(s, source);
    if target in t.folders {
      PlaceKeeps(t, id, target);
      AdvancesTrans(s, t, Place(t, id, target));
    }
  }

  /** Every path of a rewrite keeps the invariant, if one that keeps the folder names the message's own. */
  lemma RewriteKeeps(s: State, id: Id, folder: Id, updateFolder: bool, env: Maildir)
    requires Sound(s) && (id in s.messages ==> updateFolder || folder == "" || folder == s.messages[id].folder)
    requires id in s.messages ==>
      HasRoom(s, if folder == "" then s.messages[id].folder else folder, 1)
    ensures var t := Rewrite(s, id, folder, updateFolder, env); Sound(t) && Advances(s, t)
  {
    if env.root && id in s.messages {
      var own := s.messages[id].folder;
      var here := if folder == "" then own else folder;
      BumpPlaceKeeps(s, own, folder != "" && updateFolder && own != "" && own != here, id, here);
      if folder == "" || !updateFolder {
        OwnTouchKeeps(s, id, here);
      }
    }
  }

  lemma MoveMaildirKeeps(s: State, id: Id, target: Id, env: Maildir)
    requires Sound(s) && HasRoom(s, target, 1) && target != ""
    ensures var t := MoveMaildir(s, id, target, env); Sound(t) && Advances(s, t)
  {
    if id in s.messages {
      var own := s.messages[id].folder;
      if env.root && env.file != Present {
        RewriteKeeps(s, id, target, true, env);
      }
      BumpPlaceKeeps(s, own, !env.root && own != "" && own != target, id, target);
    }
  }

  lemma ReconcileKeeps(s: State, id: Id, folder: Id, samePath: bool, flagsDiffer: bool)
    requires Sound(s) && HasRoom(s, folder, 1)
    ensures var t := Reconcile(s, id, folder, samePath, flagsDiffer); Sound(t) && Advances(s, t)
  {
    if id in s.messages {
      var own := s.messages[id].folder;
      if samePath && own == folder {
        OwnTouchKeeps(s, id, folder);
      } else {
        BumpPlaceKeeps(s, own, own != "" && own != folder, id, folder);
      }
    }
  }

  ghost predicate HasRoom(s: State, f: Id, n: nat) {
    f in s.folders ==> s.folders[f].uidNext + n <= MAX_INT64
  }

  /** Folder ids are not used again after a folder is deleted. */
  ghost predicate NeverUsed(s: State, f: Id) {
    forall i :: 0 <= i < |s.issued| ==> s.issued[i].folder != f
  }

  lemma CreateFolderKeeps(s: State, f: Id)
    requires Sound(s) && NeverUsed(s, f)
    ensures Sound(CreateFolder(s, f)) && Advances(s, CreateFolder(s, f))
  {
    var t := CreateFolder(s, f);
    forall j | j in t.messages ensures MessageOk(t, t.messages[j]) {
      MessageStays(s, t, s.messages[j]);
    }
    forall i, j | i in t.messages && j in t.messages && i != j ensures Apart(t.messages[i], t.messages[j]) {
      assert Apart(s.messages[i], s.messages[j]);
    }
    assert forall g :: g in t.folders && g != f ==> CountersOk(s.folders[g]);
  }

  ghost predicate PlacedAll(s: State, t: State, ids: seq<Id>, f: Id) {
    && t.messages.Keys == s.messages.Keys
    && (forall id :: id in s.messages && id !in ids ==> t.messages[id] == s.messages[id])
    && (forall id :: id in s.messages && id in ids ==> t.messages[id].folder == f && t.messages[id].uid > 0)
  }

  lemma {:induction false} PlaceAllKeeps(s: State, ids: seq<Id>, f: Id)
    requires Sound(s) && f in s.folders && s.folders[f].uidNext + |ids| <= MAX_INT64
    requires forall id :: id in ids ==> id in s.messages
    ensures PlaceAll(s, ids, f).folders.Keys == s.folders.Keys
    ensures Sound(PlaceAll(s, ids, f)) && Advances(s, PlaceAll(s, ids, f)) && OnlyFolder(s, PlaceAll(s, ids, f), f)
    ensures PlaceAll(s, ids, f).folders[f].uidNext == s.folders[f].uidNext + |ids|
    ensures s.folders[f].highest + |ids| <= MAX_INT64 ==>
      PlaceAll(s, ids, f).folders[f].highest == s.folders[f].highest + |ids|
  {
    if ids != [] {
      var init, last := ids[..|ids| - 1], ids[|ids| - 1];
      assert forall id :: id in init ==> id in ids;
      PlaceAllKeeps(s, init, f);
      var t := PlaceAll(s, init, f);
      PlaceKeeps(t, last, f);
      AdvancesTrans(s, t, PlaceAll(s, ids, f));
    }
  }

  lemma PlaceOneMore(s: State, t: State, ids: seq<Id>, id: Id, f: Id)
    requires PlacedAll(s, t, ids, f) && id in s.messages && f in t.folders && CountersOk(t.folders[f])
    ensures PlacedAll(s, Place(t, id, f), ids + [id], f)
  {
    var u := Place(t, id, f);
    assert u.messages[id].folder == f && u.messages[id].uid > 0;
    forall j | j in s.messages && j != id ensures u.messages[j] == t.messages[j] && (j in ids + [id] <==> j in ids) {
    }
  }

  lemma {:induction false} PlaceAllPlaces(s: State, ids: seq<Id>, f: Id)
    requires Sound(s) && f in s.folders && s.folders[f].uidNext + |ids| <= MAX_INT64
    requires forall id :: id in ids ==> id in s.messages
    ensures PlacedAll(s, PlaceAll(s, ids, f), ids, f)
  {
    if ids != [] {
      var init, last := ids[..|ids| - 1], ids[|ids| - 1];
      assert forall id :: id in init ==> id in ids;
      PlaceAllCounters(s, init, f);
      PlaceAllPlaces(s, init, f);
      PlaceOneMore(s, PlaceAll(s, init, f), init, last, f);
      assert init + [last] == ids;
    }
  }

  lemma PlaceAllCounters(s: State, ids: seq<Id>, f: Id)
    requires Sound(s) && f in s.folders && s.folders[f].uidNext + |ids| <= MAX_INT64
    requires forall id :: id in ids ==> id in s.messages
    ensures CountersOk(PlaceAll(s, ids, f).folders[f])
  {
    PlaceAllKeeps(s, ids, f);
  }

  /** Deleting a folder leaves no message behind, and its UIDs stay used up. */
  lemma DeleteFolderKeeps(s: State, f: Id, inbox: Id, ids: seq<Id>)
    requires Sound(s) && Lists(ids, s, In(f))
    requires inbox in s.folders ==> s.folders[inbox].uidNext + |ids| <= MAX_INT64
    ensures Sound(DeleteFolder(s, f, inbox, ids)) && Advances(s, DeleteFolder(s, f, inbox, ids))
    ensures f in s.folders && inbox in s.folders && f != inbox ==>
      PlacedAll(s, DeleteFolder(s, f, inbox, ids), ids, inbox) && f !in DeleteFolder(s, f, inbox, ids).folders
    ensures f in s.folders && inbox in s.folders && f != inbox && s.folders[inbox].highest + |ids| < MAX_INT64 - 1 ==>
      DeleteFolder(s, f, inbox, ids).folders[inbox].highest == s.folders[inbox].highest + |ids| + 1
  {
    if f in s.folders && inbox in s.folders && f != inbox {
      var t := PlaceAll(s, ids, inbox);
      var u := t.(folders := t.folders - {f});
      PlaceAllKeeps(s, ids, inbox);
      PlaceAllPlaces(s, ids, inbox);
      DeleteFolderEmpties(s, f, inbox, ids);
      BumpLast(s, u, inbox);
    }
  }

  /** Exactly the messages of the deleted folder go to the inbox, under new UIDs; all others stay as they are. */
  lemma DeleteFolderOutcome(s: State, f: Id, inbox: Id, ids: seq<Id>, id: Id)
    requires Sound(s) && Lists(ids, s, In(f)) && id in s.messages
    requires f in s.folders && inbox in s.folders && f != inbox && s.folders[inbox].uidNext + |ids| <= MAX_INT64
    ensures var t, m := DeleteFolder(s, f, inbox, ids), s.messages[id];
      id in t.messages && if m.folder == f then t.messages[id].folder == inbox && t.messages[id].uid > 0
        else t.messages[id] == m
  {
    DeleteFolderKeeps(s, f, inbox, ids);
    assert id in ids <==> In(f)(s.messages[id]);
  }

  lemma BumpLast(s: State, u: State, inbox: Id)
    requires Sound(u) && Advances(s, u) && inbox in u.folders
    ensures Sound(Bump(u, inbox)) && Advances(s, Bump(u, inbox))
    ensures Bump(u, inbox).messages == u.messages && Bump(u, inbox).folders.Keys == u.folders.Keys
    ensures u.folders[inbox].highest < MAX_INT64 - 1 ==>
      Bump(u, inbox).folders[inbox].highest == u.folders[inbox].highest + 1
  {
    BumpKeeps(u, inbox);
    AdvancesTrans(s, u, Bump(u, inbox));
  }

  /** Before its last bump a folder deletion is a sound state too. */
  lemma DeleteFolderEmpties(s: State, f: Id, inbox: Id, ids: seq<Id>)
    requires Sound(s) && Lists(ids, s, In(f)) && HasRoom(s, inbox, |ids|)
    requires f in s.folders && inbox in s.folders && f != inbox
    ensures var t := PlaceAll(s, ids, inbox);
      var u := t.(folders := t.folders - {f}); Sound(u) && Advances(s, u)
  {
    PlaceAllKeeps(s, ids, inbox);
    PlaceAllPlaces(s, ids, inbox);
    var t := PlaceAll(s, ids, inbox);
    forall id | id in t.messages ensures t.messages[id].folder != f {
      assert id in s.messages;
      assert id in ids <==> In(f)(s.messages[id]);
    }
    EmptyFolderGoes(t, f);
  }

  lemma EmptyFolderGoes(s: State, f: Id)
    requires Sound(s) && forall id :: id in s.messages ==> s.messages[id].folder != f
    ensures var t := s.(folders := s.folders - {f}); Sound(t) && Advances(s, t)
  {
    var t := s.(folders := s.folders - {f});
    forall j | j in t.messages ensures MessageOk(t, t.messages[j]) {
      assert MessageOk(s, s.messages[j]);
    }
    forall i, j | i in t.messages && j in t.messages && i != j ensures Apart(t.messages[i], t.messages[j]) {
      assert Apart(s.messages[i], s.messages[j]);
    }
    assert forall g :: g in t.folders ==> CountersOk(s.folders[g]);
  }

  /** Every message that was in `f` is there still, with a UID. */
  ghost predicate AllNumbered(s: State, t: State, f: Id) {
    && t.messages.Keys == s.messages.Keys
    && forall id :: id in s.messages && s.messages[id].folder == f ==>
      t.messages[id].folder == f && t.messages[id].uid > 0
  }

  lemma PlacedAreNumbered(s: State, t: State, f: Id, ids: seq<Id>)
    requires Sound(s) && f in s.folders && Lists(ids, s, Unnumbered(f)) && PlacedAll(s, t, ids, f)
    ensures AllNumbered(s, t, f)
  {
    forall id | id in s.messages && s.messages[id].folder == f
      ensures t.messages[id].folder == f && t.messages[id].uid > 0
    {
      assert id in ids <==> Unnumbered(f)(s.messages[id]);
      assert MessageOk(s, s.messages[id]);
    }
  }

  function UidOf(): Message -> int {
    (m: Message) => m.uid
  }

  function ModSeqOf(): Message -> int {
    (m: Message) => m.modSeq
  }

  /** In a sound state the counters are above everything already. */
  lemma LiftIsIdle(t: State, f: Id, maxUid: int, maxModSeq: int)
    requires Sound(t) && f in t.folders
    requires IsLargest(t, f, UidOf(), 0, maxUid) && IsLargest(t, f, ModSeqOf(), 1, maxModSeq)
    ensures Lift(t, f, maxUid, maxModSeq) == t
  {
    assert CountersOk(t.folders[f]);
    assert forall id :: id in t.messages ==> MessageOk(t, t.messages[id]);
    assert t.folders[f := t.folders[f]] == t.folders;
  }

  /** Numbering the unnumbered messages leaves every message of the folder with a UID. */
  lemma BackfillKeeps(s: State, f: Id, ids: seq<Id>)
    requires Sound(s) && f in s.folders && Lists(ids, s, Unnumbered(f))
    requires s.folders[f].uidNext + |ids| <= MAX_INT64
    ensures var t := PlaceAll(s, ids, f); Sound(t) && Advances(s, t) && AllNumbered(s, t, f)
  {
    PlaceAllKeeps(s, ids, f);
    PlaceAllPlaces(s, ids, f);
    PlacedAreNumbered(s, PlaceAll(s, ids, f), f, ids);
  }

  /** Exactly the messages of the folder without a UID get one; all others stay as they are. */
  lemma BackfillOutcome(s: State, f: Id, ids: seq<Id>, id: Id)
    requires Sound(s) && f in s.folders && Lists(ids, s, Unnumbered(f)) && id in s.messages
    requires s.folders[f].uidNext + |ids| <= MAX_INT64
    ensures var t, m := PlaceAll(s, ids, f), s.messages[id];
      id in t.messages && if m.folder == f && m.uid == 0 then t.messages[id].folder == f && t.messages[id].uid > 0
        else t.messages[id] == m
  {
    PlaceAllPlaces(s, ids, f);
    assert id in ids <==> Unnumbered(f)(s.messages[id]);
  }

  /** Whatever the counters were before: lifted, they are above every UID and mod-sequence found in the folder. */
  lemma LiftCovers(t: State, f: Id, maxUid: int, maxModSeq: int, id: Id)
    requires f in t.folders && id in t.messages && t.messages[id].folder == f && maxUid < MAX_INT64
    requires IsLargest(t, f, UidOf(), 0, maxUid) && IsLargest(t, f, ModSeqOf(), 1, maxModSeq)
    ensures var folder := Lift(t, f, maxUid, maxModSeq).folders[f];
      t.messages[id].uid < folder.uidNext && t.messages[id].modSeq <= folder.highest
  {
    assert UidOf()(t.messages[id]) <= maxUid && ModSeqOf()(t.messages[id]) <= maxModSeq;
  }

  // ---------------------------------------------------------------- every run

  datatype Op =
    | DoInsert(id: Id, folder: Id)
    | DoMove(id: Id, folder: Id, env: Maildir)
    | DoRewrite(id: Id, env: Maildir)
    | DoReconcile(id: Id, folder: Id, samePath: bool, flagsDiffer: bool)
    | DoTouch(id: Id, folder: Id)
    | DoBump(folder: Id)
    | DoRemove(id: Id)
    | DoCreate(folder: Id)
    | DoDelete(folder: Id, inbox: Id, ids: seq<Id>)
    | DoBackfill(folder: Id, ids: seq<Id>)

  function Apply(s: State, op: Op): State {
    match op
    case DoInsert(id, f) => Insert(s, id, f)
    case DoMove(id, f, env) => MoveMaildir(s, id, f, env)
    case DoRewrite(id, env) => Rewrite(s, id, "", false, env)
    case DoReconcile(id, f, samePath, flagsDiffer) => Reconcile(s, id, f, samePath, flagsDiffer)
    case DoTouch(id, f) => Touch(s, id, f)
    case DoBump(f) => Bump(s, f)
    case DoRemove(id) => Remove(s, id)
    case DoCreate(f) => CreateFolder(s, f)
    case DoDelete(f, inbox, ids) => DeleteFolder(s, f, inbox, ids)
    case DoBackfill(f, ids) => if f in s.folders then PlaceAll(s, ids, f) else s
  }

  /** An operation the server performs, with UIDs to spare in the folder it draws from. */
  ghost predicate Allowed(s: State, op: Op) {
    match op
    case DoInsert(_, f) => HasRoom(s, f, 1)
    case DoMove(_, f, _) => f != "" && HasRoom(s, f, 1)
    case DoRewrite(id, _) => id in s.messages ==> HasRoom(s, s.messages[id].folder, 1)
    case DoReconcile(_, f, _, _) => HasRoom(s, f, 1)
    case DoTouch(id, f) => f == "" || (id in s.messages ==> f == s.messages[id].folder)
    case DoBump(_) => true
    case DoRemove(_) => true
    case DoCreate(f) => NeverUsed(s, f)
    case DoDelete(f, inbox, ids) => Lists(ids, s, In(f)) && HasRoom(s, inbox, |ids|)
    case DoBackfill(f, ids) => Lists(ids, s, Unnumbered(f)) && HasRoom(s, f, |ids|)
  }

  lemma StepKeeps(s: State, op: Op)
    requires Sound(s) && Allowed(s, op)
    ensures Sound(Apply(s, op)) && Advances(s, Apply(s, op))
  {
    match op
    case DoInsert(id, f) => InsertKeeps(s, id, f);
    case DoMove(id, f, env) => MoveMaildirKeeps(s, id, f, env);
    case DoRewrite(id, env) => RewriteKeeps(s, id, "", false, env);
    case DoReconcile(id, f, samePath, flagsDiffer) => ReconcileKeeps(s, id, f, samePath, flagsDiffer);
    case DoTouch(id, f) =>
      if id in s.messages {
        TouchKeepsIff(s, id, f);
      }
    case DoBump(f) => BumpKeeps(s, f);
    case DoRemove(id) => RemoveKeeps(s, id);
    case DoCreate(f) => CreateFolderKeeps(s, f);
    case DoDelete(f, inbox, ids) => DeleteFolderKeeps(s, f, inbox, ids);
    case DoBackfill(f, ids) =>
      if f in s.folders {
        BackfillKeeps(s, f, ids);
      }
  }

  function Run(s: State, ops: seq<Op>): State {
    if ops == [] then s else Apply(Run(s, ops[..|ops| - 1]), ops[|ops| - 1])
  }

  ghost predicate AllAllowed(s: State, ops: seq<Op>) {
    forall i :: 0 <= i < |ops| ==> Allowed(Run(s, ops[..i]), ops[i])
  }

  /**
    After every run UIDs are distinct and below `uid_next`, mod-sequences are at most the
    folder's highest, and no UID was ever given twice in a folder.
   */
  lemma {:induction false} RunKeeps(s: State, ops: seq<Op>)
    requires Sound(s) && AllAllowed(s, ops)
    ensures Sound(Run(s, ops))
  {
    if ops != [] {
      var init := ops[..|ops| - 1];
      forall i | 0 <= i < |init| ensures Allowed(Run(s, init[..i]), init[i]) {
        assert init[..i] == ops[..i];
      }
      RunKeeps(s, init);
      StepKeeps(Run(s, init), ops[|ops| - 1]);
    }
  }

  /** Between any two moments of a run: counters of a folder that is there throughout only grow. */
  lemma {:induction false} RunAdvances(s: State, ops: seq<Op>, f: Id)
    requires Sound(s) && AllAllowed(s, ops)
    requires forall i :: 0 <= i <= |ops| ==> f in Run(s, ops[..i]).folders
    ensures f in s.folders && f in Run(s, ops).folders
    ensures s.folders[f].uidNext <= Run(s, ops).folders[f].uidNext
    ensures s.folders[f].highest <= Run(s, ops).folders[f].highest
  {
    assert ops[..0] == [] && ops[..|ops|] == ops;
    if ops != [] {
      var init := ops[..|ops| - 1];
      forall i | 0 <= i <= |init| ensures init[..i] == ops[..i] {
      }
      assert forall i :: 0 <= i <= |init| ==> f in Run(s, ops[..i]).folders;
      RunAdvances(s, init, f);
      RunKeeps(s, init);
      StepKeeps(Run(s, init), ops[|ops| - 1]);
    }
  }

  /** A message that gets a UID in a later step gets one no message of that folder ever had. */
  lemma {:induction false} RunKeepsHistory(s: State, ops: seq<Op>)
    requires Sound(s) && AllAllowed(s, ops)
    ensures |s.issued| <= |Run(s, ops).issued| && Run(s, ops).issued[..|s.issued|] == s.issued
  {
    if ops != [] {
      var init := ops[..|ops| - 1];
      forall i | 0 <= i < |init| ensures Allowed(Run(s, init[..i]), init[i]) {
        assert init[..i] == ops[..i];
      }
      RunKeepsHistory(s, init);
      RunKeeps(s, init);
      var t := Run(s, init);
      StepKeeps(t, ops[|ops| - 1]);
      HistoryTrans(s.issued, t.issued, Run(s, ops).issued);
    }
  }

  lemma HistoryTrans(a: seq<Issue>, b: seq<Issue>, c: seq<Issue>)
    requires |a| <= |b| <= |c| && b[..|a|] == a && c[..|b|] == b
    ensures c[..|a|] == a
  {
    assert c[..|a|] == c[..|b|][..|a|];
  }

  // ---------------------------------------------------------------- the two statements of a draw

  /** Drawing is a read and a write; the write stores one more than what was read, whatever is there now. */
  function LateWrite(s: State, f: Id, read: Folder): State
    requires f in s.folders
  {
    s.(folders := s.folders[f := Folder(Wrap(read.uidNext + 1), Max(s.folders[f].highest, NextModSeq(read.highest)))])
  }

  /** Outside a transaction the counter goes back exactly when two others drew in between. */
  lemma LateWriteGoesBack(s: State, f: Id, read: Folder)
    requires Sound(s) && f in s.folders && CountersOk(read) && read.uidNext <= s.folders[f].uidNext
    ensures LateWrite(s, f, read).folders[f].uidNext < s.folders[f].uidNext <==>
      read.uidNext == MAX_INT64 || s.folders[f].uidNext >= read.uidNext + 2
    ensures LateWrite(s, f, read).folders[f].highest >= s.folders[f].highest
  {
    assert CountersOk(s.folders[f]);
  }

  // ---------------------------------------------------------------- the tables

  class MailStore {
    var folders: map<Id, Folder>
    var messages: map<Id, Message>
    ghost var issued: seq<Issue>

    ghost function View(): State
      reads this
    {
      State(folders, messages, issued)
    }

    constructor ()
      ensures View() == State(map[], map[], []) && Sound(View())
    {
      folders, messages, issued := map[], map[], [];
    }

    method NextMetadata(f: Id) returns (ok: bool, uid: int, modSeq: int)
      modifies this
      ensures ok == (f in old(folders))
      ensures !ok ==> View() == old(View())
      ensures ok ==> Draw(old(View()), f) == Drawn(View(), uid, modSeq)
    {
      if f !in folders {
        return false, 0, 0;
      }
      uid := folders[f].uidNext;
      if uid < 1 {
        uid := 1;
      }
      modSeq := Wrap(folders[f].highest + 1);
      if modSeq < 1 {
        modSeq := 1;
      }
      folders := folders[f := Folder(Wrap(uid + 1), Max(folders[f].highest, modSeq))];
      issued := issued + [Issue(f, uid)];
      ok := true;
    }

    method BumpFolderModSeq(f: Id) returns (next: int)
      modifies this
      ensures View() == Bump(old(View()), f) && next == BumpResult(old(View()), f)
    {
      if f !in folders {
        return 0;
      }
      var current := folders[f].highest;
      next := Wrap(current + 1);
      if next < 1 || next == MAX_INT64 {
        next := current;
      }
      folders := folders[f := folders[f].(highest := Max(current, next))];
    }

    /** Stores a message; refused when it names a folder that is not there. */
    method InsertMessage(id: Id, f: Id) returns (ok: bool)
      requires id !in messages && "" !in folders
      modifies this
      ensures View() == Insert(old(View()), id, f)
      ensures ok == (f == "" || f in old(folders))
    {
      var uid, modSeq := 0, 1;
      ok := true;
      if f != "" {
        ok, uid, modSeq := NextMetadata(f);
        if !ok {
          return;
        }
      }
      messages := messages[id := Message(f, uid, modSeq)];
    }

    /** Bumps `source` if asked to, then draws in `target` and stores the message there. */
    method StoreIn(source: Id, bump: bool, id: Id, target: Id)
      requires id in messages
      modifies this
      ensures View() ==
        var t := if bump then Bump(old(View()), source) else old(View());
        if target in t.folders then Place(t, id, target) else t
    {
      if bump {
        var _ := BumpFolderModSeq(source);
      }
      var ok, uid, modSeq := NextMetadata(target);
      if ok {
        messages := messages[id := Message(target, uid, modSeq)];
      }
    }

    method WriteRawMessageToMaildirFolder(id: Id, folder: Id, updateFolder: bool, env: Maildir)
      requires id in messages && "" !in folders
      modifies this
      ensures View() == Rewrite(old(View()), id, folder, updateFolder, env)
    {
      if !env.root {
        return;
      }
      var here := messages[id].folder;
      if folder != "" {
        var before := here;
        here := folder;
        if updateFolder && before != "" && before != here {
          var _ := BumpFolderModSeq(before);
        }
      }
      if !env.mailbox || here == "" || !env.works {
        return;
      }
      if updateFolder && !(messages[id].uid > 0 && folder == "") {
        StoreIn("", false, id, here);
      } else {
        var _ := UpdateMessageModSeq(id, here);
      }
    }

    method MoveMessageMaildir(id: Id, target: Id, env: Maildir)
      requires id in messages && "" !in folders
      modifies this
      ensures View() == MoveMaildir(old(View()), id, target, env)
    {
      var folder := messages[id].folder;
      if !env.root {
        StoreIn(folder, folder != "" && folder != target, id, target);
        return;
      }
      if !env.mailbox {
        return;
      }
      folder := target;
      if env.file != Present {
        WriteRawMessageToMaildirFolder(id, target, true, env);
        return;
      }
      if !env.works {
        return;
      }
      StoreIn(folder, folder != "" && folder != target, id, target);
    }

    method SyncExistingMessageState(id: Id, folder: Id, samePath: bool, flagsDiffer: bool)
      requires id in messages && "" !in folders
      modifies this
      ensures View() == Reconcile(old(View()), id, folder, samePath, flagsDiffer)
    {
      var own := messages[id].folder;
      if samePath && own == folder {
        if flagsDiffer {
          var _ := UpdateMessageModSeq(id, folder);
        }
        return;
      }
      StoreIn(own, own != "" && own != folder, id, folder);
    }

    method UpdateMessageModSeq(id: Id, f: Id) returns (modSeq: int)
      requires id in messages && "" !in folders
      modifies this
      ensures View() == Touch(old(View()), id, f)
    {
      var folder := f;
      if folder == "" {
        folder := messages[id].folder;
        if folder == "" {
          return 0;
        }
      }
      modSeq := BumpFolderModSeq(folder);
      if modSeq == 0 {
        return;
      }
      messages := messages[id := messages[id].(modSeq := modSeq)];
    }

    /** The messages a query selects, in some order. */
    method Select(p: Message -> bool) returns (ids: seq<Id>)
      ensures Lists(ids, View(), p)
    {
      ids := [];
      var rest := messages.Keys;
      while rest != {}
        invariant rest <= messages.Keys
        invariant forall i, j :: 0 <= i < j < |ids| ==> ids[i] != ids[j]
        invariant forall id :: id in ids <==> id in messages && id !in rest && p(messages[id])
      {
        var id :| id in rest;
        rest := rest - {id};
        if p(messages[id]) {
          ids := ids + [id];
        }
      }
    }

    /** Gives each of `ids` a new UID in `f`. */
    method Renumber(ids: seq<Id>, f: Id)
      requires f in folders
      modifies this
      ensures View() == PlaceAll(old(View()), ids, f) && f in folders
      ensures folders.Keys == old(folders.Keys)
    {
      ghost var start := View();
      for i := 0 to |ids|
        invariant f in folders && folders.Keys == old(folders.Keys)
        invariant View() == PlaceAll(start, ids[..i], f)
      {
        assert ids[..i + 1][..i] == ids[..i];
        var _, uid, modSeq := NextMetadata(f);
        messages := messages[ids[i] := Message(f, uid, modSeq)];
      }
      assert ids[..|ids|] == ids;
    }

    /** Moves a folder's messages to the inbox, deletes it, and bumps the inbox once more. */
    method DeleteMailFolder(f: Id, inbox: Id) returns (moved: nat, ghost ids: seq<Id>)
      requires f in folders && inbox in folders && f != inbox
      modifies this
      ensures Lists(ids, old(View()), In(f)) && moved == |ids|
      ensures View() == DeleteFolder(old(View()), f, inbox, ids)
    {
      var found := Select(In(f));
      Renumber(found, inbox);
      folders := folders - {f};
      var _ := BumpFolderModSeq(inbox);
      moved, ids := |found|, found;
    }

    /** The largest value of a column over a folder's messages, at least `floor`. */
    method Largest(f: Id, value: Message -> int, floor: int) returns (most: int)
      ensures IsLargest(View(), f, value, floor, most)
    {
      most := floor;
      var rest := messages.Keys;
      while rest != {}
        invariant rest <= messages.Keys && most >= floor
        invariant forall id :: id in messages && id !in rest && messages[id].folder == f ==> value(messages[id]) <= most
        invariant most == floor ||
          exists id :: id in messages && messages[id].folder == f && value(messages[id]) == most
      {
        var id :| id in rest;
        rest := rest - {id};
        if messages[id].folder == f && value(messages[id]) > most {
          most := value(messages[id]);
        }
      }
    }

    /** Numbers what has no UID yet, then lifts the counters above everything found. */
    method BackfillFolderUids(f: Id) returns (ghost ids: seq<Id>)
      requires Sound(View()) && f in folders
      modifies this
      ensures Lists(ids, old(View()), Unnumbered(f))
      ensures HasRoom(old(View()), f, |ids|) ==> View() == PlaceAll(old(View()), ids, f)
    {
      ghost var start := View();
      var found := Select(Unnumbered(f));
      ids := found;
      Renumber(found, f);
      var maxUid := Largest(f, UidOf(), 0);
      var maxModSeq := Largest(f, ModSeqOf(), 1);
      if HasRoom(start, f, |ids|) {
        PlaceAllKeeps(start, ids, f);
        LiftIsIdle(View(), f, maxUid, maxModSeq);
      }
      folders := folders[f := Folder(Max(folders[f].uidNext, Wrap(maxUid + 1)), Max(folders[f].highest, maxModSeq))];
    }
  }
}

/**
  Incremental Maildir sync: a cache of directory signatures lets a run skip directories that
  have not changed since all their files were handled without error.

  Files and rows may change between any two actions of a run: mail arrives, other programs
  rename files, the API moves messages. The one thing assumed of the file system is that a
  directory whose entries changed shows a signature it never showed before.

  Handling a file need not give it a row: a second copy of a catch-all message is accepted
  without one, and a second copy in a mailbox folder is deleted, or left in place without a
  word when it cannot be. And a row may go while its file stays: with the user it belonged to,
  or because the file could not be removed.
 */
module MaildirSync {
  import opened Common

  type Dir = nat
  type File = nat
  type Path = (Dir, File)

  const FULL_SCAN_EVERY := 20

  /** What `stat` tells of a directory; a missing one has its own fixed signature. */
  datatype Signature = NoDirectory | Stamp(n: nat)

  datatype DirState = DirState(stamp: nat, files: set<File>)

  /**
    Directories with the message files in them, and `rows`, the paths that message rows refer
    to. Every stamp in use lies below `nextStamp`. The rest is history: `handled` says which
    files were handled without error while their directory had which stamp, `copies` which of
    those were accepted without a row, and `dropped` which files lost their row and stayed.
   */
  datatype World = World(
    dirs: map<Dir, DirState>,
    nextStamp: nat,
    rows: set<Path>,
    handled: set<(Dir, nat, File)>,
    copies: set<(Dir, nat, File)>,
    dropped: set<(Dir, nat, File)>)

  /**
    Which directories hold catch-all mail, which belong to the same folder, which files are
    copies of one message for the same recipient or mailbox, and which of several rows the
    query for one to take over names first.
   */
  datatype Layout = Layout(
    catchAll: Dir -> bool,
    sameFolder: (Dir, Dir) -> bool,
    twins: (Path, Path) -> bool,
    first: (Path, set<Path>) -> Path)

  ghost predicate Proper(layout: Layout) {
    forall p: Path, among: set<Path> :: among != {} ==> layout.first(p, among) in among
  }

  function SignatureOf(w: World, d: Dir): Signature {
    if d in w.dirs then Stamp(w.dirs[d].stamp) else NoDirectory
  }

  function FilesIn(w: World, d: Dir): set<File> {
    if d in w.dirs then w.dirs[d].files else {}
  }

  /** The file was handled while its directory was as it is now. */
  predicate HandledNow(w: World, d: Dir, f: File) {
    d in w.dirs && (d, w.dirs[d].stamp, f) in w.handled
  }

  /** The file was accepted without a row, or lost its row, while its directory was as it is now. */
  predicate Rowless(w: World, d: Dir, f: File) {
    d in w.dirs && (d, w.dirs[d].stamp, f) in w.copies + w.dropped
  }

  /** What history says of the present: a file handled as it is now has a row, or is known to have none. */
  ghost predicate HistoryOk(w: World) {
    && (forall d :: d in w.dirs ==> w.dirs[d].stamp < w.nextStamp)
    && (forall d, n, f :: (d, n, f) in w.handled ==> n < w.nextStamp)
    && (forall d, n, f :: (d, n, f) in w.copies ==> (d, n, f) in w.handled)
    && (forall d, n, f :: (d, n, f) in w.dropped ==> n < w.nextStamp)
    && (forall d: Dir, f: File :: f in FilesIn(w, d) && HandledNow(w, d, f) ==> (d, f) in w.rows || Rowless(w, d, f))
  }

  /** Directory `d` is as it was, or gone, or carries a signature from after `a`. */
  ghost predicate DirEvolves(a: World, b: World, d: Dir) {
    d in b.dirs ==> (d in a.dirs && b.dirs[d] == a.dirs[d]) || b.dirs[d].stamp >= a.nextStamp
  }

  /** Only the rows of files that are there can be noted as dropped. */
  ghost predicate DropsNoted(a: World, b: World) {
    && a.dropped <= b.dropped
    && forall d, n, f :: (d, n, f) in b.dropped && (d, n, f) !in a.dropped ==>
        && n < b.nextStamp
        && (n >= a.nextStamp || (d in a.dirs && a.dirs[d].stamp == n && f in a.dirs[d].files))
  }

  /**
    Any number of changes by others. A row that is dropped while its file and directory stay
    as they are is noted.
   */
  ghost predicate Evolves(a: World, b: World) {
    && a.nextStamp <= b.nextStamp
    && (forall d :: d in b.dirs ==> b.dirs[d].stamp < b.nextStamp)
    && (forall d :: DirEvolves(a, b, d))
    && a.handled == b.handled && a.copies == b.copies && DropsNoted(a, b)
    && (forall d, f :: (d, f) in a.rows && d in a.dirs && d in b.dirs && b.dirs[d] == a.dirs[d] && f in b.dirs[d].files
          ==> (d, f) in b.rows || Rowless(b, d, f))
  }

  lemma HistoryStays(a: World, b: World)
    requires HistoryOk(a) && Evolves(a, b)
    ensures HistoryOk(b)
  {
    forall d: Dir, f: File | f in FilesIn(b, d) && HandledNow(b, d, f) ensures (d, f) in b.rows || Rowless(b, d, f) {
      assert DirEvolves(a, b, d);
      assert b.dirs[d] == a.dirs[d];
      assert f in FilesIn(a, d) && HandledNow(a, d, f);
    }
  }

  // ---------------------------------------------------------------- the cache

  type Cache = map<Dir, Signature>

  ghost predicate AllHandled(w: World, d: Dir) {
    forall f: File :: f in FilesIn(w, d) ==> HandledNow(w, d, f)
  }

  /** In a directory that still shows its cached signature every file has been handled as it is now. */
  ghost predicate CacheSound(w: World, cache: Cache) {
    && HistoryOk(w)
    && (forall d :: d in cache && cache[d].Stamp? ==> cache[d].n < w.nextStamp)
    && (forall d :: d in cache && cache[d] == SignatureOf(w, d) ==> AllHandled(w, d))
  }

  lemma AllHandledStays(a: World, b: World, d: Dir)
    requires AllHandled(a, d) && SignatureOf(a, d) == SignatureOf(b, d) && FilesIn(a, d) == FilesIn(b, d)
    requires a.handled <= b.handled
    ensures AllHandled(b, d)
  {
    forall f: File | f in FilesIn(b, d) ensures HandledNow(b, d, f) {
      assert f in FilesIn(a, d);
    }
  }

  lemma CacheStaysSound(a: World, b: World, cache: Cache)
    requires CacheSound(a, cache) && Evolves(a, b)
    ensures CacheSound(b, cache)
  {
    HistoryStays(a, b);
    forall d | d in cache && cache[d] == SignatureOf(b, d) ensures AllHandled(b, d) {
      assert DirEvolves(a, b, d);
      if d in b.dirs {
        assert b.dirs[d] == a.dirs[d];
        AllHandledStays(a, b, d);
      }
    }
  }

  /** Which directories an incremental run leaves out. */
  predicate Skips(w: World, cache: Cache, d: Dir) {
    d in cache && cache[d] == SignatureOf(w, d)
  }

  // ---------------------------------------------------------------- handling one file

  /** Another file with the same message for the same recipient or mailbox, with or without a row. */
  predicate SameMessage(layout: Layout, p: Path, q: Path) {
    q != p && layout.twins(p, q)
  }

  predicate IsTwin(layout: Layout, w: World, p: Path, q: Path) {
    q in w.rows && SameMessage(layout, p, q)
  }

  predicate HasTwin(layout: Layout, w: World, p: Path) {
    exists q :: q in w.rows && IsTwin(layout, w, p, q)
  }

  /** A twin whose own file is gone: its row can take over the new path. */
  predicate CanRelink(layout: Layout, w: World, p: Path, q: Path) {
    IsTwin(layout, w, p, q) && q.1 !in FilesIn(w, q.0)
  }

  predicate TwinInFolder(layout: Layout, w: World, p: Path) {
    exists q :: q in w.rows && IsTwin(layout, w, p, q) && layout.sameFolder(p.0, q.0)
  }

  function Relinkable(layout: Layout, w: World, p: Path): set<Path> {
    set q | q in w.rows && CanRelink(layout, w, p, q)
  }

  /** The file adds nothing to what the rows have, and there is no row it could take over. */
  predicate IsCopy(layout: Layout, w: World, p: Path) {
    if layout.catchAll(p.0) then HasTwin(layout, w, p)
    else Relinkable(layout, w, p) == {} && TwinInFolder(layout, w, p)
  }

  datatype Outcome = AlreadyKnown | Inserted | Relinked(from: Path) | Copy | Deleted

  /** What comes of a file that can be read and parsed; `stuck` tells that it cannot be removed. */
  function Verdict(layout: Layout, w: World, p: Path, stuck: bool): Outcome {
    if p in w.rows then AlreadyKnown
    else if layout.catchAll(p.0) then if HasTwin(layout, w, p) then Copy else Inserted
    else if Relinkable(layout, w, p) != {} then Relinked(layout.first(p, Relinkable(layout, w, p)))
    else if TwinInFolder(layout, w, p) then if stuck then Copy else Deleted
    else Inserted
  }

  /** Every row with the message names a file that is there. */
  ghost predicate TwinsAreThere(layout: Layout, w: World, p: Path) {
    forall q :: q in w.rows && SameMessage(layout, p, q) ==> q.1 in FilesIn(w, q.0)
  }

  /** In the file's own folder a row has its message. */
  ghost predicate FolderHasIt(layout: Layout, w: World, p: Path) {
    exists q :: q in w.rows && SameMessage(layout, p, q) && layout.sameFolder(p.0, q.0)
  }

  /**
    What comes of a new file in a mailbox folder. It takes over a row exactly when the file of
    some row with its message is gone, wherever that was. Otherwise it is removed, or left
    behind as a copy, only if a row in the same folder has its message, and else stored.
   */
  lemma NewFileOutcome(layout: Layout, w: World, p: Path, stuck: bool)
    requires Proper(layout) && p !in w.rows && !layout.catchAll(p.0)
    ensures var o := Verdict(layout, w, p, stuck);
      && (o.Relinked? <==> !TwinsAreThere(layout, w, p))
      && (o.Relinked? ==> o.from in w.rows && SameMessage(layout, p, o.from) && o.from.1 !in FilesIn(w, o.from.0))
      && (o == Inserted <==> TwinsAreThere(layout, w, p) && !FolderHasIt(layout, w, p))
      && (o == Deleted <==> TwinsAreThere(layout, w, p) && FolderHasIt(layout, w, p) && !stuck)
      && (o == Copy <==> TwinsAreThere(layout, w, p) && FolderHasIt(layout, w, p) && stuck)
  {
    VerdictMayBe(layout, w, p, stuck);
    if !TwinsAreThere(layout, w, p) {
      var q :| q in w.rows && SameMessage(layout, p, q) && q.1 !in FilesIn(w, q.0);
      assert q in Relinkable(layout, w, p);
    }
    if TwinInFolder(layout, w, p) {
      var q :| q in w.rows && IsTwin(layout, w, p, q) && layout.sameFolder(p.0, q.0);
      assert SameMessage(layout, p, q);
    }
    if FolderHasIt(layout, w, p) {
      var q :| q in w.rows && SameMessage(layout, p, q) && layout.sameFolder(p.0, q.0);
      assert IsTwin(layout, w, p, q);
    }
  }

  /** A new file in the catch-all is stored exactly when no row has its message, and never touched. */
  lemma NewCatchAllOutcome(layout: Layout, w: World, p: Path, stuck: bool)
    requires p !in w.rows && layout.catchAll(p.0)
    ensures var o := Verdict(layout, w, p, stuck);
      && (o == Inserted <==> forall q :: q in w.rows ==> !SameMessage(layout, p, q))
      && (o == Copy <==> exists q :: q in w.rows && SameMessage(layout, p, q))
      && After(w, p, o).dirs == w.dirs
  {
    if HasTwin(layout, w, p) {
      var q :| q in w.rows && IsTwin(layout, w, p, q);
      assert SameMessage(layout, p, q);
    }
    if q :| q in w.rows && SameMessage(layout, p, q) {
      assert IsTwin(layout, w, p, q);
    }
  }

  /** What may come of handling a file without error. */
  ghost predicate MayBe(layout: Layout, w: World, p: Path, o: Outcome) {
    match o
    case AlreadyKnown => p in w.rows
    case Inserted => p !in w.rows && !IsCopy(layout, w, p)
    case Relinked(q) => p !in w.rows && !layout.catchAll(p.0) && CanRelink(layout, w, p, q)
    case Copy => p !in w.rows && IsCopy(layout, w, p)
    case Deleted => p !in w.rows && IsCopy(layout, w, p) && !layout.catchAll(p.0)
  }

  lemma VerdictMayBe(layout: Layout, w: World, p: Path, stuck: bool)
    requires Proper(layout)
    ensures MayBe(layout, w, p, Verdict(layout, w, p, stuck))
  {
    var among := Relinkable(layout, w, p);
    assert among != {} ==> layout.first(p, among) in among;
  }

  /** The state afterwards, history apart. */
  function After(w: World, p: Path, o: Outcome): World {
    match o
    case AlreadyKnown => w
    case Inserted => w.(rows := w.rows + {p})
    case Relinked(q) => w.(rows := w.rows - {q} + {p})
    case Copy => w
    case Deleted =>
      if p.0 in w.dirs
      then w.(dirs := w.dirs[p.0 := DirState(w.nextStamp, w.dirs[p.0].files - {p.1})], nextStamp := w.nextStamp + 1)
      else w
  }

  /** Noted in history, if the directory still shows the signature it had before its listing. */
  function Noted(w: World, p: Path, o: Outcome, signature: Signature): World {
    if signature.NoDirectory? || SignatureOf(w, p.0) != signature then w
    else
      w.(handled := w.handled + {(p.0, signature.n, p.1)},
         copies := if o == Copy then w.copies + {(p.0, signature.n, p.1)} else w.copies)
  }

  /** Handling one file, together with the note in history. */
  function Handle(w: World, p: Path, o: Outcome, signature: Signature): World {
    Noted(After(w, p, o), p, o, signature)
  }

  /** The row that moves is one whose file is gone, so no file that is there loses its row. */
  lemma AfterKeepsRows(layout: Layout, w: World, p: Path, o: Outcome, q: Path)
    requires MayBe(layout, w, p, o) && p.1 in FilesIn(w, p.0)
    requires q in w.rows && q.1 in FilesIn(After(w, p, o), q.0)
    ensures q in After(w, p, o).rows
  {
  }

  lemma AfterKeepsHistory(layout: Layout, w: World, p: Path, o: Outcome)
    requires HistoryOk(w) && MayBe(layout, w, p, o) && p.1 in FilesIn(w, p.0)
    ensures HistoryOk(After(w, p, o))
    ensures o != Deleted && o != Copy ==> p in After(w, p, o).rows
  {
    var t := After(w, p, o);
    forall d: Dir, f: File | f in FilesIn(t, d) && HandledNow(t, d, f) ensures (d, f) in t.rows || Rowless(t, d, f) {
      if (d, f) in w.rows {
        AfterKeepsRows(layout, w, p, o, (d, f));
      }
    }
  }

  lemma HandleKeepsHistory(layout: Layout, w: World, p: Path, o: Outcome, signature: Signature)
    requires HistoryOk(w) && MayBe(layout, w, p, o) && p.1 in FilesIn(w, p.0)
    requires signature.Stamp? ==> signature.n < w.nextStamp
    ensures HistoryOk(Handle(w, p, o, signature))
  {
    AfterKeepsHistory(layout, w, p, o);
    var t := After(w, p, o);
    var u := Noted(t, p, o, signature);
    forall d: Dir, f: File | f in FilesIn(u, d) && HandledNow(u, d, f) ensures (d, f) in u.rows || Rowless(u, d, f) {
      if (d, f) != p {
        assert HandledNow(t, d, f);
      }
    }
  }

  lemma HandleKeepsCache(layout: Layout, w: World, cache: Cache, p: Path, o: Outcome, signature: Signature)
    requires CacheSound(w, cache) && MayBe(layout, w, p, o) && p.1 in FilesIn(w, p.0)
    requires signature.Stamp? ==> signature.n < w.nextStamp
    ensures CacheSound(Handle(w, p, o, signature), cache)
  {
    var u := Handle(w, p, o, signature);
    HandleKeepsHistory(layout, w, p, o, signature);
    forall d | d in cache && cache[d] == SignatureOf(u, d) ensures AllHandled(u, d) {
      assert d in u.dirs ==> d in w.dirs && u.dirs[d] == w.dirs[d];
      AllHandledStays(w, u, d);
    }
  }

  /** A scan would give this file a row. */
  predicate WouldGain(layout: Layout, w: World, p: Path, stuck: bool) {
    p.1 in FilesIn(w, p.0) && p !in w.rows && p in After(w, p, Verdict(layout, w, p, stuck)).rows
  }

  /**
    A file that is there without a row, because it was accepted as a copy or its row was dropped,
    and is no copy now: the rows of its twins have gone, if there were any, or the file of one.
   */
  predicate Orphaned(layout: Layout, w: World, p: Path) {
    p.1 in FilesIn(w, p.0) && Rowless(w, p.0, p.1) && p !in w.rows && !IsCopy(layout, w, p)
  }

  lemma CopiesGainNothing(layout: Layout, w: World, p: Path, stuck: bool)
    requires p !in w.rows
    ensures p in After(w, p, Verdict(layout, w, p, stuck)).rows <==> !IsCopy(layout, w, p)
  {
  }

  /**
    In a directory that is skipped, a full scan would give a row to exactly the files that
    have been orphaned while their directory stayed as it was.
   */
  lemma SkippedIsMissedIff(layout: Layout, w: World, cache: Cache, p: Path, stuck: bool)
    requires CacheSound(w, cache) && Skips(w, cache, p.0)
    ensures WouldGain(layout, w, p, stuck) <==> Orphaned(layout, w, p)
  {
    if p !in w.rows {
      CopiesGainNothing(layout, w, p, stuck);
    }
    assert AllHandled(w, p.0);
  }

  // ---------------------------------------------------------------- how a file is orphaned

  /** The file of `q` goes, and its row with it. */
  function Without(w: World, q: Path): World
    requires q.0 in w.dirs
  {
    w.(dirs := w.dirs[q.0 := DirState(w.nextStamp, w.dirs[q.0].files - {q.1})],
       nextStamp := w.nextStamp + 1,
       rows := w.rows - {q})
  }

  /**
    When the only twin of an accepted copy goes, in another directory, the cache stays sound,
    the copy's directory is still skipped, and the copy is orphaned.
   */
  lemma LosingTheTwinOrphans(layout: Layout, w: World, cache: Cache, p: Path, q: Path)
    requires CacheSound(w, cache) && Skips(w, cache, p.0) && q.0 in w.dirs && q.0 != p.0
    requires p.1 in FilesIn(w, p.0) && Rowless(w, p.0, p.1) && p !in w.rows
    requires forall r :: r in w.rows && layout.twins(p, r) ==> r == q
    ensures var t := Without(w, q);
      Evolves(w, t) && CacheSound(t, cache) && Skips(t, cache, p.0) && Orphaned(layout, t, p)
  {
    var t := Without(w, q);
    assert Evolves(w, t);
    CacheStaysSound(w, t, cache);
  }

  /** These rows go, and the files that are there stay. */
  function DropRows(w: World, gone: set<Path>): World {
    w.(rows := w.rows - gone,
       dropped := w.dropped
         + set p | p in gone && p in w.rows && p.1 in FilesIn(w, p.0) :: (p.0, w.dirs[p.0].stamp, p.1))
  }

  /** Whatever rows are dropped: the cache stays sound, the same directories are skipped, and a
      file that lost its row is orphaned unless there is still a copy of it. */
  lemma DroppingOrphans(layout: Layout, w: World, cache: Cache, gone: set<Path>, p: Path)
    requires CacheSound(w, cache) && p in gone && p in w.rows && p.1 in FilesIn(w, p.0)
    ensures var t := DropRows(w, gone);
      && Evolves(w, t) && CacheSound(t, cache) && (Skips(t, cache, p.0) <==> Skips(w, cache, p.0))
      && (Orphaned(layout, t, p) <==> !IsCopy(layout, t, p))
  {
    var t := DropRows(w, gone);
    assert DropsNoted(w, t);
    assert Evolves(w, t);
    CacheStaysSound(w, t, cache);
  }

  /**
    When all rows of a message are dropped, as they are with the user who owned them, its files
    in skipped directories are missed by every run but a full scan, which would import them.
   */
  lemma DroppedRowsAreMissed(layout: Layout, w: World, cache: Cache, gone: set<Path>, p: Path, stuck: bool)
    requires CacheSound(w, cache) && Skips(w, cache, p.0) && p in gone && p in w.rows && p.1 in FilesIn(w, p.0)
    requires forall r :: r in w.rows && layout.twins(p, r) ==> r in gone
    ensures var t := DropRows(w, gone);
      Evolves(w, t) && CacheSound(t, cache) && Skips(t, cache, p.0) && WouldGain(layout, t, p, stuck)
  {
    var t := DropRows(w, gone);
    DroppingOrphans(layout, w, cache, gone, p);
    assert !IsCopy(layout, t, p);
    SkippedIsMissedIff(layout, t, cache, p, stuck);
  }

  /** The plainest case: a file is imported, its directory remembered, and its row deleted. */
  lemma DeletedRowIsMissed(layout: Layout, w: World, cache: Cache)
    requires w == World(map[0 := DirState(0, {0})], 1, {}, {}, {}, {}) && cache == map[0 := Stamp(0)]
    ensures var a := Handle(w, (0, 0), Verdict(layout, w, (0, 0), false), Stamp(0));
      var t := DropRows(a, {(0, 0)});
      CacheSound(a, cache) && Evolves(a, t) && Skips(t, cache, 0) && WouldGain(layout, t, (0, 0), false)
  {
    assert Relinkable(layout, w, (0, 0)) == {};
    var a := Handle(w, (0, 0), Verdict(layout, w, (0, 0), false), Stamp(0));
    assert a == World(w.dirs, 1, {(0, 0)}, {(0, 0, 0)}, {}, {});
    DroppedRowsAreMissed(layout, a, cache, {(0, 0)}, (0, 0), false);
  }

  /** Two copies of one message in the directories 0 and 1 of one folder. */
  const TWO_COPIES := Layout(
    d => false, (d, e) => true, (p, q) => true, (p, among) => if (0, 0) in among then (0, 0) else (1, 1))

  const BEFORE := World(map[0 := DirState(0, {0}), 1 := DirState(1, {1})], 2, {}, {}, {}, {})

  lemma FirstIsImported()
    ensures Handle(BEFORE, (0, 0), Verdict(TWO_COPIES, BEFORE, (0, 0), false), Stamp(0)) ==
      World(BEFORE.dirs, 2, {(0, 0)}, {(0, 0, 0)}, {}, {})
  {
    assert Relinkable(TWO_COPIES, BEFORE, (0, 0)) == {};
  }

  lemma SecondIsKept(a: World)
    requires a == World(BEFORE.dirs, 2, {(0, 0)}, {(0, 0, 0)}, {}, {})
    ensures Handle(a, (1, 1), Verdict(TWO_COPIES, a, (1, 1), true), Stamp(1)) ==
      World(BEFORE.dirs, 2, {(0, 0)}, {(0, 0, 0), (1, 1, 1)}, {(1, 1, 1)}, {})
  {
    assert IsTwin(TWO_COPIES, a, (1, 1), (0, 0));
    assert Relinkable(TWO_COPIES, a, (1, 1)) == {};
  }

  /** The scan imports the first copy, cannot remove the second, and remembers both directories. */
  lemma FailedRemovalIsCached(cache: Cache)
    requires cache == map[0 := Stamp(0), 1 := Stamp(1)]
    ensures var a := Handle(BEFORE, (0, 0), Verdict(TWO_COPIES, BEFORE, (0, 0), false), Stamp(0));
      var b := Handle(a, (1, 1), Verdict(TWO_COPIES, a, (1, 1), true), Stamp(1));
      && b == World(BEFORE.dirs, 2, {(0, 0)}, {(0, 0, 0), (1, 1, 1)}, {(1, 1, 1)}, {})
      && CacheSound(b, cache)
  {
    FirstIsImported();
    SecondIsKept(World(BEFORE.dirs, 2, {(0, 0)}, {(0, 0, 0)}, {}, {}));
    BothAreHandled(World(BEFORE.dirs, 2, {(0, 0)}, {(0, 0, 0), (1, 1, 1)}, {(1, 1, 1)}, {}), cache);
  }

  lemma BothAreHandled(b: World, cache: Cache)
    requires cache == map[0 := Stamp(0), 1 := Stamp(1)]
    requires b == World(BEFORE.dirs, 2, {(0, 0)}, {(0, 0, 0), (1, 1, 1)}, {(1, 1, 1)}, {})
    ensures CacheSound(b, cache)
  {
  }

  /** After which the first copy goes, and the second is missed by every run but a full scan. */
  lemma FailedRemovalIsMissed(w: World, cache: Cache)
    requires w == World(BEFORE.dirs, 2, {(0, 0)}, {(0, 0, 0), (1, 1, 1)}, {(1, 1, 1)}, {})
    requires cache == map[0 := Stamp(0), 1 := Stamp(1)] && CacheSound(w, cache)
    ensures var t := Without(w, (0, 0));
      Evolves(w, t) && CacheSound(t, cache) && Skips(t, cache, 1) && WouldGain(TWO_COPIES, t, (1, 1), true)
  {
    LosingTheTwinOrphans(TWO_COPIES, w, cache, (1, 1), (0, 0));
    SkippedIsMissedIff(TWO_COPIES, Without(w, (0, 0)), cache, (1, 1), true);
  }

  // ---------------------------------------------------------------- two scans, one leaving directories out

  /** One file, if it is still there; history apart. `stuck` are the files that cannot be removed. */
  function ScanOne(layout: Layout, stuck: set<Path>, w: World, p: Path): World {
    if p.1 in FilesIn(w, p.0) then After(w, p, Verdict(layout, w, p, p in stuck)) else w
  }

  /** One file after the other. */
  function ScanEach(layout: Layout, stuck: set<Path>, w: World, paths: seq<Path>): World {
    if paths == [] then w
    else ScanOne(layout, stuck, ScanEach(layout, stuck, w, paths[..|paths| - 1]), paths[|paths| - 1])
  }

  /** The message of that file has a row in the file's own folder, and the row's file is there. */
  ghost predicate Represented(layout: Layout, w: World, p: Path) {
    || (p in w.rows && p.1 in FilesIn(w, p.0))
    || exists q :: q in w.rows && SameMessage(layout, p, q) && layout.sameFolder(p.0, q.0) && q.1 in FilesIn(w, q.0)
  }

  lemma ScannedIsRepresented(layout: Layout, stuck: set<Path>, w: World, p: Path)
    requires Proper(layout) && !layout.catchAll(p.0) && p.1 in FilesIn(w, p.0)
    ensures Represented(layout, ScanOne(layout, stuck, w, p), p)
  {
    VerdictMayBe(layout, w, p, p in stuck);
    if p !in w.rows {
      NewFileOutcome(layout, w, p, p in stuck);
      if Verdict(layout, w, p, p in stuck) in {Deleted, Copy} {
        var q :| q in w.rows && SameMessage(layout, p, q) && layout.sameFolder(p.0, q.0);
        assert q.1 in FilesIn(ScanOne(layout, stuck, w, p), q.0);
      }
    }
  }

  lemma RepresentedStays(layout: Layout, stuck: set<Path>, w: World, p: Path, q: Path)
    requires Proper(layout) && Represented(layout, w, p)
    ensures Represented(layout, ScanOne(layout, stuck, w, q), p)
  {
    VerdictMayBe(layout, w, q, q in stuck);
    var t := ScanOne(layout, stuck, w, q);
    assert forall r :: r in w.rows && r.1 in FilesIn(w, r.0) ==> r in t.rows && r.1 in FilesIn(t, r.0);
  }

  lemma {:induction false} OtherFilesStay(layout: Layout, stuck: set<Path>, w: World, paths: seq<Path>, p: Path)
    requires p !in paths && p.1 in FilesIn(w, p.0)
    ensures p.1 in FilesIn(ScanEach(layout, stuck, w, paths), p.0)
  {
    if paths != [] {
      OtherFilesStay(layout, stuck, w, paths[..|paths| - 1], p);
    }
  }

  /**
    Whatever a scan removes, relinks or leaves behind: every message it held a readable file of
    in a mailbox folder has a row in that folder afterwards, with a file that is there.
   */
  lemma {:induction false} NothingIsLost(layout: Layout, stuck: set<Path>, w: World, paths: seq<Path>, p: Path)
    requires Proper(layout) && p in paths && !layout.catchAll(p.0) && p.1 in FilesIn(w, p.0)
    ensures Represented(layout, ScanEach(layout, stuck, w, paths), p)
  {
    var init, last := paths[..|paths| - 1], paths[|paths| - 1];
    if p in init {
      NothingIsLost(layout, stuck, w, init, p);
      RepresentedStays(layout, stuck, ScanEach(layout, stuck, w, init), p, last);
    } else {
      OtherFilesStay(layout, stuck, w, init, p);
      ScannedIsRepresented(layout, stuck, ScanEach(layout, stuck, w, init), p);
    }
  }

  function Unskipped(paths: seq<Path>, skip: set<Dir>): seq<Path> {
    if paths == [] then []
    else Unskipped(paths[..|paths| - 1], skip) + if paths[|paths| - 1].0 in skip then [] else [paths[|paths| - 1]]
  }

  predicate SameThere(a: World, b: World, q: Path) {
    q.1 in FilesIn(a, q.0) <==> q.1 in FilesIn(b, q.0)
  }

  /** The same rows, and the same files as far as rows and what is still to come are concerned. */
  ghost predicate Alike(a: World, b: World, handled: seq<Path>) {
    a.rows == b.rows && forall q :: q in a.rows || q !in handled ==> SameThere(a, b, q)
  }

  /** A row that the one scan has given out and the other never will. */
  ghost predicate Apart(a: World, b: World, handled: seq<Path>) {
    exists p :: p in handled && p in a.rows && p.1 in FilesIn(a, p.0) && p !in b.rows
  }

  lemma VerdictAlike(layout: Layout, a: World, b: World, p: Path, stuck: bool)
    requires a.rows == b.rows && forall q :: q in a.rows ==> SameThere(a, b, q)
    ensures Verdict(layout, a, p, stuck) == Verdict(layout, b, p, stuck)
    ensures IsCopy(layout, a, p) <==> IsCopy(layout, b, p)
  {
    assert forall q :: CanRelink(layout, a, p, q) <==> CanRelink(layout, b, p, q);
    assert Relinkable(layout, a, p) == Relinkable(layout, b, p);
    assert forall q :: IsTwin(layout, a, p, q) <==> IsTwin(layout, b, p, q);
  }

  lemma ScanOneAlike(layout: Layout, stuck: set<Path>, a: World, b: World, handled: seq<Path>, p: Path)
    requires Alike(a, b, handled) && p !in handled
    ensures Alike(ScanOne(layout, stuck, a, p), ScanOne(layout, stuck, b, p), handled + [p])
  {
    VerdictAlike(layout, a, b, p, p in stuck);
    assert SameThere(a, b, p);
  }

  lemma LeavingOutAlike(layout: Layout, stuck: set<Path>, a: World, b: World, handled: seq<Path>, p: Path)
    requires Alike(a, b, handled) && p !in handled
    requires p.1 in FilesIn(b, p.0) && p !in b.rows ==> IsCopy(layout, b, p)
    ensures Alike(ScanOne(layout, stuck, a, p), b, handled + [p])
  {
    VerdictAlike(layout, a, b, p, p in stuck);
    assert SameThere(a, b, p);
  }

  lemma LeavingOutParts(layout: Layout, stuck: set<Path>, a: World, b: World, handled: seq<Path>, p: Path)
    requires Alike(a, b, handled) && p !in handled
    requires p.1 in FilesIn(b, p.0) && p !in b.rows && !IsCopy(layout, b, p)
    ensures Apart(ScanOne(layout, stuck, a, p), b, handled + [p])
  {
    VerdictAlike(layout, a, b, p, p in stuck);
    assert SameThere(a, b, p);
    CopiesGainNothing(layout, a, p, p in stuck);
    assert p in (handled + [p]);
  }

  /** A row whose file is there is not taken over, and only the file itself is given one. */
  lemma RowStays(layout: Layout, stuck: set<Path>, w: World, p: Path, q: Path)
    requires Proper(layout) && q != p
    ensures q in w.rows && q.1 in FilesIn(w, q.0) ==>
      q in ScanOne(layout, stuck, w, p).rows && q.1 in FilesIn(ScanOne(layout, stuck, w, p), q.0)
    ensures q !in w.rows ==> q !in ScanOne(layout, stuck, w, p).rows
  {
    VerdictMayBe(layout, w, p, p in stuck);
  }

  lemma ApartStays(layout: Layout, stuck: set<Path>, a: World, b: World, handled: seq<Path>, p: Path, both: bool)
    requires Proper(layout) && Apart(a, b, handled) && p !in handled
    ensures Apart(ScanOne(layout, stuck, a, p), if both then ScanOne(layout, stuck, b, p) else b, handled + [p])
  {
    var q :| q in handled && q in a.rows && q.1 in FilesIn(a, q.0) && q !in b.rows;
    RowStays(layout, stuck, a, p, q);
    RowStays(layout, stuck, b, p, q);
    assert q in (handled + [p]);
  }

  /** What the shorter scan has come to before file `k`. */
  function Shorter(layout: Layout, stuck: set<Path>, w: World, paths: seq<Path>, skip: set<Dir>, k: nat): World
    requires k <= |paths|
  {
    ScanEach(layout, stuck, w, Unskipped(paths[..k], skip))
  }

  /** No file that is left out is orphaned when its turn comes. */
  ghost predicate NoneOrphaned(layout: Layout, stuck: set<Path>, w: World, paths: seq<Path>, skip: set<Dir>) {
    forall k :: 0 <= k < |paths| && paths[k].0 in skip ==>
      !Orphaned(layout, Shorter(layout, stuck, w, paths, skip, k), paths[k])
  }

  lemma NoneOrphanedLast(layout: Layout, stuck: set<Path>, w: World, paths: seq<Path>, skip: set<Dir>)
    requires paths != []
    ensures var n := |paths| - 1;
      NoneOrphaned(layout, stuck, w, paths, skip) <==>
        NoneOrphaned(layout, stuck, w, paths[..n], skip) &&
        (paths[n].0 in skip ==> !Orphaned(layout, Shorter(layout, stuck, w, paths, skip, n), paths[n]))
  {
    var n := |paths| - 1;
    assert forall k :: 0 <= k <= n ==> paths[..n][..k] == paths[..k];
    assert forall k :: 0 <= k < n ==> paths[..n][k] == paths[k];
  }

  /** The directories left out stay as they are, and what history says of them stays true. */
  lemma {:induction false} SkippedStays(layout: Layout, stuck: set<Path>, w: World, paths: seq<Path>, d: Dir)
    requires Proper(layout) && HistoryOk(w) && AllHandled(w, d)
    requires forall p :: p in paths ==> p.0 != d
    ensures var t := ScanEach(layout, stuck, w, paths); HistoryOk(t) && AllHandled(t, d)
  {
    if paths != [] {
      var before, p := paths[..|paths| - 1], paths[|paths| - 1];
      var t := ScanEach(layout, stuck, w, before);
      SkippedStays(layout, stuck, w, before, d);
      VerdictMayBe(layout, t, p, p in stuck);
      if p.1 in FilesIn(t, p.0) {
        AfterKeepsHistory(layout, t, p, Verdict(layout, t, p, p in stuck));
      }
      AllHandledStays(t, ScanOne(layout, stuck, t, p), d);
    }
  }

  lemma {:induction false} UnskippedAreOutside(paths: seq<Path>, skip: set<Dir>)
    ensures forall p :: p in Unskipped(paths, skip) ==> p.0 !in skip && p in paths
  {
    if paths != [] {
      UnskippedAreOutside(paths[..|paths| - 1], skip);
    }
  }

  lemma OrphanedWhen(layout: Layout, stuck: set<Path>, w: World, paths: seq<Path>, skip: set<Dir>, p: Path)
    requires Proper(layout) && HistoryOk(w) && AllHandled(w, p.0) && p.0 in skip
    ensures var t := ScanEach(layout, stuck, w, Unskipped(paths, skip));
      Orphaned(layout, t, p) <==> p.1 in FilesIn(t, p.0) && p !in t.rows && !IsCopy(layout, t, p)
  {
    UnskippedAreOutside(paths, skip);
    SkippedStays(layout, stuck, w, Unskipped(paths, skip), p.0);
  }

  /** How two scans, the second leaving directories out, have come out so far. */
  ghost predicate SoFar(layout: Layout, stuck: set<Path>, w: World, a: World, b: World, paths: seq<Path>,
                        skip: set<Dir>) {
    if NoneOrphaned(layout, stuck, w, paths, skip) then Alike(a, b, paths) else Apart(a, b, paths)
  }

  lemma ScanLast(layout: Layout, stuck: set<Path>, w: World, paths: seq<Path>, skip: set<Dir>)
    requires paths != []
    ensures var before, p := paths[..|paths| - 1], paths[|paths| - 1];
      var t := ScanEach(layout, stuck, w, Unskipped(before, skip));
      && ScanEach(layout, stuck, w, paths) == ScanOne(layout, stuck, ScanEach(layout, stuck, w, before), p)
      && ScanEach(layout, stuck, w, Unskipped(paths, skip)) == if p.0 in skip then t else ScanOne(layout, stuck, t, p)
  {
    var before, p := paths[..|paths| - 1], paths[|paths| - 1];
    if p.0 in skip {
      assert Unskipped(before, skip) + [] == Unskipped(before, skip);
    } else {
      assert (Unskipped(before, skip) + [p])[..|Unskipped(before, skip)|] == Unskipped(before, skip);
    }
  }

  lemma {:induction false} ScansAgree(layout: Layout, stuck: set<Path>, w: World, paths: seq<Path>, skip: set<Dir>)
    requires Proper(layout) && HistoryOk(w) && NoRepeats(paths) && forall d :: d in skip ==> AllHandled(w, d)
    ensures SoFar(layout, stuck, w, ScanEach(layout, stuck, w, paths),
                  ScanEach(layout, stuck, w, Unskipped(paths, skip)), paths, skip)
  {
    if paths != [] {
      var before, p := paths[..|paths| - 1], paths[|paths| - 1];
      assert before + [p] == paths;
      ScansAgree(layout, stuck, w, before, skip);
      NoneOrphanedLast(layout, stuck, w, paths, skip);
      ScansAgreeOnce(layout, stuck, w, before, skip, p);
      ScanLast(layout, stuck, w, paths, skip);
    }
  }

  lemma ScansAgreeOnce(layout: Layout, stuck: set<Path>, w: World, before: seq<Path>, skip: set<Dir>, p: Path)
    requires Proper(layout) && HistoryOk(w) && p !in before && forall d :: d in skip ==> AllHandled(w, d)
    requires SoFar(layout, stuck, w, ScanEach(layout, stuck, w, before),
                   ScanEach(layout, stuck, w, Unskipped(before, skip)), before, skip)
    ensures var a := ScanOne(layout, stuck, ScanEach(layout, stuck, w, before), p);
      var t := ScanEach(layout, stuck, w, Unskipped(before, skip));
      var b := if p.0 in skip then t else ScanOne(layout, stuck, t, p);
      if NoneOrphaned(layout, stuck, w, before, skip) && (p.0 in skip ==> !Orphaned(layout, t, p))
      then Alike(a, b, before + [p]) else Apart(a, b, before + [p])
  {
    var a, b := ScanEach(layout, stuck, w, before), ScanEach(layout, stuck, w, Unskipped(before, skip));
    if !NoneOrphaned(layout, stuck, w, before, skip) {
      ApartStays(layout, stuck, a, b, before, p, p.0 !in skip);
    } else if p.0 !in skip {
      ScanOneAlike(layout, stuck, a, b, before, p);
    } else {
      OrphanedWhen(layout, stuck, w, before, skip, p);
      if Orphaned(layout, b, p) {
        LeavingOutParts(layout, stuck, a, b, before, p);
      } else {
        LeavingOutAlike(layout, stuck, a, b, before, p);
      }
    }
  }

  /**
    A full scan and one that leaves the skipped directories out, over the same files in the
    same order, end with the same rows exactly when no file that is left out is orphaned when
    its turn comes.
   */
  lemma IncrementalAgreesIff(layout: Layout, stuck: set<Path>, w: World, cache: Cache, paths: seq<Path>, skip: set<Dir>)
    requires Proper(layout) && CacheSound(w, cache) && NoRepeats(paths)
    requires forall d :: d in skip ==> Skips(w, cache, d)
    ensures ScanEach(layout, stuck, w, paths).rows == ScanEach(layout, stuck, w, Unskipped(paths, skip)).rows <==>
      NoneOrphaned(layout, stuck, w, paths, skip)
  {
    assert forall d :: d in skip ==> AllHandled(w, d);
    assert paths[..|paths|] == paths;
    ScansAgree(layout, stuck, w, paths, skip);
  }
}

/**
  One run of the incremental Maildir sync, in place: stat every directory, scan those that do
  not show their cached signature, stat them again, and forget rows whose file is gone.
 */
module MaildirSyncer {
  import opened Common
  import opened MaildirSync

  // ---------------------------------------------------------------- while a directory is scanned

  /**
    As long as the directory shows the signature read before its listing: the listing covers
    it, the files done have been handled as they are, and files in the snapshot of known paths
    have rows.
   */
  ghost predicate ScanCovers(w: World, d: Dir, signature: Signature, listing: set<File>, done: set<File>,
                             snap: set<Path>) {
    && (signature.Stamp? ==> signature.n < w.nextStamp)
    && (SignatureOf(w, d) == signature ==>
          && FilesIn(w, d) <= listing
          && (forall f: File :: f in done && f in FilesIn(w, d) ==> HandledNow(w, d, f))
          && SnapHolds(w, d, snap))
  }

  ghost predicate SnapHolds(w: World, d: Dir, snap: set<Path>) {
    forall f: File :: f in FilesIn(w, d) && (d, f) in snap ==> (d, f) in w.rows || Rowless(w, d, f)
  }

  /** For a directory not yet listed. */
  ghost predicate SnapCovers(w: World, d: Dir, signature: Signature, snap: set<Path>) {
    && (signature.Stamp? ==> signature.n < w.nextStamp)
    && (SignatureOf(w, d) == signature ==> SnapHolds(w, d, snap))
  }

  lemma SnapStaysCovering(a: World, b: World, d: Dir, signature: Signature, snap: set<Path>)
    requires SnapCovers(a, d, signature, snap) && Evolves(a, b)
    ensures SnapCovers(b, d, signature, snap)
  {
    assert DirEvolves(a, b, d);
  }

  /**
    The heart of the cache: if the signature read before the listing shows again after it,
    nothing slipped in between the two, however much happened meanwhile.
   */
  lemma ScanStaysCovering(a: World, b: World, d: Dir, signature: Signature, listing: set<File>, done: set<File>,
                          snap: set<Path>)
    requires ScanCovers(a, d, signature, listing, done, snap) && Evolves(a, b)
    ensures ScanCovers(b, d, signature, listing, done, snap)
  {
    assert DirEvolves(a, b, d);
    SnapStaysCovering(a, b, d, signature, snap);
  }

  lemma HandleKeepsScan(layout: Layout, w: World, p: Path, o: Outcome, signature: Signature,
                        listing: set<File>, done: set<File>, snap: set<Path>)
    requires HistoryOk(w) && MayBe(layout, w, p, o) && p.1 in FilesIn(w, p.0)
    requires ScanCovers(w, p.0, signature, listing, done, snap)
    ensures ScanCovers(Handle(w, p, o, signature), p.0, signature, listing, done + {p.1}, snap)
  {
    var u := Handle(w, p, o, signature);
    if SignatureOf(u, p.0) == signature {
      forall f: File | f in FilesIn(u, p.0) && (p.0, f) in snap
        ensures (p.0, f) in u.rows || Rowless(u, p.0, f)
      {
        if (p.0, f) in w.rows {
          AfterKeepsRows(layout, w, p, o, (p.0, f));
        }
      }
    }
  }

  /** The same for a file that was known at the start and is left alone. */
  lemma KnownKeepsScan(w: World, p: Path, signature: Signature, listing: set<File>, done: set<File>, snap: set<Path>)
    requires HistoryOk(w) && p in snap && ScanCovers(w, p.0, signature, listing, done, snap)
    ensures var u := Noted(w, p, AlreadyKnown, signature);
      HistoryOk(u) && ScanCovers(u, p.0, signature, listing, done + {p.1}, snap)
  {
    var u := Noted(w, p, AlreadyKnown, signature);
    forall d: Dir, f: File | f in FilesIn(u, d) && HandledNow(u, d, f) ensures (d, f) in u.rows || Rowless(u, d, f) {
      if (d, f) != p {
        assert HandledNow(w, d, f);
      }
    }
  }

  lemma NotedKeepsCache(w: World, cache: Cache, p: Path, signature: Signature)
    requires CacheSound(w, cache) && HistoryOk(Noted(w, p, AlreadyKnown, signature))
    ensures CacheSound(Noted(w, p, AlreadyKnown, signature), cache)
  {
    var u := Noted(w, p, AlreadyKnown, signature);
    forall d | d in cache && cache[d] == SignatureOf(u, d) ensures AllHandled(u, d) {
      AllHandledStays(w, u, d);
    }
  }

  lemma NotedKeepsSnap(w: World, p: Path, signature: Signature, snap: set<Path>)
    ensures SnapPersists(w, Noted(w, p, AlreadyKnown, signature), snap)
  {
  }

  // ---------------------------------------------------------------- forgetting rows

  /** The file is missing, and should it be there again it will not have been handled as it is. */
  ghost predicate Gone(w: World, p: Path) {
    p.1 in FilesIn(w, p.0) ==> !HandledNow(w, p.0, p.1)
  }

  lemma GoneStaysGone(a: World, b: World, p: Path)
    requires HistoryOk(a) && Evolves(a, b) && Gone(a, p)
    ensures Gone(b, p)
  {
    assert DirEvolves(a, b, p.0);
  }

  lemma AllStayGone(a: World, b: World, paths: set<Path>)
    requires HistoryOk(a) && Evolves(a, b) && forall p :: p in paths ==> Gone(a, p)
    ensures forall p :: p in paths ==> Gone(b, p)
  {
    forall p | p in paths ensures Gone(b, p) {
      GoneStaysGone(a, b, p);
    }
  }

  /** A file found missing may be forgotten: its row says nothing about any file handled as it is. */
  lemma ForgettingIsSound(w: World, cache: Cache, p: Path)
    requires CacheSound(w, cache) && Gone(w, p)
    ensures CacheSound(w.(rows := w.rows - {p}), cache)
  {
    var u := w.(rows := w.rows - {p});
    forall d: Dir, f: File | f in FilesIn(u, d) && HandledNow(u, d, f) ensures (d, f) in u.rows || Rowless(u, d, f) {
      assert f in FilesIn(w, d) && HandledNow(w, d, f);
    }
    forall d | d in cache && cache[d] == SignatureOf(u, d) ensures AllHandled(u, d) {
      AllHandledStays(w, u, d);
    }
  }

  // ---------------------------------------------------------------- an undisturbed run

  /** Only the run itself at work: files go, if at all, with a fresh signature for their directory. */
  ghost predicate Narrows(a: World, b: World) {
    && a.nextStamp <= b.nextStamp && a.handled <= b.handled
    && (forall d :: d in b.dirs ==> d in a.dirs && b.dirs[d].files <= a.dirs[d].files)
    && (forall d :: d in b.dirs ==> b.dirs[d] == a.dirs[d] || b.dirs[d].stamp >= a.nextStamp)
    && (forall d :: d in a.dirs ==> d in b.dirs)
  }

  lemma NarrowsTrans(a: World, b: World, c: World)
    requires Narrows(a, b) && Narrows(b, c)
    ensures Narrows(a, c)
  {
  }

  /** Every file of `d` has been handled as it is and the cache knows the directory. */
  ghost predicate Settled(w: World, cache: Cache, d: Dir) {
    AllHandled(w, d) && Skips(w, cache, d)
  }

  ghost predicate Touched(deleted: set<Path>, d: Dir) {
    exists p :: p in deleted && p.0 == d
  }

  /** The directory is settled, or the run deleted a copy from it, and the next run will look again. */
  ghost predicate Finished(w: World, cache: Cache, d: Dir, deleted: set<Path>) {
    Settled(w, cache, d) || Touched(deleted, d)
  }

  ghost predicate SameEntry(a: Cache, b: Cache, d: Dir) {
    (d in b <==> d in a) && (d in b ==> b[d] == a[d])
  }

  lemma FinishedStays(a: World, b: World, before: Cache, after: Cache, d: Dir, deleted: set<Path>, more: set<Path>)
    requires Finished(a, before, d, deleted) && deleted <= more && SameEntry(before, after, d)
    requires SignatureOf(a, d) == SignatureOf(b, d) && FilesIn(a, d) == FilesIn(b, d) && a.handled <= b.handled
    ensures Finished(b, after, d, more)
  {
    if Settled(a, before, d) {
      AllHandledStays(a, b, d);
    }
  }

  ghost predicate SameOutside(a: Cache, b: Cache, ds: set<Dir>) {
    forall d :: d !in ds ==> SameEntry(a, b, d)
  }

  lemma SameOutsideMore(a: Cache, b: Cache, c: Cache, ds: set<Dir>, d: Dir)
    requires SameOutside(a, b, ds) && forall e :: e != d ==> SameEntry(b, c, e)
    ensures SameOutside(a, c, ds + {d})
  {
    forall e | e !in ds + {d} ensures SameEntry(a, c, e) {
      assert SameEntry(a, b, e) && SameEntry(b, c, e);
    }
  }

  /** Notes on files without a row are kept. */
  ghost predicate Remembers(a: World, b: World) {
    a.copies <= b.copies && a.dropped <= b.dropped
  }

  /** What the snapshot of known paths is good for lasts. */
  ghost predicate SnapPersists(a: World, b: World, snap: set<Path>) {
    forall d, signature :: SnapCovers(a, d, signature, snap) ==> SnapCovers(b, d, signature, snap)
  }

  lemma SnapEvolves(a: World, b: World, snap: set<Path>)
    requires Evolves(a, b)
    ensures SnapPersists(a, b, snap)
  {
    forall d, signature | SnapCovers(a, d, signature, snap) ensures SnapCovers(b, d, signature, snap) {
      SnapStaysCovering(a, b, d, signature, snap);
    }
  }

  lemma HandleKeepsSnap(layout: Layout, w: World, p: Path, o: Outcome, signature: Signature, snap: set<Path>)
    requires MayBe(layout, w, p, o) && p.1 in FilesIn(w, p.0)
    ensures SnapPersists(w, Handle(w, p, o, signature), snap)
  {
    var u := Handle(w, p, o, signature);
    forall d: Dir, other | SnapCovers(w, d, other, snap) ensures SnapCovers(u, d, other, snap) {
      if SignatureOf(u, d) == other {
        forall f: File | f in FilesIn(u, d) && (d, f) in snap
          ensures (d, f) in u.rows || Rowless(u, d, f)
        {
          if (d, f) in w.rows {
            AfterKeepsRows(layout, w, p, o, (d, f));
          }
        }
      }
    }
  }

  /** Handling a file touches no other directory, and its own only by deleting the file. */
  lemma HandleNarrows(w: World, p: Path, o: Outcome, signature: Signature)
    requires p.1 in FilesIn(w, p.0) && HistoryOk(w)
    ensures var u := Handle(w, p, o, signature);
      && Narrows(w, u)
      && (forall d :: d != p.0 || o != Deleted ==>
            SignatureOf(u, d) == SignatureOf(w, d) && FilesIn(u, d) == FilesIn(w, d))
      && FilesIn(u, p.0) == FilesIn(w, p.0) - if o == Deleted then {p.1} else {}
  {
  }

  /** No directory but `d` is touched; `d` itself only by deleting copies. */
  ghost predicate OnlyDeletes(a: World, b: World, d: Dir, deleted: set<Path>) {
    && Narrows(a, b)
    && (forall e :: e != d ==> SignatureOf(b, e) == SignatureOf(a, e) && FilesIn(b, e) == FilesIn(a, e))
    && (deleted == {} ==> SignatureOf(b, d) == SignatureOf(a, d) && FilesIn(b, d) == FilesIn(a, d))
  }

  lemma OnlyDeletesMore(a: World, b: World, c: World, d: Dir, before: set<Path>, more: set<Path>)
    requires OnlyDeletes(a, b, d, before) && OnlyDeletes(b, c, d, more)
    ensures OnlyDeletes(a, c, d, before + more)
  {
    NarrowsTrans(a, b, c);
  }

  ghost predicate AllFinished(w: World, cache: Cache, ds: set<Dir>, deleted: set<Path>) {
    forall d :: d in ds ==> Finished(w, cache, d, deleted)
  }

  /** Directories yet to be scanned show what they showed at first, or have been touched. */
  ghost predicate StillShow(w: World, pending: seq<(Dir, Signature)>, deleted: set<Path>) {
    forall p :: p in pending ==> SignatureOf(w, p.0) == p.1 || Touched(deleted, p.0)
  }

  /** `seen` are files of the scanned directories, and all that are still there. */
  ghost predicate Saw(a: World, b: World, scanned: set<Dir>, seen: set<Path>) {
    && (forall d, f :: (d, f) in seen ==> d in scanned && f in FilesIn(a, d))
    && (forall d: Dir, f: File :: d in scanned && f in FilesIn(b, d) ==> (d, f) in seen)
  }

  lemma SawMore(a: World, b: World, c: World, scanned: set<Dir>, seen: set<Path>, d: Dir, deleted: set<Path>)
    requires Narrows(a, b) && Saw(a, b, scanned, seen) && OnlyDeletes(b, c, d, deleted)
    ensures Saw(a, c, scanned + {d}, seen + InDir(d, FilesIn(b, d)))
  {
    forall e: Dir, f: File | e in scanned + {d} && f in FilesIn(c, e) ensures (e, f) in seen + InDir(d, FilesIn(b, d)) {
      assert f in FilesIn(b, e);
    }
  }

  lemma FinishedMore(a: World, b: World, before: Cache, after: Cache, ds: set<Dir>, d: Dir, deleted: set<Path>,
                     more: set<Path>)
    requires AllFinished(a, before, ds, deleted) && OnlyDeletes(a, b, d, more) && Finished(b, after, d, deleted + more)
    requires forall e :: e != d ==> SameEntry(before, after, e)
    ensures AllFinished(b, after, ds + {d}, deleted + more)
  {
    forall e | e in ds + {d} ensures Finished(b, after, e, deleted + more) {
      if e != d {
        FinishedStays(a, b, before, after, e, deleted, deleted + more);
      }
    }
  }

  lemma TouchedStays(deleted: set<Path>, more: set<Path>, d: Dir)
    ensures Touched(deleted, d) || Touched(more, d) <==> Touched(deleted + more, d)
  {
  }

  lemma StillShowMore(a: World, b: World, pending: seq<(Dir, Signature)>, d: Dir, deleted: set<Path>, more: set<Path>)
    requires StillShow(a, pending, deleted) && OnlyDeletes(a, b, d, more) && forall p :: p in more ==> p.0 == d
    ensures StillShow(b, pending, deleted + more)
  {
    forall p | p in pending ensures SignatureOf(b, p.0) == p.1 || Touched(deleted + more, p.0) {
      if Touched(deleted, p.0) {
        assert Touched(deleted + more, p.0);
      } else if p.0 == d && more != {} {
        var q :| q in more;
        assert Touched(deleted + more, d);
      }
    }
  }

  lemma SnapTrans(a: World, b: World, c: World, snap: set<Path>)
    requires SnapPersists(a, b, snap) && SnapPersists(b, c, snap)
    ensures SnapPersists(a, c, snap)
  {
    forall d: Dir, signature | SnapCovers(a, d, signature, snap) ensures SnapCovers(c, d, signature, snap) {
      assert SnapCovers(b, d, signature, snap);
    }
  }

  /** History apart. */
  predicate SameTables(a: World, b: World) {
    a.dirs == b.dirs && a.nextStamp == b.nextStamp && a.rows == b.rows
  }

  ghost predicate SnapRows(w: World, snap: set<Path>) {
    forall p :: p in snap && p.1 in FilesIn(w, p.0) ==> p in w.rows
  }

  /** What an undisturbed run does with one file. */
  ghost predicate QuietStep(layout: Layout, stuck: set<Path>, a: World, b: World, p: Path, ok: bool,
                            deleted: set<Path>, snap: set<Path>) {
    && OnlyDeletes(a, b, p.0, deleted) && FilesIn(a, p.0) - {p.1} <= FilesIn(b, p.0)
    && (SnapRows(a, snap) ==> SnapRows(b, snap) && (ok ==> SameTables(b, ScanOne(layout, stuck, a, p))))
  }

  lemma HandleKeepsSnapRows(layout: Layout, w: World, p: Path, o: Outcome, signature: Signature, snap: set<Path>)
    requires MayBe(layout, w, p, o) && p.1 in FilesIn(w, p.0) && SnapRows(w, snap)
    ensures SnapRows(Handle(w, p, o, signature), snap)
  {
    var u := Handle(w, p, o, signature);
    forall q | q in snap && q.1 in FilesIn(u, q.0) ensures q in u.rows {
      AfterKeepsRows(layout, w, p, o, q);
    }
  }

  lemma HandleIsQuiet(layout: Layout, stuck: set<Path>, w: World, p: Path, o: Outcome, signature: Signature,
                      deleted: set<Path>, snap: set<Path>)
    requires HistoryOk(w) && MayBe(layout, w, p, o) && p.1 in FilesIn(w, p.0)
    requires o == Verdict(layout, w, p, p in stuck) && deleted == if o == Deleted then {p} else {}
    ensures QuietStep(layout, stuck, w, Handle(w, p, o, signature), p, true, deleted, snap)
  {
    HandleNarrows(w, p, o, signature);
    if SnapRows(w, snap) {
      HandleKeepsSnapRows(layout, w, p, o, signature, snap);
    }
  }

  /** What a run does with a file it handles without error, as far as it itself can tell. */
  ghost predicate FileHandled(layout: Layout, stuck: set<Path>, a: World, b: World, p: Path, deleted: set<Path>,
                              snap: set<Path>) {
    SnapPersists(a, b, snap) && Remembers(a, b) && QuietStep(layout, stuck, a, b, p, true, deleted, snap)
  }

  lemma NewIsHandled(layout: Layout, stuck: set<Path>, w: World, p: Path, o: Outcome, signature: Signature,
                     deleted: set<Path>, snap: set<Path>)
    requires HistoryOk(w) && MayBe(layout, w, p, o) && p.1 in FilesIn(w, p.0)
    requires o == Verdict(layout, w, p, p in stuck) && deleted == if o == Deleted then {p} else {}
    ensures FileHandled(layout, stuck, w, Handle(w, p, o, signature), p, deleted, snap)
  {
    HandleKeepsSnap(layout, w, p, o, signature, snap);
    HandleIsQuiet(layout, stuck, w, p, o, signature, deleted, snap);
  }

  lemma KnownIsQuiet(layout: Layout, stuck: set<Path>, w: World, p: Path, signature: Signature, snap: set<Path>)
    requires p in snap && HistoryOk(w)
    ensures QuietStep(layout, stuck, w, Noted(w, p, AlreadyKnown, signature), p, true, {}, snap)
  {
    var u := Noted(w, p, AlreadyKnown, signature);
    assert Narrows(w, u);
    assert SnapRows(w, snap) ==> SnapRows(u, snap);
  }

  lemma NothingIsQuiet(layout: Layout, stuck: set<Path>, w: World, p: Path, snap: set<Path>)
    requires HistoryOk(w)
    ensures QuietStep(layout, stuck, w, w, p, false, {}, snap)
  {
  }

  lemma ScanOneSame(layout: Layout, stuck: set<Path>, a: World, b: World, p: Path)
    requires SameTables(a, b)
    ensures SameTables(ScanOne(layout, stuck, a, p), ScanOne(layout, stuck, b, p))
  {
    VerdictAlike(layout, a, b, p, p in stuck);
  }

  lemma {:induction false} ScanEachSame(layout: Layout, stuck: set<Path>, a: World, b: World, paths: seq<Path>)
    requires SameTables(a, b)
    ensures SameTables(ScanEach(layout, stuck, a, paths), ScanEach(layout, stuck, b, paths))
  {
    if paths != [] {
      var before, p := paths[..|paths| - 1], paths[|paths| - 1];
      ScanEachSame(layout, stuck, a, b, before);
      ScanOneSame(layout, stuck, ScanEach(layout, stuck, a, before), ScanEach(layout, stuck, b, before), p);
    }
  }

  lemma {:induction false} ScanEachConcat(layout: Layout, stuck: set<Path>, w: World, first: seq<Path>, more: seq<Path>)
    ensures ScanEach(layout, stuck, w, first + more) == ScanEach(layout, stuck, ScanEach(layout, stuck, w, first), more)
  {
    if more == [] {
      assert first + more == first;
    } else {
      var before := more[..|more| - 1];
      assert (first + more)[..|first| + |before|] == first + before;
      ScanEachConcat(layout, stuck, w, first, before);
    }
  }

  /** The tables after these files, one after the other. */
  ghost predicate ScannedInOrder(layout: Layout, stuck: set<Path>, a: World, b: World, order: seq<Path>) {
    SameTables(b, ScanEach(layout, stuck, a, order))
  }

  lemma InOrderThen(layout: Layout, stuck: set<Path>, a: World, b: World, c: World, first: seq<Path>, more: seq<Path>)
    requires ScannedInOrder(layout, stuck, a, b, first) && ScannedInOrder(layout, stuck, b, c, more)
    ensures ScannedInOrder(layout, stuck, a, c, first + more)
  {
    ScanEachConcat(layout, stuck, a, first, more);
    ScanEachSame(layout, stuck, b, ScanEach(layout, stuck, a, first), more);
  }

  lemma InOrderOne(layout: Layout, stuck: set<Path>, a: World, b: World, p: Path)
    requires SameTables(b, ScanOne(layout, stuck, a, p))
    ensures ScannedInOrder(layout, stuck, a, b, [p])
  {
    assert [p][..0] == [];
  }

  /** Undisturbed so far: known files have their rows, and unless something failed the tables are in order. */
  ghost predicate Orderly(layout: Layout, faults: Faults, a: World, b: World, d: Dir, snap: set<Path>,
                          order: seq<Path>, clean: bool) {
    SnapRows(b, snap) && (clean ==> ScannedInOrder(layout, faults.removals, a, b, order))
  }

  lemma OrderlyThen(layout: Layout, faults: Faults, a: World, b: World, c: World, p: Path, snap: set<Path>,
                    order: seq<Path>, clean: bool, ok: bool)
    requires Orderly(layout, faults, a, b, p.0, snap, order, clean)
    requires exists deleted :: QuietStep(layout, faults.removals, b, c, p, ok, deleted, snap)
    ensures Orderly(layout, faults, a, c, p.0, snap, order + [p], clean && ok)
  {
    if clean && ok {
      InOrderOne(layout, faults.removals, b, c, p);
      InOrderThen(layout, faults.removals, a, b, c, order, [p]);
    }
  }

  /** An undisturbed scan of one directory so far: `rest` is still to come. */
  ghost predicate QuietScan(layout: Layout, faults: Faults, a: World, b: World, d: Dir, snap: set<Path>,
                            rest: set<File>, deleted: set<Path>, order: seq<Path>, clean: bool) {
    && OnlyDeletes(a, b, d, deleted) && rest <= FilesIn(b, d)
    && (SnapRows(a, snap) ==> Orderly(layout, faults, a, b, d, snap, order, clean))
  }

  lemma QuietScanThen(layout: Layout, faults: Faults, a: World, b: World, c: World, p: Path, snap: set<Path>,
                      rest: set<File>, deleted: set<Path>, gone: set<Path>, order: seq<Path>, clean: bool, ok: bool)
    requires QuietScan(layout, faults, a, b, p.0, snap, rest, deleted, order, clean) && p.1 in rest
    requires QuietStep(layout, faults.removals, b, c, p, ok, gone, snap)
    ensures QuietScan(layout, faults, a, c, p.0, snap, rest - {p.1}, deleted + gone, order + [p], clean && ok)
  {
    OnlyDeletesMore(a, b, c, p.0, deleted, gone);
    if SnapRows(a, snap) {
      OrderlyThen(layout, faults, a, b, c, p, snap, order, clean, ok);
    }
  }

  /** What a run does with one file; `quiet` tells that nobody else is at work. */
  ghost predicate FileScanned(layout: Layout, faults: Faults, quiet: bool, a: World, b: World, p: Path, snap: set<Path>,
                              ok: bool, deleted: set<Path>) {
    && SnapPersists(a, b, snap) && Remembers(a, b) && deleted <= {p}
    && (quiet ==> QuietStep(layout, faults.removals, a, b, p, ok, deleted, snap))
    && (quiet && p.1 in FilesIn(a, p.0) && p !in faults.files ==> ok)
  }

  /** What a scan of one directory has done when `rest` is still to come. */
  ghost predicate DirSoFar(layout: Layout, faults: Faults, quiet: bool, a: World, b: World, d: Dir, snap: set<Path>,
                           listing: set<File>, rest: set<File>, deleted: set<Path>, order: seq<Path>, clean: bool) {
    && SnapPersists(a, b, snap) && Remembers(a, b) && rest <= listing
    && (forall p :: p in deleted ==> p.0 == d)
    && (quiet ==> QuietScan(layout, faults, a, b, d, snap, rest, deleted, order, clean))
    && (quiet && NoneFails(d, listing, faults) ==> clean)
    && Covers(order, d, listing - rest)
  }

  lemma DirSoFarStarts(layout: Layout, faults: Faults, quiet: bool, a: World, b: World, d: Dir, snap: set<Path>)
    requires Evolves(a, b) && (quiet ==> b == a)
    ensures DirSoFar(layout, faults, quiet, a, b, d, snap, FilesIn(b, d), FilesIn(b, d), {}, [], true)
  {
    SnapEvolves(a, b, snap);
  }

  lemma ListingCovers(a: World, b: World, d: Dir, signature: Signature, snap: set<Path>)
    requires SnapCovers(a, d, signature, snap) && Evolves(a, b)
    ensures ScanCovers(b, d, signature, FilesIn(b, d), {}, snap)
  {
    SnapStaysCovering(a, b, d, signature, snap);
  }

  lemma DirSoFarThen(layout: Layout, faults: Faults, quiet: bool, a: World, b: World, c: World, p: Path,
                     snap: set<Path>,
                     listing: set<File>, rest: set<File>, deleted: set<Path>, gone: set<Path>, order: seq<Path>,
                     clean: bool, ok: bool)
    requires DirSoFar(layout, faults, quiet, a, b, p.0, snap, listing, rest, deleted, order, clean) && p.1 in rest
    requires FileScanned(layout, faults, quiet, b, c, p, snap, ok, gone)
    ensures listing - (rest - {p.1}) == listing - rest + {p.1}
    ensures DirSoFar(layout, faults, quiet, a, c, p.0, snap, listing, rest - {p.1}, deleted + gone, order + [p],
                     clean && ok)
  {
    SnapTrans(a, b, c, snap);
    if quiet {
      QuietScanThen(layout, faults, a, b, c, p, snap, rest, deleted, gone, order, clean, ok);
    }
    CoversMore(order, p.0, listing - rest, p.1);
    assert listing - rest + {p.1} == listing - (rest - {p.1});
  }

  ghost predicate Covers(order: seq<Path>, d: Dir, files: set<File>) {
    NoRepeats(order) && forall p: Path :: p in order <==> p.0 == d && p.1 in files
  }

  lemma CoversMore(order: seq<Path>, d: Dir, files: set<File>, f: File)
    requires Covers(order, d, files) && f !in files
    ensures Covers(order + [(d, f)], d, files + {f})
  {
    AppendNew(order, (d, f));
  }

  /** The files of these directories, each once. */
  ghost predicate Lists(order: seq<Path>, w: World, ds: set<Dir>) {
    && NoRepeats(order)
    && forall p: Path :: p in order <==> p.0 in ds && p.1 in FilesIn(w, p.0)
  }

  /** What a full scan would give a row to in a directory that is skipped. */
  function OrphansOf(layout: Layout, w: World, d: Dir): set<Path> {
    set f | f in FilesIn(w, d) && Orphaned(layout, w, (d, f)) :: (d, f)
  }

  /** Each of these files was once accepted as a copy without a row, or lost its row. */
  ghost predicate WereRowless(w: World, paths: set<Path>) {
    forall p :: p in paths ==> exists n :: (p.0, n, p.1) in w.copies + w.dropped
  }

  lemma OrphansWereRowless(layout: Layout, w: World, d: Dir)
    ensures WereRowless(w, OrphansOf(layout, w, d))
  {
    forall p | p in OrphansOf(layout, w, d) ensures exists n :: (p.0, n, p.1) in w.copies + w.dropped {
      assert (p.0, w.dirs[d].stamp, p.1) in w.copies + w.dropped;
    }
  }

  /** Undisturbed, exactly the targets that are not skipped are pending, with their signatures. */
  ghost predicate PendingOf(w: World, cache: Cache, targets: seq<Dir>, fullScan: bool, pending: seq<(Dir, Signature)>,
                            ok: bool) {
    && (forall p :: p in pending ==> p.1 == SignatureOf(w, p.0) && (fullScan || !Skips(w, cache, p.0)))
    && (ok ==> forall d :: d in targets ==> (!fullScan && Skips(w, cache, d)) || (d, SignatureOf(w, d)) in pending)
  }

  /** What the first pass has come to after these targets. */
  ghost predicate Collected(w: World, targets: seq<Dir>, fullScan: bool, pending: seq<(Dir, Signature)>,
                            missed: set<Path>) {
    && WereRowless(w, missed) && (fullScan ==> missed == {})
    && (forall p :: p in pending ==> p.0 in targets && (p.1.Stamp? ==> p.1.n < w.nextStamp))
    && (fullScan ==> forall d :: d in targets ==> exists p :: p in pending && p.0 == d)
  }

  lemma CollectedPrefix(a: World, b: World, targets: seq<Dir>, i: nat, fullScan: bool, pending: seq<(Dir, Signature)>,
                        missed: set<Path>)
    requires i <= |targets| && Collected(a, targets[..i], fullScan, pending, missed) && Evolves(a, b)
    ensures WereRowless(b, missed)
    ensures forall p :: p in pending ==> p.0 in targets && (p.1.Stamp? ==> p.1.n < b.nextStamp)
  {
  }

  lemma CollectedSkip(layout: Layout, a: World, b: World, targets: seq<Dir>, d: Dir, pending: seq<(Dir, Signature)>,
                      missed: set<Path>)
    requires Collected(a, targets, false, pending, missed) && Evolves(a, b)
    ensures Collected(b, targets + [d], false, pending, missed + OrphansOf(layout, b, d))
  {
    OrphansWereRowless(layout, b, d);
  }

  lemma CollectedMore(a: World, b: World, targets: seq<Dir>, d: Dir, fullScan: bool, pending: seq<(Dir, Signature)>,
                      missed: set<Path>)
    requires Collected(a, targets, fullScan, pending, missed) && Evolves(a, b) && HistoryOk(b)
    ensures Collected(b, targets + [d], fullScan, pending + [(d, SignatureOf(b, d))], missed)
  {
    var p := (d, SignatureOf(b, d));
    assert p in pending + [p];
    forall e | fullScan && e in targets ensures exists q :: q in pending + [p] && q.0 == e {
      var q :| q in pending && q.0 == e;
      assert q in pending + [p];
    }
  }

  /** What the scan of one directory does, cache included. */
  ghost predicate DirScanned(layout: Layout, faults: Faults, quiet: bool, a: World, b: World, before: Cache,
                             after: Cache, d: Dir, signature: Signature, snap: set<Path>,
                             ok: bool, listing: set<File>, deleted: set<Path>, order: seq<Path>) {
    && SnapPersists(a, b, snap) && Remembers(a, b) && (forall p :: p in deleted ==> p.0 == d)
    && (forall e :: e != d ==> SameEntry(before, after, e))
    && (d !in faults.list && d !in faults.secondStat ==> ok)
    && (quiet ==> OnlyDeletes(a, b, d, deleted) && (ok ==> listing == FilesIn(a, d)))
    && (quiet && ok && signature == SignatureOf(a, d) && NoneFails(d, FilesIn(a, d), faults) ==>
          Finished(b, after, d, deleted))
    && (quiet && SnapRows(a, snap) ==> SnapRows(b, snap))
    && (quiet && Unfailing(faults) && SnapRows(a, snap) ==>
          ScannedInOrder(layout, faults.removals, a, b, order) && Lists(order, a, {d}))
  }

  lemma DirIsScanned(layout: Layout, faults: Faults, quiet: bool, a: World, b: World, c: World, before: Cache,
                     after: Cache, d: Dir, signature: Signature, snap: set<Path>,
                     clean: bool, ok: bool, listing: set<File>, deleted: set<Path>, order: seq<Path>)
    requires DirSoFar(layout, faults, quiet, a, b, d, snap, listing, {}, deleted, order, clean)
    requires Evolves(b, c) && (quiet ==> c == b && listing == FilesIn(a, d))
    requires d !in faults.list && (ok <==> d !in faults.secondStat)
    requires forall e :: e != d ==> SameEntry(before, after, e)
    requires ok && clean && signature == SignatureOf(c, d) ==> Settled(c, after, d)
    ensures DirScanned(layout, faults, quiet, a, c, before, after, d, signature, snap, ok, listing, deleted, order)
  {
    SnapEvolves(b, c, snap);
    SnapTrans(a, b, c, snap);
    assert forall p :: p in deleted ==> Touched(deleted, d);
  }

  /** What the second pass has done after the first `i` directories. */
  ghost predicate PassSoFar(layout: Layout, faults: Faults, quiet: bool, a: World, b: World, before: Cache,
                            after: Cache,
                            pending: seq<(Dir, Signature)>, i: nat, snap: set<Path>, ok: bool, scanned: set<Dir>,
                            seen: set<Path>, deleted: set<Path>, order: seq<Path>)
    requires i <= |pending|
  {
    && SnapPersists(a, b, snap) && Remembers(a, b)
    && scanned == (set p | p in pending[..i] :: p.0) && SameOutside(before, after, scanned)
    && (quiet ==> Undisturbed(a, b, scanned) && (ok ==> Saw(a, b, scanned, seen)))
    && (quiet && Unfailing(faults) ==> ok)
    && (quiet && Unfailing(faults) && StillShow(a, pending, {}) ==>
          AllFinished(b, after, scanned, deleted) && StillShow(b, pending, deleted))
    && (quiet && Unfailing(faults) && SnapRows(a, snap) ==>
          InOrder(layout, faults, a, b, pending, scanned, snap, order))
  }

  lemma PassThen(layout: Layout, faults: Faults, quiet: bool, a: World, b: World, c: World, first: Cache, before: Cache,
                 after: Cache, pending: seq<(Dir, Signature)>, i: nat, snap: set<Path>, scanned: set<Dir>,
                 seen: set<Path>,
                 deleted: set<Path>, order: seq<Path>, ok: bool, listing: set<File>, gone: set<Path>, more: seq<Path>)
    requires i < |pending|
    requires PassSoFar(layout, faults, quiet, a, b, first, before, pending, i, snap, true, scanned, seen, deleted,
                       order)
    requires DirScanned(layout, faults, quiet, b, c, before, after, pending[i].0, pending[i].1, snap,
                        ok, listing, gone, more)
    ensures PassSoFar(layout, faults, quiet, a, c, first, after, pending, i + 1, snap, ok, scanned + {pending[i].0},
                      seen + InDir(pending[i].0, listing), deleted + gone, order + more)
  {
    var d := pending[i].0;
    SnapTrans(a, b, c, snap);
    SameOutsideMore(first, before, after, scanned, d);
    assert pending[..i + 1] == pending[..i] + [pending[i]];
    if quiet {
      UndisturbedThen(a, b, c, scanned, d, gone);
      if ok {
        SawMore(a, b, c, scanned, seen, d, gone);
      }
      if Unfailing(faults) {
        PassThenCalm(layout, faults, a, b, c, before, after, pending, i, snap, scanned, deleted, order, listing, gone,
                     more);
      }
    }
  }

  lemma PassThenCalm(layout: Layout, faults: Faults, a: World, b: World, c: World, before: Cache, after: Cache,
                     pending: seq<(Dir, Signature)>, i: nat, snap: set<Path>, scanned: set<Dir>, deleted: set<Path>,
                     order: seq<Path>, listing: set<File>, gone: set<Path>, more: seq<Path>)
    requires i < |pending| && scanned == (set p | p in pending[..i] :: p.0) && Unfailing(faults)
    requires DirScanned(layout, faults, true, b, c, before, after, pending[i].0, pending[i].1, snap,
                        true, listing, gone, more)
    requires Undisturbed(a, c, scanned + {pending[i].0})
    ensures StillShow(b, pending, deleted) && AllFinished(b, before, scanned, deleted) ==>
      AllFinished(c, after, scanned + {pending[i].0}, deleted + gone) && StillShow(c, pending, deleted + gone)
    ensures SnapRows(b, snap) && InOrder(layout, faults, a, b, pending, scanned, snap, order) ==>
      InOrder(layout, faults, a, c, pending, scanned + {pending[i].0}, snap, order + more)
  {
    var d := pending[i].0;
    if StillShow(b, pending, deleted) && AllFinished(b, before, scanned, deleted) {
      assert pending[i] in pending;
      CalmThen(b, c, before, after, pending, scanned, d, deleted, gone);
    }
    if SnapRows(b, snap) && InOrder(layout, faults, a, b, pending, scanned, snap, order) {
      InOrderNext(layout, faults, a, b, c, pending, i, scanned, snap, order, more);
    }
  }

  ghost predicate DistinctDirs(pending: seq<(Dir, Signature)>) {
    forall i, j :: 0 <= i < j < |pending| ==> pending[i].0 != pending[j].0
  }

  /** Everything the first pass keeps, `w` being what there is now. */
  ghost predicate FirstPass(quiet: bool, start: World, w: World, cache: Cache, targets: seq<Dir>, fullScan: bool,
                            pending: seq<(Dir, Signature)>, missed: set<Path>) {
    && Collected(w, targets, fullScan, pending, missed)
    && (quiet ==> w == start && PendingOf(w, cache, targets, fullScan, pending, true))
    && (NoRepeats(targets) ==> DistinctDirs(pending))
  }

  lemma FirstPassEnds(quiet: bool, start: World, a: World, b: World, cache: Cache, targets: seq<Dir>, i: nat,
                      fullScan: bool, pending: seq<(Dir, Signature)>, missed: set<Path>)
    requires i <= |targets| && FirstPass(quiet, start, a, cache, targets[..i], fullScan, pending, missed)
    requires Evolves(a, b) && (quiet ==> b == a)
    ensures WereRowless(b, missed) && (fullScan ==> missed == {})
    ensures forall p :: p in pending ==> p.0 in targets && (p.1.Stamp? ==> p.1.n < b.nextStamp)
    ensures quiet ==> b == start && PendingOf(b, cache, targets, fullScan, pending, false)
    ensures NoRepeats(targets) ==> DistinctDirs(pending)
  {
    CollectedPrefix(a, b, targets, i, fullScan, pending, missed);
    assert NoRepeats(targets) ==> NoRepeats(targets[..i]);
  }

  lemma FirstPassSkip(layout: Layout, quiet: bool, start: World, a: World, b: World, cache: Cache, targets: seq<Dir>,
                      d: Dir, pending: seq<(Dir, Signature)>, missed: set<Path>)
    requires FirstPass(quiet, start, a, cache, targets, false, pending, missed)
    requires Evolves(a, b) && (quiet ==> b == a) && Skips(b, cache, d)
    ensures FirstPass(quiet, start, b, cache, targets + [d], false, pending, missed + OrphansOf(layout, b, d))
  {
    CollectedSkip(layout, a, b, targets, d, pending, missed);
    NoRepeatsInit(targets, d);
  }

  lemma FirstPassMore(quiet: bool, start: World, a: World, b: World, cache: Cache, targets: seq<Dir>, d: Dir,
                      fullScan: bool, pending: seq<(Dir, Signature)>, missed: set<Path>)
    requires FirstPass(quiet, start, a, cache, targets, fullScan, pending, missed)
    requires Evolves(a, b) && HistoryOk(b) && (quiet ==> b == a) && (fullScan || !Skips(b, cache, d))
    ensures FirstPass(quiet, start, b, cache, targets + [d], fullScan, pending + [(d, SignatureOf(b, d))], missed)
  {
    CollectedMore(a, b, targets, d, fullScan, pending, missed);
    NoRepeatsInit(targets, d);
    if NoRepeats(targets + [d]) {
      forall k | 0 <= k < |pending| ensures pending[k].0 != d {
        assert pending[k] in pending;
      }
    }
  }

  lemma NoRepeatsInit(targets: seq<Dir>, d: Dir)
    ensures NoRepeats(targets + [d]) ==> NoRepeats(targets) && d !in targets
  {
    if NoRepeats(targets + [d]) {
      assert forall i :: 0 <= i < |targets| ==> (targets + [d])[i] == targets[i];
      assert (targets + [d])[|targets|] == d;
    }
  }

  lemma ListsMore(order: seq<Path>, more: seq<Path>, a: World, b: World, ds: set<Dir>, d: Dir)
    requires Lists(order, a, ds) && Lists(more, b, {d}) && d !in ds && FilesIn(a, d) == FilesIn(b, d)
    ensures Lists(order + more, a, ds + {d})
  {
    forall i, j | 0 <= i < |order| && 0 <= j < |more| ensures order[i] != more[j] {
      assert order[i] in order && more[j] in more;
    }
  }

  /** Only the directories scanned have been touched, and only by deleting files. */
  ghost predicate Undisturbed(a: World, b: World, scanned: set<Dir>) {
    && Narrows(a, b)
    && forall d :: d !in scanned ==> SignatureOf(b, d) == SignatureOf(a, d) && FilesIn(b, d) == FilesIn(a, d)
  }

  lemma UndisturbedThen(a: World, b: World, c: World, scanned: set<Dir>, d: Dir, gone: set<Path>)
    requires Undisturbed(a, b, scanned) && OnlyDeletes(b, c, d, gone)
    ensures Undisturbed(a, c, scanned + {d})
  {
    NarrowsTrans(a, b, c);
  }

  lemma CalmThen(a: World, b: World, before: Cache, after: Cache, pending: seq<(Dir, Signature)>, scanned: set<Dir>,
                 d: Dir, deleted: set<Path>, gone: set<Path>)
    requires AllFinished(a, before, scanned, deleted) && StillShow(a, pending, deleted) && OnlyDeletes(a, b, d, gone)
    requires (forall e :: e != d ==> SameEntry(before, after, e)) && forall p :: p in gone ==> p.0 == d
    requires Finished(b, after, d, gone) || Touched(deleted, d)
    ensures AllFinished(b, after, scanned + {d}, deleted + gone) && StillShow(b, pending, deleted + gone)
  {
    TouchedStays(deleted, gone, d);
    FinishedMore(a, b, before, after, scanned, d, deleted, gone);
    StillShowMore(a, b, pending, d, deleted, gone);
  }

  /** The tables after the files of the directories scanned, one after the other. */
  ghost predicate InOrder(layout: Layout, faults: Faults, a: World, b: World, pending: seq<(Dir, Signature)>,
                          scanned: set<Dir>, snap: set<Path>, order: seq<Path>) {
    && SnapRows(b, snap) && Undisturbed(a, b, scanned)
    && ScannedInOrder(layout, faults.removals, a, b, order)
    && (DistinctDirs(pending) ==> Lists(order, a, scanned))
  }

  lemma InOrderNext(layout: Layout, faults: Faults, a: World, b: World, c: World, pending: seq<(Dir, Signature)>,
                    i: nat, scanned: set<Dir>, snap: set<Path>, order: seq<Path>, more: seq<Path>)
    requires i < |pending| && InOrder(layout, faults, a, b, pending, scanned, snap, order)
    requires scanned == set p | p in pending[..i] :: p.0
    requires ScannedInOrder(layout, faults.removals, b, c, more) && Lists(more, b, {pending[i].0}) && SnapRows(c, snap)
    requires Undisturbed(a, c, scanned + {pending[i].0})
    ensures InOrder(layout, faults, a, c, pending, scanned + {pending[i].0}, snap, order + more)
  {
    InOrderThen(layout, faults.removals, a, b, c, order, more);
    if DistinctDirs(pending) {
      NotYetScanned(pending, i, scanned);
      ListsMore(order, more, a, b, scanned, pending[i].0);
    }
  }

  // ---------------------------------------------------------------- one run, in place

  /** Which calls to the operating system, and which imports, fail during a run. */
  datatype Faults = Faults(
    firstStat: set<Dir>,
    list: set<Dir>,
    secondStat: set<Dir>,
    files: set<Path>,
    removals: set<Path>,   // failed removals are logged, and otherwise go unnoticed
    flags: set<Path>)      // no fault: files whose names show other flags than their rows

  predicate Unfailing(faults: Faults) {
    faults.firstStat == {} && faults.list == {} && faults.secondStat == {} && faults.files == {}
  }

  ghost predicate NoneFails(d: Dir, listing: set<File>, faults: Faults) {
    forall f :: f in listing ==> (d, f) !in faults.files
  }

  function InDir(d: Dir, listing: set<File>): set<Path> {
    set f | f in listing :: (d, f)
  }

  class Syncer {
    var dirs: map<Dir, DirState>
    var nextStamp: nat
    var rows: set<Path>
    var handled: set<(Dir, nat, File)>
    var copies: set<(Dir, nat, File)>
    var dropped: set<(Dir, nat, File)>
    var cache: Cache
    var runs: nat
    const layout: Layout
    // When set, nobody else touches files or rows.
    const quiet: bool

    function View(): World
      reads this
    {
      World(dirs, nextStamp, rows, handled, copies, dropped)
    }

    ghost predicate Valid()
      reads this
    {
      CacheSound(View(), cache) && Proper(layout)
    }

    constructor (dirs: map<Dir, DirState>, nextStamp: nat, rows: set<Path>, layout: Layout, quiet: bool)
      requires Proper(layout) && forall d :: d in dirs ==> dirs[d].stamp < nextStamp
      ensures Valid() && View() == World(dirs, nextStamp, rows, {}, {}, {}) && runs == 0 && cache == map[]
      ensures this.layout == layout && this.quiet == quiet
    {
      this.dirs, this.nextStamp, this.rows, this.layout, this.quiet := dirs, nextStamp, rows, layout, quiet;
      handled, copies, dropped, cache, runs := {}, {}, {}, map[], 0;
    }

    /** Others at work. Callers learn only what the contract says, so every result holds for
        whatever they do; the body stands for the case that they do nothing. */
    method Interfere()
      requires Valid()
      modifies this`dirs, this`nextStamp, this`rows, this`dropped
      ensures Valid() && Evolves(old(View()), View())
      ensures quiet ==> View() == old(View())
    {
    }

    /** What the rows say of a file that can be read and parsed. */
    method LookUp(p: Path, stuck: bool) returns (o: Outcome)
      ensures o == Verdict(layout, View(), p, stuck)
    {
      var w := View();
      if p in rows {
        o := AlreadyKnown;
      } else if layout.catchAll(p.0) {
        o := if HasTwin(layout, w, p) then Copy else Inserted;
      } else if Relinkable(layout, w, p) != {} {
        o := Relinked(layout.first(p, Relinkable(layout, w, p)));
      } else if TwinInFolder(layout, w, p) {
        o := if stuck then Copy else Deleted;
      } else {
        o := Inserted;
      }
    }

    /** Handles such a file; `signature` is its directory's from before the listing. */
    method HandleFile(p: Path, signature: Signature, stuck: bool) returns (o: Outcome)
      requires Valid() && p.1 in FilesIn(View(), p.0) && (signature.Stamp? ==> signature.n < nextStamp)
      modifies this`dirs, this`nextStamp, this`rows, this`dropped, this`handled, this`copies
      ensures Valid() && o == Verdict(layout, old(View()), p, stuck)
      ensures View() == Handle(old(View()), p, o, signature)
    {
      o := LookUp(p, stuck);
      VerdictMayBe(layout, View(), p, stuck);
      HandleKeepsCache(layout, View(), cache, p, o, signature);
      Act(p, o);
      Note(p, o, signature);
    }

    /** What is done about it. */
    method Act(p: Path, o: Outcome)
      requires p.0 in dirs
      modifies this`dirs, this`nextStamp, this`rows, this`dropped
      ensures View() == After(old(View()), p, o)
    {
      match o {
        case Inserted => rows := rows + {p};
        case Relinked(q) => rows := rows - {q} + {p};
        case Deleted =>
          dirs, nextStamp := dirs[p.0 := DirState(nextStamp, dirs[p.0].files - {p.1})], nextStamp + 1;
        case _ =>
      }
    }

    method Note(p: Path, o: Outcome, signature: Signature)
      modifies this`handled, this`copies
      ensures View() == Noted(old(View()), p, o, signature)
    {
      if signature.Stamp? && SignatureOf(View(), p.0) == signature {
        handled := handled + {(p.0, signature.n, p.1)};
        if o == Copy {
          copies := copies + {(p.0, signature.n, p.1)};
        }
      }
    }

    /** A file that is there and was not known at the start. */
    method ScanNew(p: Path, signature: Signature, snap: set<Path>, stuck: set<Path>,
                   ghost listing: set<File>, ghost done: set<File>)
      returns (deleted: set<Path>)
      requires Valid() && ScanCovers(View(), p.0, signature, listing, done, snap) && p.1 in FilesIn(View(), p.0)
      modifies this`dirs, this`nextStamp, this`rows, this`dropped, this`handled, this`copies
      ensures Valid() && ScanCovers(View(), p.0, signature, listing, done + {p.1}, snap)
      ensures deleted <= {p} && FileHandled(layout, stuck, old(View()), View(), p, deleted, snap)
    {
      ghost var start := View();
      var o := HandleFile(p, signature, p in stuck);
      deleted := if o == Deleted then {p} else {};
      VerdictMayBe(layout, start, p, p in stuck);
      HandleKeepsScan(layout, start, p, o, signature, listing, done, snap);
      NewIsHandled(layout, stuck, start, p, o, signature, deleted, snap);
    }

    /** A file known at the start is left alone, even when its row has been dropped since. */
    method ScanKnown(p: Path, signature: Signature, snap: set<Path>, ghost stuck: set<Path>,
                     ghost listing: set<File>, ghost done: set<File>)
      requires Valid() && ScanCovers(View(), p.0, signature, listing, done, snap) && p in snap
      modifies this`handled, this`copies
      ensures Valid() && ScanCovers(View(), p.0, signature, listing, done + {p.1}, snap)
      ensures SnapPersists(old(View()), View(), snap) && Remembers(old(View()), View())
      ensures QuietStep(layout, stuck, old(View()), View(), p, true, {}, snap)
    {
      KnownKeepsScan(View(), p, signature, listing, done, snap);
      NotedKeepsCache(View(), cache, p, signature);
      NotedKeepsSnap(View(), p, signature, snap);
      KnownIsQuiet(layout, stuck, View(), p, signature, snap);
      Note(p, AlreadyKnown, signature);
    }

    /**
      One entry of a listing: a file that is gone by now, or cannot be read or stored, is an
      error; one that cannot be removed is not. A known file is looked up only when its flags
      have changed, and handled as a new one when it has no row any more.
     */
    method ScanFile(p: Path, signature: Signature, snap: set<Path>, faults: Faults,
                    ghost listing: set<File>, ghost done: set<File>)
      returns (ok: bool, deleted: set<Path>)
      requires Valid() && ScanCovers(View(), p.0, signature, listing, done, snap)
      modifies this`dirs, this`nextStamp, this`rows, this`dropped, this`handled, this`copies
      ensures Valid() && ScanCovers(View(), p.0, signature, listing, if ok then done + {p.1} else done, snap)
      ensures FileScanned(layout, faults, quiet, old(View()), View(), p, snap, ok, deleted)
    {
      ghost var start := View();
      Interfere();
      ghost var now := View();
      ScanStaysCovering(start, now, p.0, signature, listing, done, snap);
      SnapEvolves(start, now, snap);
      var known := p in snap && (layout.catchAll(p.0) || p !in faults.flags || p in rows);
      ok, deleted := p !in faults.files && (known || p.1 in FilesIn(View(), p.0)), {};
      if !ok {
        NothingIsQuiet(layout, faults.removals, now, p, snap);
      } else if known {
        ScanKnown(p, signature, snap, faults.removals, listing, done);
        SnapTrans(start, now, View(), snap);
      } else {
        deleted := ScanNew(p, signature, snap, faults.removals, listing, done);
        SnapTrans(start, now, View(), snap);
      }
    }

    /** List, handle and file by file: `clean` tells that nothing failed. */
    method ScanDirectory(d: Dir, signature: Signature, snap: set<Path>, faults: Faults)
      returns (clean: bool, listing: set<File>, deleted: set<Path>, ghost order: seq<Path>)
      requires Valid() && SnapCovers(View(), d, signature, snap)
      modifies this`dirs, this`nextStamp, this`rows, this`dropped, this`handled, this`copies
      ensures Valid() && (clean ==> ScanCovers(View(), d, signature, listing, listing, snap))
      ensures DirSoFar(layout, faults, quiet, old(View()), View(), d, snap, listing, {}, deleted, order, clean)
      ensures quiet ==> listing == old(FilesIn(View(), d))
    {
      ghost var start := View();
      Interfere();
      listing := FilesIn(View(), d);
      clean, deleted, order := true, {}, [];
      var rest, done: set<File> := listing, {};
      ListingCovers(start, View(), d, signature, snap);
      DirSoFarStarts(layout, faults, quiet, start, View(), d, snap);
      while rest != {}
        invariant Valid() && ScanCovers(View(), d, signature, listing, done, snap)
        invariant clean ==> done == listing - rest
        invariant DirSoFar(layout, faults, quiet, start, View(), d, snap, listing, rest, deleted, order, clean)
        decreases rest
      {
        ghost var before := View();
        var f :| f in rest;
        var ok, gone := ScanFile((d, f), signature, snap, faults, listing, done);
        DirSoFarThen(layout, faults, quiet, start, before, View(), (d, f), snap, listing, rest, deleted, gone, order,
                     clean, ok);
        rest, deleted, order := rest - {f}, deleted + gone, order + [(d, f)];
        clean, done := clean && ok, if ok then done + {f} else done;
      }
      assert listing - rest == listing;
    }

    /** One target of the first pass; `done` are the ones before it. */
    method StatTarget(d: Dir, fullScan: bool, faults: Faults, pending: seq<(Dir, Signature)>, ghost missed: set<Path>,
                      ghost start: World, ghost done: seq<Dir>)
      returns (ok: bool, pending': seq<(Dir, Signature)>, ghost missed': set<Path>)
      requires Valid() && FirstPass(quiet, start, View(), cache, done, fullScan, pending, missed)
      modifies this`dirs, this`nextStamp, this`rows, this`dropped
      ensures Valid() && Evolves(old(View()), View()) && (quiet ==> View() == old(View()))
      ensures ok <==> d !in faults.firstStat
      ensures if ok then FirstPass(quiet, start, View(), cache, done + [d], fullScan, pending', missed')
              else pending' == pending && missed' == missed
    {
      ghost var before := View();
      Interfere();
      ok, pending', missed' := d !in faults.firstStat, pending, missed;
      if ok {
        var signature := SignatureOf(View(), d);
        if !fullScan && d in cache && cache[d] == signature {
          FirstPassSkip(layout, quiet, start, before, View(), cache, done, d, pending, missed);
          missed' := missed + OrphansOf(layout, View(), d);
        } else {
          FirstPassMore(quiet, start, before, View(), cache, done, d, fullScan, pending, missed);
          pending' := pending + [(d, signature)];
        }
      }
    }

    /**
      First pass: stat every target and keep those to scan. `missed` collects what a full scan
      would have given a row, from the skipped directories at the moment they were skipped.
     */
    method CollectPending(targets: seq<Dir>, fullScan: bool, faults: Faults)
      returns (ok: bool, pending: seq<(Dir, Signature)>, ghost missed: set<Path>)
      requires Valid()
      modifies this`dirs, this`nextStamp, this`rows, this`dropped
      ensures Valid()
      ensures WereRowless(View(), missed) && (fullScan ==> missed == {})
      ensures forall p :: p in pending ==> p.0 in targets && (p.1.Stamp? ==> p.1.n < nextStamp)
      ensures ok && fullScan ==> forall d :: d in targets ==> exists p :: p in pending && p.0 == d
      ensures quiet ==> View() == old(View()) && PendingOf(View(), cache, targets, fullScan, pending, ok)
      ensures NoRepeats(targets) ==> DistinctDirs(pending)
      ensures faults.firstStat == {} ==> ok
    {
      ok, pending, missed := true, [], {};
      ghost var start := View();
      for i := 0 to |targets|
        invariant Valid() && ok
        invariant FirstPass(quiet, start, View(), cache, targets[..i], fullScan, pending, missed)
      {
        assert targets[..i + 1] == targets[..i] + [targets[i]];
        ghost var before := View();
        ok, pending, missed := StatTarget(targets[i], fullScan, faults, pending, missed, start, targets[..i]);
        if !ok {
          FirstPassEnds(quiet, start, before, View(), cache, targets, i, fullScan, pending, missed);
          return;
        }
      }
      assert targets[..|targets|] == targets;
    }

    /** Second pass, one directory: scan it, stat it again, and remember its signature only
        if nothing failed and the signature is still the one read before the listing. */
    method ScanAndRemember(d: Dir, signature: Signature, snap: set<Path>, faults: Faults)
      returns (ok: bool, listing: set<File>, deleted: set<Path>, ghost order: seq<Path>)
      requires Valid() && SnapCovers(View(), d, signature, snap)
      modifies this`dirs, this`nextStamp, this`rows, this`dropped, this`handled, this`copies, this`cache
      ensures Valid()
      ensures DirScanned(layout, faults, quiet, old(View()), View(), old(cache), cache, d, signature, snap,
                         ok, listing, deleted, order)
    {
      listing, deleted, order := {}, {}, [];
      if d in faults.list {
        ok := false;
        return;
      }
      ghost var start, first := View(), cache;
      var clean;
      clean, listing, deleted, order := ScanDirectory(d, signature, snap, faults);
      ghost var before := View();
      Interfere();
      ok := d !in faults.secondStat;
      if ok {
        if clean {
          ScanStaysCovering(before, View(), d, signature, listing, listing, snap);
        }
        Remember(d, signature, clean, listing, snap);
      }
      DirIsScanned(layout, faults, quiet, start, before, View(), first, cache, d, signature, snap, clean, ok, listing,
                   deleted, order);
    }

    /** Remembers the signature, or forgets the one it had. */
    method Remember(d: Dir, signature: Signature, clean: bool, ghost listing: set<File>, ghost snap: set<Path>)
      requires Valid() && (clean ==> ScanCovers(View(), d, signature, listing, listing, snap))
      modifies this`cache
      ensures Valid() && forall e :: e != d ==> SameEntry(old(cache), cache, e)
      ensures clean && signature == SignatureOf(View(), d) ==> Settled(View(), cache, d)
    {
      var after := SignatureOf(View(), d);
      if clean && after == signature {
        assert AllHandled(View(), d);
        cache := cache[d := after];
      } else {
        cache := cache - {d};
      }
    }

    /** The whole second pass; `snap` are the paths known when it starts. */
    method ScanAll(pending: seq<(Dir, Signature)>, snap: set<Path>, faults: Faults)
      returns (ok: bool, scanned: set<Dir>, seen: set<Path>, deleted: set<Path>, ghost order: seq<Path>)
      requires Valid() && forall p :: p in pending ==> SnapCovers(View(), p.0, p.1, snap)
      modifies this`dirs, this`nextStamp, this`rows, this`dropped, this`handled, this`copies, this`cache
      ensures Valid() && Remembers(old(View()), View())
      ensures ok ==> scanned == set p | p in pending :: p.0
      ensures forall d :: d in scanned ==> exists p :: p in pending && p.0 == d
      ensures SameOutside(old(cache), cache, scanned)
      ensures quiet ==> Undisturbed(old(View()), View(), scanned)
      ensures quiet && ok ==> Saw(old(View()), View(), scanned, seen)
      ensures quiet && Unfailing(faults) && StillShow(old(View()), pending, {}) ==>
        ok && AllFinished(View(), cache, scanned, deleted)
      ensures quiet && Unfailing(faults) && old(SnapRows(View(), snap)) ==>
        InOrder(layout, faults, old(View()), View(), pending, scanned, snap, order)
    {
      ok, scanned, seen, deleted, order := true, {}, {}, {}, [];
      ghost var start, first := View(), cache;
      for i := 0 to |pending|
        invariant Valid() && ok
        invariant PassSoFar(layout, faults, quiet, start, View(), first, cache, pending, i, snap, true, scanned, seen,
                            deleted, order)
      {
        var (d, signature) := pending[i];
        ghost var world, entries := View(), cache;
        assert pending[i] in pending && SnapCovers(start, d, signature, snap);
        var listing, gone;
        ghost var more;
        ok, listing, gone, more := ScanAndRemember(d, signature, snap, faults);
        PassThen(layout, faults, quiet, start, world, View(), first, entries, cache, pending, i, snap, scanned, seen,
                 deleted, order, ok, listing, gone, more);
        scanned, deleted, order := scanned + {d}, deleted + gone, order + more;
        seen := seen + InDir(d, listing);
        if !ok {
          return;
        }
      }
      assert pending[..|pending|] == pending;
    }

    /** Both passes over the targets. */
    method ScanTargets(targets: seq<Dir>, fullScan: bool, faults: Faults)
      returns (ok: bool, scanned: set<Dir>, seen: set<Path>, ghost missed: set<Path>, ghost deleted: set<Path>,
               ghost order: seq<Path>)
      requires Valid()
      modifies this`dirs, this`nextStamp, this`rows, this`dropped, this`handled, this`copies, this`cache
      ensures Valid()
      ensures fullScan ==> missed == {}
      ensures WereRowless(View(), missed)
      ensures ok && fullScan ==> forall d :: d in scanned <==> d in targets
      ensures quiet ==> Narrows(old(View()), View()) && (ok ==> Saw(old(View()), View(), scanned, seen))
      ensures quiet && Unfailing(faults) ==> ok && forall d :: d in targets ==> Finished(View(), cache, d, deleted)
      ensures quiet && ok ==>
        forall d :: d in scanned <==> d in targets && (fullScan || !Skips(old(View()), old(cache), d))
      ensures quiet && Unfailing(faults) ==> ScannedInOrder(layout, faults.removals, old(View()), View(), order)
      ensures quiet && Unfailing(faults) && NoRepeats(targets) ==> Lists(order, old(View()), scanned)
    {
      scanned, seen, deleted, order := {}, {}, {}, [];
      var pending;
      ok, pending, missed := CollectPending(targets, fullScan, faults);
      if !ok {
        return;
      }
      ghost var collected, before := View(), cache;
      var gone;
      ok, scanned, seen, gone, order := ScanAll(pending, rows, faults);
      deleted := gone;
      if ok && fullScan {
        ScannedAreTargets(targets, pending, scanned);
      }
      if quiet && Unfailing(faults) {
        forall d | d in targets ensures Finished(View(), cache, d, deleted) {
          if d !in scanned {
            SkippedIsFinished(collected, View(), before, cache, d, scanned, pending, deleted);
          }
        }
      }
    }

    /**
      One run of `syncMaildirOnceDetailed` up to the cleanup. Whatever others do meanwhile, the
      cache stays sound, and a skipped directory holds nothing to import but files that were
      accepted without a row, or lost it, and are copies no longer.
     */
    method SyncOnce(targets: seq<Dir>, faults: Faults)
      returns (ok: bool, fullScan: bool, scanned: set<Dir>, seen: set<Path>, ghost missed: set<Path>,
               ghost deleted: set<Path>, ghost order: seq<Path>)
      requires Valid()
      modifies this
      ensures Valid()
      ensures runs == old(runs) + 1 && fullScan == (runs == 1 || runs % 20 == 0)
      ensures fullScan ==> missed == {}
      ensures WereRowless(View(), missed)
      ensures ok && fullScan ==> cache.Keys <= scanned && forall d :: d in scanned <==> d in targets
      ensures quiet ==> Narrows(old(View()), View()) && (ok ==> Saw(old(View()), View(), scanned, seen))
      // Undisturbed and without failures every file has been handled as it is, and every target
      // is cached, unless a copy was deleted from it.
      ensures quiet && Unfailing(faults) ==> ok && forall d :: d in targets ==> Finished(View(), cache, d, deleted)
      // Undisturbed, all targets are scanned but those skipped, and without failures the rows are
      // those after their files, one after the other.
      ensures quiet && ok ==>
        forall d :: d in scanned <==> d in targets && (fullScan || !Skips(old(View()), old(cache), d))
      ensures quiet && Unfailing(faults) ==> ScannedInOrder(layout, faults.removals, old(View()), View(), order)
      ensures quiet && Unfailing(faults) && NoRepeats(targets) ==> Lists(order, old(View()), scanned)
    {
      runs := runs + 1;
      fullScan := runs == 1 || runs % FULL_SCAN_EVERY == 0;
      ok, scanned, seen, missed, deleted, order := ScanTargets(targets, fullScan, faults);
      if ok && fullScan {
        var active := set d | d in targets;
        cache := map d | d in cache && d in active :: cache[d];
      }
    }

    /** `cleanupMissingMaildirMessages`: find the rows whose file is gone, then delete them.
        `recent` are rows too young to be considered. The cache stays sound even when files
        come back in between, and no row is deleted whose file was there when looked for. A row
        that has been given another path by then goes too; that counts as dropped by others. */
    method CleanupMissing(seen: set<Path>, scanned: set<Dir>, fullScan: bool, recent: set<Path>)
      returns (missing: set<Path>)
      requires Valid()
      modifies this`dirs, this`nextStamp, this`rows, this`dropped
      ensures Valid()
      ensures missing <= old(rows) - seen - recent
      ensures !fullScan ==> forall d, f :: (d, f) in missing ==> d in scanned
      ensures quiet ==> dirs == old(dirs) && rows == old(rows) - missing
      ensures quiet ==> forall p :: p in missing <==>
        p in old(rows) - (seen + recent) && (fullScan || p.0 in scanned) && p.1 !in FilesIn(old(View()), p.0)
    {
      missing := {};
      if !fullScan && scanned == {} {
        return;
      }
      var candidates := rows;
      var rest := candidates;
      while rest != {}
        invariant Valid() && rest <= candidates && missing <= candidates - seen - recent - rest
        invariant !fullScan ==> forall d, f :: (d, f) in missing ==> d in scanned
        invariant forall p :: p in missing ==> Gone(View(), p)
        invariant quiet ==> View() == old(View())
        invariant quiet ==> forall p :: p in missing <==>
          p in candidates - rest - (seen + recent) && (fullScan || p.0 in scanned) && p.1 !in FilesIn(View(), p.0)
        decreases rest
      {
        var row :| row in rest;
        rest := rest - {row};
        ghost var before := View();
        Interfere();
        AllStayGone(before, View(), missing);
        if row !in recent && (fullScan || row.0 in scanned) && row !in seen && row.1 !in FilesIn(View(), row.0) {
          missing := missing + {row};
        }
      }
      DeleteRows(missing);
    }

    method DeleteRows(missing: set<Path>)
      requires Valid() && forall p :: p in missing ==> Gone(View(), p)
      modifies this`dirs, this`nextStamp, this`rows, this`dropped
      ensures Valid()
      ensures quiet ==> dirs == old(dirs) && rows == old(rows) - missing
    {
      var rest := missing;
      while rest != {}
        invariant Valid() && rest <= missing
        invariant forall p :: p in missing ==> Gone(View(), p)
        invariant quiet ==> dirs == old(dirs) && rows == old(rows) - (missing - rest)
        decreases rest
      {
        var row :| row in rest;
        rest := rest - {row};
        DeleteRow(row, missing);
      }
    }

    method DeleteRow(row: Path, ghost missing: set<Path>)
      requires Valid() && row in missing && forall p :: p in missing ==> Gone(View(), p)
      modifies this`dirs, this`nextStamp, this`rows, this`dropped
      ensures Valid() && forall p :: p in missing ==> Gone(View(), p)
      ensures quiet ==> dirs == old(dirs) && rows == old(rows) - {row}
    {
      ghost var before := View();
      Interfere();
      AllStayGone(before, View(), missing);
      ForgettingIsSound(View(), cache, row);
      rows := rows - {row};
    }
  }

  lemma NotYetScanned(pending: seq<(Dir, Signature)>, i: nat, scanned: set<Dir>)
    requires i < |pending| && DistinctDirs(pending) && scanned == set p | p in pending[..i] :: p.0
    ensures pending[i].0 !in scanned
  {
  }

  lemma ScannedAreTargets(targets: seq<Dir>, pending: seq<(Dir, Signature)>, scanned: set<Dir>)
    requires scanned == set p | p in pending :: p.0
    requires forall p :: p in pending ==> p.0 in targets
    requires forall d :: d in targets ==> exists p :: p in pending && p.0 == d
    ensures forall d :: d in scanned <==> d in targets
  {
  }

  lemma SkippedIsFinished(a: World, b: World, before: Cache, after: Cache, d: Dir, scanned: set<Dir>,
                          pending: seq<(Dir, Signature)>, deleted: set<Path>)
    requires CacheSound(a, before) && Narrows(a, b) && SameOutside(before, after, scanned) && d !in scanned
    requires SignatureOf(b, d) == SignatureOf(a, d) && FilesIn(b, d) == FilesIn(a, d)
    requires scanned == set p | p in pending :: p.0
    requires Skips(a, before, d) || (d, SignatureOf(a, d)) in pending
    ensures Finished(b, after, d, deleted)
  {
    assert (d, SignatureOf(a, d)) in pending ==> d in scanned;
    assert SameEntry(before, after, d);
    FinishedStays(a, b, before, after, d, {}, deleted);
  }

  /**
    Of two undisturbed runs from the same state, one a full scan and the other leaving out the
    directories `skip`, that meet the files in the same order: they end with the same rows exactly
    when no file left out is orphaned when its turn comes.
   */
  lemma RunsAgreeIff(layout: Layout, stuck: set<Path>, w: World, cache: Cache, full: World, short: World,
                     order: seq<Path>, skip: set<Dir>)
    requires Proper(layout) && CacheSound(w, cache) && NoRepeats(order) && forall d :: d in skip ==> Skips(w, cache, d)
    requires ScannedInOrder(layout, stuck, w, full, order)
    requires ScannedInOrder(layout, stuck, w, short, Unskipped(order, skip))
    ensures full.rows == short.rows <==> NoneOrphaned(layout, stuck, w, order, skip)
  {
    IncrementalAgreesIff(layout, stuck, w, cache, order, skip);
  }
}

/**
  Incremental import of one remote IMAP folder: batches above a stored UID watermark, each
  message imported in one transaction, stopping at the first failure.

  Between any two actions new mail may arrive, remote messages may be expunged and other
  runs over the same folder may import and save. UIDVALIDITY stays fixed, so the server
  hands out growing UIDs and never reuses one (section 2.3.1.1 of RFC 3501).
 */
module ExternalSync {
  import opened Common

  type Uid = nat

  const MAX_PER_RUN := 100
  const BATCH_SIZE := 10

  /** `records` are the UIDs with a local record, `imports` the insertions in order. */
  datatype State = State(remote: set<Uid>, uidNext: Uid, records: set<Uid>, imports: seq<Uid>, watermark: Uid)

  /** Nothing at or below the watermark was passed over, and nothing was imported twice. */
  ghost predicate Sound(s: State) {
    && s.uidNext > 0
    && s.watermark < s.uidNext
    && (forall u :: u in s.remote ==> 0 < u < s.uidNext)
    && (forall u :: u in s.remote && u <= s.watermark ==> u in s.records)
    && NoRepeats(s.imports)
    && (forall u :: u in s.imports ==> u in s.records)
  }

  /** What others may have done in the meantime. */
  ghost predicate Evolves(a: State, b: State) {
    && Sound(b)
    && a.uidNext <= b.uidNext
    && (forall u :: u in b.remote && u !in a.remote ==> u >= a.uidNext)
    && a.records <= b.records
    && |a.imports| <= |b.imports| && b.imports[..|a.imports|] == a.imports
    && a.watermark <= b.watermark
  }

  // ---------------------------------------------------------------- the remote side

  /** The UIDs strictly between `lo` and `hi`, ascending. */
  function Between(remote: set<Uid>, lo: Uid, hi: Uid): seq<Uid>
    decreases hi
  {
    if hi <= lo + 1 then []
    else Between(remote, lo, hi - 1) + if hi - 1 in remote then [hi - 1] else []
  }

  lemma {:induction false} BetweenMembers(remote: set<Uid>, lo: Uid, hi: Uid, u: Uid)
    ensures u in Between(remote, lo, hi) <==> u in remote && lo < u < hi
    decreases hi
  {
    if hi > lo + 1 {
      BetweenMembers(remote, lo, hi - 1, u);
    }
  }

  ghost predicate AllBelow(xs: seq<Uid>, hi: Uid) {
    forall k :: 0 <= k < |xs| ==> xs[k] < hi
  }

  lemma {:induction false} BetweenAscends(remote: set<Uid>, lo: Uid, hi: Uid)
    ensures Ascending(Between(remote, lo, hi)) && AllBelow(Between(remote, lo, hi), hi)
    decreases hi
  {
    if hi > lo + 1 {
      var shorter := Between(remote, lo, hi - 1);
      BetweenAscends(remote, lo, hi - 1);
      if hi - 1 in remote {
        assert Between(remote, lo, hi) == shorter + [hi - 1];
      } else {
        assert Between(remote, lo, hi) == shorter;
      }
    }
  }

  /** The list is exactly the members in between, in increasing order. */
  lemma BetweenIsSorted(remote: set<Uid>, lo: Uid, hi: Uid)
    ensures Ascending(Between(remote, lo, hi))
    ensures forall u :: u in Between(remote, lo, hi) <==> u in remote && lo < u < hi
  {
    BetweenAscends(remote, lo, hi);
    forall u: Uid ensures u in Between(remote, lo, hi) <==> u in remote && lo < u < hi {
      BetweenMembers(remote, lo, hi, u);
    }
  }

  /** Splitting the list at one of its own members. */
  lemma {:induction false} BetweenSplits(remote: set<Uid>, lo: Uid, k: nat, hi: Uid)
    requires k < |Between(remote, lo, hi)|
    ensures Between(remote, Between(remote, lo, hi)[k], hi) == Between(remote, lo, hi)[k + 1..]
    decreases hi
  {
    var all := Between(remote, lo, hi);
    var shorter := Between(remote, lo, hi - 1);
    if k < |shorter| {
      BetweenSplits(remote, lo, k, hi - 1);
      assert all[k] == shorter[k] && shorter[k] in shorter;
      BetweenMembers(remote, lo, hi - 1, shorter[k]);
    } else {
      assert all[k] == hi - 1;
    }
  }

  /** Taking from the front, then dropping what has been passed, neither skips nor repeats. */
  ghost predicate IsNextBatch(remote: set<Uid>, after: Uid, found: seq<Uid>, limit: nat) {
    && Ascending(found)
    && |found| <= limit
    && (forall u :: u in found ==> u > after)
    && (forall u :: u in remote && u > after && (|found| < limit || (found != [] && u <= found[|found| - 1])) ==>
          u in found)
  }

  lemma TakeIsNextBatch(remote: set<Uid>, after: Uid, uidNext: Uid, limit: nat)
    requires forall u :: u in remote ==> u < uidNext
    ensures var all := Between(remote, after, uidNext);
      IsNextBatch(remote, after, all[..Min(limit, |all|)], limit)
  {
    var all := Between(remote, after, uidNext);
    var found := all[..Min(limit, |all|)];
    BetweenIsSorted(remote, after, uidNext);
    assert forall u :: u in found ==> u in all;
    forall u | u in remote && u > after && (|found| < limit || (found != [] && u <= found[|found| - 1]))
      ensures u in found
    {
      var k :| 0 <= k < |all| && all[k] == u;
    }
  }

  // ---------------------------------------------------------------- runs over a fixed folder

  /** Where the watermark stands after one failure-free run over a folder at rest. */
  function AfterRun(remote: set<Uid>, uidNext: Uid, watermark: Uid): Uid {
    var todo := Between(remote, watermark, uidNext);
    if todo == [] then watermark else todo[Min(MAX_PER_RUN, |todo|) - 1]
  }

  function AfterRuns(remote: set<Uid>, uidNext: Uid, watermark: Uid, runs: nat): Uid
    decreases runs
  {
    if runs == 0 then watermark else AfterRuns(remote, uidNext, AfterRun(remote, uidNext, watermark), runs - 1)
  }

  lemma RunShortensTodo(remote: set<Uid>, uidNext: Uid, watermark: Uid)
    ensures var todo := Between(remote, watermark, uidNext);
      Between(remote, AfterRun(remote, uidNext, watermark), uidNext) == todo[Min(MAX_PER_RUN, |todo|)..]
  {
    var todo := Between(remote, watermark, uidNext);
    if todo != [] {
      BetweenSplits(remote, watermark, Min(MAX_PER_RUN, |todo|) - 1, uidNext);
    }
  }

  /** Enough failure-free runs leave nothing above the watermark: each takes the next hundred. */
  lemma {:induction false} RunsFinish(remote: set<Uid>, uidNext: Uid, watermark: Uid, runs: nat)
    requires |Between(remote, watermark, uidNext)| <= runs * MAX_PER_RUN
    ensures Between(remote, AfterRuns(remote, uidNext, watermark, runs), uidNext) == []
    decreases runs
  {
    if runs > 0 {
      RunShortensTodo(remote, uidNext, watermark);
      RunsFinish(remote, uidNext, AfterRun(remote, uidNext, watermark), runs - 1);
    }
  }

  /** A sound state whose watermark has passed everything has a record of everything. */
  lemma NothingLeftMeansAll(s: State)
    requires Sound(s) && Between(s.remote, s.watermark, s.uidNext) == []
    ensures s.remote <= s.records
  {
    BetweenIsSorted(s.remote, s.watermark, s.uidNext);
  }

  lemma {:induction false} RunsAgain(remote: set<Uid>, uidNext: Uid, watermark: Uid, runs: nat)
    ensures AfterRuns(remote, uidNext, watermark, runs + 1)
      == AfterRun(remote, uidNext, AfterRuns(remote, uidNext, watermark, runs))
    decreases runs
  {
    if runs > 0 {
      RunsAgain(remote, uidNext, AfterRun(remote, uidNext, watermark), runs - 1);
    }
  }

  // ---------------------------------------------------------------- one run

  /** A fetched batch: what of the next `limit` messages is still there. */
  ghost predicate IsFetched(s: State, after: Uid, out: seq<Uid>, limit: nat) {
    && Ascending(out)
    && |out| <= limit
    && (forall u :: u in out ==> after < u < s.uidNext)
    && (forall k, u :: 0 <= k < |out| && u in s.remote && after < u <= out[k] ==> u in out)
  }

  lemma FetchIsNext(a: State, b: State, after: Uid, found: seq<Uid>, limit: nat)
    requires Sound(a) && Evolves(a, b)
    requires IsNextBatch(a.remote, after, found, limit)
    requires forall u :: u in found ==> u in a.remote
    ensures IsFetched(b, after, Kept(found, b.remote), limit)
  {
    var out := Kept(found, b.remote);
    KeptIsSubsequence(found, b.remote);
    forall u ensures u in out <==> u in found && u in b.remote {
      KeptMembers(found, b.remote, u);
    }
    forall k, u | 0 <= k < |out| && u in b.remote && after < u <= out[k] ensures u in out {
      assert out[k] in out;
      assert out[k] in a.remote;
      assert u in a.remote;
      var j :| 0 <= j < |found| && found[j] == out[k];
    }
  }

  function Kept(xs: seq<Uid>, remote: set<Uid>): seq<Uid> {
    if xs == [] then []
    else Kept(xs[..|xs| - 1], remote) + if xs[|xs| - 1] in remote then [xs[|xs| - 1]] else []
  }

  lemma {:induction false} KeptMembers(xs: seq<Uid>, remote: set<Uid>, u: Uid)
    ensures u in Kept(xs, remote) <==> u in xs && u in remote
  {
    if xs != [] {
      KeptMembers(xs[..|xs| - 1], remote, u);
      assert xs == xs[..|xs| - 1] + [xs[|xs| - 1]];
    }
  }

  lemma {:induction false} KeptIsSubsequence(xs: seq<Uid>, remote: set<Uid>)
    requires Ascending(xs)
    ensures Ascending(Kept(xs, remote)) && |Kept(xs, remote)| <= |xs|
  {
    if xs != [] {
      var init := xs[..|xs| - 1];
      KeptIsSubsequence(init, remote);
      var kept := Kept(init, remote);
      forall k | 0 <= k < |kept| ensures kept[k] < xs[|xs| - 1] {
        KeptMembers(init, remote, kept[k]);
      }
    }
  }

  lemma {:induction false} KeptAll(xs: seq<Uid>, remote: set<Uid>)
    requires forall i :: 0 <= i < |xs| ==> xs[i] in remote
    ensures Kept(xs, remote) == xs
  {
    if xs != [] {
      var init := xs[..|xs| - 1];
      KeptAll(init, remote);
      assert xs == init + [xs[|xs| - 1]];
    }
  }

  /** A fetched batch can still be relied on after others have acted. */
  lemma FetchedStays(a: State, b: State, after: Uid, out: seq<Uid>, limit: nat)
    requires Evolves(a, b) && IsFetched(a, after, out, limit)
    ensures IsFetched(b, after, out, limit)
  {
    forall k, u | 0 <= k < |out| && u in b.remote && after < u <= out[k] ensures u in out {
      assert out[k] in out;
    }
  }

  /** Every remote message up to `uid` has a record. */
  ghost predicate PassedUpTo(s: State, uid: Uid) {
    && uid < s.uidNext
    && forall u :: u in s.remote && u <= uid ==> u in s.records
  }

  lemma PassedStays(a: State, b: State, uid: Uid)
    requires Evolves(a, b) && PassedUpTo(a, uid)
    ensures PassedUpTo(b, uid)
  {
  }

  lemma PassedNext(s: State, after: Uid, out: seq<Uid>, limit: nat, k: nat)
    requires IsFetched(s, after, out, limit) && k < |out|
    requires PassedUpTo(s, if k == 0 then after else out[k - 1])
    requires out[k] in s.records
    ensures PassedUpTo(s, out[k])
  {
    assert out[k] in out;
    forall u | u in s.remote && u <= out[k] ensures u in s.records {
      if u > (if k == 0 then after else out[k - 1]) {
        assert k > 0 ==> out[k - 1] in out;
        assert u in out;
        var j :| 0 <= j < |out| && out[j] == u;
        assert j == k;
      }
    }
  }

  /** What can go wrong in one run: a fetch, by batch number, and a message, by its UID. */
  datatype Faults = Faults(fetch: nat -> bool, item: Uid -> bool, save: bool)

  ghost predicate Faultless(f: Faults) {
    (forall n :: !f.fetch(n)) && (forall u :: !f.item(u)) && !f.save
  }

  lemma EvolvesTrans(a: State, b: State, c: State)
    requires Evolves(a, b) && Evolves(b, c)
    ensures Evolves(a, c)
  {
    forall u | u in c.remote && u !in a.remote ensures u >= a.uidNext {
      if u in b.remote { }
    }
    assert c.imports[..|a.imports|] == c.imports[..|b.imports|][..|a.imports|];
  }

  /** The last of the first `n` messages above the watermark. */
  function Reached(todo: seq<Uid>, watermark: Uid, n: nat): Uid
    requires n <= |todo|
  {
    if n == 0 then watermark else todo[n - 1]
  }

  lemma RestIsTodo(remote: set<Uid>, uidNext: Uid, watermark: Uid, n: nat)
    requires n <= |Between(remote, watermark, uidNext)|
    ensures var todo := Between(remote, watermark, uidNext);
      Between(remote, Reached(todo, watermark, n), uidNext) == todo[n..]
  {
    if n > 0 {
      BetweenSplits(remote, watermark, n - 1, uidNext);
    }
  }

  /** An undisturbed run that has passed `n` messages. */
  ghost predicate OnTrack(start: State, s: State, lastUid: Uid, n: nat) {
    && (s.remote, s.uidNext, s.watermark) == (start.remote, start.uidNext, start.watermark)
    && var todo := Between(start.remote, start.watermark, start.uidNext);
      n <= |todo| && lastUid == Reached(todo, start.watermark, n)
  }

  lemma BatchKeepsTrack(start: State, s: State, t: State, after: Uid, n: nat, items: seq<Uid>, limit: nat, k: nat)
    requires OnTrack(start, s, after, n) && k <= |items|
    requires (t.remote, t.uidNext, t.watermark) == (s.remote, s.uidNext, s.watermark)
    requires items == Between(s.remote, after, s.uidNext)[..Min(limit, |Between(s.remote, after, s.uidNext)|)]
    ensures OnTrack(start, t, Reached(items, after, k), n + k)
    ensures |items| < limit ==> n + |items| == |Between(start.remote, start.watermark, start.uidNext)|
  {
    var todo := Between(start.remote, start.watermark, start.uidNext);
    RestIsTodo(start.remote, start.uidNext, start.watermark, n);
    assert items == todo[n..n + |items|];
  }

  lemma TrackIsAhead(start: State, s: State, lastUid: Uid, n: nat)
    requires OnTrack(start, s, lastUid, n)
    ensures lastUid >= start.watermark
    ensures n == Min(MAX_PER_RUN, |Between(start.remote, start.watermark, start.uidNext)|) ==>
      lastUid == AfterRun(start.remote, start.uidNext, start.watermark)
  {
    if n > 0 {
      var todo := Between(start.remote, start.watermark, start.uidNext);
      BetweenMembers(start.remote, start.watermark, start.uidNext, todo[n - 1]);
    }
  }

  /** What a batch has done so far. */
  ghost predicate ItemsSoFar(quiet: bool, start: State, s: State, after: Uid, items: seq<Uid>, limit: nat,
                             imported: nat, lastUid: Uid) {
    && Evolves(start, s) && PassedUpTo(s, lastUid) && IsFetched(s, after, items, limit)
    && |s.imports| >= |start.imports| + imported
    && (quiet ==> |s.imports| == |start.imports| + imported)
    && (quiet ==> (s.remote, s.uidNext, s.watermark) == (start.remote, start.uidNext, start.watermark))
  }

  /** What a batch knows survives a step by anyone. */
  lemma Onward(quiet: bool, start: State, a: State, b: State, after: Uid, items: seq<Uid>, limit: nat,
               imported: nat, more: nat, lastUid: Uid)
    requires ItemsSoFar(quiet, start, a, after, items, limit, imported, lastUid) && Evolves(a, b)
    requires |b.imports| >= |a.imports| + more && (quiet ==> |b.imports| == |a.imports| + more)
    requires quiet ==> (b.remote, b.uidNext, b.watermark) == (a.remote, a.uidNext, a.watermark)
    ensures ItemsSoFar(quiet, start, b, after, items, limit, imported + more, lastUid)
  {
    EvolvesTrans(start, a, b);
    PassedStays(a, b, lastUid);
    FetchedStays(a, b, after, items, limit);
  }

  /** What the batches of a run have done so far. */
  ghost predicate BatchesSoFar(quiet: bool, start: State, s: State, imported: nat, skipped: nat, lastUid: Uid) {
    && Evolves(start, s) && PassedUpTo(s, lastUid)
    && |s.imports| >= |start.imports| + imported
    && (quiet ==> |s.imports| == |start.imports| + imported)
    && (quiet ==> OnTrack(start, s, lastUid, imported + skipped))
  }

  lemma BatchesThen(quiet: bool, start: State, a: State, b: State, imported: nat, skipped: nat, lastUid: Uid,
                    more: nat, known: nat, last: Uid)
    requires BatchesSoFar(quiet, start, a, imported, skipped, lastUid) && Evolves(a, b) && PassedUpTo(b, last)
    requires |b.imports| >= |a.imports| + more && (quiet ==> |b.imports| == |a.imports| + more)
    requires quiet ==> OnTrack(start, b, last, imported + skipped + more + known)
    ensures BatchesSoFar(quiet, start, b, imported + more, skipped + known, last)
  {
    EvolvesTrans(start, a, b);
  }

  class FolderSync {
    var remote: set<Uid>
    var uidNext: Uid
    var records: set<Uid>
    var imports: seq<Uid>
    var watermark: Uid
    /** Nobody else acts during the run. */
    const quiet: bool

    ghost function View(): State
      reads this
    {
      State(remote, uidNext, records, imports, watermark)
    }

    constructor (remote: set<Uid>, uidNext: Uid, quiet: bool)
      requires uidNext > 0 && forall u :: u in remote ==> 0 < u < uidNext
      ensures View() == State(remote, uidNext, {}, [], 0) && Sound(View()) && this.quiet == quiet
    {
      this.remote, this.uidNext, this.quiet := remote, uidNext, quiet;
      records, imports, watermark := {}, [], 0;
    }

    /** Whatever others do between two of this run's actions. */
    method Interfere()
      requires Sound(View())
      modifies this
      ensures Evolves(old(View()), View())
      ensures quiet ==> View() == old(View())
    {
    }

    /** Search for the next `limit` UIDs, then fetch those still there. */
    method FetchNew(after: Uid, limit: nat) returns (out: seq<Uid>)
      requires Sound(View())
      modifies this
      ensures Evolves(old(View()), View())
      ensures IsFetched(View(), after, out, limit)
      ensures quiet ==> View() == old(View())
      ensures quiet ==> out == Between(remote, after, uidNext)[..Min(limit, |Between(remote, after, uidNext)|)]
    {
      ghost var start := View();
      Interfere();
      ghost var before := View();
      var all := Between(remote, after, uidNext);
      var found := all[..Min(limit, |all|)];
      BetweenIsSorted(remote, after, uidNext);
      TakeIsNextBatch(remote, after, uidNext, limit);
      assert forall u :: u in found ==> u in all;
      Interfere();
      EvolvesTrans(start, before, View());
      FetchIsNext(before, View(), after, found, limit);
      if quiet {
        KeptAll(found, remote);
      }
      out := Kept(found, remote);
    }

    /** One transaction: the record and the message, or neither when the record exists. */
    method InsertOnce(uid: Uid) returns (inserted: bool)
      requires Sound(View()) && 0 < uid
      modifies this
      ensures inserted == (uid !in old(records))
      ensures View() == if inserted then old(View()).(records := old(records) + {uid}, imports := old(imports) + [uid])
          else old(View())
      ensures Evolves(old(View()), View())
      ensures uid in records
    {
      inserted := uid !in records;
      if inserted {
        records, imports := records + {uid}, imports + [uid];
      }
    }

    /** Imports one batch in order, up to its first failure. */
    method ImportBatch(items: seq<Uid>, after: Uid, limit: nat, faults: Faults)
      returns (imported: nat, skipped: nat, stop: bool, lastUid: Uid)
      requires Sound(View()) && PassedUpTo(View(), after) && IsFetched(View(), after, items, limit)
      modifies this
      ensures Evolves(old(View()), View()) && PassedUpTo(View(), lastUid)
      ensures imported + skipped <= |items| && lastUid == Reached(items, after, imported + skipped)
      ensures if stop then imported + skipped < |items| && faults.item(items[imported + skipped])
          else imported + skipped == |items|
      ensures |imports| >= |old(imports)| + imported && (quiet ==> |imports| == |old(imports)| + imported)
      ensures quiet ==> (remote, uidNext, watermark) == old((remote, uidNext, watermark))
    {
      imported, skipped, stop, lastUid := 0, 0, false, after;
      ghost var start := View();
      for i := 0 to |items|
        invariant ItemsSoFar(quiet, start, View(), after, items, limit, imported, lastUid)
        invariant imported + skipped == i && !stop && lastUid == Reached(items, after, i)
      {
        var uid := items[i];
        assert uid in items;
        var more, fine := ImportItem(uid, faults, start, after, items, limit, imported, lastUid);
        if !fine {
          stop := true;
          break;
        }
        imported, skipped := imported + more, skipped + 1 - more;
        PassedNext(View(), after, items, limit, i);
        lastUid := uid;
      }
    }

    /** One message: skipped when it has a record, before the fetch of its text or after. */
    method ImportItem(uid: Uid, faults: Faults, ghost start: State, ghost after: Uid, ghost items: seq<Uid>,
                      ghost limit: nat, ghost imported: nat, ghost lastUid: Uid)
      returns (more: nat, fine: bool)
      requires ItemsSoFar(quiet, start, View(), after, items, limit, imported, lastUid) && 0 < uid
      modifies this
      ensures ItemsSoFar(quiet, start, View(), after, items, limit, imported + more, lastUid)
      ensures fine ==> more <= 1 && uid in records
      ensures !fine ==> more == 0 && faults.item(uid)
    {
      ghost var first := View();
      Interfere();
      ghost var now := View();
      Onward(quiet, start, first, now, after, items, limit, imported, 0, lastUid);
      if uid in records {
        return 0, true;
      }
      if faults.item(uid) {
        return 0, false;
      }
      Interfere();
      ghost var later := View();
      Onward(quiet, start, now, later, after, items, limit, imported, 0, lastUid);
      var inserted := InsertOnce(uid);
      more, fine := if inserted then 1 else 0, true;
      Onward(quiet, start, later, View(), after, items, limit, imported, more, lastUid);
    }

    /** Fetches and imports the batch above `after`; `start`, `before` and `known` tell what the
        batches before it have done. */
    method NextBatch(after: Uid, limit: nat, faults: Faults, ghost start: State, ghost before: nat, ghost known: nat)
      returns (got: nat, imported: nat, skipped: nat, stop: bool, lastUid: Uid)
      requires BatchesSoFar(quiet, start, View(), before, known, after)
      modifies this
      ensures BatchesSoFar(quiet, start, View(), before + imported, known + skipped, lastUid)
      ensures imported + skipped <= got <= limit && (!stop ==> imported + skipped == got)
      ensures Faultless(faults) ==> !stop
      ensures quiet && got < limit ==>
        before + known + got == |Between(start.remote, start.watermark, start.uidNext)|
    {
      ghost var first := View();
      var items := FetchNew(after, limit);
      ghost var now := View();
      PassedStays(first, now, after);
      got := |items|;
      imported, skipped, stop, lastUid := ImportBatch(items, after, limit, faults);
      EvolvesTrans(first, now, View());
      if quiet {
        BatchKeepsTrack(start, now, View(), after, before + known, items, limit, imported + skipped);
      }
      BatchesThen(quiet, start, first, View(), before, known, after, imported, skipped, lastUid);
    }

    /** Batch after batch, from the stored watermark on. */
    method ImportBatches(faults: Faults) returns (ok: bool, imported: nat, skipped: nat, failed: nat, lastUid: Uid)
      requires Sound(View())
      modifies this
      ensures BatchesSoFar(quiet, old(View()), View(), imported, skipped, lastUid)
      ensures imported + skipped <= 100 && failed <= 1
      ensures !ok ==> imported == skipped == failed == 0
      ensures Faultless(faults) ==> ok && failed == 0
      ensures quiet && ok && failed == 0 ==>
        imported + skipped == Min(MAX_PER_RUN, |Between(old(remote), old(watermark), old(uidNext))|)
    {
      ok, imported, skipped, failed, lastUid := true, 0, 0, 0, watermark;
      var batch: nat := 0;
      ghost var start := View();
      while imported + skipped < MAX_PER_RUN
        invariant BatchesSoFar(quiet, start, View(), imported, skipped, lastUid)
        invariant failed == 0 && imported + skipped <= MAX_PER_RUN
        decreases MAX_PER_RUN - (imported + skipped)
      {
        var batchLimit := Min(BATCH_SIZE, MAX_PER_RUN - (imported + skipped));
        if faults.fetch(batch) {
          if imported + skipped == 0 {
            return false, 0, 0, 0, lastUid;
          }
          failed := failed + 1;
          break;
        }
        batch := batch + 1;
        var got, more, known, stop, last := NextBatch(lastUid, batchLimit, faults, start, imported, skipped);
        imported, skipped, lastUid := imported + more, skipped + known, last;
        if stop {
          failed := failed + 1;
          break;
        }
        if got < batchLimit {
          break;
        }
      }
    }

    /**
      One run over the folder. An undisturbed run advances the watermark over exactly the
      messages it passed, failures or not, and over the next hundred when nothing fails.
     */
    method SyncFolder(faults: Faults) returns (ok: bool, imported: nat, skipped: nat, failed: nat)
      requires Sound(View())
      modifies this
      ensures Evolves(old(View()), View())
      ensures imported + skipped <= 100 && failed <= 1
      ensures |imports| >= |old(imports)| + imported && (quiet ==> |imports| == |old(imports)| + imported)
      ensures !ok ==> imported == skipped == failed == 0
      ensures Faultless(faults) ==> ok && failed == 0
      ensures quiet ==> (remote, uidNext) == old((remote, uidNext))
      ensures quiet && (!ok || faults.save) ==> watermark == old(watermark)
      ensures quiet && ok && !faults.save ==> OnTrack(old(View()), old(View()), watermark, imported + skipped)
      ensures quiet && ok && !faults.save && failed == 0 ==>
        watermark == AfterRun(old(remote), old(uidNext), old(watermark))
    {
      ghost var start := View();
      var lastUid;
      ok, imported, skipped, failed, lastUid := ImportBatches(faults);
      if !ok {
        return;
      }
      ghost var now := View();
      Interfere();
      EvolvesTrans(start, now, View());
      PassedStays(now, View(), lastUid);
      if quiet {
        TrackIsAhead(start, now, lastUid, imported + skipped);
      }
      now := View();
      if !faults.save {
        watermark := if watermark < lastUid then lastUid else watermark;
      }
      EvolvesTrans(start, now, View());
    }

    /**
      Run after run over a folder at rest: with as many runs as there are hundreds of messages
      above the watermark, every remote message has a record.
     */
    method SyncRepeatedly(runs: nat, faults: Faults) returns (imported: nat)
      requires Sound(View()) && quiet && Faultless(faults)
      modifies this
      ensures Sound(View()) && Evolves(old(View()), View())
      ensures (remote, uidNext) == old((remote, uidNext))
      ensures watermark == AfterRuns(remote, uidNext, old(watermark), runs)
      ensures |imports| == |old(imports)| + imported
      ensures |Between(remote, old(watermark), uidNext)| <= runs * MAX_PER_RUN ==> remote <= records
    {
      imported := 0;
      ghost var start := View();
      for run := 0 to runs
        invariant Evolves(start, View()) && (remote, uidNext) == (start.remote, start.uidNext)
        invariant watermark == AfterRuns(remote, uidNext, start.watermark, run)
        invariant |imports| == |start.imports| + imported
      {
        ghost var before := View();
        var _, more, _, _ := SyncFolder(faults);
        EvolvesTrans(start, before, View());
        RunsAgain(remote, uidNext, start.watermark, run);
        imported := imported + more;
      }
      if |Between(remote, start.watermark, uidNext)| <= runs * MAX_PER_RUN {
        RunsFinish(remote, uidNext, start.watermark, runs);
        NothingLeftMeansAll(View());
      }
    }
  }
}

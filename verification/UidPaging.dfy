/**
  Reading one edge of a range-compressed SEARCH result, and the pages of a remote folder
  built on it.

  A SEARCH result lists UIDs as ranges; only the first or last few UIDs are wanted, so the
  ranges are walked from one end and the walk stops at the limit. UIDs have 32 bits, and the
  loops step once per UID up to the very ends of that space.
 */
module UidPaging {
  import opened Common
  import Text
  import Decimal

  newtype Uid32 = x: int | 0 <= x < 0x1_0000_0000

  datatype Range = Range(start: Uid32, stop: Uid32)

  // ---------------------------------------------------------------- what a range stands for

  /** The UIDs from `a` up to and including `b`. */
  function Upto(a: int, b: int): seq<int> {
    seq(if a <= b then b - a + 1 else 0, k => a + k)
  }

  function Members(r: Range): seq<int> {
    if r.start == 0 || r.stop == 0 then [] else Upto(r.start as int, r.stop as int)
  }

  function Flatten(ranges: seq<Range>): seq<int> {
    if ranges == [] then [] else Flatten(ranges[..|ranges| - 1]) + Members(ranges[|ranges| - 1])
  }

  /** Ranges as a server sends them: each in order, all disjoint and increasing. */
  ghost predicate WellFormed(ranges: seq<Range>) {
    && (forall i :: 0 <= i < |ranges| ==> ranges[i].start <= ranges[i].stop)
    && (forall i, j :: 0 <= i < j < |ranges| ==> ranges[i].stop < ranges[j].start)
  }

  ghost predicate Descending(xs: seq<int>) {
    forall i, j :: 0 <= i < j < |xs| ==> xs[i] > xs[j]
  }

  lemma {:induction false} FlattenBound(ranges: seq<Range>, x: int)
    requires WellFormed(ranges) && x in Flatten(ranges)
    ensures 0 < x <= ranges[|ranges| - 1].stop as int
  {
    var init := ranges[..|ranges| - 1];
    if x in Flatten(init) {
      FlattenBound(init, x);
    }
  }

  lemma {:induction false} FlattenIsAscending(ranges: seq<Range>)
    requires WellFormed(ranges)
    ensures Ascending(Flatten(ranges))
  {
    if ranges != [] {
      var init := ranges[..|ranges| - 1];
      var last := ranges[|ranges| - 1];
      FlattenIsAscending(init);
      forall k | 0 <= k < |Flatten(init)| ensures Flatten(init)[k] < last.start as int {
        FlattenBound(init, Flatten(init)[k]);
        assert ranges[|init| - 1] == init[|init| - 1];
      }
    }
  }

  function Reverse(xs: seq<int>): (r: seq<int>)
    ensures |r| == |xs|
    ensures forall k :: 0 <= k < |xs| ==> r[k] == xs[|xs| - 1 - k]
  {
    if xs == [] then [] else [xs[|xs| - 1]] + Reverse(xs[..|xs| - 1])
  }

  function Take(xs: seq<int>, n: nat): seq<int> {
    if |xs| <= n then xs else xs[..n]
  }

  function Ints(uids: seq<Uid32>): (r: seq<int>)
    ensures |r| == |uids|
    ensures forall k :: 0 <= k < |uids| ==> r[k] == uids[k] as int
  {
    seq(|uids|, k requires 0 <= k < |uids| => uids[k] as int)
  }

  /** What the reader should return: everything flattened, in the order asked for, cut off. */
  function EdgeOf(ranges: seq<Range>, limit: nat, newestFirst: bool): seq<int> {
    Take(if newestFirst then Reverse(Flatten(ranges)) else Flatten(ranges), limit)
  }

  // ---------------------------------------------------------------- reading one edge

  /** Appends one range upwards until it ends or the limit is reached. */
  method AppendAscending(uids: seq<Uid32>, r: Range, limit: nat) returns (out: seq<Uid32>, full: bool)
    requires |uids| < limit && r.start <= r.stop
    ensures Ints(out) == Take(Ints(uids) + Members(r), limit)
    ensures r.start != 0 ==> full == (|out| == limit)
    ensures full ==> |out| == limit
    ensures r.start == 0 ==> out == uids && !full
  {
    out := uids;
    if r.start == 0 || r.stop == 0 {
      return out, false;
    }
    var uid := r.start;
    while true
      invariant r.start <= uid <= r.stop && |out| < limit
      invariant Ints(out) == Ints(uids) + Upto(r.start as int, uid as int - 1)
      decreases r.stop - uid
    {
      out := out + [uid];
      assert Ints(out) == Ints(uids) + Upto(r.start as int, uid as int);
      if |out| == limit || uid == r.stop {
        break;
      }
      uid := uid + 1;
    }
    full := |out| == limit;
    var all := Ints(uids) + Members(r);
    assert Ints(out) == all[..|out|];
  }

  lemma IntsAppend(uids: seq<Uid32>, uid: Uid32)
    ensures Ints(uids + [uid]) == Ints(uids) + [uid as int]
  {
  }

  lemma PrefixGrows(all: seq<int>, n: nat, x: int)
    requires n < |all| && all[n] == x
    ensures all[..n] + [x] == all[..n + 1]
  {
  }

  lemma DescendingAt(before: seq<int>, r: Range, k: nat)
    requires 0 < r.start <= r.stop && k <= (r.stop - r.start) as int
    ensures var all := before + Reverse(Members(r));
      |all| == |before| + (r.stop - r.start) as int + 1 && all[|before| + k] == r.stop as int - k
  {
  }

  method AppendDescending(uids: seq<Uid32>, r: Range, limit: nat) returns (out: seq<Uid32>, full: bool)
    requires |uids| < limit && r.start <= r.stop
    ensures Ints(out) == Take(Ints(uids) + Reverse(Members(r)), limit)
    ensures r.start != 0 ==> full == (|out| == limit)
    ensures full ==> |out| == limit
    ensures r.start == 0 ==> out == uids && !full
  {
    out := uids;
    if r.start == 0 || r.stop == 0 {
      return out, false;
    }
    var uid := r.stop;
    ghost var all := Ints(uids) + Reverse(Members(r));
    while true
      invariant r.start <= uid <= r.stop && |out| < limit
      invariant |out| == |uids| + (r.stop - uid) as int <= |all|
      invariant Ints(out) == all[..|out|]
      decreases uid - r.start
    {
      DescendingAt(Ints(uids), r, (r.stop - uid) as nat);
      PrefixGrows(all, |out|, uid as int);
      IntsAppend(out, uid);
      out := out + [uid];
      if |out| == limit || uid == r.start {
        break;
      }
      uid := uid - 1;
    }
    full := |out| == limit;
  }

  lemma {:induction false} FlattenSplits(ranges: seq<Range>, i: nat)
    requires i <= |ranges|
    ensures Flatten(ranges) == Flatten(ranges[..i]) + Flatten(ranges[i..])
    decreases |ranges|
  {
    if i == |ranges| {
      assert ranges[..i] == ranges;
    } else {
      var init := ranges[..|ranges| - 1];
      FlattenSplits(init, i);
      FlattenStep(ranges, i);
      assert init[..i] == ranges[..i];
      Associative(Flatten(ranges[..i]), Flatten(init[i..]), Members(ranges[|ranges| - 1]));
    }
  }

  lemma FlattenStep(ranges: seq<Range>, i: nat)
    requires i < |ranges|
    ensures Flatten(ranges[i..]) == Flatten(ranges[..|ranges| - 1][i..]) + Members(ranges[|ranges| - 1])
  {
    var rest := ranges[i..];
    assert rest[..|rest| - 1] == ranges[..|ranges| - 1][i..];
  }

  lemma ReverseConcat(a: seq<int>, b: seq<int>)
    ensures Reverse(a + b) == Reverse(b) + Reverse(a)
  {
    var n := |a| + |b|;
    forall k | 0 <= k < n ensures Reverse(a + b)[k] == (Reverse(b) + Reverse(a))[k] {
    }
  }

  lemma TakeOfPrefix(prefix: seq<int>, rest: seq<int>, n: nat)
    requires |prefix| >= n
    ensures Take(prefix + rest, n) == Take(prefix, n)
  {
  }

  lemma FlattenNext(ranges: seq<Range>, i: nat)
    requires i < |ranges|
    ensures Flatten(ranges[..i + 1]) == Flatten(ranges[..i]) + Members(ranges[i])
  {
    assert ranges[..i + 1][..i] == ranges[..i];
  }

  /** Once the limit is reached, the ranges still to come do not matter. */
  lemma FullEarly(ranges: seq<Range>, i: nat, limit: nat)
    requires i <= |ranges| && limit <= |Flatten(ranges[..i])|
    ensures Take(Flatten(ranges[..i]), limit) == Take(Flatten(ranges), limit)
  {
    FlattenSplits(ranges, i);
    TakeOfPrefix(Flatten(ranges[..i]), Flatten(ranges[i..]), limit);
  }

  /** Walks the ranges from the front. */
  method ReadOldest(ranges: seq<Range>, limit: nat) returns (uids: seq<Uid32>)
    requires WellFormed(ranges) && limit > 0
    ensures Ints(uids) == Take(Flatten(ranges), limit)
  {
    uids := [];
    for i := 0 to |ranges|
      invariant |uids| < limit
      invariant Ints(uids) == Flatten(ranges[..i])
    {
      FlattenNext(ranges, i);
      var full;
      uids, full := AppendAscending(uids, ranges[i], limit);
      if full {
        FullEarly(ranges, i + 1, limit);
        return;
      }
    }
    assert ranges[..|ranges|] == ranges;
  }

  /** Walks the ranges from the back. */
  method ReadNewest(ranges: seq<Range>, limit: nat) returns (uids: seq<Uid32>)
    requires WellFormed(ranges) && limit > 0
    ensures Ints(uids) == Take(Reverse(Flatten(ranges)), limit)
  {
    uids := [];
    var i := |ranges|;
    assert ranges[i..] == [];
    while i > 0
      invariant 0 <= i <= |ranges| && |uids| < limit
      invariant Ints(uids) == Reverse(Flatten(ranges[i..]))
    {
      i := i - 1;
      FlattenFirst(ranges, i);
      var full;
      uids, full := AppendDescending(uids, ranges[i], limit);
      if full {
        FlattenSplits(ranges, i);
        ReverseConcat(Flatten(ranges[..i]), Flatten(ranges[i..]));
        TakeOfPrefix(Reverse(Flatten(ranges[i..])), Reverse(Flatten(ranges[..i])), limit);
        return;
      }
    }
    assert ranges[0..] == ranges;
  }

  /** The wanted edge of the result; nothing when the result is not a static list of UIDs. */
  method BoundedSearchUids(ranges: seq<Range>, isStatic: bool, limit: int, newestFirst: bool) returns (uids: seq<Uid32>)
    requires isStatic ==> WellFormed(ranges)
    ensures !isStatic || limit <= 0 ==> uids == []
    ensures isStatic && limit > 0 ==> Ints(uids) == EdgeOf(ranges, limit, newestFirst)
  {
    if !isStatic || limit <= 0 {
      return [];
    }
    if newestFirst {
      uids := ReadNewest(ranges, limit);
    } else {
      uids := ReadOldest(ranges, limit);
    }
  }

  lemma FlattenFirst(ranges: seq<Range>, i: nat)
    requires i < |ranges|
    ensures Reverse(Flatten(ranges[i..])) == Reverse(Flatten(ranges[i + 1..])) + Reverse(Members(ranges[i]))
  {
    FlattenSplits(ranges[i..], 1);
    assert ranges[i..][..1] == [ranges[i]] && ranges[i..][1..] == ranges[i + 1..];
    assert [ranges[i]][..0] == [];
    assert Flatten([ranges[i]]) == Members(ranges[i]);
    ReverseConcat(Members(ranges[i]), Flatten(ranges[i + 1..]));
  }

  // ---------------------------------------------------------------- pages of a remote folder

  const TOP: nat := 0xFFFF_FFFF
  const PAGE_SIZE := 30

  /**
    A remote folder while one page is made: what the search for UIDs up to a bound answers,
    and the messages still there when they are fetched.
   */
  datatype Folder = Folder(count: nat, uidNext: Uid32, matches: set<int>, present: set<int>,
                           search: Uid32 -> seq<Range>)
  {
    ghost predicate Valid() {
      && (forall u :: u in matches ==> count > 0 && 0 < u < uidNext as int)
      && (forall top: Uid32 :: Answers(top))
    }

    ghost predicate Answers(top: Uid32) {
      && WellFormed(search(top))
      && (forall u :: u in Flatten(search(top)) <==> u in matches && u <= top as int)
    }

    /** What a listing should show. */
    predicate Shows(u: int) {
      u in matches && u in present
    }
  }

  function PageSize(limit: int): nat {
    if limit != 20 && limit != 30 && limit != 50 then PAGE_SIZE else limit
  }

  const CURSOR_PREFIX := "uid:"

  /** Zero when the cursor says nothing. */
  function ParseCursor(cursor: string): (uid: nat)
    ensures uid <= TOP
  {
    if Text.TrimSpace(cursor) == "" then 0
    else Decimal.ParseOr(if CURSOR_PREFIX <= cursor then cursor[|CURSOR_PREFIX|..] else cursor, TOP)
  }

  function FormatCursor(uid: nat): string {
    if uid == 0 then "" else CURSOR_PREFIX + Decimal.Format(uid)
  }

  lemma CursorRoundTrip(uid: nat)
    requires uid <= TOP
    ensures ParseCursor(FormatCursor(uid)) == uid
  {
    if uid > 0 {
      Decimal.ParseFormat(uid, TOP);
      var cursor := FormatCursor(uid);
      assert cursor[0] == 'u';
      assert cursor[|CURSOR_PREFIX|..] == Decimal.Format(uid);
      NotBlank(cursor);
    }
  }

  lemma {:induction false} NotBlankRight(s: string, i: nat)
    requires i < |s| && !Text.IsSpace(s[i])
    ensures i < |Text.TrimRight(s, Text.IsSpace)|
  {
    if Text.IsSpace(s[|s| - 1]) {
      NotBlankRight(s[..|s| - 1], i);
    }
  }

  lemma NotBlank(s: string)
    requires s != "" && !Text.IsSpace(s[0])
    ensures Text.TrimSpace(s) != ""
  {
    assert Text.TrimLeft(s, Text.IsSpace) == s;
    NotBlankRight(s, 0);
  }

  /** The bound a page starts from when the cursor names `asked`, zero for none. */
  function FirstBound(f: Folder, asked: nat): int {
    if asked == 0 then f.uidNext as int - 1 else asked
  }

  /** A page starts where the cursor of the one before says, and without a cursor at the newest UID there can be. */
  lemma CursorContinues(f: Folder, next: nat, blank: string)
    requires next <= TOP && Text.TrimSpace(blank) == ""
    ensures next > 0 ==> FirstBound(f, ParseCursor(FormatCursor(next))) == next
    ensures next > 0 ==> FirstBound(f, ParseCursor(Decimal.Format(next))) == next
    ensures FirstBound(f, ParseCursor(blank)) == f.uidNext as int - 1
  {
    CursorRoundTrip(next);
    NumberAlone(next);
  }

  /** A cursor without its prefix reads the same. */
  lemma NumberAlone(next: nat)
    requires next <= TOP
    ensures ParseCursor(Decimal.Format(next)) == next
  {
    Decimal.ParseFormat(next, TOP);
    Decimal.FormatReadsBack(next);
    var cursor := Decimal.Format(next);
    assert Decimal.IsDigit(cursor[0]);
    assert !(CURSOR_PREFIX <= cursor) by {
      assert CURSOR_PREFIX[0] == 'u';
    }
    NotBlank(cursor);
  }

  /** A cursor that is no number says nothing, and one that is too large stands for the largest UID. */
  lemma OddCursors(f: Folder, cursor: string)
    requires Text.TrimSpace(cursor) != "" && !(CURSOR_PREFIX <= cursor)
    ensures !Decimal.IsNumeral(cursor) ==> FirstBound(f, ParseCursor(cursor)) == f.uidNext as int - 1
    ensures Decimal.IsNumeral(cursor) && Decimal.Value(cursor) > 0xFFFF_FFFF ==>
      FirstBound(f, ParseCursor(cursor)) == 0xFFFF_FFFF
  {
  }

  /** Pages of 20, 30 and 50 can be asked for; everything else gets 30. */
  lemma PageSizes(limit: int)
    ensures limit in {20, 30, 50} ==> PageSize(limit) == limit
    ensures limit !in {20, 30, 50} ==> PageSize(limit) == 30
  {
  }

  /**
    One page from `top` down: everything shown above the next bound, newest first. A next
    bound of zero says the list is complete.
   */
  ghost predicate IsPage(f: Folder, top: int, limit: nat, out: seq<int>, next: nat) {
    && Descending(out)
    && |out| <= limit
    && (forall u :: u in out <==> f.Shows(u) && next < u <= top)
    && (next > 0 ==> next < top)
    && (next > 0 && f.matches <= f.present ==> |out| == limit)
  }

  function StillThere(uids: seq<int>, present: set<int>): seq<int> {
    if uids == [] then []
    else StillThere(uids[..|uids| - 1], present) + if uids[|uids| - 1] in present then [uids[|uids| - 1]] else []
  }

  lemma {:induction false} StillThereMembers(uids: seq<int>, present: set<int>, u: int)
    ensures u in StillThere(uids, present) <==> u in uids && u in present
  {
    if uids != [] {
      StillThereMembers(uids[..|uids| - 1], present, u);
      assert uids == uids[..|uids| - 1] + [uids[|uids| - 1]];
    }
  }

  lemma {:induction false} StillThereOrder(uids: seq<int>, present: set<int>)
    requires Descending(uids)
    ensures Descending(StillThere(uids, present)) && |StillThere(uids, present)| <= |uids|
  {
    if uids != [] {
      var init := uids[..|uids| - 1];
      StillThereOrder(init, present);
      forall k | 0 <= k < |StillThere(init, present)|
        ensures StillThere(init, present)[k] > uids[|uids| - 1]
      {
        StillThereMembers(init, present, StillThere(init, present)[k]);
      }
    }
  }

  lemma {:induction false} StillThereAll(uids: seq<int>, present: set<int>)
    requires forall u :: u in uids ==> u in present
    ensures StillThere(uids, present) == uids
  {
    if uids != [] {
      var init, last := uids[..|uids| - 1], uids[|uids| - 1];
      assert forall u :: u in init ==> u in uids;
      StillThereAll(init, present);
      assert last in uids;
      assert StillThere(uids, present) == init + [last];
    }
  }

  lemma NewestOf(all: seq<int>, n: nat)
    requires Ascending(all)
    ensures var edge := Take(Reverse(all), n); Descending(edge) && |edge| <= n && forall u :: u in edge ==> u in all
  {
    var edge := Take(Reverse(all), n);
    forall k | 0 <= k < |edge| ensures edge[k] in all {
      assert edge[k] == all[|all| - 1 - k];
    }
  }

  lemma NewestHas(all: seq<int>, n: nat, u: int)
    requires Ascending(all) && u in all
    requires var edge := Take(Reverse(all), n); |edge| < n || (edge != [] && u >= edge[|edge| - 1])
    ensures u in Take(Reverse(all), n)
  {
    var edge := Take(Reverse(all), n);
    var k :| 0 <= k < |all| && all[k] == u;
    if |edge| < |all| {
      assert edge[|edge| - 1] == all[|all| - |edge|];
    }
    assert edge[|all| - 1 - k] == u;
  }

  /** The newest of `all`: nothing above what is taken is left out. */
  ghost predicate IsNewest(all: seq<int>, n: nat, edge: seq<int>) {
    && Descending(edge) && |edge| <= n
    && (forall u :: u in edge ==> u in all)
    && (forall u :: u in all && (|edge| < n || (edge != [] && u >= edge[|edge| - 1])) ==> u in edge)
  }

  lemma TakesNewest(all: seq<int>, n: nat)
    requires Ascending(all)
    ensures IsNewest(all, n, Take(Reverse(all), n))
  {
    var edge := Take(Reverse(all), n);
    NewestOf(all, n);
    forall u | u in all && (|edge| < n || (edge != [] && u >= edge[|edge| - 1])) ensures u in edge {
      NewestHas(all, n, u);
    }
  }

  /** The newest matching UIDs up to `top`. */
  lemma EdgeIsNewest(f: Folder, top: Uid32, n: nat, all: seq<int>)
    requires f.Valid() && all == Flatten(f.search(top))
    ensures IsNewest(all, n, EdgeOf(f.search(top), n, true))
    ensures forall u :: u in all <==> u in f.matches && u <= top as int
  {
    assert f.Answers(top);
    FlattenIsAscending(f.search(top));
    TakesNewest(all, n);
  }

  /** From the other end: the oldest, in order. */
  lemma EdgeIsOldest(ranges: seq<Range>, n: nat)
    requires WellFormed(ranges)
    ensures var all, out := Flatten(ranges), EdgeOf(ranges, n, false);
      && Ascending(out) && |out| == Min(n, |all|)
      && (forall u :: u in out ==> u in all)
      && (forall u, v :: u in all && u !in out && v in out ==> v < u)
  {
    FlattenIsAscending(ranges);
    var all, out := Flatten(ranges), EdgeOf(ranges, n, false);
    forall u, v | u in all && u !in out && v in out ensures v < u {
      var i :| 0 <= i < |all| && all[i] == u;
      var j :| 0 <= j < |out| && out[j] == v;
      assert forall k :: 0 <= k < |out| ==> out[k] == all[k] && out[k] in out;
      assert i >= |out|;
    }
  }

  /** Cutting the edge to one page, and naming where the next one starts. */
  lemma PageFromEdge(f: Folder, top: Uid32, limit: nat, uids: seq<int>, next: nat)
    requires f.Valid() && limit > 0
    requires uids == EdgeOf(f.search(top), limit + 1, true)
    requires next == if |uids| > limit && uids[limit - 1] > 1 then uids[limit - 1] - 1 else 0
    ensures IsPage(f, top as int, limit, StillThere(Take(uids, limit), f.present), next)
  {
    var all := Flatten(f.search(top));
    EdgeIsNewest(f, top, limit + 1, all);
    PageMembers(all, limit, uids, next);
    PageStillThere(f, top, limit, Take(uids, limit), next);
  }

  lemma PageStillThere(f: Folder, top: Uid32, limit: nat, page: seq<int>, next: nat)
    requires Descending(page) && |page| <= limit && (next > 0 ==> next < top as int && |page| == limit)
    requires forall u :: u in page <==> u in f.matches && next < u <= top as int
    ensures IsPage(f, top as int, limit, StillThere(page, f.present), next)
  {
    StillThereOrder(page, f.present);
    if f.matches <= f.present {
      StillThereAll(page, f.present);
    }
    forall u ensures u in StillThere(page, f.present) <==> f.Shows(u) && next < u <= top as int {
      StillThereMembers(page, f.present, u);
    }
  }

  lemma TakeAbove(uids: seq<int>, limit: nat, u: int)
    requires Descending(uids) && limit > 0 && u in Take(uids, limit)
    ensures u in uids && (|uids| > limit ==> u >= uids[limit - 1])
  {
    var k :| 0 <= k < |Take(uids, limit)| && Take(uids, limit)[k] == u;
    assert uids[k] == u;
  }

  lemma TakeHas(uids: seq<int>, limit: nat, u: int)
    requires Descending(uids) && limit > 0 && u in uids
    requires |uids| > limit ==> u >= uids[limit - 1]
    ensures u in Take(uids, limit)
  {
    var k :| 0 <= k < |uids| && uids[k] == u;
    assert Take(uids, limit)[k] == u;
  }

  lemma PageMembers(all: seq<int>, limit: nat, uids: seq<int>, next: nat)
    requires limit > 0 && IsNewest(all, limit + 1, uids) && forall u :: u in all ==> u > 0
    requires next == if |uids| > limit && uids[limit - 1] > 1 then uids[limit - 1] - 1 else 0
    ensures Descending(Take(uids, limit)) && |Take(uids, limit)| <= limit
    ensures next > 0 ==> |Take(uids, limit)| == limit && next + 1 in all
    ensures forall u :: u in Take(uids, limit) <==> u in all && next < u
  {
    if next > 0 {
      assert uids[limit - 1] in uids;
    }
    forall u ensures u in Take(uids, limit) <==> u in all && next < u {
      PageMember(all, limit, uids, next, u);
    }
  }

  lemma PageMember(all: seq<int>, limit: nat, uids: seq<int>, next: nat, u: int)
    requires limit > 0 && Descending(uids) && |uids| <= limit + 1
    requires next == if |uids| > limit && uids[limit - 1] > 1 then uids[limit - 1] - 1 else 0
    requires u in all ==> u > 0
    requires u in uids ==> u in all
    requires u in all && (|uids| <= limit || u >= uids[|uids| - 1]) ==> u in uids
    ensures u in Take(uids, limit) <==> u in all && next < u
  {
    if u in Take(uids, limit) {
      TakeAbove(uids, limit, u);
    }
    if u in all && next < u {
      assert |uids| > limit ==> u >= uids[limit - 1] > uids[limit];
      TakeHas(uids, limit, u);
    }
  }

  /** The page from `top` down, and where the next one starts. */
  method PageFrom(f: Folder, top: Uid32, size: nat) returns (out: seq<int>, last: nat)
    requires f.Valid() && size > 0
    ensures last <= TOP && IsPage(f, top as int, size, out, last)
  {
    assert f.Answers(top);
    var uids := BoundedSearchUids(f.search(top), true, size + 1, true);
    ghost var all := Ints(uids);
    last := 0;
    if |uids| > size {
      uids := uids[..size];
      if uids[size - 1] > 1 {
        last := uids[size - 1] as nat - 1;
      }
    }
    assert Ints(uids) == Take(all, size);
    PageFromEdge(f, top, size, all, last);
    out := StillThere(Ints(uids), f.present);
  }

  /** The page an already parsed cursor asks for. */
  method PageAt(f: Folder, asked: nat, size: nat) returns (out: seq<int>, last: nat)
    requires f.Valid() && size > 0 && asked <= TOP
    ensures last <= TOP && IsPage(f, FirstBound(f, asked), size, out, last)
  {
    if f.count == 0 || (asked == 0 && f.uidNext == 0) {
      return [], 0;
    }
    var top: Uid32 := asked as Uid32;
    if top == 0 {
      top := f.uidNext - 1;
    }
    out, last := PageFrom(f, top, size);
  }

  /** One page of summaries, and the cursor for the next; the cursor is empty at the end. */
  method FetchSummaries(f: Folder, cursor: string, limit: int) returns (out: seq<int>, next: string)
    requires f.Valid()
    ensures next == FormatCursor(ParseCursor(next))
    ensures IsPage(f, FirstBound(f, ParseCursor(cursor)), PageSize(limit), out, ParseCursor(next))
  {
    var last;
    out, last := PageAt(f, ParseCursor(cursor), PageSize(limit));
    CursorRoundTrip(last);
    next := FormatCursor(last);
  }

  // ---------------------------------------------------------------- following the cursors

  /** One answer of a listing: the folder as it was then, and where the page started. */
  datatype Answer = Answer(folder: Folder, top: int, out: seq<int>, next: nat)

  predicate Linked(a: Answer, b: Answer) {
    a.next > 0 && b.top == a.next
  }

  /** Pages fetched one after the other, each from the bound the one before it named. */
  ghost predicate Follows(answers: seq<Answer>, limit: nat) {
    && (forall i :: 0 <= i < |answers| ==>
          IsPage(answers[i].folder, answers[i].top, limit, answers[i].out, answers[i].next))
    && (forall i :: 0 <= i < |answers| - 1 ==> Linked(answers[i], answers[i + 1]))
  }

  function Listed(answers: seq<Answer>): seq<int> {
    if answers == [] then [] else Listed(answers[..|answers| - 1]) + answers[|answers| - 1].out
  }

  lemma {:induction false} ListedRange(answers: seq<Answer>, limit: nat, u: int)
    requires answers != [] && Follows(answers, limit) && u in Listed(answers)
    ensures answers[|answers| - 1].next < u <= answers[0].top
    ensures exists i :: 0 <= i < |answers| && u in answers[i].out
  {
    var init := answers[..|answers| - 1];
    if u in Listed(init) {
      ListedRange(init, limit, u);
      assert init[|init| - 1] == answers[|init| - 1];
      var i :| 0 <= i < |init| && u in init[i].out;
      assert u in answers[i].out;
    } else {
      TopsFall(answers, limit);
      assert u in answers[|answers| - 1].out;
    }
  }

  lemma {:induction false} TopsFall(answers: seq<Answer>, limit: nat)
    requires answers != [] && Follows(answers, limit)
    ensures answers[|answers| - 1].top <= answers[0].top - (|answers| - 1)
  {
    if |answers| > 1 {
      TopsFall(answers[..|answers| - 1], limit);
      assert Linked(answers[|answers| - 2], answers[|answers| - 1]);
    }
  }

  /** No message is listed twice, and the listing is newest first throughout. */
  lemma {:induction false} ListingDescends(answers: seq<Answer>, limit: nat)
    requires Follows(answers, limit)
    ensures Descending(Listed(answers))
  {
    if |answers| > 0 {
      var init := answers[..|answers| - 1];
      ListingDescends(init, limit);
      var last := answers[|answers| - 1];
      forall u | u in Listed(init) ensures u > last.top {
        ListedRange(init, limit, u);
        assert Linked(answers[|init| - 1], answers[|init|]);
      }
      DescendingConcat(Listed(init), last.out, last.top);
    }
  }

  lemma DescendingConcat(xs: seq<int>, ys: seq<int>, bound: int)
    requires Descending(xs) && Descending(ys)
    requires (forall x :: x in xs ==> x > bound) && (forall y :: y in ys ==> y <= bound)
    ensures Descending(xs + ys)
  {
    assert forall k :: 0 <= k < |xs| ==> xs[k] in xs;
    assert forall k :: 0 <= k < |ys| ==> ys[k] in ys;
  }

  /** The pages together list what every page's folder shows, however it changed in between. */
  lemma {:induction false} ListingIsComplete(answers: seq<Answer>, limit: nat, u: int)
    requires answers != [] && Follows(answers, limit)
    requires forall i :: 0 <= i < |answers| ==> answers[i].folder.Shows(u)
    requires answers[|answers| - 1].next < u <= answers[0].top
    ensures u in Listed(answers)
  {
    var last := answers[|answers| - 1];
    if u > last.top {
      var init := answers[..|answers| - 1];
      assert |init| > 0 ==> Linked(answers[|init| - 1], last);
      ListingIsComplete(init, limit, u);
    }
  }

  /** Following the cursors ends: a listing has at most as many pages as its first bound. */
  lemma ListingEnds(answers: seq<Answer>, limit: nat)
    requires answers != [] && Follows(answers, limit) && answers[0].top >= 0
    requires forall i :: 0 <= i < |answers| ==> answers[i].folder.Valid()
    ensures |answers| <= answers[0].top + 1
  {
    TopsFall(answers, limit);
    assert |answers| > 1 ==> Linked(answers[|answers| - 2], answers[|answers| - 1]);
  }

  /** A whole listing of a folder at rest: exactly what it shows, each once, newest first. */
  lemma WholeListing(f: Folder, answers: seq<Answer>, limit: nat)
    requires f.Valid() && answers != [] && Follows(answers, limit)
    requires forall i :: 0 <= i < |answers| ==> answers[i].folder == f
    requires answers[0].top == FirstBound(f, 0) && answers[|answers| - 1].next == 0
    ensures Descending(Listed(answers))
    ensures forall u :: u in Listed(answers) <==> f.Shows(u)
  {
    ListingDescends(answers, limit);
    forall u ensures u in Listed(answers) <==> f.Shows(u) {
      if f.Shows(u) {
        ListingIsComplete(answers, limit, u);
      }
      if u in Listed(answers) {
        ListedRange(answers, limit, u);
      }
    }
  }
}

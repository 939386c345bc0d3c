/**
  The limits a user gets from permission groups. Zero means unlimited, so it is the top of the
  order that says whose limits cover whose; merging two sets of limits takes what covers both.
 */
module QuotaLattice {
  import opened Common
  import Text

  type Id = string

  /** Stored limits are never negative. */
  datatype Limits = Limits(
    attachmentMb: nat,
    smtpDaily: nat,
    smtpMinute: nat,
    imapMinute: nat,
    pop3Minute: nat,
    mailboxes: nat,
    mailboxesPerDay: nat)

  const MINIMAL := Limits(1, 1, 1, 1, 1, 1, 1)
  const DEFAULT := Limits(25, 200, 20, 200, 150, 3, 1)

  const SUPER_ADMIN: Id := "pg_super_admin"
  const REGULAR: Id := "pg_regular_user"

  // ---------------------------------------------------------------- one value

  function MergeValue(left: nat, right: nat): nat {
    if left == 0 || right == 0 then 0 else if right > left then right else left
  }

  /** `canGrantLimitValue`: whether an actor's limit covers the requested one. */
  predicate Covers(actor: nat, requested: nat) {
    if actor == 0 then true else if requested == 0 then false else requested <= actor
  }

  // ---------------------------------------------------------------- all seven

  function Merge(a: Limits, b: Limits): Limits {
    Limits(
      MergeValue(a.attachmentMb, b.attachmentMb),
      MergeValue(a.smtpDaily, b.smtpDaily),
      MergeValue(a.smtpMinute, b.smtpMinute),
      MergeValue(a.imapMinute, b.imapMinute),
      MergeValue(a.pop3Minute, b.pop3Minute),
      MergeValue(a.mailboxes, b.mailboxes),
      MergeValue(a.mailboxesPerDay, b.mailboxesPerDay))
  }

  predicate AtMost(requested: Limits, actor: Limits) {
    && Covers(actor.attachmentMb, requested.attachmentMb)
    && Covers(actor.smtpDaily, requested.smtpDaily)
    && Covers(actor.smtpMinute, requested.smtpMinute)
    && Covers(actor.imapMinute, requested.imapMinute)
    && Covers(actor.pop3Minute, requested.pop3Minute)
    && Covers(actor.mailboxes, requested.mailboxes)
    && Covers(actor.mailboxesPerDay, requested.mailboxesPerDay)
  }

  datatype Actor = Nobody | Admin | Member(limits: Limits)

  predicate CanGrant(actor: Actor, requested: Limits) {
    match actor
    case Nobody => false
    case Admin => true
    case Member(limits) => AtMost(requested, limits)
  }

  /** No limit that groups can set is below the minimal ones: the fold may start there. */
  lemma MinimalIsLeast(a: Limits)
    ensures AtMost(MINIMAL, a) && Merge(MINIMAL, a) == a
  {
  }

  lemma OrderIsPartial(a: Limits, b: Limits, c: Limits)
    ensures AtMost(a, a)
    ensures AtMost(a, b) && AtMost(b, a) ==> a == b
    ensures AtMost(a, b) && AtMost(b, c) ==> AtMost(a, c)
  {
  }

  lemma MergeValueIsLeast(a: nat, b: nat, c: nat)
    ensures Covers(c, MergeValue(a, b)) <==> Covers(c, a) && Covers(c, b)
  {
  }

  /** Merging is the least upper bound of that order. */
  lemma MergeIsLeastUpperBound(a: Limits, b: Limits, c: Limits)
    ensures AtMost(Merge(a, b), c) <==> AtMost(a, c) && AtMost(b, c)
  {
    MergeValueIsLeast(a.attachmentMb, b.attachmentMb, c.attachmentMb);
    MergeValueIsLeast(a.smtpDaily, b.smtpDaily, c.smtpDaily);
    MergeValueIsLeast(a.smtpMinute, b.smtpMinute, c.smtpMinute);
    MergeValueIsLeast(a.imapMinute, b.imapMinute, c.imapMinute);
    MergeValueIsLeast(a.pop3Minute, b.pop3Minute, c.pop3Minute);
    MergeValueIsLeast(a.mailboxes, b.mailboxes, c.mailboxes);
    MergeValueIsLeast(a.mailboxesPerDay, b.mailboxesPerDay, c.mailboxesPerDay);
  }

  // ---------------------------------------------------------------- many groups

  function MergeAll(ls: seq<Limits>): Limits {
    if ls == [] then MINIMAL else Merge(MergeAll(ls[..|ls| - 1]), ls[|ls| - 1])
  }

  /** Whatever covers every member covers the merged limits, and the other way round. */
  lemma {:induction false} MergeAllIsLeast(ls: seq<Limits>, c: Limits)
    ensures AtMost(MergeAll(ls), c) <==> forall l :: l in ls ==> AtMost(l, c)
  {
    if ls == [] {
      MinimalIsLeast(c);
    } else {
      var init, last := ls[..|ls| - 1], ls[|ls| - 1];
      MergeAllIsLeast(init, c);
      MergeIsLeastUpperBound(MergeAll(init), last, c);
      assert forall l :: l in ls <==> l in init || l == last;
    }
  }

  /** The order of the groups, and naming one twice, make no difference. */
  lemma MergeAllByMembers(xs: seq<Limits>, ys: seq<Limits>)
    requires forall l :: l in xs <==> l in ys
    ensures MergeAll(xs) == MergeAll(ys)
  {
    var x, y := MergeAll(xs), MergeAll(ys);
    MergeAllIsLeast(xs, y);
    MergeAllIsLeast(ys, y);
    MergeAllIsLeast(ys, x);
    MergeAllIsLeast(xs, x);
    OrderIsPartial(x, y, x);
    OrderIsPartial(y, x, y);
  }

  /** An actor may grant the merged limits exactly when the actor may grant each set on its own. */
  lemma GrantMergedIffEach(actor: Actor, ls: seq<Limits>)
    requires ls != []
    ensures CanGrant(actor, MergeAll(ls)) <==> forall l :: l in ls ==> CanGrant(actor, l)
  {
    assert ls[0] in ls;
    if actor.Member? {
      MergeAllIsLeast(ls, actor.limits);
    }
  }

  // ---------------------------------------------------------------- lists of ids

  predicate Assignable(id: Id) {
    id != "" && id != SUPER_ADMIN && id != REGULAR
  }

  function WithId(ids: seq<Id>, id: Id): seq<Id> {
    if id == "" || id in ids then ids else ids + [id]
  }

  function Cleaned(items: seq<string>): seq<Id> {
    if items == [] then []
    else WithId(Cleaned(items[..|items| - 1]), Text.TrimSpace(items[|items| - 1]))
  }

  /** No item of the list needs cleaning. */
  ghost predicate IsClean(ids: seq<string>) {
    NoRepeats(ids) && forall i :: 0 <= i < |ids| ==> ids[i] != "" && Text.IsTrimmed(ids[i])
  }

  lemma WithIdIsClean(ids: seq<Id>, id: Id)
    requires IsClean(ids) && Text.IsTrimmed(id)
    ensures IsClean(WithId(ids, id))
  {
    if id !in ids {
      AppendNew(ids, id);
    }
  }

  /** The cleaned list has no blanks, no repetitions and only trimmed items. */
  lemma {:induction false} CleanedOnce(items: seq<string>)
    ensures IsClean(Cleaned(items))
  {
    if items != [] {
      var item := items[|items| - 1];
      CleanedOnce(items[..|items| - 1]);
      Text.SpaceTrimmed(item);
      WithIdIsClean(Cleaned(items[..|items| - 1]), Text.TrimSpace(item));
    }
  }

  lemma LastIsNew(ids: seq<Id>)
    requires IsClean(ids) && ids != []
    ensures IsClean(ids[..|ids| - 1]) && WithId(ids[..|ids| - 1], ids[|ids| - 1]) == ids
  {
    var init, last := ids[..|ids| - 1], ids[|ids| - 1];
    assert init + [last] == ids;
    assert forall i :: 0 <= i < |init| ==> init[i] == ids[i];
  }

  lemma {:induction false} CleanStays(ids: seq<string>)
    requires IsClean(ids)
    ensures Cleaned(ids) == ids
  {
    if ids != [] {
      LastIsNew(ids);
      CleanStays(ids[..|ids| - 1]);
      Text.TrimmedStays(ids[|ids| - 1]);
    }
  }

  /** Cleaning twice is cleaning once. */
  lemma CleanedTwice(items: seq<string>)
    ensures Cleaned(Cleaned(items)) == Cleaned(items)
  {
    CleanedOnce(items);
    CleanStays(Cleaned(items));
  }

  /** What cleaning keeps: every trimmed item that is not blank. */
  lemma {:induction false} CleanedMember(items: seq<string>, id: Id)
    requires id != ""
    ensures id in Cleaned(items) <==> id in Trimmed(items)
  {
    if items != [] {
      CleanedMember(items[..|items| - 1], id);
    }
  }

  function Trimmed(items: seq<string>): seq<string> {
    if items == [] then [] else Trimmed(items[..|items| - 1]) + [Text.TrimSpace(items[|items| - 1])]
  }

  lemma CleanedNext(items: seq<string>, i: nat)
    requires i < |items|
    ensures Cleaned(items[..i + 1]) == WithId(Cleaned(items[..i]), Text.TrimSpace(items[i]))
  {
    assert items[..i + 1][..i] == items[..i];
  }

  method CleanIdList(items: seq<string>) returns (out: seq<Id>)
    ensures out == Cleaned(items)
  {
    var seen: set<Id> := {};
    out := [];
    for i := 0 to |items|
      invariant out == Cleaned(items[..i]) && forall id :: id in seen <==> id in out
    {
      CleanedNext(items, i);
      var item := Text.TrimSpace(items[i]);
      if item == "" || item in seen {
        continue;
      }
      assert forall id :: id in out + [item] <==> id in out || id == item;
      seen := seen + {item};
      out := out + [item];
    }
    assert items[..|items|] == items;
  }

  // ---------------------------------------------------------------- limits of a list of groups

  datatype Result = Ok(limits: Limits) | NotAssignable(id: Id) | NotFound(id: Id)

  /** The groups that exist, with their limits. */
  type Groups = map<Id, Limits>

  function LimitsAt(groups: Groups, ids: seq<Id>): seq<Limits>
    requires forall id :: id in ids ==> id in groups
  {
    seq(|ids|, i requires 0 <= i < |ids| => assert ids[i] in ids; groups[ids[i]])
  }

  /** Limits of an explicit list of groups, all of which must exist and be assignable. */
  method LimitsForGroupIds(groups: Groups, groupIds: seq<string>) returns (r: Result)
    ensures LimitsAre(groups, Cleaned(groupIds), r)
  {
    var ids := CleanIdList(groupIds);
    r := LimitsForEach(groups, ids);
  }

  ghost predicate AllUsable(groups: Groups, ids: seq<Id>) {
    forall id :: id in ids ==> Assignable(id) && id in groups
  }

  /** `id` is the first of the list that is not usable. */
  ghost predicate IsFirstFault(groups: Groups, ids: seq<Id>, id: Id) {
    exists k :: 0 <= k < |ids| && ids[k] == id && AllUsable(groups, ids[..k]) && !(Assignable(id) && id in groups)
  }

  /** The merged limits of the groups listed, or the first one that is at fault and how. */
  ghost predicate LimitsAre(groups: Groups, ids: seq<Id>, r: Result) {
    match r
    case Ok(limits) => AllUsable(groups, ids) && limits == MergeAll(LimitsAt(groups, ids))
    case NotAssignable(id) => IsFirstFault(groups, ids, id) && !Assignable(id)
    case NotFound(id) => IsFirstFault(groups, ids, id) && Assignable(id)
  }

  method LimitsForEach(groups: Groups, ids: seq<Id>) returns (r: Result)
    ensures LimitsAre(groups, ids, r)
  {
    var limits := MINIMAL;
    for i := 0 to |ids|
      invariant AllUsable(groups, ids[..i])
      invariant limits == MergeAll(LimitsAt(groups, ids[..i]))
    {
      if !Assignable(ids[i]) {
        return NotAssignable(ids[i]);
      }
      if ids[i] !in groups {
        return NotFound(ids[i]);
      }
      assert LimitsAt(groups, ids[..i + 1])[..i] == LimitsAt(groups, ids[..i]);
      limits := Merge(limits, groups[ids[i]]);
    }
    assert ids[..|ids|] == ids;
    r := Ok(limits);
  }

  /** An id on the list as it was sent that is not the super administrators' group nor the regular one. */
  predicate IsAssignable(id: Id) {
    id != "pg_super_admin" && id != "pg_regular_user"
  }

  lemma AssignableIs(id: Id)
    requires id != ""
    ensures Assignable(id) <==> IsAssignable(id)
  {
  }

  ghost predicate IsUsable(groups: Groups, id: Id) {
    id in groups && IsAssignable(id)
  }

  lemma UsableAt(groups: Groups, items: seq<string>, id: Id)
    requires id != ""
    ensures id in Cleaned(items) <==> id in Trimmed(items)
    ensures Assignable(id) && id in groups <==> IsUsable(groups, id)
  {
    CleanedMember(items, id);
    AssignableIs(id);
  }

  lemma NoBlankIsKept(items: seq<string>)
    ensures "" !in Cleaned(items)
  {
    CleanedOnce(items);
  }

  lemma UsableIff(groups: Groups, items: seq<string>)
    ensures AllUsable(groups, Cleaned(items)) <==>
      forall id :: id in Trimmed(items) && id != "" ==> IsUsable(groups, id)
  {
    NoBlankIsKept(items);
    if AllUsable(groups, Cleaned(items)) {
      forall id | id in Trimmed(items) && id != "" ensures IsUsable(groups, id) {
        UsableAt(groups, items, id);
      }
    } else {
      var id :| id in Cleaned(items) && !(Assignable(id) && id in groups);
      UsableAt(groups, items, id);
    }
  }

  lemma FaultIsListed(groups: Groups, items: seq<string>, id: Id)
    requires IsFirstFault(groups, Cleaned(items), id)
    ensures id != "" && id in Trimmed(items) && !AllUsable(groups, Cleaned(items))
    ensures Assignable(id) <==> IsAssignable(id)
  {
    CleanedOnce(items);
    CleanedMember(items, id);
    AssignableIs(id);
  }

  /**
    In terms of the list as it was sent: limits come back exactly when every id on it that is
    not blank names an existing group, and neither the super administrators' nor the regular one.
   */
  lemma ListedAreUsable(groups: Groups, items: seq<string>, r: Result)
    requires LimitsAre(groups, Cleaned(items), r)
    ensures r.Ok? <==> forall id :: id in Trimmed(items) && id != "" ==> IsUsable(groups, id)
    ensures r.NotAssignable? ==> r.id in Trimmed(items) && !IsAssignable(r.id)
    ensures r.NotFound? ==> r.id in Trimmed(items) && r.id !in groups && IsAssignable(r.id)
  {
    UsableIff(groups, items);
    if !r.Ok? {
      FaultIsListed(groups, items, r.id);
    }
  }

  /** What a user without any group of their own gets. */
  function RegularLimits(groups: Groups): Limits {
    if REGULAR in groups then groups[REGULAR] else DEFAULT
  }

  method EffectiveLimitsForUserGroups(groups: Groups, groupIds: seq<string>) returns (r: Result)
    ensures Cleaned(groupIds) == [] ==> r == Ok(RegularLimits(groups))
    ensures Cleaned(groupIds) != [] ==> LimitsAre(groups, Cleaned(groupIds), r)
  {
    var ids := CleanIdList(groupIds);
    CleanedTwice(groupIds);
    if |ids| > 0 {
      r := LimitsForGroupIds(groups, ids);
    } else {
      r := Ok(RegularLimits(groups));
    }
  }

  // ---------------------------------------------------------------- limits by query

  datatype Row = Row(id: Id, limits: Limits)

  ghost predicate HasRow(rows: seq<Row>, id: Id) {
    exists i :: 0 <= i < |rows| && rows[i].id == id
  }

  /**
    The rows the query selects, in any order, for a user in the groups `memberOf`: each of
    those that exists except the regular one, and the regular one if no other counts.
   */
  ghost predicate Selected(groups: Groups, memberOf: set<Id>, rows: seq<Row>) {
    && (forall i :: 0 <= i < |rows| ==> rows[i].id in groups && rows[i].limits == groups[rows[i].id])
    && (forall i, j :: 0 <= i < j < |rows| ==> rows[i].id != rows[j].id)
    && (forall id :: id != REGULAR ==> (HasRow(rows, id) <==> id in memberOf && id in groups))
    && (HasRow(rows, REGULAR) <==> REGULAR in groups && !exists id :: Counts(groups, memberOf, id))
  }

  predicate Counts(groups: Groups, memberOf: set<Id>, id: Id) {
    id in memberOf && id in groups && Assignable(id)
  }

  /** `ids` lists the groups that count. */
  ghost predicate ListsCounted(groups: Groups, memberOf: set<Id>, ids: seq<Id>) {
    && (forall id :: id in ids ==> Counts(groups, memberOf, id))
    && (forall id :: Counts(groups, memberOf, id) ==> id in ids)
  }

  /** The loop over the rows: limits so far, and how many groups took part. */
  datatype Fold = Fold(limits: Limits, count: nat)

  function FoldRows(rows: seq<Row>): Fold {
    if rows == [] then Fold(MINIMAL, 0)
    else
      var before, row := FoldRows(rows[..|rows| - 1]), rows[|rows| - 1];
      if row.id == REGULAR then Fold(row.limits, before.count + 1)
      else if Assignable(row.id) then Fold(Merge(before.limits, row.limits), before.count + 1)
      else before
  }

  function AuthorizedLimits(rows: seq<Row>): Limits {
    if FoldRows(rows).count == 0 then DEFAULT else FoldRows(rows).limits
  }

  method AuthorizationLimits(rows: seq<Row>) returns (limits: Limits)
    ensures limits == AuthorizedLimits(rows)
  {
    limits := MINIMAL;
    var count := 0;
    for i := 0 to |rows|
      invariant Fold(limits, count) == FoldRows(rows[..i])
    {
      assert rows[..i + 1][..i] == rows[..i];
      if rows[i].id == REGULAR {
        limits := rows[i].limits;
      } else if Assignable(rows[i].id) {
        limits := Merge(limits, rows[i].limits);
      } else {
        continue;
      }
      count := count + 1;
    }
    assert rows[..|rows|] == rows;
    if count == 0 {
      limits := DEFAULT;
    }
  }

  /** A row of the super administrators' group changes nothing: who is in it is not limited by groups. */
  lemma SuperAdminRowIsIgnored(rows: seq<Row>, limits: Limits)
    ensures AuthorizedLimits(rows + [Row("pg_super_admin", limits)]) == AuthorizedLimits(rows)
  {
    assert (rows + [Row("pg_super_admin", limits)])[..|rows|] == rows;
  }

  function Kept(rows: seq<Row>): seq<Limits> {
    if rows == [] then []
    else Kept(rows[..|rows| - 1]) + if Assignable(rows[|rows| - 1].id) then [rows[|rows| - 1].limits] else []
  }

  lemma {:induction false} KeptHas(rows: seq<Row>, i: nat)
    requires i < |rows| && Assignable(rows[i].id)
    ensures rows[i].limits in Kept(rows)
  {
    if i < |rows| - 1 {
      KeptHas(rows[..|rows| - 1], i);
    }
  }

  lemma {:induction false} KeptComesFrom(rows: seq<Row>, l: Limits) returns (i: nat)
    requires l in Kept(rows)
    ensures i < |rows| && Assignable(rows[i].id) && rows[i].limits == l
  {
    var init := rows[..|rows| - 1];
    if l in Kept(init) {
      i := KeptComesFrom(init, l);
    } else {
      i := |rows| - 1;
    }
  }

  lemma {:induction false} FoldWithoutRegular(rows: seq<Row>)
    requires forall i :: 0 <= i < |rows| ==> rows[i].id != REGULAR
    ensures FoldRows(rows) == Fold(MergeAll(Kept(rows)), |Kept(rows)|)
  {
    if rows != [] {
      var init := rows[..|rows| - 1];
      FoldWithoutRegular(init);
      if Assignable(rows[|rows| - 1].id) {
        var last := rows[|rows| - 1].limits;
        assert (Kept(init) + [last])[..|Kept(init)|] == Kept(init);
      } else {
        assert Kept(rows) == Kept(init);
      }
    }
  }

  lemma {:induction false} FoldRegularOnly(rows: seq<Row>, regular: Limits)
    requires forall i :: 0 <= i < |rows| ==> !Assignable(rows[i].id)
    requires forall i :: 0 <= i < |rows| && rows[i].id == REGULAR ==> rows[i].limits == regular
    requires forall i, j :: 0 <= i < j < |rows| ==> rows[i].id != rows[j].id
    ensures FoldRows(rows) == if HasRow(rows, REGULAR) then Fold(regular, 1) else Fold(MINIMAL, 0)
  {
    if rows != [] {
      var init := rows[..|rows| - 1];
      FoldRegularOnly(init, regular);
      if HasRow(init, REGULAR) {
        var i :| 0 <= i < |init| && init[i].id == REGULAR;
        assert rows[i].id == REGULAR;
      }
      assert HasRow(rows, REGULAR) ==> HasRow(init, REGULAR) || rows[|rows| - 1].id == REGULAR by {
        assert forall i :: 0 <= i < |init| ==> init[i] == rows[i];
      }
    }
  }

  /**
    The two computations agree: what the query gives a user is what the list of the user's
    counted groups gives, however the list is ordered, spaced or repeated.
   */
  lemma QueryAgreesWithList(groups: Groups, memberOf: set<Id>, rows: seq<Row>, ids: seq<Id>)
    requires Selected(groups, memberOf, rows)
    requires ListsCounted(groups, memberOf, ids)
    ensures AuthorizedLimits(rows) == if ids == [] then RegularLimits(groups) else MergeAll(LimitsAt(groups, ids))
  {
    if ids == [] {
      forall i | 0 <= i < |rows| ensures !Assignable(rows[i].id) {
        assert HasRow(rows, rows[i].id);
        assert !Counts(groups, memberOf, rows[i].id);
      }
      FoldRegularOnly(rows, RegularLimits(groups));
    } else {
      assert Counts(groups, memberOf, ids[0]);
      FoldWithoutRegular(rows);
      KeptIsList(groups, memberOf, rows, ids);
      MergeAllByMembers(Kept(rows), LimitsAt(groups, ids));
      assert LimitsAt(groups, ids)[0] in LimitsAt(groups, ids);
    }
  }

  lemma KeptIsList(groups: Groups, memberOf: set<Id>, rows: seq<Row>, ids: seq<Id>)
    requires Selected(groups, memberOf, rows)
    requires ListsCounted(groups, memberOf, ids)
    ensures forall l :: l in Kept(rows) <==> l in LimitsAt(groups, ids)
  {
    forall l | l in Kept(rows) ensures l in LimitsAt(groups, ids) {
      KeptIsListed(groups, memberOf, rows, ids, l);
    }
    forall l | l in LimitsAt(groups, ids) ensures l in Kept(rows) {
      ListedIsKept(groups, memberOf, rows, ids, l);
    }
  }

  lemma KeptIsListed(groups: Groups, memberOf: set<Id>, rows: seq<Row>, ids: seq<Id>, l: Limits)
    requires Selected(groups, memberOf, rows) && ListsCounted(groups, memberOf, ids) && l in Kept(rows)
    ensures l in LimitsAt(groups, ids)
  {
    var i := KeptComesFrom(rows, l);
    assert HasRow(rows, rows[i].id);
    assert Counts(groups, memberOf, rows[i].id);
    assert rows[i].id in ids;
    var k :| 0 <= k < |ids| && ids[k] == rows[i].id;
    assert LimitsAt(groups, ids)[k] == l;
  }

  lemma ListedIsKept(groups: Groups, memberOf: set<Id>, rows: seq<Row>, ids: seq<Id>, l: Limits)
    requires Selected(groups, memberOf, rows) && ListsCounted(groups, memberOf, ids) && l in LimitsAt(groups, ids)
    ensures l in Kept(rows)
  {
    var k :| 0 <= k < |ids| && LimitsAt(groups, ids)[k] == l;
    assert ids[k] in ids;
    assert HasRow(rows, ids[k]);
    var i :| 0 <= i < |rows| && rows[i].id == ids[k];
    KeptHas(rows, i);
  }
}

/**
  Which local mailboxes receive a message: a depth-limited search through the aliases, with
  one visited set per envelope recipient and fallback targets for unknown addresses.
 */
module AliasSearch {
  import opened Common

  type Id = nat

  const MAX_DEPTH := 20

  /** How the search sees addresses and the database: each member answers one query, for an
      address already normalised except in `normalize` itself. */
  datatype World = World(
    normalize: string -> string,
    mailboxes: string -> set<Id>,           // the usable mailbox of the base address, if any
    alias: string -> Option<seq<string>>,   // the destinations of the enabled alias, if any
    collection: string -> Option<Id>,       // the usable collection target of the domain
    keepsUnknown: string -> bool)           // catch-all is on and the domain is ours

  // ---------------------------------------------------------------- the search

  datatype Search = Search(targets: set<Id>, unknown: seq<string>, seen: set<string>)

  /** An address with neither a mailbox nor an alias: fall back to the domain's collection,
      or to the list of unknown addresses kept for the catch-all. */
  function Fallback(world: World, address: string, s: Search): (Search, bool) {
    match world.collection(address)
    case Some(target) => (s.(targets := s.targets + {target}), true)
    case None =>
      if world.keepsUnknown(address) && address !in s.unknown then
        (s.(unknown := s.unknown + [address]), true)
      else
        (s, false)
  }

  function Resolve(world: World, raw: string, s: Search, depth: nat): (Search, bool)
    requires depth <= MAX_DEPTH + 1
    decreases MAX_DEPTH + 1 - depth, 0
  {
    var address := world.normalize(raw);
    if depth > MAX_DEPTH || address in s.seen then
      (s, false)
    else
      var visited := s.(seen := s.seen + {address}, targets := s.targets + world.mailboxes(address));
      match world.alias(address)
      case Some(destinations) => (ResolveAll(world, destinations, visited, depth + 1), true)
      case None => if world.mailboxes(address) != {} then (visited, true) else Fallback(world, address, visited)
  }

  function ResolveAll(world: World, raws: seq<string>, s: Search, depth: nat): Search
    requires depth <= MAX_DEPTH + 1
    decreases MAX_DEPTH + 1 - depth, |raws|
  {
    if raws == [] then s
    else Resolve(world, raws[|raws| - 1], ResolveAll(world, raws[..|raws| - 1], s, depth), depth).0
  }

  /** One envelope recipient: the search, then the domain copy for the recipient itself. */
  function Recipient(world: World, raw: string, targets: set<Id>, unknown: seq<string>): (set<Id>, seq<string>) {
    var address := world.normalize(raw);
    var (s, matched) := Resolve(world, address, Search(targets, unknown, {}), 0);
    match world.collection(address)
    case Some(target) => (s.targets + {target}, s.unknown)
    case None =>
      if !matched && world.keepsUnknown(address) && address !in s.unknown then
        (s.targets, s.unknown + [address])
      else
        (s.targets, s.unknown)
  }

  function LocalRecipientTargets(world: World, recipients: seq<string>): (set<Id>, seq<string>)
    decreases |recipients|
  {
    if recipients == [] then ({}, [])
    else
      var (targets, unknown) := LocalRecipientTargets(world, recipients[..|recipients| - 1]);
      Recipient(world, recipients[|recipients| - 1], targets, unknown)
  }

  // ---------------------------------------------------------------- the alias graph

  function Destinations(world: World, address: string): seq<string> {
    if world.alias(address).Some? then world.alias(address).value else []
  }

  function Successors(world: World, address: string): seq<string> {
    var ds := Destinations(world, address);
    seq(|ds|, i requires 0 <= i < |ds| => world.normalize(ds[i]))
  }

  ghost predicate IsPath(world: World, p: seq<string>) {
    p != [] && forall i :: 0 < i < |p| ==> p[i] in Successors(world, p[i - 1])
  }

  ghost predicate Reachable(world: World, a: string, b: string) {
    exists p :: IsPath(world, p) && p[0] == a && p[|p| - 1] == b
  }

  /** What visiting `address` adds to the targets: its own mailbox, or the collection target
      of its domain when it has neither a mailbox nor an alias. */
  function Contribution(world: World, address: string): set<Id> {
    if world.mailboxes(address) != {} then world.mailboxes(address)
    else if world.alias(address).None? && world.collection(address).Some? then {world.collection(address).value}
    else {}
  }

  predicate IsUnknown(world: World, address: string) {
    && world.mailboxes(address) == {}
    && world.alias(address).None?
    && world.collection(address).None?
    && world.keepsUnknown(address)
  }

  predicate New(s: Search, t: Search, address: string) {
    address in t.seen && address !in s.seen
  }

  /** `t` is `s` after visiting some more addresses: the targets and the unknown addresses
      grew by exactly what those addresses call for. */
  ghost predicate Account(world: World, s: Search, t: Search) {
    && s.seen <= t.seen
    && (forall id :: id in t.targets <==>
          id in s.targets || exists x :: New(s, t, x) && id in Contribution(world, x))
    && (forall a :: a in t.unknown <==> a in s.unknown || (New(s, t, a) && IsUnknown(world, a)))
    && (NoRepeats(s.unknown) ==> NoRepeats(t.unknown))
  }

  ghost predicate AllReachable(world: World, from: string, s: Search, t: Search) {
    forall x :: New(s, t, x) ==> Reachable(world, from, x)
  }

  lemma ReachableSelf(world: World, a: string)
    ensures Reachable(world, a, a)
  {
    assert IsPath(world, [a]) && [a][0] == a && [a][|[a]| - 1] == a;
  }

  lemma ReachableStep(world: World, a: string, b: string, c: string)
    requires b in Successors(world, a) && Reachable(world, b, c)
    ensures Reachable(world, a, c)
  {
    var p :| IsPath(world, p) && p[0] == b && p[|p| - 1] == c;
    var q := [a] + p;
    assert IsPath(world, q) && q[0] == a && q[|q| - 1] == c;
  }

  lemma ReachableThen(world: World, a: string, b: string, c: string)
    requires Reachable(world, a, b) && c in Successors(world, b)
    ensures Reachable(world, a, c)
  {
    var p :| IsPath(world, p) && p[0] == a && p[|p| - 1] == b;
    var q := p + [c];
    assert IsPath(world, q) && q[0] == a && q[|q| - 1] == c;
  }

  lemma AccountSelf(world: World, s: Search)
    ensures Account(world, s, s)
  {
  }

  lemma AccountTransitive(world: World, s: Search, t: Search, u: Search)
    requires Account(world, s, t) && Account(world, t, u)
    ensures Account(world, s, u)
  {
    forall id ensures id in u.targets <==> id in s.targets || exists x :: New(s, u, x) && id in Contribution(world, x) {
      if exists x :: New(s, u, x) && id in Contribution(world, x) {
        var x :| New(s, u, x) && id in Contribution(world, x);
        assert New(s, t, x) || New(t, u, x);
      }
    }
  }

  /** Visiting one address, before its destinations. */
  lemma AccountVisit(world: World, address: string, s: Search)
    requires address !in s.seen
    ensures var visited := s.(seen := s.seen + {address}, targets := s.targets + world.mailboxes(address));
      && (world.alias(address).Some? || world.mailboxes(address) != {} ==> Account(world, s, visited))
      && (world.alias(address).None? && world.mailboxes(address) == {} ==>
            Account(world, s, Fallback(world, address, visited).0))
      && Fallback(world, address, visited).0.seen == visited.seen
  {
    var visited := s.(seen := s.seen + {address}, targets := s.targets + world.mailboxes(address));
    var after := if world.alias(address).Some? || world.mailboxes(address) != {} then visited
        else Fallback(world, address, visited).0;
    assert New(s, after, address);
    assert after.targets == s.targets + Contribution(world, address);
  }

  lemma DestinationsLead(world: World, address: string)
    ensures forall d :: d in Destinations(world, address) ==> world.normalize(d) in Successors(world, address)
  {
    var ds := Destinations(world, address);
    forall d | d in ds ensures world.normalize(d) in Successors(world, address) {
      var i :| 0 <= i < |ds| && ds[i] == d;
      assert Successors(world, address)[i] == world.normalize(d);
    }
  }

  lemma {:induction false} ResolveAccounts(world: World, raw: string, s: Search, depth: nat)
    requires depth <= MAX_DEPTH + 1
    ensures Account(world, s, Resolve(world, raw, s, depth).0)
    ensures AllReachable(world, world.normalize(raw), s, Resolve(world, raw, s, depth).0)
    decreases MAX_DEPTH + 1 - depth, 0
  {
    var address := world.normalize(raw);
    if depth > MAX_DEPTH || address in s.seen {
      AccountSelf(world, s);
    } else {
      AccountVisit(world, address, s);
      ReachableSelf(world, address);
      if world.alias(address).Some? {
        var visited := s.(seen := s.seen + {address}, targets := s.targets + world.mailboxes(address));
        var raws := Destinations(world, address);
        var t := ResolveAll(world, raws, visited, depth + 1);
        DestinationsLead(world, address);
        ResolveAllAccounts(world, raws, visited, depth + 1, address);
        AccountTransitive(world, s, visited, t);
      }
    }
  }

  lemma {:induction false} ResolveAllAccounts(world: World, raws: seq<string>, s: Search, depth: nat, parent: string)
    requires depth <= MAX_DEPTH + 1
    requires forall d :: d in raws ==> world.normalize(d) in Successors(world, parent)
    ensures Account(world, s, ResolveAll(world, raws, s, depth))
    ensures AllReachable(world, parent, s, ResolveAll(world, raws, s, depth))
    decreases MAX_DEPTH + 1 - depth, |raws|
  {
    if raws == [] {
      AccountSelf(world, s);
    } else {
      var raw := raws[|raws| - 1];
      var t := ResolveAll(world, raws[..|raws| - 1], s, depth);
      var u := Resolve(world, raw, t, depth).0;
      ResolveAllAccounts(world, raws[..|raws| - 1], s, depth, parent);
      ResolveAccounts(world, raw, t, depth);
      AccountTransitive(world, s, t, u);
      forall x | New(s, u, x) ensures Reachable(world, parent, x) {
        if New(t, u, x) { ReachableStep(world, parent, world.normalize(raw), x); }
      }
    }
  }

  // ---------------------------------------------------------------- completeness

  /** Every newly seen address has all its successors seen as well. */
  ghost predicate Expanded(world: World, s: Search, t: Search) {
    forall x, y :: New(s, t, x) && y in Successors(world, x) ==> y in t.seen
  }

  /**
    Some path of `n` distinct addresses starts at `a`, each an alias destination of the one
    before, outside `avoid`.
   */
  ghost predicate LongPath(world: World, a: string, avoid: set<string>, n: nat)
    decreases n
  {
    || n == 0
    || (a !in avoid && n == 1)
    || (a !in avoid && exists b :: b in Successors(world, a) && LongPath(world, b, avoid + {a}, n - 1))
  }

  /** No path of 22 distinct addresses starts at `root`. */
  ghost predicate NoLongPath(world: World, root: string) {
    !LongPath(world, root, {}, MAX_DEPTH + 2)
  }

  ghost predicate NoneLong(world: World, raws: seq<string>, avoid: set<string>, n: nat) {
    forall d :: d in raws ==> !LongPath(world, world.normalize(d), avoid, n)
  }

  lemma DestinationsShorter(world: World, address: string, path: set<string>, n: nat)
    requires address !in path && n > 1 && !LongPath(world, address, path, n)
    ensures NoneLong(world, Destinations(world, address), path + {address}, n - 1)
  {
    DestinationsLead(world, address);
  }

  /**
    The addresses on the current path are distinct and all seen, so when no path of 22
    distinct addresses starts at the root the depth limit only ever cuts off an address
    that was already seen.
   */
  lemma {:induction false} ResolveExpands(world: World, raw: string, s: Search, depth: nat, path: set<string>)
    requires depth <= MAX_DEPTH + 1 && path <= s.seen
    requires !LongPath(world, world.normalize(raw), path, MAX_DEPTH + 2 - depth)
    ensures world.normalize(raw) in Resolve(world, raw, s, depth).0.seen
    ensures Expanded(world, s, Resolve(world, raw, s, depth).0)
    decreases MAX_DEPTH + 1 - depth, 0
  {
    var address := world.normalize(raw);
    if address !in s.seen {
      assert depth <= MAX_DEPTH;
      var visited := s.(seen := s.seen + {address}, targets := s.targets + world.mailboxes(address));
      if world.alias(address).Some? {
        var raws := Destinations(world, address);
        DestinationsShorter(world, address, path, MAX_DEPTH + 2 - depth);
        ResolveAllExpands(world, raws, visited, depth + 1, path + {address});
        ExpandedAfterVisit(world, address, s, visited, ResolveAll(world, raws, visited, depth + 1));
      } else {
        AccountVisit(world, address, s);
        assert Successors(world, address) == [];
      }
    }
  }

  lemma ExpandedAfterVisit(world: World, address: string, s: Search, visited: Search, t: Search)
    requires visited.seen == s.seen + {address} && Expanded(world, visited, t)
    requires forall i :: 0 <= i < |Destinations(world, address)| ==>
      world.normalize(Destinations(world, address)[i]) in t.seen
    ensures Expanded(world, s, t)
  {
    forall x, y | New(s, t, x) && y in Successors(world, x) ensures y in t.seen {
      if x == address {
        var i :| 0 <= i < |Successors(world, x)| && Successors(world, x)[i] == y;
      } else {
        assert New(visited, t, x);
      }
    }
  }

  lemma ExpandedThen(world: World, s: Search, t: Search, u: Search)
    requires Expanded(world, s, t) && Expanded(world, t, u) && s.seen <= t.seen <= u.seen
    ensures Expanded(world, s, u)
  {
    forall x, y | New(s, u, x) && y in Successors(world, x) ensures y in u.seen {
      assert New(s, t, x) || New(t, u, x);
    }
  }

  lemma {:induction false} ResolveAllExpands(world: World, raws: seq<string>, s: Search, depth: nat, path: set<string>)
    requires depth <= MAX_DEPTH + 1 && path <= s.seen && NoneLong(world, raws, path, MAX_DEPTH + 2 - depth)
    ensures s.seen <= ResolveAll(world, raws, s, depth).seen
    ensures forall i :: 0 <= i < |raws| ==> world.normalize(raws[i]) in ResolveAll(world, raws, s, depth).seen
    ensures Expanded(world, s, ResolveAll(world, raws, s, depth))
    decreases MAX_DEPTH + 1 - depth, |raws|
  {
    if raws != [] {
      var before, last := raws[..|raws| - 1], raws[|raws| - 1];
      var t := ResolveAll(world, before, s, depth);
      ResolveAllExpands(world, before, s, depth, path);
      ResolveExpands(world, last, t, depth, path);
      ResolveAccounts(world, last, t, depth);
      ExpandedThen(world, s, t, Resolve(world, last, t, depth).0);
    }
  }

  /** A set that is closed under aliases holds everything reachable from inside it. */
  lemma {:induction false} ClosedHoldsPath(world: World, p: seq<string>, closed: set<string>)
    requires IsPath(world, p) && p[0] in closed
    requires forall x, y :: x in closed && y in Successors(world, x) ==> y in closed
    ensures p[|p| - 1] in closed
    decreases |p|
  {
    if |p| > 1 {
      var q := p[..|p| - 1];
      assert IsPath(world, q);
      ClosedHoldsPath(world, q, closed);
    }
  }

  /** Then the search sees exactly the reachable addresses. */
  lemma SearchSeesAll(world: World, raw: string, targets: set<Id>, unknown: seq<string>)
    requires NoLongPath(world, world.normalize(raw))
    ensures forall x :: x in Resolve(world, raw, Search(targets, unknown, {}), 0).0.seen <==>
      Reachable(world, world.normalize(raw), x)
  {
    var root := world.normalize(raw);
    var s := Search(targets, unknown, {});
    var t := Resolve(world, raw, s, 0).0;
    ResolveExpands(world, raw, s, 0, {});
    ResolveAccounts(world, raw, s, 0);
    assert forall x :: New(s, t, x) <==> x in t.seen;
    forall x | Reachable(world, root, x) ensures x in t.seen {
      var p :| IsPath(world, p) && p[0] == root && p[|p| - 1] == x;
      ClosedHoldsPath(world, p, t.seen);
    }
  }

  ghost predicate IsDistinctPath(world: World, a: string, avoid: set<string>, p: seq<string>) {
    && NoRepeats(p)
    && (forall i :: 0 <= i < |p| ==> p[i] !in avoid)
    && (p != [] ==> p[0] == a && IsPath(world, p))
  }

  lemma {:induction false} LongPathGives(world: World, a: string, avoid: set<string>, n: nat) returns (p: seq<string>)
    requires LongPath(world, a, avoid, n)
    ensures |p| == n && IsDistinctPath(world, a, avoid, p)
    decreases n
  {
    if n <= 1 {
      p := if n == 0 then [] else [a];
    } else {
      var b :| b in Successors(world, a) && LongPath(world, b, avoid + {a}, n - 1);
      var q := LongPathGives(world, b, avoid + {a}, n - 1);
      p := [a] + q;
      PathBefore(world, a, avoid, q);
    }
  }

  lemma PathBefore(world: World, a: string, avoid: set<string>, q: seq<string>)
    requires q != [] && q[0] in Successors(world, a) && IsDistinctPath(world, q[0], avoid + {a}, q)
    requires a !in avoid
    ensures IsDistinctPath(world, a, avoid, [a] + q)
  {
  }

  lemma {:induction false} DistinctPathIsLong(world: World, a: string, avoid: set<string>, p: seq<string>)
    requires IsDistinctPath(world, a, avoid, p)
    ensures LongPath(world, a, avoid, |p|)
    decreases |p|
  {
    if |p| > 1 {
      var q := p[1..];
      assert p[1] in Successors(world, p[0]);
      assert IsDistinctPath(world, q[0], avoid + {a}, q);
      DistinctPathIsLong(world, q[0], avoid + {a}, q);
    }
  }

  /** What the counted form says: there is a path of that many distinct addresses. */
  lemma LongPathIff(world: World, a: string, n: nat)
    ensures LongPath(world, a, {}, n) <==> exists p :: |p| == n && IsDistinctPath(world, a, {}, p)
  {
    if LongPath(world, a, {}, n) {
      var p := LongPathGives(world, a, {}, n);
    }
    forall p | |p| == n && IsDistinctPath(world, a, {}, p) ensures LongPath(world, a, {}, n) {
      DistinctPathIsLong(world, a, {}, p);
    }
  }

  ghost predicate IsReachOf(world: World, root: string, r: set<string>) {
    forall x :: x in r <==> Reachable(world, root, x)
  }

  /** At most 21 distinct addresses are reachable from `root`. */
  ghost predicate FewReachable(world: World, root: string) {
    exists r: set<string> :: IsReachOf(world, root, r) && |r| <= MAX_DEPTH + 1
  }

  /** A path of `n` addresses outside `avoid` needs room for them among the reachable addresses. */
  lemma {:induction false} PathNeedsRoom(world: World, root: string, r: set<string>, a: string, avoid: set<string>,
                                         n: nat)
    requires IsReachOf(world, root, r) && a in r && avoid <= r && LongPath(world, a, avoid, n)
    ensures |avoid| + n <= |r|
    decreases n
  {
    if n <= 1 {
      SubsetIsSmaller(if n == 0 then avoid else avoid + {a}, r);
    } else {
      var b :| b in Successors(world, a) && LongPath(world, b, avoid + {a}, n - 1);
      ReachableThen(world, root, a, b);
      PathNeedsRoom(world, root, r, b, avoid + {a}, n - 1);
    }
  }

  /** With few addresses around there is no long path; with many there may still be none. */
  lemma FewReachableHaveNoLongPath(world: World, root: string)
    requires FewReachable(world, root)
    ensures NoLongPath(world, root)
  {
    var r :| IsReachOf(world, root, r) && |r| <= MAX_DEPTH + 1;
    ReachableSelf(world, root);
    if LongPath(world, root, {}, MAX_DEPTH + 2) {
      PathNeedsRoom(world, root, r, root, {}, MAX_DEPTH + 2);
    }
  }

  /** An alias whose destinations have no aliases of their own, however many there are. */
  lemma FlatAliasHasNoLongPath(world: World, root: string)
    requires forall d :: d in Successors(world, root) ==> Successors(world, d) == []
    ensures NoLongPath(world, root)
  {
    forall d | d in Successors(world, root) ensures !LongPath(world, d, {} + {root}, MAX_DEPTH + 1) {
      assert Successors(world, d) == [];
    }
  }

  // ---------------------------------------------------------------- main results

  /**
    The address the search starts from. Recipients are normalised once by the caller and once
    more by the search; RecipientTargets says when that changes nothing.
   */
  function Root(world: World, recipient: string): string {
    world.normalize(world.normalize(recipient))
  }

  /** Recipient `r` calls for a copy to mailbox `id`: through an address reachable from it,
      or as the copy its own domain collects. */
  ghost predicate CallsFor(world: World, r: string, id: Id) {
    || world.collection(world.normalize(r)) == Some(id)
    || exists x :: Reachable(world, Root(world, r), x) && id in Contribution(world, x)
  }

  /** Nobody gets a copy that no recipient calls for, however the aliases are arranged. In
      particular an alias destination that has a mailbox or an alias of its own never adds
      a copy for its domain's collection. */
  lemma {:induction false} TargetsAreCalledFor(world: World, recipients: seq<string>)
    ensures forall id :: id in LocalRecipientTargets(world, recipients).0 ==>
      exists r :: r in recipients && CallsFor(world, r, id)
    ensures NoRepeats(LocalRecipientTargets(world, recipients).1)
    decreases |recipients|
  {
    if recipients != [] {
      var before := recipients[..|recipients| - 1];
      var r := recipients[|recipients| - 1];
      var (targets, unknown) := LocalRecipientTargets(world, before);
      TargetsAreCalledFor(world, before);
      ResolveAccounts(world, world.normalize(r), Search(targets, unknown, {}), 0);
      forall id | id in LocalRecipientTargets(world, recipients).0
        ensures exists r :: r in recipients && CallsFor(world, r, id)
      {
        if id in targets {
          var q :| q in before && CallsFor(world, q, id);
          assert q in recipients;
        } else {
          assert CallsFor(world, r, id);
        }
      }
    }
  }

  /** When no path of 22 distinct addresses starts at a recipient, the copies are exactly those
      called for. */
  lemma {:induction false} TargetsAreComplete(world: World, recipients: seq<string>)
    requires forall r :: r in recipients ==> NoLongPath(world, Root(world, r))
    ensures forall id :: id in LocalRecipientTargets(world, recipients).0 <==>
      exists r :: r in recipients && CallsFor(world, r, id)
    decreases |recipients|
  {
    if recipients != [] {
      var before := recipients[..|recipients| - 1];
      var r := recipients[|recipients| - 1];
      var (targets, unknown) := LocalRecipientTargets(world, before);
      TargetsAreComplete(world, before);
      TargetsAreCalledFor(world, recipients);
      RecipientIsServed(world, r, targets, unknown);
      forall id, q | q in recipients && CallsFor(world, q, id)
        ensures id in LocalRecipientTargets(world, recipients).0
      {
        assert q in before || q == r;
      }
    }
  }

  lemma RecipientIsServed(world: World, r: string, targets: set<Id>, unknown: seq<string>)
    requires NoLongPath(world, Root(world, r))
    ensures targets <= Recipient(world, r, targets, unknown).0
    ensures forall id :: CallsFor(world, r, id) ==> id in Recipient(world, r, targets, unknown).0
  {
    SearchSeesAll(world, world.normalize(r), targets, unknown);
    ResolveAccounts(world, world.normalize(r), Search(targets, unknown, {}), 0);
  }

  /** The search from `root` finds no use for it, given the unknown addresses collected before. */
  predicate Unmatched(world: World, root: string, unknown: seq<string>) {
    && world.mailboxes(root) == {}
    && world.alias(root).None?
    && world.collection(root).None?
    && (world.keepsUnknown(root) ==> root in unknown)
  }

  /** The recipient's own form, kept after a search that started from another form and failed. */
  predicate Leftover(world: World, r: string, unknown: seq<string>, a: string) {
    a == world.normalize(r) && world.collection(a).None? && world.keepsUnknown(a)
      && Unmatched(world, Root(world, r), unknown)
  }

  lemma MatchedUnless(world: World, raw: string, targets: set<Id>, unknown: seq<string>)
    ensures Resolve(world, raw, Search(targets, unknown, {}), 0).1 <==> !Unmatched(world, world.normalize(raw), unknown)
  {
  }

  lemma RecipientKeeps(world: World, r: string, targets: set<Id>, unknown: seq<string>)
    requires NoLongPath(world, Root(world, r))
    ensures forall a :: a in Recipient(world, r, targets, unknown).1 <==>
      a in unknown || (Reachable(world, Root(world, r), a) && IsUnknown(world, a)) || Leftover(world, r, unknown, a)
  {
    var raw := world.normalize(r);
    SearchSeesAll(world, raw, targets, unknown);
    ResolveAccounts(world, raw, Search(targets, unknown, {}), 0);
    MatchedUnless(world, raw, targets, unknown);
  }

  /** The recipient `r`, coming after those `before`, has `a` kept for the catch-all. */
  ghost predicate KeptBy(world: World, before: seq<string>, r: string, a: string) {
    || (Reachable(world, Root(world, r), a) && IsUnknown(world, a))
    || Leftover(world, r, LocalRecipientTargets(world, before).1, a)
  }

  ghost function Keeper(world: World, a: string): (seq<string>, string) -> bool {
    (before, r) => KeptBy(world, before, r, a)
  }

  /** Some recipient does, given those before it. */
  ghost predicate SomeOf(recipients: seq<string>, keeps: (seq<string>, string) -> bool) {
    exists i :: 0 <= i < |recipients| && keeps(recipients[..i], recipients[i])
  }

  lemma SomeLast(recipients: seq<string>, keeps: (seq<string>, string) -> bool)
    requires recipients != []
    ensures var before, r := recipients[..|recipients| - 1], recipients[|recipients| - 1];
      SomeOf(recipients, keeps) <==> SomeOf(before, keeps) || keeps(before, r)
  {
    var before := recipients[..|recipients| - 1];
    assert forall i :: 0 <= i < |before| ==> before[..i] == recipients[..i] && before[i] == recipients[i];
  }

  /**
    An address is kept for the catch-all exactly when a recipient leads to it and nothing else
    wants it, or when it is the form of a recipient whose search started from another form
    and found nothing new.
   */
  lemma {:induction false} UnknownAreKept(world: World, recipients: seq<string>, a: string)
    requires forall r :: r in recipients ==> NoLongPath(world, Root(world, r))
    ensures a in LocalRecipientTargets(world, recipients).1 <==> SomeOf(recipients, Keeper(world, a))
    decreases |recipients|
  {
    if recipients != [] {
      var before, r := recipients[..|recipients| - 1], recipients[|recipients| - 1];
      var (targets, unknown) := LocalRecipientTargets(world, before);
      UnknownAreKept(world, before, a);
      RecipientKeeps(world, r, targets, unknown);
      SomeLast(recipients, Keeper(world, a));
    }
  }

  /** With recipients whose normal forms are stable: exactly those that they lead to and nothing else wants. */
  lemma UnknownAreComplete(world: World, recipients: seq<string>)
    requires forall r :: r in recipients ==> NoLongPath(world, Root(world, r)) && Root(world, r) == world.normalize(r)
    ensures forall a :: a in LocalRecipientTargets(world, recipients).1 <==>
      exists r :: r in recipients && Reachable(world, Root(world, r), a) && IsUnknown(world, a)
  {
    forall a
      ensures a in LocalRecipientTargets(world, recipients).1 <==>
        exists r :: r in recipients && Reachable(world, Root(world, r), a) && IsUnknown(world, a)
    {
      UnknownAreKept(world, recipients, a);
      StableKept(world, recipients, a);
    }
  }

  lemma StableKept(world: World, recipients: seq<string>, a: string)
    requires forall r :: r in recipients ==> Root(world, r) == world.normalize(r)
    ensures SomeOf(recipients, Keeper(world, a)) <==>
      exists r :: r in recipients && Reachable(world, Root(world, r), a) && IsUnknown(world, a)
  {
    var keeps := Keeper(world, a);
    forall r | r in recipients && Reachable(world, Root(world, r), a) && IsUnknown(world, a)
      ensures SomeOf(recipients, keeps)
    {
      var i :| 0 <= i < |recipients| && recipients[i] == r;
      assert keeps(recipients[..i], recipients[i]);
    }
    forall i | 0 <= i < |recipients| && keeps(recipients[..i], recipients[i])
      ensures exists r :: r in recipients && Reachable(world, Root(world, r), a) && IsUnknown(world, a)
    {
      ReachableSelf(world, Root(world, recipients[i]));
    }
  }

  /** 22 addresses, each the only destination of the one before: the last one lies beyond
      the depth limit, so whatever it calls for is missed. */
  ghost predicate IsLongChain(world: World, names: seq<string>) {
    && |names| == MAX_DEPTH + 2
    && NoRepeats(names)
    && (forall i :: 0 <= i < |names| ==> world.normalize(names[i]) == names[i])
    && (forall i :: 0 <= i < |names| - 1 ==>
          world.alias(names[i]) == Some([names[i + 1]]) && world.mailboxes(names[i]) == {})
  }

  lemma {:induction false} LongChainIsCut(world: World, names: seq<string>, k: nat, s: Search)
    requires IsLongChain(world, names) && k < |names|
    requires forall i :: k <= i < |names| ==> names[i] !in s.seen
    ensures Resolve(world, names[k], s, k).0.targets == s.targets
    ensures k == 0 ==> Resolve(world, names[k], s, k).1
    decreases |names| - k
  {
    if k <= MAX_DEPTH {
      var visited := s.(seen := s.seen + {names[k]}, targets := s.targets + {});
      LongChainIsCut(world, names, k + 1, visited);
      assert [names[k + 1]][..0] == [];
      assert ResolveAll(world, [], visited, k + 1) == visited;
      assert ResolveAll(world, [names[k + 1]], visited, k + 1) == Resolve(world, names[k + 1], visited, k + 1).0;
    }
  }

  lemma {:induction false} LongChainReaches(world: World, names: seq<string>, k: nat)
    requires IsLongChain(world, names) && k < |names|
    ensures Reachable(world, names[k], names[|names| - 1])
    decreases |names| - k
  {
    if k == |names| - 1 {
      ReachableSelf(world, names[k]);
    } else {
      LongChainReaches(world, names, k + 1);
      assert Successors(world, names[k])[0] == names[k + 1];
      ReachableStep(world, names[k], names[k + 1], names[|names| - 1]);
    }
  }

  /** A path of 22 distinct addresses can be too long: the mailbox at the end of such a chain is called
      for and gets nothing. */
  lemma LongChainLosesItsMailbox(world: World, names: seq<string>, id: Id)
    requires IsLongChain(world, names) && world.collection(names[0]).None?
    requires id in world.mailboxes(names[|names| - 1])
    ensures CallsFor(world, names[0], id)
    ensures id !in LocalRecipientTargets(world, [names[0]]).0
  {
    LongChainReaches(world, names, 0);
    assert id in Contribution(world, names[|names| - 1]);
    LongChainIsCut(world, names, 0, Search({}, [], {}));
    assert [names[0]][..0] == [];
    assert LocalRecipientTargets(world, []) == ({}, []);
  }

  function Name(k: nat): string {
    seq(k, _ => 'a')
  }

  /** Twenty-one aliases in a row: a leads to aa, aa to aaa, up to the mailbox at the end. */
  const CHAIN := World(
    s => s,
    s => if |s| == 22 then {7} else {},
    s => if |s| < 22 then Some([s + "a"]) else None,
    s => None,
    s => false)

  /** A concrete directory in which one address too many costs a mailbox its copy. */
  lemma TwentyTwoIsTooMany()
    ensures CallsFor(CHAIN, "a", 7) && 7 !in LocalRecipientTargets(CHAIN, ["a"]).0
  {
    var names := seq(22, i requires 0 <= i < 22 => Name(i + 1));
    forall i, j | 0 <= i < j < 22 ensures names[i] != names[j] {
      assert |names[i]| < |names[j]|;
    }
    forall i | 0 <= i < 21 ensures CHAIN.alias(names[i]) == Some([names[i + 1]]) {
      assert names[i] + "a" == names[i + 1];
    }
    assert names[0] == "a" && |names[21]| == 22;
    LongChainLosesItsMailbox(CHAIN, names, 7);
  }

  // ---------------------------------------------------------------- in place

  /** The maps and lists that one run of the search updates. */
  class TargetSearch {
    const world: World
    var targets: set<Id>
    var unknown: seq<string>
    var seenUnknown: set<string>
    var seen: set<string>

    ghost predicate Valid()
      reads this
    {
      forall a :: a in seenUnknown <==> a in unknown
    }

    function View(): Search
      reads this
    {
      Search(targets, unknown, seen)
    }

    constructor (world: World)
      ensures Valid() && View() == Search({}, [], {}) && this.world == world
    {
      this.world := world;
      targets, unknown, seenUnknown, seen := {}, [], {}, {};
    }

    method KeepUnknown(address: string)
      requires Valid() && address !in unknown
      modifies this
      ensures Valid() && View() == old(View()).(unknown := old(unknown) + [address])
    {
      unknown := unknown + [address];
      seenUnknown := seenUnknown + {address};
    }

    method ResolveAddress(raw: string, depth: nat) returns (matched: bool)
      requires Valid() && depth <= MAX_DEPTH + 1
      modifies this
      ensures Valid() && (View(), matched) == Resolve(world, raw, old(View()), depth)
      decreases MAX_DEPTH + 1 - depth
    {
      var address := world.normalize(raw);
      if depth > MAX_DEPTH || address in seen {
        return false;
      }
      seen := seen + {address};
      matched := world.mailboxes(address) != {};
      targets := targets + world.mailboxes(address);
      var alias := world.alias(address);
      if alias.Some? {
        matched := true;
        ghost var visited := View();
        for i := 0 to |alias.value|
          invariant Valid() && View() == ResolveAll(world, alias.value[..i], visited, depth + 1)
        {
          assert alias.value[..i + 1][..i] == alias.value[..i];
          var _ := ResolveAddress(alias.value[i], depth + 1);
        }
        assert alias.value[..|alias.value|] == alias.value;
      } else if !matched {
        var target := world.collection(address);
        if target.Some? {
          targets := targets + {target.value};
          matched := true;
        } else if world.keepsUnknown(address) && address !in seenUnknown {
          KeepUnknown(address);
          matched := true;
        }
      }
    }

    method FindTargets(recipients: seq<string>)
      requires Valid() && targets == {} && unknown == []
      modifies this
      ensures (targets, unknown) == LocalRecipientTargets(world, recipients)
    {
      for i := 0 to |recipients|
        invariant Valid() && (targets, unknown) == LocalRecipientTargets(world, recipients[..i])
      {
        assert recipients[..i + 1][..i] == recipients[..i];
        var address := world.normalize(recipients[i]);
        seen := {};
        var matched := ResolveAddress(address, 0);
        var target := world.collection(address);
        if target.Some? {
          targets := targets + {target.value};
        } else if !matched && world.keepsUnknown(address) && address !in seenUnknown {
          KeepUnknown(address);
        }
      }
      assert recipients[..|recipients|] == recipients;
    }
  }
}

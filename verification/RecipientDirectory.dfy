/**
  Which mailbox, alias, collection or domain of the directory an address means, told from its
  text, and who receives a message in terms of the directory's own addresses.
 */
module RecipientDirectory {
  import opened Common
  import opened Text
  import opened AliasSearch
  import opened RecipientTargets

  // ---------------------------------------------------------------- addresses with a plus tag

  /** `a` is `base`, or `base` with a plus tag before its last at sign. */
  ghost predicate Tagged(a: string, base: string, left: string, tag: string, domain: string) {
    && '+' !in left && '@' !in domain && base == left + "@" + domain
    && (a == base || a == left + "+" + tag + "@" + domain)
  }

  ghost predicate IsBaseOf(a: string, base: string) {
    if '@' in a then exists left, tag, domain :: Tagged(a, base, left, tag, domain) else base == a
  }

  lemma LastAt(a: string) returns (local: string, domain: string)
    requires '@' in a
    ensures a == local + "@" + domain && '@' !in domain && AfterLast(a, '@') == |local| + 1
  {
    var n := AfterLast(a, '@');
    assert a[0..] == a;
    local, domain := a[..n - 1], a[n..];
  }

  lemma CutIs(a: string, local: string, domain: string)
    requires a == local + "@" + domain && '@' !in domain
    ensures var plus := IndexFrom(local, '+', 0);
      WithoutTag(a) == local[..plus] + "@" + domain && '+' !in local[..plus]
  {
    LastIsUnique(local, '@', domain);
    var plus := IndexFrom(local, '+', 0);
    assert a == local + ("@" + domain);
    assert a[..|local|] == local && a[|local|..] == "@" + domain;
    assert local[0..plus] == local[..plus];
    assert plus == |local| ==> local[..plus] == local;
    assert local[..plus] + ("@" + domain) == local[..plus] + "@" + domain;
  }

  lemma TaggedIsCut(a: string, base: string, left: string, tag: string, domain: string)
    requires Tagged(a, base, left, tag, domain)
    ensures WithoutTag(a) == base
  {
    if a == base {
      CutIs(a, left, domain);
      assert left[..|left|] == left;
    } else {
      var local := left + "+" + tag;
      CutIs(a, local, domain);
      SplitAtFirst(left, '+', tag);
      assert local[..|left|] == left;
    }
  }

  /** Dropping the tag gives the one address that this one is, with or without a tag. */
  lemma WithoutTagIff(a: string, base: string)
    ensures WithoutTag(a) == base <==> IsBaseOf(a, base)
  {
    if '@' in a {
      var local, domain := LastAt(a);
      CutIs(a, local, domain);
      var plus := IndexFrom(local, '+', 0);
      var left, tag := local[..plus], if plus == |local| then "" else local[plus + 1..];
      assert plus < |local| ==> local == left + "+" + tag;
      assert Tagged(a, left + "@" + domain, left, tag, domain);
      forall b | IsBaseOf(a, b) ensures WithoutTag(a) == b {
        var l, t, d :| Tagged(a, b, l, t, d);
        TaggedIsCut(a, b, l, t, d);
      }
    } else {
      NoLast(a);
    }
  }

  lemma NoLast(a: string)
    requires '@' !in a
    ensures AfterLast(a, '@') == 0
  {
    assert forall i :: 0 <= i < |a| ==> a[i] in a;
  }

  // ---------------------------------------------------------------- what the directory has for an address

  lemma BaseIff(a: string)
    ensures forall base :: IsBaseOf(Normalize(a), base) <==> base == BaseRecipient(a)
  {
    forall base ensures IsBaseOf(Normalize(a), base) <==> base == BaseRecipient(a) {
      WithoutTagIff(Normalize(a), base);
    }
  }

  predicate HasMailbox(dir: Directory, base: string, id: Id) {
    base in dir.mailboxes && dir.mailboxes[base] == id
  }

  lemma MailboxOfBase(dir: Directory, a: string, id: Id)
    ensures id in WorldOf(dir).mailboxes(a) <==> HasMailbox(dir, BaseRecipient(a), id)
  {
    assert WorldOf(dir).mailboxes(a) == MailboxOf(dir, a);
  }

  /** An address has the mailbox of the address that it is without its tag, and no other. */
  lemma MailboxIff(dir: Directory, a: string, id: Id)
    ensures id in WorldOf(dir).mailboxes(a) <==>
      exists base :: IsBaseOf(Normalize(a), base) && HasMailbox(dir, base, id)
  {
    BaseIff(a);
    MailboxOfBase(dir, a, id);
    assert IsBaseOf(Normalize(a), BaseRecipient(a));
  }

  /** The destinations named by the alias entry of that source. */
  ghost predicate Forwards(dir: Directory, source: string, destinations: seq<string>) {
    source in dir.aliases && destinations == Split(dir.aliases[source], ',')
  }

  /** The alias of the address as it stands goes first, then the one without its tag. */
  lemma AliasIff(dir: Directory, a: string, destinations: seq<string>)
    ensures WorldOf(dir).alias(a) == Some(destinations) <==>
      if a in dir.aliases then Forwards(dir, a, destinations)
      else exists base :: IsBaseOf(Normalize(a), base) && Forwards(dir, base, destinations)
  {
    BaseIff(a);
    assert IsBaseOf(Normalize(a), BaseRecipient(a));
    AliasOfBase(dir, a, BaseRecipient(a));
  }

  lemma AliasOfBase(dir: Directory, a: string, base: string)
    requires base == BaseRecipient(a)
    ensures forall destinations :: WorldOf(dir).alias(a) == Some(destinations) <==>
      Forwards(dir, if a in dir.aliases then a else base, destinations)
  {
    assert WorldOf(dir).alias(a) ==
      match AliasOf(dir, a) case Some(d) => Some(Split(d, ',')) case None => None;
  }

  lemma CollectionOfParts(dir: Directory, a: string, local: string, domain: string)
    requires a == local + "@" + domain && '@' !in domain
    ensures CollectionOf(dir, a) == if domain in dir.collections then Some(dir.collections[domain]) else None
  {
    LastIsUnique(local, '@', domain);
    assert a[|local| + 1..] == domain;
  }

  /** A collection belongs to the whole domain behind the last at sign. */
  lemma CollectionIff(dir: Directory, a: string, id: Id)
    ensures WorldOf(dir).collection(a) == Some(id) <==>
      exists local, domain ::
        a == local + "@" + domain && '@' !in domain && domain in dir.collections && dir.collections[domain] == id
  {
    forall local, domain | a == local + "@" + domain && '@' !in domain
      ensures CollectionOf(dir, a) == if domain in dir.collections then Some(dir.collections[domain]) else None
    {
      CollectionOfParts(dir, a, local, domain);
    }
    if '@' in a {
      var local, domain := LastAt(a);
    } else {
      NoLast(a);
      AtIsIn(a);
    }
  }

  lemma AtIsIn(a: string)
    ensures (exists local, domain :: a == local + "@" + domain) ==> '@' in a
  {
    forall local, domain ensures '@' in local + "@" + domain {
      assert (local + "@" + domain)[|local|] == '@';
    }
  }

  lemma {:induction false} SplitTwo(s: string, left: string, right: string)
    requires s == left + "@" + right && '@' !in left
    ensures Split(s, '@') == [left] + Split(right, '@')
  {
    SplitAtFirst(left, '@', right);
    assert s[..|left|] == left && s[|left| + 1..] == right;
  }

  lemma SplitOne(s: string)
    ensures |Split(s, '@')| == 1 <==> '@' !in s
    ensures '@' !in s ==> Split(s, '@') == [s]
  {
    var i := IndexFrom(s, '@', 0);
    assert i == |s| ==> s[0..i] == s;
  }

  /** One at sign, before an active domain. */
  ghost predicate IsOurs(dir: Directory, n: string, local: string, domain: string) {
    n == local + "@" + domain && '@' !in local && '@' !in domain && domain != "" && domain in dir.activeDomains
  }

  lemma PartsOfTwo(n: string, local: string, domain: string)
    requires n == local + "@" + domain && '@' !in local
    ensures |Split(n, '@')| == 2 <==> '@' !in domain
    ensures '@' !in domain ==> Split(n, '@')[1] == domain
  {
    SplitTwo(n, local, domain);
    SplitOne(domain);
  }

  lemma LocalParts(dir: Directory, a: string, n: string, local: string, domain: string)
    requires n == Normalize(a) && n == local + "@" + domain && '@' !in local
    ensures IsLocal(dir, a) <==> IsOurs(dir, n, local, domain)
  {
    PartsOfTwo(n, local, domain);
  }

  /** An unknown address is kept when the catch-all is on and it has one at sign, before an active domain. */
  lemma KeepsUnknownIff(dir: Directory, a: string)
    ensures WorldOf(dir).keepsUnknown(a) <==>
      dir.catchAll && exists local, domain :: IsOurs(dir, Normalize(a), local, domain)
  {
    var n := Normalize(a);
    forall local, domain | IsOurs(dir, n, local, domain) ensures IsLocal(dir, a) {
      LocalParts(dir, a, n, local, domain);
    }
    if '@' in n {
      var local, domain := SplitAt(n);
      LocalParts(dir, a, n, local, domain);
    } else {
      SplitOne(n);
    }
  }

  // ---------------------------------------------------------------- normalising a tagged recipient

  lemma {:induction false} TrimRightFront(front: string, rest: string, cut: char -> bool)
    requires front != "" && !cut(front[|front| - 1])
    ensures TrimRight(front + rest, cut) == front + TrimRight(rest, cut)
    decreases |rest|
  {
    var s := front + rest;
    if rest == "" {
      assert s == front;
    } else {
      assert s[|s| - 1] == rest[|rest| - 1] && s[..|s| - 1] == front + rest[..|rest| - 1];
      if cut(rest[|rest| - 1]) {
        TrimRightFront(front, rest[..|rest| - 1], cut);
      }
    }
  }

  lemma TrimFront(front: string, rest: string, cut: char -> bool)
    requires front != "" && !cut(front[0]) && !cut(front[|front| - 1])
    ensures Trim(front + rest, cut) == front + TrimRight(rest, cut)
  {
    assert (front + rest)[0] == front[0];
    TrimRightFront(front, rest, cut);
  }

  lemma {:induction false} FilterFront(front: string, rest: string, keep: char -> bool)
    requires forall i :: 0 <= i < |front| ==> keep(front[i])
    ensures Filter(front + rest, keep) == front + Filter(rest, keep)
  {
    var s := front + rest;
    if front == "" {
      assert s == rest;
    } else {
      assert s[0] == front[0] && s[1..] == front[1..] + rest;
      FilterFront(front[1..], rest, keep);
      assert [front[0]] + (front[1..] + Filter(rest, keep)) == front + Filter(rest, keep);
    }
  }

  lemma PlainFront(local: string, front: string)
    requires IsPlainLocal(local) && front == local + "+"
    ensures forall i :: 0 <= i < |front| ==> LocalPartChar(front[i]) && !IsSpace(front[i]) && !IsUpper(front[i])
    ensures front[0] != '.' && front[|front| - 1] == '+'
  {
    forall i | 0 <= i < |front| ensures LocalPartChar(front[i]) && !IsSpace(front[i]) && !IsUpper(front[i]) {
      assert front[i] == if i < |local| then local[i] else '+';
    }
  }

  lemma LowerFront(front: string, rest: string)
    requires forall i :: 0 <= i < |front| ==> !IsUpper(front[i])
    ensures ToLower(front + rest) == front + ToLower(rest)
  {
  }

  /** The local part up to its plus sign is kept, whatever the tag is made of. */
  lemma TaggedLocalPart(local: string, tag: string) returns (clean: string)
    requires IsPlainLocal(local)
    ensures NormalizeLocalPart(local + "+" + tag) == local + "+" + clean
  {
    var front := local + "+";
    PlainFront(local, front);
    TrimFront(front, tag, IsSpace);
    var rest := TrimRight(tag, IsSpace);
    LowerFront(front, rest);
    clean := CleanFront(front, ToLower(rest));
  }

  lemma CleanFront(front: string, rest: string) returns (clean: string)
    requires front != "" && front[0] != '.' && front[|front| - 1] != '.'
    requires forall i :: 0 <= i < |front| ==> LocalPartChar(front[i])
    ensures CleanLocalPart(front + rest) == front + clean
  {
    FilterFront(front, rest, LocalPartChar);
    var kept := Filter(rest, LocalPartChar);
    TrimFront(front, kept, IsDot);
    clean := TrimRight(kept, IsDot);
  }

  /** What a local part is made of: small letters, digits, and the five signs + - . % and _. */
  lemma LocalPartChars(c: char)
    ensures var n := c as int;
      LocalPartChar(c) <==> 97 <= n <= 122 || 48 <= n <= 57 || n == 43 || n == 45 || n == 46 || n == 37 || n == 95
  {
  }

  /** A local part and a domain as they stand in the directory. */
  predicate IsAddress(local: string, domain: string) {
    && IsPlainLocal(local) && '+' !in local
    && IsLower(domain) && '@' !in domain && !EndsInDotOrSpace(domain) && (domain != "" ==> !IsSpace(domain[0]))
  }

  /** That address, with or without a tag, in any case and with spaces around it. */
  ghost predicate IsSentTo(r: string, local: string, domain: string) {
    || ToLower(TrimSpace(r)) == local + "@" + domain
    || exists tag :: '@' !in tag && ToLower(TrimSpace(r)) == local + "+" + tag + "@" + domain
  }

  lemma SentToIsTagged(r: string, local: string, domain: string) returns (tag: string)
    requires IsAddress(local, domain) && IsSentTo(r, local, domain)
    ensures Tagged(Normalize(r), local + "@" + domain, local, tag, domain)
  {
    TrimmedDomain(domain);
    PlainLocalStays(local);
    tag := "";
    if ToLower(TrimSpace(r)) == local + "@" + domain {
      NormalizeAt(r, local, domain);
    } else {
      var t :| '@' !in t && ToLower(TrimSpace(r)) == local + "+" + t + "@" + domain;
      tag := TaggedLocalPart(local, t);
      NormalizeAt(r, local + "+" + t, domain);
    }
  }

  lemma TaggedEnds(n: string, local: string, tag: string, domain: string)
    requires n == local + "@" + domain || n == local + "+" + tag + "@" + domain
    requires !EndsInDotOrSpace(domain)
    ensures '@' in n && !EndsInDotOrSpace(n)
  {
    assert n[|n| - |domain| - 1] == '@';
    assert domain != "" ==> n[|n| - 1] == domain[|domain| - 1];
  }

  lemma SentToMeets(dir: Directory, r: string, local: string, domain: string)
    requires IsAddress(local, domain) && IsSentTo(r, local, domain)
    ensures Root(WorldOf(dir), r) == Normalize(r) == Normalize(Normalize(r))
    ensures IsBaseOf(Normalize(r), local + "@" + domain)
  {
    var tag := SentToIsTagged(r, local, domain);
    TaggedEnds(Normalize(r), local, tag, domain);
    NormalizeStableIff(r);
  }

  // ---------------------------------------------------------------- who receives a message

  lemma RootIsServed(world: World, r: string, targets: set<Id>, unknown: seq<string>)
    ensures targets + world.mailboxes(Root(world, r)) <= Recipient(world, r, targets, unknown).0
    ensures var own := world.collection(world.normalize(r));
      own.Some? ==> own.value in Recipient(world, r, targets, unknown).0
  {
    var s := Search(targets, unknown, {});
    var address := Root(world, r);
    ResolveAccounts(world, world.normalize(r), s, 0);
    if world.alias(address).Some? {
      var visited := s.(seen := s.seen + {address}, targets := s.targets + world.mailboxes(address));
      DestinationsLead(world, address);
      ResolveAllAccounts(world, Destinations(world, address), visited, 1, address);
    }
  }

  lemma {:induction false} EachRootIsServed(world: World, recipients: seq<string>, r: string)
    requires r in recipients
    ensures world.mailboxes(Root(world, r)) <= LocalRecipientTargets(world, recipients).0
    ensures var own := world.collection(world.normalize(r));
      own.Some? ==> own.value in LocalRecipientTargets(world, recipients).0
    decreases |recipients|
  {
    var before, last := recipients[..|recipients| - 1], recipients[|recipients| - 1];
    var (targets, unknown) := LocalRecipientTargets(world, before);
    RootIsServed(world, last, targets, unknown);
    if r in before {
      EachRootIsServed(world, before, r);
    }
  }

  /**
    A recipient that is the address of a mailbox, with or without a tag, in any case, gets the
    message into that mailbox: whoever else receives it, and whatever the aliases are.
   */
  lemma MailboxIsServed(dir: Directory, recipients: seq<string>, r: string, local: string, domain: string)
    requires r in recipients && IsAddress(local, domain) && IsSentTo(r, local, domain)
    requires local + "@" + domain in dir.mailboxes
    ensures dir.mailboxes[local + "@" + domain] in LocalRecipientTargets(WorldOf(dir), recipients).0
  {
    var base := local + "@" + domain;
    SentToMeets(dir, r, local, domain);
    MailboxIff(dir, Root(WorldOf(dir), r), dir.mailboxes[base]);
    EachRootIsServed(WorldOf(dir), recipients, r);
  }

  /** A recipient leads to the mailbox: through an address whose form without its tag is the mailbox's. */
  ghost predicate LeadsToMailbox(dir: Directory, r: string, id: Id) {
    exists a, base ::
      && Reachable(WorldOf(dir), Root(WorldOf(dir), r), a)
      && IsBaseOf(Normalize(a), base) && HasMailbox(dir, base, id)
  }

  lemma ContributedMailbox(dir: Directory, r: string, a: string, id: Id)
    requires Reachable(WorldOf(dir), Root(WorldOf(dir), r), a) && id in WorldOf(dir).mailboxes(a)
    ensures LeadsToMailbox(dir, r, id)
  {
    MailboxIff(dir, a, id);
  }

  lemma CollectedIsCollection(dir: Directory, a: string, id: Id)
    requires WorldOf(dir).collection(a) == Some(id)
    ensures id in dir.collections.Values
  {
    CollectionIff(dir, a, id);
  }

  lemma ContributedIs(dir: Directory, r: string, a: string, id: Id)
    requires Reachable(WorldOf(dir), Root(WorldOf(dir), r), a) && id in Contribution(WorldOf(dir), a)
    ensures id in dir.collections.Values || LeadsToMailbox(dir, r, id)
  {
    if id in WorldOf(dir).mailboxes(a) {
      ContributedMailbox(dir, r, a, id);
    } else {
      CollectedIsCollection(dir, a, id);
    }
  }

  lemma CalledForIs(dir: Directory, r: string, id: Id)
    requires CallsFor(WorldOf(dir), r, id)
    ensures id in dir.collections.Values || LeadsToMailbox(dir, r, id)
  {
    if a :| Reachable(WorldOf(dir), Root(WorldOf(dir), r), a) && id in Contribution(WorldOf(dir), a) {
      ContributedIs(dir, r, a, id);
    } else {
      CollectedIsCollection(dir, Normalize(r), id);
    }
  }

  /** Nobody else gets it: each target is the mailbox of an address some recipient leads to, or a
      domain's collection. */
  lemma OnlyTheseAreServed(dir: Directory, recipients: seq<string>, id: Id)
    requires id in LocalRecipientTargets(WorldOf(dir), recipients).0
    ensures id in dir.collections.Values || exists r :: r in recipients && LeadsToMailbox(dir, r, id)
  {
    TargetsAreCalledFor(WorldOf(dir), recipients);
    var r :| r in recipients && CallsFor(WorldOf(dir), r, id);
    CalledForIs(dir, r, id);
  }

  lemma LedToIsCalledFor(dir: Directory, r: string, id: Id)
    requires LeadsToMailbox(dir, r, id)
    ensures CallsFor(WorldOf(dir), r, id)
  {
    var a, base :| Reachable(WorldOf(dir), Root(WorldOf(dir), r), a)
      && IsBaseOf(Normalize(a), base) && HasMailbox(dir, base, id);
    MailboxIff(dir, a, id);
    assert id in Contribution(WorldOf(dir), a);
  }

  /** And all of these do, where no path of 22 distinct addresses starts at a recipient. */
  lemma AllTheseAreServed(dir: Directory, recipients: seq<string>, r: string, id: Id)
    requires forall q :: q in recipients ==> NoLongPath(WorldOf(dir), Root(WorldOf(dir), q))
    requires r in recipients && LeadsToMailbox(dir, r, id)
    ensures id in LocalRecipientTargets(WorldOf(dir), recipients).0
  {
    LedToIsCalledFor(dir, r, id);
    TargetsAreComplete(WorldOf(dir), recipients);
  }

  /** A domain's collection gets a copy of every message to an address of the domain, known or not. */
  lemma CollectionIsServed(dir: Directory, recipients: seq<string>, r: string, local: string, domain: string)
    requires r in recipients && IsAddress(local, domain) && IsSentTo(r, local, domain) && domain in dir.collections
    ensures dir.collections[domain] in LocalRecipientTargets(WorldOf(dir), recipients).0
  {
    var tag := SentToIsTagged(r, local, domain);
    var n := Normalize(r);
    CollectionOfParts(dir, n, if n == local + "@" + domain then local else local + "+" + tag, domain);
    EachRootIsServed(WorldOf(dir), recipients, r);
  }
}

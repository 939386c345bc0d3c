/**
  What the guarded handlers answer and what they write, told from the tables: a handler turns a
  request down on behalf of a collection exactly when the write would touch a collecting mailbox,
  and otherwise changes what was asked for and nothing else.
 */
module CollectionOutcomes {
  import opened Common
  import opened DomainCollection

  // ---------------------------------------------------------------- answers

  /** The handler gets as far as looking at the collections. */
  predicate Reached(s: State, r: Request) {
    match r
    case UpdateUser(user, _, _) => user in s.users
    case UpdateMailbox(mailbox, user, _) => Enabled(s, user) && mailbox in s.mailboxes
    case CreateAlias(_, a, refused) => a.domain in s.domains && !refused
    case UpdateAlias(id, _, _, _, refused) => id in s.aliases && s.aliases[id].domain in s.domains && !refused
    case _ => true
  }

  /** What the request names is there, or free to be created. */
  ghost predicate Named(s: State, r: Request) {
    match r
    case UpdateUser(user, _, _) => user in s.users
    case DeleteUser(user, _) => user in s.users
    case UpdateDomain(domain, _) => domain in s.domains
    case DeleteDomain(domain) =>
      domain in s.domains && forall m :: m in s.mailboxes ==> s.mailboxes[m].domain != domain
    case UpdateMailbox(mailbox, user, _) => Enabled(s, user) && mailbox in s.mailboxes
    case DeleteMailbox(mailbox, _) => mailbox in s.mailboxes
    case CreateAlias(id, a, _) => a.domain in s.domains && id !in s.aliases
    case UpdateAlias(id, _, _, _, _) => id in s.aliases && s.aliases[id].domain in s.domains
  }

  predicate HeldBack(r: Request) {
    match r
    case UpdateUser(_, _, refused) => refused
    case DeleteUser(_, refused) => refused
    case DeleteMailbox(_, refused) => refused
    case CreateAlias(_, _, refused) => refused
    case UpdateAlias(_, _, _, _, refused) => refused
    case _ => false
  }

  /** Were there no rules, the write would remove this mailbox, change it, or keep it from collecting. */
  ghost predicate Touched(s: State, r: Request, m: Id) {
    var t := Write(s.(collections := map[]), Settled(s, r));
    m !in t.mailboxes || m !in s.mailboxes || t.mailboxes[m] != s.mailboxes[m] || !CanCollect(t, m)
  }

  ghost predicate TouchesTarget(s: State, r: Request) {
    exists d :: d in s.collections && Touched(s, r, s.collections[d])
  }

  predicate IsForTargets(answer: Response) {
    answer == InUse || answer == ForwardsTarget
  }

  /** The same without the write: which mailboxes the request hits. */
  predicate Hits(s: State, r: Request, m: Id)
    requires m in s.mailboxes
  {
    var box := s.mailboxes[m];
    match r
    case UpdateUser(user, disabled, _) => box.user == user && Disables(s, user, disabled)
    case DeleteUser(user, _) => box.user == user
    case UpdateDomain(domain, active) => box.domain == domain && !active
    case DeleteDomain(domain) => box.domain == domain
    case UpdateMailbox(mailbox, user, active) => m == mailbox && (!active || user != box.user)
    case DeleteMailbox(mailbox, _) => m == mailbox
    case CreateAlias(_, a, _) => Forwards(a, box.address)
    case UpdateAlias(id, source, destination, enabled, _) =>
      id in s.aliases && Forwards(Alias(s.aliases[id].domain, source, destination, enabled), box.address)
  }

  function Unruled(s: State): State {
    s.(collections := map[])
  }

  /** With the same aliases, or fewer, an address is forwarded no more than before. */
  lemma FewerForward(s: State, t: State, address: Address)
    requires !Forwarded(s, address) && forall a :: a in t.aliases ==> a in s.aliases && t.aliases[a] == s.aliases[a]
    ensures !Forwarded(t, address)
  {
  }

  lemma OneMoreForwards(s: State, t: State, id: Id, x: Alias, address: Address)
    requires !Forwarded(s, address) && t.aliases == s.aliases[id := x]
    ensures Forwarded(t, address) <==> Forwards(x, address)
  {
    assert t.aliases[id] == x;
  }

  lemma AliasTouchedIff(s: State, r: Request, m: Id)
    requires CanCollect(s, m) && (r.CreateAlias? || r.UpdateAlias?)
    ensures Touched(s, r, m) <==> Hits(s, r, m)
  {
    var t := Write(Unruled(s), Settled(s, r));
    if r.CreateAlias? {
      OneMoreForwards(s, t, r.id, r.alias, s.mailboxes[m].address);
    } else if r.id in s.aliases {
      OneMoreForwards(s, t, r.id, t.aliases[r.id], s.mailboxes[m].address);
    } else {
      FewerForward(s, t, s.mailboxes[m].address);
    }
  }

  lemma UpdateTouchedIff(s: State, r: Request, m: Id)
    requires CanCollect(s, m) && (r.UpdateUser? || r.UpdateDomain? || r.UpdateMailbox?)
    ensures Touched(s, r, m) <==> Hits(s, r, m)
  {
    FewerForward(s, Write(Unruled(s), Settled(s, r)), s.mailboxes[m].address);
  }

  lemma DeletionTouchedIff(s: State, r: Request, m: Id)
    requires CanCollect(s, m) && Deletes(r)
    ensures Touched(s, r, m) <==> Hits(s, r, m)
  {
    FewerForward(s, Write(Unruled(s), Settled(s, r)), s.mailboxes[m].address);
  }

  lemma TouchedIff(s: State, r: Request, m: Id)
    requires CanCollect(s, m)
    ensures Touched(s, r, m) <==> Hits(s, r, m)
  {
    if r.CreateAlias? || r.UpdateAlias? {
      AliasTouchedIff(s, r, m);
    } else if Deletes(r) {
      DeletionTouchedIff(s, r, m);
    } else {
      UpdateTouchedIff(s, r, m);
    }
  }

  ghost predicate HitsTarget(s: State, r: Request) {
    exists d :: d in s.collections && s.collections[d] in s.mailboxes && Hits(s, r, s.collections[d])
  }

  lemma TouchesIfHits(s: State, r: Request)
    requires TargetsCollect(s)
    ensures TouchesTarget(s, r) <==> HitsTarget(s, r)
  {
    forall d | d in s.collections ensures Touched(s, r, s.collections[d]) <==> Hits(s, r, s.collections[d]) {
      TouchedIff(s, r, s.collections[d]);
    }
  }

  /** What the checks look for is that. */
  lemma ChecksLookForHits(s: State, r: Request)
    requires TargetsCollect(s)
    ensures IsForTargets(Check(s, r)) <==> Reached(s, r) && HitsTarget(s, r)
  {
    if r.CreateAlias? || r.UpdateAlias? {
      AliasChecksHits(s, r);
    } else {
      RowChecksHits(s, r);
    }
  }

  lemma RowChecksHits(s: State, r: Request)
    requires TargetsCollect(s) && !r.CreateAlias? && !r.UpdateAlias?
    ensures IsForTargets(Check(s, r)) <==> Reached(s, r) && HitsTarget(s, r)
  {
  }

  lemma AliasChecksHits(s: State, r: Request)
    requires TargetsCollect(s) && (r.CreateAlias? || r.UpdateAlias?)
    ensures IsForTargets(Check(s, r)) <==> Reached(s, r) && HitsTarget(s, r)
  {
  }

  /** Refused for the sake of a collection exactly when the write would touch a collecting mailbox. */
  lemma TargetsRefuseIff(s: State, r: Request)
    requires TargetsCollect(s)
    ensures IsForTargets(Check(s, r)) <==> Reached(s, r) && TouchesTarget(s, r)
  {
    TouchesIfHits(s, r);
    ChecksLookForHits(s, r);
  }

  lemma OtherAnswers(s: State, r: Request)
    requires TargetsCollect(s) && References(s)
    ensures Check(s, r) == Done <==> Named(s, r) && !HeldBack(r) && !IsForTargets(Check(s, r))
    ensures Named(s, r) && !HeldBack(r) ==> Reached(s, r)
  {
  }

  /** Let through exactly when all is there, the other checks pass, and no collecting mailbox would be touched. */
  lemma LetThroughIff(s: State, r: Request)
    requires TargetsCollect(s) && References(s)
    ensures Check(s, r) == Done <==> Named(s, r) && !HeldBack(r) && !TouchesTarget(s, r)
  {
    OtherAnswers(s, r);
    TargetsRefuseIff(s, r);
  }

  // ---------------------------------------------------------------- writes

  /** Nothing is new, and exactly the rows for which `gone` holds are gone. */
  ghost predicate Without<T>(a: map<Id, T>, b: map<Id, T>, gone: T -> bool) {
    && (forall k :: k in b <==> k in a && !gone(a[k]))
    && (forall k :: k in b ==> b[k] == a[k])
  }

  /** All other rows are as before, and this one is there. */
  ghost predicate SameBeside<T>(a: map<Id, T>, b: map<Id, T>, key: Id) {
    && key in b
    && (forall k :: k != key ==> (k in b <==> k in a))
    && (forall k :: k != key && k in b ==> b[k] == a[k])
  }

  ghost predicate WrittenAs(s: State, t: State, r: Request) {
    match r
    case UpdateUser(user, disabled, _) =>
      && t == s.(users := t.users) && SameBeside(s.users, t.users, user)
      && t.users[user] == if disabled.Some? then !disabled.value else Enabled(s, user)
    case DeleteUser(user, _) =>
      && t == s.(users := t.users, mailboxes := t.mailboxes)
      && t.users == s.users - {user}
      && Without(s.mailboxes, t.mailboxes, (m: Mailbox) => m.user == user)
    case UpdateDomain(domain, active) =>
      && t == s.(domains := t.domains) && SameBeside(s.domains, t.domains, domain)
      && t.domains[domain] == active
    case DeleteDomain(domain) =>
      && t == s.(domains := t.domains, mailboxes := t.mailboxes, aliases := t.aliases, collections := t.collections)
      && t.domains == s.domains - {domain} && t.collections == s.collections - {domain}
      && Without(s.mailboxes, t.mailboxes, (m: Mailbox) => m.domain == domain)
      && Without(s.aliases, t.aliases, (a: Alias) => a.domain == domain)
    case UpdateMailbox(mailbox, user, active) =>
      && t == s.(mailboxes := t.mailboxes) && SameBeside(s.mailboxes, t.mailboxes, mailbox)
      && mailbox in s.mailboxes
      && t.mailboxes[mailbox] ==
        Mailbox(user, s.mailboxes[mailbox].domain, s.mailboxes[mailbox].address, active)
    case DeleteMailbox(mailbox, _) => t == s.(mailboxes := t.mailboxes) && t.mailboxes == s.mailboxes - {mailbox}
    case CreateAlias(id, a, _) =>
      t == s.(aliases := t.aliases) && SameBeside(s.aliases, t.aliases, id) && t.aliases[id] == a
    case UpdateAlias(id, source, destination, enabled, _) =>
      && t == s.(aliases := t.aliases) && SameBeside(s.aliases, t.aliases, id) && id in s.aliases
      && t.aliases[id] == Alias(s.aliases[id].domain, source, destination, enabled)
  }

  /** A request that is let through changes what it asks for and takes along what belongs to it; all else stays. */
  lemma WriteOutcome(s: State, r: Request)
    requires Check(s, r) == Done
    ensures WrittenAs(s, Write(s, Settled(s, r)), r)
  {
  }

  /** An accepted transfer changes the owner alone, and only if the one who offered it still is. */
  lemma TransferOutcome(s: State, mailbox: Id, owner: Id, to: Id)
    requires mailbox in s.mailboxes && to in s.users
    ensures var m, t := s.mailboxes[mailbox], Transfer(s, mailbox, owner, to);
      if m.active && m.user == owner then
        && t == s.(mailboxes := t.mailboxes) && SameBeside(s.mailboxes, t.mailboxes, mailbox)
        && t.mailboxes[mailbox] == Mailbox(to, m.domain, m.address, true)
      else t == s
  {
  }

  /** What the statements without the lock add or take away, and that they touch nothing else. */
  ghost predicate AddedAs(s: State, t: State, a: Addition) {
    match a
    case NewUser(user) => t == s.(users := t.users) && SameBeside(s.users, t.users, user)
      && t.users[user] == (user in s.users ==> s.users[user])
    case NewDomain(domain) => t == s.(domains := t.domains) && SameBeside(s.domains, t.domains, domain)
      && t.domains[domain] == (domain in s.domains ==> s.domains[domain])
    case NewMailbox(id, user, domain, address) =>
      if id != "" && id !in s.mailboxes && user in s.users && domain in s.domains then
        && t == s.(mailboxes := t.mailboxes) && SameBeside(s.mailboxes, t.mailboxes, id)
        && t.mailboxes[id] == Mailbox(user, domain, address, true)
      else t == s
    case DeleteAlias(id) => t == s.(aliases := t.aliases) && t.aliases == s.aliases - {id}
  }

  /** New users, domains and mailboxes start in service, where their id is free and what they need is there. */
  lemma AdditionOutcome(s: State, a: Addition)
    ensures AddedAs(s, Add(s, a), a)
  {
  }
}

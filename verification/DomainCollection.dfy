/**
  A domain may send a copy of all its mail to one collecting mailbox. Every handler that could
  take such a mailbox out of service, or forward it elsewhere, looks first and writes then.

  These handlers run one at a time under a lock. The transfer of a mailbox to another user,
  the deletion of aliases and the creation of users, domains and mailboxes do not take it:
  they can fall between the look and the write.

  Addresses are in normal form. `refused` stands for the checks of a handler that do not look
  at the tables modelled here.
 */
module DomainCollection {
  import opened Common

  type Id = string
  type Address = string

  datatype Mailbox = Mailbox(user: Id, domain: Id, address: Address, active: bool)

  datatype Alias = Alias(domain: Id, source: Address, destination: Address, enabled: bool)

  datatype AuditRow = AuditRow(domain: Id, actor: Id, before: Id, next: Id)

  /** `users` says who is enabled, `domains` which are active, `collections` where a domain's copies go. */
  datatype State = State(
    users: map<Id, bool>,
    domains: map<Id, bool>,
    mailboxes: map<Id, Mailbox>,
    aliases: map<Id, Alias>,
    collections: map<Id, Id>,
    audit: seq<AuditRow>)

  // ---------------------------------------------------------------- what always holds

  predicate Enabled(s: State, user: Id) {
    user in s.users && s.users[user]
  }

  predicate Active(s: State, domain: Id) {
    domain in s.domains && s.domains[domain]
  }

  predicate Forwards(a: Alias, address: Address) {
    a.enabled && a.source == address && a.destination != address
  }

  predicate Forwarded(s: State, address: Address) {
    exists a :: a in s.aliases && Forwards(s.aliases[a], address)
  }

  /** A mailbox that can collect: in service, and not forwarded elsewhere. */
  predicate CanCollect(s: State, mailbox: Id) {
    && mailbox in s.mailboxes
    && var m := s.mailboxes[mailbox];
      m.active && Active(s, m.domain) && Enabled(s, m.user) && !Forwarded(s, m.address)
  }

  ghost predicate TargetsCollect(s: State) {
    forall d :: d in s.collections ==> d in s.domains && CanCollect(s, s.collections[d])
  }

  ghost predicate References(s: State) {
    && (forall m :: m in s.mailboxes ==> s.mailboxes[m].user in s.users && s.mailboxes[m].domain in s.domains)
    && "" !in s.mailboxes
  }

  /** Where a domain's copies go; "" for nowhere. */
  function Current(s: State, domain: Id): Id {
    if domain in s.collections then s.collections[domain] else ""
  }

  /** What the audit trail last says about a domain. */
  function Latest(audit: seq<AuditRow>, domain: Id): Id {
    if audit == [] then ""
    else if audit[|audit| - 1].domain == domain then audit[|audit| - 1].next
    else Latest(audit[..|audit| - 1], domain)
  }

  /** Each row of the trail starts where the one before it ended, and changes something. */
  ghost predicate Linked(audit: seq<AuditRow>) {
    forall i :: 0 <= i < |audit| ==>
      audit[i].before == Latest(audit[..i], audit[i].domain) && audit[i].before != audit[i].next
  }

  ghost predicate AuditTells(s: State) {
    && Linked(s.audit)
    && forall d :: d in s.domains ==> Latest(s.audit, d) == Current(s, d)
  }

  ghost predicate Good(s: State) {
    References(s) && TargetsCollect(s) && AuditTells(s)
  }

  // ---------------------------------------------------------------- guards

  datatype Kind = OfMailbox | OfUser | OfDomain

  predicate Concerns(s: State, kind: Kind, id: Id, mailbox: Id) {
    && mailbox in s.mailboxes
    && match kind
      case OfMailbox => mailbox == id
      case OfUser => s.mailboxes[mailbox].user == id
      case OfDomain => s.mailboxes[mailbox].domain == id
  }

  /** `collectionTargetInUse`: some domain's copies go to this mailbox, or to one of this user or domain. */
  predicate InUseAsTarget(s: State, kind: Kind, id: Id) {
    exists d :: d in s.collections && Concerns(s, kind, id, s.collections[d])
  }

  predicate IsTargetAddress(s: State, address: Address) {
    exists d :: d in s.collections && s.collections[d] in s.mailboxes
      && s.mailboxes[s.collections[d]].address == address
  }

  /** `collectionAliasAllowed` */
  predicate AliasAllowed(s: State, source: Address, destination: Address, enabled: bool) {
    !enabled || source == destination || !IsTargetAddress(s, source)
  }

  // ---------------------------------------------------------------- handlers under the lock

  datatype Request =
    | UpdateUser(user: Id, disabled: Option<bool>, refused: bool)
    | DeleteUser(user: Id, refused: bool)
    | UpdateDomain(domain: Id, active: bool)
    | DeleteDomain(domain: Id)
    | UpdateMailbox(mailbox: Id, user: Id, active: bool)
    | DeleteMailbox(mailbox: Id, refused: bool)
    | CreateAlias(id: Id, alias: Alias, refused: bool)
    | UpdateAlias(id: Id, source: Address, destination: Address, enabled: bool, refused: bool)

  /** `Refused` is the database's own no, from a foreign key. */
  datatype Response = Done | NotFound | BadRequest | InUse | ForwardsTarget | Refused

  /** Whether the request leaves the user disabled. */
  predicate Disables(s: State, user: Id, disabled: Option<bool>) {
    if disabled.Some? then disabled.value else !Enabled(s, user)
  }

  /** The checks a handler makes before it writes, in their order. */
  function Check(s: State, r: Request): Response {
    match r
    case UpdateUser(user, disabled, refused) =>
      if user !in s.users then NotFound
      else if Disables(s, user, disabled) && InUseAsTarget(s, OfUser, user) then InUse
      else if refused then BadRequest
      else Done
    case DeleteUser(user, refused) =>
      if InUseAsTarget(s, OfUser, user) then InUse
      else if user !in s.users then NotFound
      else if refused then BadRequest
      else Done
    case UpdateDomain(domain, active) =>
      if !active && InUseAsTarget(s, OfDomain, domain) then InUse
      else if domain !in s.domains then NotFound
      else Done
    case DeleteDomain(domain) =>
      if InUseAsTarget(s, OfDomain, domain) then InUse
      else if exists m :: m in s.mailboxes && s.mailboxes[m].domain == domain then BadRequest
      else if domain !in s.domains then NotFound
      else Done
    case UpdateMailbox(mailbox, user, active) =>
      if user !in s.users then NotFound
      else if !s.users[user] then BadRequest
      else if mailbox !in s.mailboxes then NotFound
      else if (!active || user != s.mailboxes[mailbox].user) && InUseAsTarget(s, OfMailbox, mailbox) then InUse
      else Done
    case DeleteMailbox(mailbox, refused) =>
      if InUseAsTarget(s, OfMailbox, mailbox) then InUse
      else if mailbox !in s.mailboxes then NotFound
      else if refused then BadRequest
      else Done
    case CreateAlias(id, a, refused) =>
      if a.domain !in s.domains then NotFound
      else if refused then BadRequest
      else if !AliasAllowed(s, a.source, a.destination, a.enabled) then ForwardsTarget
      else if id in s.aliases then BadRequest
      else Done
    case UpdateAlias(id, source, destination, enabled, refused) =>
      if id !in s.aliases || s.aliases[id].domain !in s.domains then NotFound
      else if refused then BadRequest
      else if !AliasAllowed(s, source, destination, enabled) then ForwardsTarget
      else Done
  }

  /** What the write depends on besides the request is settled at the check. */
  function Settled(s: State, r: Request): Request {
    match r
    case UpdateUser(user, disabled, refused) => UpdateUser(user, Some(Disables(s, user, disabled)), refused)
    case _ => r
  }

  function OwnedBy(s: State, user: Id): set<Id> {
    set m | m in s.mailboxes && s.mailboxes[m].user == user
  }

  function LyingIn(s: State, domain: Id): set<Id> {
    set m | m in s.mailboxes && s.mailboxes[m].domain == domain
  }

  function AliasesOf(s: State, domain: Id): set<Id> {
    set a | a in s.aliases && s.aliases[a].domain == domain
  }

  /** A mailbox some rule points to cannot be deleted, nor what would take it along. */
  predicate Restricted(s: State, r: Request) {
    match r
    case DeleteUser(user, _) => InUseAsTarget(s, OfUser, user)
    case DeleteDomain(domain) => InUseAsTarget(s, OfDomain, domain)
    case DeleteMailbox(mailbox, _) => InUseAsTarget(s, OfMailbox, mailbox)
    case _ => false
  }

  function PutMailbox(s: State, mailbox: Id, user: Id, active: bool): State
    requires mailbox in s.mailboxes
  {
    s.(mailboxes := s.mailboxes[mailbox := s.mailboxes[mailbox].(user := user, active := active)])
  }

  /** The write statement of a settled request, with what the foreign keys delete along. */
  function Write(s: State, r: Request): State {
    if Restricted(s, r) then s
    else match r
    case UpdateUser(user, disabled, _) =>
      if user in s.users && disabled.Some? then s.(users := s.users[user := !disabled.value]) else s
    case DeleteUser(user, _) => s.(users := s.users - {user}, mailboxes := s.mailboxes - OwnedBy(s, user))
    case UpdateDomain(domain, active) =>
      if domain in s.domains then s.(domains := s.domains[domain := active]) else s
    case DeleteDomain(domain) =>
      s.(domains := s.domains - {domain},
         mailboxes := s.mailboxes - LyingIn(s, domain),
         aliases := s.aliases - AliasesOf(s, domain),
         collections := s.collections - {domain})
    case UpdateMailbox(mailbox, user, active) =>
      if mailbox in s.mailboxes
      then PutMailbox(s, mailbox, user, active)
      else s
    case DeleteMailbox(mailbox, _) => s.(mailboxes := s.mailboxes - {mailbox})
    case CreateAlias(id, a, _) => s.(aliases := s.aliases[id := a])
    case UpdateAlias(id, source, destination, enabled, _) =>
      if id in s.aliases
      then s.(aliases := s.aliases[id := Alias(s.aliases[id].domain, source, destination, enabled)])
      else s
  }

  // ---------------------------------------------------------------- one transaction each

  datatype Outcome = Outcome(state: State, response: Response)

  /** Sets where a domain's copies go, or switches them off. */
  function SetRule(s: State, domain: Id, enabled: bool, target: Id, actor: Id): Outcome {
    if domain !in s.domains then Outcome(s, NotFound)
    else if enabled && !(Active(s, domain) && CanCollect(s, target)) then Outcome(s, BadRequest)
    else
      var next := if enabled then target else "";
      if Current(s, domain) == next then Outcome(s, Done)
      else
        var without := s.collections - {domain};
        Outcome(s.(
          collections := if enabled then without[domain := next] else without,
          audit := s.audit + [AuditRow(domain, actor, Current(s, domain), next)]), Done)
  }

  /** The transfer itself: it looks at the mailbox, not at the user who accepted. */
  function Transfer(s: State, mailbox: Id, owner: Id, to: Id): State {
    if mailbox in s.mailboxes && s.mailboxes[mailbox].active && s.mailboxes[mailbox].user == owner && to in s.users
    then s.(mailboxes := s.mailboxes[mailbox := s.mailboxes[mailbox].(user := to)])
    else s
  }

  /** Statements without the lock that no guard is needed for. */
  datatype Addition =
    | NewUser(user: Id)
    | NewDomain(domain: Id)
    | NewMailbox(mailbox: Id, user: Id, domain: Id, address: Address)
    | DeleteAlias(id: Id)

  function Add(s: State, a: Addition): State {
    match a
    case NewUser(user) => if user in s.users then s else s.(users := s.users[user := true])
    case NewDomain(domain) => if domain in s.domains then s else s.(domains := s.domains[domain := true])
    case NewMailbox(id, user, domain, address) =>
      if id == "" || id in s.mailboxes || user !in s.users || domain !in s.domains then s
      else s.(mailboxes := s.mailboxes[id := Mailbox(user, domain, address, true)])
    case DeleteAlias(id) => s.(aliases := s.aliases - {id})
  }

  // ---------------------------------------------------------------- between check and write

  /** What statements without the lock may have done: only owners change, and only aliases go. */
  ghost predicate Drifts(a: State, b: State) {
    && (forall u :: u in a.users ==> u in b.users && b.users[u] == a.users[u])
    && (forall d :: d in a.domains ==> d in b.domains && b.domains[d] == a.domains[d])
    && (forall m :: m in a.mailboxes ==> m in b.mailboxes && SameBut(a.mailboxes[m], b.mailboxes[m]))
    && (forall x :: x in b.aliases ==> x in a.aliases && b.aliases[x] == a.aliases[x])
    && a.collections == b.collections
    && a.audit == b.audit
  }

  /** The same mailbox, perhaps with another owner. */
  predicate SameBut(a: Mailbox, b: Mailbox) {
    b == a.(user := b.user)
  }

  lemma DriftsTrans(a: State, b: State, c: State)
    requires Drifts(a, b) && Drifts(b, c)
    ensures Drifts(a, c)
  {
  }

  lemma TransferDrifts(s: State, mailbox: Id, owner: Id, to: Id)
    ensures Drifts(s, Transfer(s, mailbox, owner, to))
  {
  }

  lemma AdditionKeepsMailboxes(s: State, a: Addition)
    ensures forall m :: m in s.mailboxes ==> m in Add(s, a).mailboxes && Add(s, a).mailboxes[m] == s.mailboxes[m]
  {
  }

  lemma AdditionKeepsUsers(s: State, a: Addition)
    ensures forall u :: u in s.users ==> u in Add(s, a).users && Add(s, a).users[u] == s.users[u]
    ensures forall d :: d in s.domains ==> d in Add(s, a).domains && Add(s, a).domains[d] == s.domains[d]
  {
  }

  lemma AdditionDrifts(s: State, a: Addition)
    ensures Drifts(s, Add(s, a))
  {
    AdditionKeepsMailboxes(s, a);
    AdditionKeepsUsers(s, a);
    AdditionBringsNoAlias(s, a);
  }

  lemma AdditionBringsNoAlias(s: State, a: Addition)
    ensures var t := Add(s, a);
      && (forall x :: x in t.aliases ==> x in s.aliases && t.aliases[x] == s.aliases[x])
      && t.collections == s.collections && t.audit == s.audit
  {
  }

  /** Some rule's target has come to this user since `a`. */
  ghost predicate TargetPassed(a: State, b: State, user: Id) {
    exists d :: d in b.collections && b.collections[d] in a.mailboxes && b.collections[d] in b.mailboxes
      && a.mailboxes[b.collections[d]].user != user && b.mailboxes[b.collections[d]].user == user
  }

  lemma InUseNowIffPassed(a: State, b: State, user: Id)
    requires TargetsCollect(a) && Drifts(a, b) && !InUseAsTarget(a, OfUser, user)
    ensures InUseAsTarget(b, OfUser, user) <==> TargetPassed(a, b, user)
  {
    forall d | d in b.collections
      ensures b.collections[d] in a.mailboxes && a.mailboxes[b.collections[d]].user != user
    {
      assert CanCollect(a, a.collections[d]);
      assert !Concerns(a, OfUser, user, a.collections[d]);
    }
    if InUseAsTarget(b, OfUser, user) {
      var d :| d in b.collections && Concerns(b, OfUser, user, b.collections[d]);
      assert b.collections[d] in a.mailboxes;
    }
  }

  // ---------------------------------------------------------------- what keeps the invariant

  /** All that a target's service rests on is still there. */
  ghost predicate StillServed(s: State, t: State, m: Id) {
    && m in s.mailboxes && m in t.mailboxes
    && t.mailboxes[m].address == s.mailboxes[m].address
    && t.mailboxes[m].active
    && Active(t, t.mailboxes[m].domain)
    && Enabled(t, t.mailboxes[m].user)
    && forall x :: x in t.aliases && Forwards(t.aliases[x], s.mailboxes[m].address) ==>
        x in s.aliases && t.aliases[x] == s.aliases[x]
  }

  lemma ServedCollects(s: State, t: State, m: Id)
    requires CanCollect(s, m) && StillServed(s, t, m)
    ensures CanCollect(t, m)
  {
    var address := s.mailboxes[m].address;
    forall x | x in t.aliases ensures !Forwards(t.aliases[x], address) {
      assert x in s.aliases && t.aliases[x] == s.aliases[x] ==> !Forwards(s.aliases[x], address);
    }
  }

  ghost predicate AllServed(s: State, t: State) {
    forall d :: d in t.collections ==>
      d in s.collections && t.collections[d] == s.collections[d] && d in t.domains
        && StillServed(s, t, t.collections[d])
  }

  lemma TargetsStay(s: State, t: State)
    requires TargetsCollect(s) && AllServed(s, t)
    ensures TargetsCollect(t)
  {
    forall d | d in t.collections ensures CanCollect(t, t.collections[d]) {
      ServedCollects(s, t, t.collections[d]);
    }
  }

  lemma {:induction false} LatestUnmentioned(audit: seq<AuditRow>, domain: Id)
    requires forall i :: 0 <= i < |audit| ==> audit[i].domain != domain
    ensures Latest(audit, domain) == ""
  {
    if audit != [] {
      LatestUnmentioned(audit[..|audit| - 1], domain);
    }
  }

  lemma {:induction false} LatestAfter(audit: seq<AuditRow>, row: AuditRow, domain: Id)
    ensures Latest(audit + [row], domain) == if row.domain == domain then row.next else Latest(audit, domain)
  {
    assert (audit + [row])[..|audit|] == audit;
  }

  lemma RuleKeepsAudit(s: State, domain: Id, enabled: bool, target: Id, actor: Id)
    requires Good(s)
    ensures AuditTells(SetRule(s, domain, enabled, target, actor).state)
  {
    var t := SetRule(s, domain, enabled, target, actor).state;
    if t != s {
      var row := AuditRow(domain, actor, Current(s, domain), if enabled then target else "");
      forall i | 0 <= i < |t.audit|
        ensures t.audit[i].before == Latest(t.audit[..i], t.audit[i].domain) && t.audit[i].before != t.audit[i].next
      {
        assert i < |s.audit| ==> t.audit[..i] == s.audit[..i];
        assert i == |s.audit| ==> t.audit[..i] == s.audit;
      }
      forall d | d in t.domains ensures Latest(t.audit, d) == Current(t, d) {
        LatestAfter(s.audit, row, d);
      }
    }
  }

  lemma SameTables(s: State, t: State, mailbox: Id)
    requires s.users == t.users && s.domains == t.domains && s.mailboxes == t.mailboxes && s.aliases == t.aliases
    ensures CanCollect(s, mailbox) == CanCollect(t, mailbox)
  {
  }

  /** Rules taken over, or pointing to a mailbox that can collect. */
  lemma RulesKeep(s: State, t: State, target: Id)
    requires TargetsCollect(s)
    requires s.users == t.users && s.domains == t.domains && s.mailboxes == t.mailboxes && s.aliases == t.aliases
    requires forall d :: d in t.collections ==> d in s.domains
    requires forall d :: d in t.collections && t.collections[d] != target ==>
      d in s.collections && t.collections[d] == s.collections[d]
    requires target in t.collections.Values ==> CanCollect(s, target)
    ensures TargetsCollect(t)
  {
    forall d | d in t.collections ensures CanCollect(t, t.collections[d]) {
      SameTables(s, t, t.collections[d]);
      if t.collections[d] != target {
        assert CanCollect(s, s.collections[d]);
      }
    }
  }

  lemma RuleKeeps(s: State, domain: Id, enabled: bool, target: Id, actor: Id)
    requires Good(s)
    ensures Good(SetRule(s, domain, enabled, target, actor).state)
  {
    var t := SetRule(s, domain, enabled, target, actor).state;
    RuleKeepsAudit(s, domain, enabled, target, actor);
    if t != s {
      if !enabled {
        assert forall d :: d in t.collections ==> CanCollect(s, s.collections[d]);
      }
      RulesKeep(s, t, target);
    }
  }

  /**
    A rule can be set exactly when its domain is active and its target can collect; then it
    is in force, no other rule has changed, and the trail has one more row only if this one has.
   */
  lemma RuleOutcome(s: State, domain: Id, enabled: bool, target: Id, actor: Id)
    ensures var o := SetRule(s, domain, enabled, target, actor);
      && (o.response == Done <==> domain in s.domains && (enabled ==> Active(s, domain) && CanCollect(s, target)))
      && (o.response == Done ==> Current(o.state, domain) == if enabled then target else "")
      && (forall d :: d != domain ==> Current(o.state, d) == Current(s, d))
      && |o.state.audit| == |s.audit| + if Current(o.state, domain) == Current(s, domain) then 0 else 1
  {
  }

  /**
    A transfer keeps the invariant exactly when it does nothing, or the new owner is enabled
    when it takes effect, or the mailbox collects for nobody.
   */
  lemma TransferKeepsIff(s: State, mailbox: Id, owner: Id, to: Id)
    requires Good(s)
    ensures Good(Transfer(s, mailbox, owner, to)) <==> TransferSafe(s, mailbox, owner, to)
  {
    var t := Transfer(s, mailbox, owner, to);
    if t != s {
      if TransferSafe(s, mailbox, owner, to) {
        forall d | d in t.collections ensures StillServed(s, t, t.collections[d]) {
          assert CanCollect(s, s.collections[d]);
          assert s.collections[d] == mailbox ==> Concerns(s, OfMailbox, mailbox, s.collections[d]);
        }
        TargetsStay(s, t);
      } else {
        var d :| d in s.collections && Concerns(s, OfMailbox, mailbox, s.collections[d]);
        assert !CanCollect(t, t.collections[d]);
      }
    }
  }

  ghost predicate TransferSafe(s: State, mailbox: Id, owner: Id, to: Id) {
    Transfer(s, mailbox, owner, to) == s || Enabled(s, to) || !InUseAsTarget(s, OfMailbox, mailbox)
  }

  /** New ids of domains are new. */
  ghost predicate Fresh(s: State, a: Addition) {
    a.NewDomain? ==> a.domain in s.domains || forall i :: 0 <= i < |s.audit| ==> s.audit[i].domain != a.domain
  }

  lemma AdditionServes(s: State, a: Addition, d: Id)
    requires TargetsCollect(s) && d in s.collections
    ensures d in Add(s, a).domains && StillServed(s, Add(s, a), s.collections[d])
  {
    assert CanCollect(s, s.collections[d]);
    if a.NewMailbox? {
      NewMailboxServes(s, a, s.collections[d]);
    } else if a.DeleteAlias? {
      assert Add(s, a).mailboxes == s.mailboxes;
    }
  }

  lemma NewMailboxServes(s: State, a: Addition, m: Id)
    requires CanCollect(s, m) && a.NewMailbox?
    ensures StillServed(s, Add(s, a), m)
  {
    assert m in Add(s, a).mailboxes && Add(s, a).mailboxes[m] == s.mailboxes[m];
  }

  lemma AdditionKeepsAudit(s: State, a: Addition)
    requires Good(s) && Fresh(s, a)
    ensures AuditTells(Add(s, a))
  {
    if a.NewDomain? && a.domain !in s.domains {
      LatestUnmentioned(s.audit, a.domain);
      forall d | d in Add(s, a).domains ensures Latest(s.audit, d) == Current(Add(s, a), d) {
        assert d != a.domain ==> d in s.domains;
      }
    } else {
      AuditStays(s, Add(s, a));
    }
  }

  lemma AdditionServesAll(s: State, a: Addition)
    requires TargetsCollect(s)
    ensures AllServed(s, Add(s, a))
  {
    forall d | d in s.collections ensures d in Add(s, a).domains && StillServed(s, Add(s, a), s.collections[d]) {
      AdditionServes(s, a, d);
    }
  }

  lemma AdditionKeepsReferences(s: State, a: Addition)
    requires References(s)
    ensures References(Add(s, a))
  {
  }

  lemma AdditionKeeps(s: State, a: Addition)
    requires Good(s) && Fresh(s, a)
    ensures Good(Add(s, a))
  {
    AdditionServesAll(s, a);
    TargetsStay(s, Add(s, a));
    AdditionKeepsReferences(s, a);
    AdditionKeepsAudit(s, a);
  }

  lemma AuditStays(s: State, t: State)
    requires AuditTells(s) && t.audit == s.audit && t.domains.Keys <= s.domains.Keys
    requires forall d :: d in t.domains ==> Current(t, d) == Current(s, d)
    ensures AuditTells(t)
  {
  }

  /** The one write that can go wrong: it disables a user to whom a target has come since the check. */
  ghost predicate WriteSafe(a: State, b: State, r: Request) {
    r.UpdateUser? && r.disabled == Some(true) ==> !TargetPassed(a, b, r.user)
  }

  lemma TargetServedBefore(a: State, b: State, d: Id)
    requires TargetsCollect(a) && Drifts(a, b) && TargetsCollect(b) && d in b.collections
    ensures CanCollect(a, b.collections[d]) && CanCollect(b, b.collections[d])
    ensures SameBut(a.mailboxes[b.collections[d]], b.mailboxes[b.collections[d]])
  {
  }

  /** The write leaves the target of this rule in service. */
  ghost predicate Serves(s: State, r: Request, d: Id)
    requires d in s.collections
  {
    StillServed(s, Write(s, r), s.collections[d])
  }

  lemma DeletedUserServes(b: State, user: Id, refused: bool, d: Id)
    requires TargetsCollect(b) && d in b.collections && !InUseAsTarget(b, OfUser, user)
    ensures Serves(b, DeleteUser(user, refused), d)
  {
    assert CanCollect(b, b.collections[d]) && !Concerns(b, OfUser, user, b.collections[d]);
  }

  lemma PutDomainServes(s: State, domain: Id, active: bool, m: Id)
    requires CanCollect(s, m) && (!active ==> s.mailboxes[m].domain != domain)
    ensures StillServed(s, s.(domains := s.domains[domain := active]), m)
  {
  }

  lemma SetDomainServes(a: State, b: State, domain: Id, active: bool, d: Id)
    requires TargetsCollect(a) && Drifts(a, b) && TargetsCollect(b) && d in b.collections
    requires !active ==> !InUseAsTarget(a, OfDomain, domain)
    ensures Serves(b, UpdateDomain(domain, active), d)
  {
    TargetServedBefore(a, b, d);
    if domain in b.domains {
      assert !active ==> !Concerns(a, OfDomain, domain, a.collections[d]);
      PutDomainServes(b, domain, active, b.collections[d]);
    } else {
      StaysServed(b, b.collections[d]);
    }
  }

  lemma StaysServed(s: State, m: Id)
    requires CanCollect(s, m)
    ensures StillServed(s, s, m)
  {
  }

  lemma DeletedDomainServes(b: State, domain: Id, d: Id)
    requires TargetsCollect(b) && d in b.collections && !InUseAsTarget(b, OfDomain, domain)
    ensures Serves(b, DeleteDomain(domain), d)
  {
    assert CanCollect(b, b.collections[d]) && !Concerns(b, OfDomain, domain, b.collections[d]);
  }

  lemma NotTargetSince(a: State, b: State, mailbox: Id, d: Id)
    requires TargetsCollect(a) && Drifts(a, b) && TargetsCollect(b) && d in b.collections
    requires !InUseAsTarget(a, OfMailbox, mailbox)
    ensures b.collections[d] != mailbox
  {
    TargetServedBefore(a, b, d);
    assert !Concerns(a, OfMailbox, mailbox, a.collections[d]);
  }

  lemma PutMailboxServes(s: State, mailbox: Id, user: Id, active: bool, m: Id)
    requires CanCollect(s, m) && mailbox in s.mailboxes && Enabled(s, user) && (m == mailbox ==> active)
    ensures StillServed(s, PutMailbox(s, mailbox, user, active), m)
  {
  }

  lemma MailboxServes(s: State, mailbox: Id, user: Id, active: bool, m: Id)
    requires CanCollect(s, m) && Enabled(s, user) && (m == mailbox ==> active)
    ensures StillServed(s, Write(s, UpdateMailbox(mailbox, user, active)), m)
  {
    if mailbox in s.mailboxes {
      PutMailboxServes(s, mailbox, user, active, m);
    } else {
      StaysServed(s, m);
    }
  }

  lemma SetMailboxServes(a: State, b: State, mailbox: Id, user: Id, active: bool, d: Id)
    requires TargetsCollect(a) && Drifts(a, b) && TargetsCollect(b) && d in b.collections && Enabled(a, user)
    requires !active ==> !InUseAsTarget(a, OfMailbox, mailbox)
    ensures Serves(b, UpdateMailbox(mailbox, user, active), d)
  {
    if !active {
      NotTargetSince(a, b, mailbox, d);
    }
    TargetServedBefore(a, b, d);
    EnabledStays(a, b, user);
    MailboxServes(b, mailbox, user, active, b.collections[d]);
  }

  lemma DeletedMailboxServes(b: State, mailbox: Id, refused: bool, d: Id)
    requires TargetsCollect(b) && d in b.collections && !InUseAsTarget(b, OfMailbox, mailbox)
    ensures Serves(b, DeleteMailbox(mailbox, refused), d)
  {
    assert CanCollect(b, b.collections[d]) && !Concerns(b, OfMailbox, mailbox, b.collections[d]);
  }

  lemma PutAliasServes(a: State, b: State, id: Id, x: Alias, d: Id)
    requires TargetsCollect(a) && Drifts(a, b) && TargetsCollect(b) && d in b.collections
    requires AliasAllowed(a, x.source, x.destination, x.enabled)
    ensures StillServed(b, b.(aliases := b.aliases[id := x]), b.collections[d])
  {
    TargetServedBefore(a, b, d);
    assert a.mailboxes[a.collections[d]].address == x.source ==> IsTargetAddress(a, x.source);
  }

  lemma EnabledStays(a: State, b: State, user: Id)
    requires Drifts(a, b) && Enabled(a, user)
    ensures Enabled(b, user)
  {
  }

  predicate Deletes(r: Request) {
    r.DeleteUser? || r.DeleteDomain? || r.DeleteMailbox?
  }

  /** What the checks leave to rely on. */
  predicate Guarded(s: State, r: Request) {
    match r
    case UpdateDomain(domain, active) => !active ==> !InUseAsTarget(s, OfDomain, domain)
    case UpdateMailbox(mailbox, user, active) =>
      Enabled(s, user) && (!active ==> !InUseAsTarget(s, OfMailbox, mailbox))
    case CreateAlias(_, x, _) => AliasAllowed(s, x.source, x.destination, x.enabled)
    case UpdateAlias(_, source, destination, enabled, _) => AliasAllowed(s, source, destination, enabled)
    case _ => true
  }

  lemma CheckGuards(s: State, r: Request)
    requires Check(s, r) == Done
    ensures Guarded(s, r)
  {
  }

  lemma AliasWriteServes(a: State, b: State, r: Request, d: Id)
    requires TargetsCollect(a) && Drifts(a, b) && TargetsCollect(b) && d in b.collections && Guarded(a, r)
    requires r.CreateAlias? || r.UpdateAlias?
    ensures Serves(b, r, d)
  {
    match r
    case CreateAlias(id, x, _) => PutAliasServes(a, b, id, x, d);
    case UpdateAlias(id, source, destination, enabled, _) =>
      if id in b.aliases {
        PutAliasServes(a, b, id, Alias(b.aliases[id].domain, source, destination, enabled), d);
      } else {
        TargetServedBefore(a, b, d);
        StaysServed(b, b.collections[d]);
      }
  }

  lemma WriteServes(a: State, b: State, r: Request, d: Id)
    requires TargetsCollect(a) && Drifts(a, b) && TargetsCollect(b) && d in b.collections && Guarded(a, r)
    requires !r.UpdateUser? && !Restricted(b, r)
    ensures Serves(b, r, d)
  {
    match r
    case DeleteUser(user, refused) => DeletedUserServes(b, user, refused, d);
    case DeleteDomain(domain) => DeletedDomainServes(b, domain, d);
    case DeleteMailbox(mailbox, refused) => DeletedMailboxServes(b, mailbox, refused, d);
    case UpdateDomain(domain, active) => SetDomainServes(a, b, domain, active, d);
    case UpdateMailbox(mailbox, user, active) => SetMailboxServes(a, b, mailbox, user, active, d);
    case _ => AliasWriteServes(a, b, r, d);
  }

  lemma WriteServesAll(a: State, b: State, r: Request)
    requires Good(a) && Check(a, r) == Done && Drifts(a, b) && Good(b) && !r.UpdateUser? && !Restricted(b, r)
    ensures AllServed(b, Write(b, r))
  {
    CheckGuards(a, r);
    forall d | d in Write(b, r).collections
      ensures d in b.collections && Write(b, r).collections[d] == b.collections[d] && d in Write(b, r).domains
      ensures StillServed(b, Write(b, r), b.collections[d])
    {
      WriteDropsRules(b, r, d);
      WriteServes(a, b, r, d);
    }
  }

  lemma UserWriteServes(b: State, user: Id, off: bool, d: Id)
    requires TargetsCollect(b) && d in b.collections && (off ==> !InUseAsTarget(b, OfUser, user))
    ensures StillServed(b, b.(users := b.users[user := !off]), b.collections[d])
  {
    assert CanCollect(b, b.collections[d]);
    assert off ==> !Concerns(b, OfUser, user, b.collections[d]);
  }

  lemma UserWriteBreaks(b: State, user: Id)
    requires TargetsCollect(b) && InUseAsTarget(b, OfUser, user)
    ensures !TargetsCollect(b.(users := b.users[user := false]))
  {
    var d :| d in b.collections && Concerns(b, OfUser, user, b.collections[d]);
    assert !CanCollect(b.(users := b.users[user := false]), b.collections[d]);
  }

  lemma UserWriteKeeps(b: State, user: Id, off: bool)
    requires Good(b) && user in b.users && (off ==> !InUseAsTarget(b, OfUser, user))
    ensures Good(b.(users := b.users[user := !off]))
  {
    var t := b.(users := b.users[user := !off]);
    AuditStays(b, t);
    forall d | d in t.collections ensures StillServed(b, t, t.collections[d]) {
      UserWriteServes(b, user, off, d);
    }
    TargetsStay(b, t);
  }

  lemma UserWriteKeepsIff(a: State, b: State, user: Id, off: bool, refused: bool)
    requires Good(a) && Drifts(a, b) && Good(b) && user in a.users && (off ==> !InUseAsTarget(a, OfUser, user))
    ensures var r := UpdateUser(user, Some(off), refused); Good(Write(b, r)) <==> WriteSafe(a, b, r)
  {
    if off {
      InUseNowIffPassed(a, b, user);
    }
    if off && InUseAsTarget(b, OfUser, user) {
      UserWriteBreaks(b, user);
    } else {
      UserWriteKeeps(b, user, off);
    }
  }

  lemma DeletionKeepsReferences(s: State, r: Request)
    requires References(s) && Deletes(r)
    ensures References(Write(s, r))
  {
    assert r.DeleteDomain? ==>
      forall m :: m in s.mailboxes && m !in LyingIn(s, r.domain) ==> s.mailboxes[m].domain != r.domain;
  }

  lemma WriteKeepsReferences(a: State, b: State, r: Request)
    requires Good(a) && Check(a, r) == Done && Drifts(a, b) && Good(b)
    ensures References(Write(b, r))
  {
    if Deletes(r) {
      DeletionKeepsReferences(b, r);
    } else if r.UpdateMailbox? {
      EnabledStays(a, b, r.user);
      OwnerKeepsReferences(b, r.mailbox, r.user, r.active);
    }
  }

  lemma OwnerKeepsReferences(s: State, mailbox: Id, user: Id, active: bool)
    requires References(s) && user in s.users
    ensures References(Write(s, UpdateMailbox(mailbox, user, active)))
  {
  }

  lemma WriteKeepsRules(b: State, r: Request)
    ensures Write(b, r).audit == b.audit && Write(b, r).domains.Keys <= b.domains.Keys
    ensures forall d :: d in Write(b, r).domains ==> Current(Write(b, r), d) == Current(b, d)
  {
    if r.DeleteDomain? && !Restricted(b, r) {
      assert Write(b, r).collections == b.collections - {r.domain};
    } else {
      assert Write(b, r).collections == b.collections;
    }
  }

  lemma WriteDropsRules(b: State, r: Request, d: Id)
    requires TargetsCollect(b) && d in Write(b, r).collections
    ensures d in b.collections && Write(b, r).collections[d] == b.collections[d] && d in Write(b, r).domains
  {
    WriteKeepsRules(b, r);
    assert !r.DeleteDomain? || Restricted(b, r) ==> Write(b, r).domains.Keys == b.domains.Keys;
  }

  /**
    However many transfers, additions and alias deletions fall between check and write: the
    write keeps the invariant, except exactly when it disables a user to whom a target has
    passed since the check.
   */
  lemma WriteKeepsIff(a: State, b: State, r: Request)
    requires Good(a) && Check(a, r) == Done && Drifts(a, b) && Good(b) && r == Settled(a, r)
    ensures Good(Write(b, r)) <==> WriteSafe(a, b, r)
  {
    if r.UpdateUser? {
      UserWriteKeepsIff(a, b, r.user, r.disabled.value, r.refused);
    } else if !Restricted(b, r) {
      WriteKeepsReferences(a, b, r);
      WriteKeepsRules(b, r);
      AuditStays(b, Write(b, r));
      WriteServesAll(a, b, r);
      TargetsStay(b, Write(b, r));
    }
  }

  // ---------------------------------------------------------------- the guards are exact

  /** Without its guard, disabling a user breaks the invariant exactly when the guard objects. */
  lemma UserGuardIsExact(s: State, user: Id)
    requires Good(s) && user in s.users
    ensures Good(s.(users := s.users[user := false])) <==> !InUseAsTarget(s, OfUser, user)
  {
    if InUseAsTarget(s, OfUser, user) {
      UserWriteBreaks(s, user);
    } else {
      UserWriteKeeps(s, user, true);
    }
  }

  lemma DriftsSelf(s: State)
    ensures Drifts(s, s)
  {
  }

  /** The same for disabling a domain. */
  lemma DomainGuardIsExact(s: State, domain: Id)
    requires Good(s) && domain in s.domains
    ensures Good(s.(domains := s.domains[domain := false])) <==> !InUseAsTarget(s, OfDomain, domain)
  {
    if InUseAsTarget(s, OfDomain, domain) {
      var d :| d in s.collections && Concerns(s, OfDomain, domain, s.collections[d]);
      assert !CanCollect(s.(domains := s.domains[domain := false]), s.collections[d]);
    } else {
      DriftsSelf(s);
      WriteKeepsIff(s, s, UpdateDomain(domain, false));
    }
  }

  lemma AliasPutKeeps(s: State, id: Id, a: Alias)
    requires Good(s) && AliasAllowed(s, a.source, a.destination, a.enabled)
    ensures Good(s.(aliases := s.aliases[id := a]))
  {
    var t := s.(aliases := s.aliases[id := a]);
    DriftsSelf(s);
    AuditStays(s, t);
    forall d | d in t.collections ensures StillServed(s, t, t.collections[d]) {
      PutAliasServes(s, s, id, a, d);
    }
    TargetsStay(s, t);
  }

  /** The same for storing an alias. */
  lemma AliasGuardIsExact(s: State, id: Id, a: Alias)
    requires Good(s)
    ensures Good(s.(aliases := s.aliases[id := a])) <==> AliasAllowed(s, a.source, a.destination, a.enabled)
  {
    if AliasAllowed(s, a.source, a.destination, a.enabled) {
      AliasPutKeeps(s, id, a);
    } else {
      var t := s.(aliases := s.aliases[id := a]);
      var d :| d in s.collections && s.collections[d] in s.mailboxes
        && s.mailboxes[s.collections[d]].address == a.source;
      assert Forwards(t.aliases[id], a.source);
      assert !CanCollect(t, t.collections[d]);
    }
  }
}

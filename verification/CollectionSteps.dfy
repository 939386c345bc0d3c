/**
  The guarded handlers step by step: the check and the write of a handler are separate
  statements, and transfers, sign-ins, additions and alias deletions fall anywhere between.
 */
module CollectionSteps {
  import opened Common
  import opened DomainCollection

  /** A handler that has checked in state `at` and has yet to write. */
  datatype Pending = Pending(at: State, request: Request)

  /** `accepting` are users who were signed in, so enabled, when they set out to accept a mailbox. */
  datatype System = System(db: State, pending: Option<Pending>, accepting: set<Id>)

  datatype Step =
    | Look(request: Request)
    | Put
    | GiveUp
    | SetCollection(domain: Id, enabled: bool, target: Id, actor: Id)
    | SignIn(user: Id)
    | Accept(mailbox: Id, owner: Id, to: Id)
    | Other(addition: Addition)

  /** While a handler holds the lock, others wait. */
  function Next(s: System, step: Step): System {
    match step
    case Look(r) =>
      if s.pending.Some? || Check(s.db, r) != Done then s
      else s.(pending := Some(Pending(s.db, Settled(s.db, r))))
    case Put => if s.pending.None? then s else s.(db := Write(s.db, s.pending.value.request), pending := None)
    case GiveUp => s.(pending := None)
    case SetCollection(domain, enabled, target, actor) =>
      if s.pending.Some? then s else s.(db := SetRule(s.db, domain, enabled, target, actor).state)
    case SignIn(user) => if Enabled(s.db, user) then s.(accepting := s.accepting + {user}) else s
    case Accept(mailbox, owner, to) =>
      if to in s.accepting then s.(db := Transfer(s.db, mailbox, owner, to)) else s
    case Other(addition) => s.(db := Add(s.db, addition))
  }

  function Run(s: System, steps: seq<Step>): System {
    if steps == [] then s else Next(Run(s, steps[..|steps| - 1]), steps[|steps| - 1])
  }

  /** A pending handler checked in a good state, from which the present one has only drifted. */
  ghost predicate PendingOk(s: System) {
    s.pending.Some? ==>
      && Good(s.pending.value.at) && Check(s.pending.value.at, s.pending.value.request) == Done
      && s.pending.value.request == Settled(s.pending.value.at, s.pending.value.request)
      && Drifts(s.pending.value.at, s.db)
  }

  ghost predicate Inv(s: System) {
    Good(s.db) && PendingOk(s)
  }

  /**
    The two things that can go wrong: disabling a user to whom a target has passed since the
    check, and handing a target to a user who has been disabled since signing in.
   */
  ghost predicate Safe(s: System, step: Step) {
    match step
    case Put => s.pending.Some? ==> WriteSafe(s.pending.value.at, s.db, s.pending.value.request)
    case Accept(mailbox, owner, to) => to in s.accepting ==> TransferSafe(s.db, mailbox, owner, to)
    case Other(addition) => Fresh(s.db, addition)
    case _ => true
  }

  /** Ids of new domains are new. */
  ghost predicate NewIds(s: System, step: Step) {
    step.Other? ==> Fresh(s.db, step.addition)
  }

  lemma SettledTwice(s: State, r: Request)
    requires Check(s, r) == Done
    ensures Check(s, Settled(s, r)) == Done && Settled(s, Settled(s, r)) == Settled(s, r)
  {
  }

  lemma LookKeeps(s: System, r: Request)
    requires Inv(s)
    ensures Inv(Next(s, Look(r)))
  {
    if s.pending.None? && Check(s.db, r) == Done {
      SettledTwice(s.db, r);
      DriftsSelf(s.db);
    }
  }

  lemma AcceptKeepsPending(s: System, mailbox: Id, owner: Id, to: Id)
    requires Inv(s)
    ensures PendingOk(Next(s, Accept(mailbox, owner, to)))
  {
    if s.pending.Some? && to in s.accepting {
      TransferDrifts(s.db, mailbox, owner, to);
      DriftsTrans(s.pending.value.at, s.db, Transfer(s.db, mailbox, owner, to));
    }
  }

  lemma AdditionKeepsPending(s: System, addition: Addition)
    requires Inv(s)
    ensures PendingOk(Next(s, Other(addition)))
  {
    if s.pending.Some? {
      AdditionDrifts(s.db, addition);
      DriftsTrans(s.pending.value.at, s.db, Add(s.db, addition));
    }
  }

  /** A step keeps the invariant exactly when it is safe. */
  lemma NextKeepsIff(s: System, step: Step)
    requires Inv(s) && NewIds(s, step)
    ensures Inv(Next(s, step)) <==> Safe(s, step)
    ensures Good(Next(s, step).db) <==> Safe(s, step)
  {
    match step
    case Look(r) => LookKeeps(s, r);
    case Put =>
      if s.pending.Some? {
        WriteKeepsIff(s.pending.value.at, s.db, s.pending.value.request);
      }
    case SetCollection(domain, enabled, target, actor) => RuleKeeps(s.db, domain, enabled, target, actor);
    case Accept(mailbox, owner, to) =>
      TransferKeepsIff(s.db, mailbox, owner, to);
      AcceptKeepsPending(s, mailbox, owner, to);
    case Other(addition) =>
      AdditionKeeps(s.db, addition);
      AdditionKeepsPending(s, addition);
    case GiveUp =>
    case SignIn(_) =>
  }

  /** What holds before each step of a run. */
  ghost predicate AllNewIds(s: System, steps: seq<Step>) {
    steps != [] ==>
      var init := steps[..|steps| - 1];
      AllNewIds(s, init) && NewIds(Run(s, init), steps[|steps| - 1])
  }

  ghost predicate AllSafe(s: System, steps: seq<Step>) {
    steps != [] ==>
      var init := steps[..|steps| - 1];
      AllSafe(s, init) && Safe(Run(s, init), steps[|steps| - 1])
  }

  /** Good at the end of a run and at every moment before. */
  ghost predicate AlwaysGood(s: System, steps: seq<Step>) {
    && Good(Run(s, steps).db)
    && (steps != [] ==> AlwaysGood(s, steps[..|steps| - 1]))
  }

  /**
    In every run, every target stays an active mailbox of an active domain and an enabled
    owner, without a forwarding alias, exactly as long as every step is safe.
   */
  lemma {:induction false} RunStaysGoodIff(s: System, steps: seq<Step>)
    requires Inv(s) && AllNewIds(s, steps)
    ensures AlwaysGood(s, steps) <==> AllSafe(s, steps)
    ensures AllSafe(s, steps) ==> Inv(Run(s, steps))
  {
    if steps != [] {
      var init := steps[..|steps| - 1];
      RunStaysGoodIff(s, init);
      if AllSafe(s, init) {
        NextKeepsIff(Run(s, init), steps[|steps| - 1]);
      }
    }
  }

  /**
    A run that is not safe: the handler that disables `to` looks before the mailbox `m` has
    passed to `to`, and writes after.
   */
  function UnsafeRun(m: Id, owner: Id, to: Id): seq<Step> {
    [SignIn(to), Look(UpdateUser(to, Some(true), false)), Accept(m, owner, to), Put]
  }

  lemma RunOn(s: System, steps: seq<Step>, step: Step)
    ensures Run(s, steps + [step]) == Next(Run(s, steps), step)
  {
    assert (steps + [step])[..|steps|] == steps;
  }

  lemma RunFour(s: System, a: Step, b: Step, c: Step, d: Step)
    ensures Run(s, [a, b, c, d]) == Next(Next(Next(Next(s, a), b), c), d)
  {
    RunOn(s, [], a);
    RunOn(s, [a], b);
    RunOn(s, [a, b], c);
    RunOn(s, [a, b, c], d);
    assert [a, b] == [a] + [b] && [a, b, c] == [a, b] + [c] && [a, b, c, d] == [a, b, c] + [d];
  }

  lemma LookAt(s: State, to: Id, r: Request)
    requires r == UpdateUser(to, Some(true), false) && Enabled(s, to) && !InUseAsTarget(s, OfUser, to)
    ensures Next(Next(System(s, None, {}), SignIn(to)), Look(r)) == System(s, Some(Pending(s, r)), {to})
  {
    assert {} + {to} == {to};
  }

  lemma UnsafeRunEnds(s: State, m: Id, owner: Id, to: Id, r: Request)
    requires r == UpdateUser(to, Some(true), false) && Enabled(s, to) && !InUseAsTarget(s, OfUser, to)
    ensures Run(System(s, None, {}), UnsafeRun(m, owner, to)).db == Write(Transfer(s, m, owner, to), r)
  {
    RunFour(System(s, None, {}), SignIn(to), Look(r), Accept(m, owner, to), Put);
    LookAt(s, to, r);
  }

  lemma MovedIsInUse(s: State, d: Id, to: Id, m: Id)
    requires Good(s) && d in s.collections && m == s.collections[d] && m in s.mailboxes && Enabled(s, to)
    ensures InUseAsTarget(Transfer(s, m, s.mailboxes[m].user, to), OfUser, to)
  {
    assert CanCollect(s, m);
    assert Concerns(Transfer(s, m, s.mailboxes[m].user, to), OfUser, to, m);
  }

  /** From every good state with a target, and another enabled user who owns none, it ends badly. */
  lemma TransferBetweenBreaks(s: State, d: Id, to: Id, m: Id)
    requires Good(s) && d in s.collections && m == s.collections[d] && m in s.mailboxes
    requires Enabled(s, to) && !InUseAsTarget(s, OfUser, to)
    ensures !Good(Run(System(s, None, {}), UnsafeRun(m, s.mailboxes[m].user, to)).db)
  {
    var r := UpdateUser(to, Some(true), false);
    UnsafeRunEnds(s, m, s.mailboxes[m].user, to, r);
    MovedIsInUse(s, d, to, m);
    TransferKeepsIff(s, m, s.mailboxes[m].user, to);
    DisablingBreaks(Transfer(s, m, s.mailboxes[m].user, to), to, r);
  }

  lemma DisablingBreaks(s: State, to: Id, r: Request)
    requires Good(s) && r == UpdateUser(to, Some(true), false) && InUseAsTarget(s, OfUser, to)
    ensures !Good(Write(s, r))
  {
    UserWriteBreaks(s, to);
    var d :| d in s.collections && Concerns(s, OfUser, to, s.collections[d]);
    assert CanCollect(s, s.collections[d]);
  }

  // ---------------------------------------------------------------- without interference

  /** A handler that nothing disturbs writes exactly what it checked, or leaves everything as it was. */
  lemma LookThenPut(s: System, r: Request)
    requires s.pending.None?
    ensures Run(s, [Look(r), Put]) ==
      if Check(s.db, r) == Done then s.(db := Write(s.db, Settled(s.db, r))) else s
  {
    RunOn(s, [], Look(r));
    RunOn(s, [Look(r)], Put);
    assert [Look(r)] + [Put] == [Look(r), Put];
  }

  /** A rule that can be set is in force at once, and off when it is switched off. */
  lemma RuleTakesEffect(s: System, domain: Id, target: Id, actor: Id)
    requires Good(s.db) && s.pending.None? && domain in s.db.domains
    ensures Active(s.db, domain) && CanCollect(s.db, target) ==>
      Current(Next(s, SetCollection(domain, true, target, actor)).db, domain) == target
    ensures Current(Next(s, SetCollection(domain, false, target, actor)).db, domain) == ""
  {
    assert domain in s.db.collections ==> s.db.collections[domain] in s.db.mailboxes;
  }

  /** While a handler holds the lock, no other one starts; it ends with its write or by giving up. */
  lemma OthersWait(s: System, step: Step)
    requires s.pending.Some?
    ensures step.Look? || step.SetCollection? ==> Next(s, step) == s
    ensures Next(s, step).pending == if step.Put? || step.GiveUp? then None else s.pending
  {
  }

  /** Nobody accepts a mailbox without having been enabled when signing in. */
  lemma {:induction false} AcceptingWereEnabled(s: System, steps: seq<Step>, user: Id)
    requires user in Run(s, steps).accepting && user !in s.accepting
    ensures exists i :: 0 <= i < |steps| && steps[i] == SignIn(user) && Enabled(Run(s, steps[..i]).db, user)
  {
    var init, last := steps[..|steps| - 1], steps[|steps| - 1];
    if user in Run(s, init).accepting {
      AcceptingWereEnabled(s, init, user);
      var i :| 0 <= i < |init| && init[i] == SignIn(user) && Enabled(Run(s, init[..i]).db, user);
      assert init[..i] == steps[..i] && steps[i] == init[i];
    } else {
      assert steps[..|init|] == init && last == SignIn(user);
    }
  }

  // ---------------------------------------------------------------- the tables

  /**
    What a handler did: `seen` is the state it checked in, `at` the one it wrote into, `after`
    the one it left.
   */
  ghost predicate Handled(seen: State, at: State, after: State, r: Request, response: Response) {
    if Check(seen, r) != Done then response == Check(seen, r) && after == at == seen
    else
      && Good(at) && Drifts(seen, at)
      && response == (if Restricted(at, r) then Refused else Done)
      && after == Write(at, Settled(seen, r))
  }

  /** A handler that changed something it should not have: it disabled a user who had got a target. */
  ghost predicate TooLate(seen: State, at: State, r: Request, response: Response) {
    response == Done && !WriteSafe(seen, at, Settled(seen, r))
  }

  lemma HandledKeepsIff(seen: State, at: State, after: State, r: Request, response: Response)
    requires Good(seen) && Handled(seen, at, after, r, response)
    ensures Good(after) <==> !TooLate(seen, at, r, response)
    ensures !r.UpdateUser? ==> Good(after)
  {
    if Check(seen, r) == Done {
      SettledTwice(seen, r);
      WriteKeepsSettledIff(seen, at, Settled(seen, r));
    }
  }

  lemma WriteKeepsSettledIff(a: State, b: State, r: Request)
    requires Good(a) && Check(a, r) == Done && Drifts(a, b) && Good(b) && r == Settled(a, r)
    ensures Good(Write(b, r)) <==> WriteSafe(a, b, r)
    ensures !r.UpdateUser? ==> WriteSafe(a, b, r)
  {
    WriteKeepsIff(a, b, r);
  }

  class Directory {
    var users: map<Id, bool>
    var domains: map<Id, bool>
    var mailboxes: map<Id, Mailbox>
    var aliases: map<Id, Alias>
    var collections: map<Id, Id>
    var audit: seq<AuditRow>

    function View(): State
      reads this
    {
      State(users, domains, mailboxes, aliases, collections, audit)
    }

    constructor ()
      ensures View() == State(map[], map[], map[], map[], map[], []) && Good(View())
    {
      users, domains, mailboxes, aliases, collections, audit := map[], map[], map[], map[], map[], [];
    }

    /** What falls between a check and its write: safe transfers, additions and alias deletions. */
    method Interfere()
      requires Good(View())
      modifies this
      ensures Good(View()) && Drifts(old(View()), View())
    {
    }

    /** Counts the rules whose target belongs to the resource. */
    method CollectionTargetInUse(kind: Kind, id: Id) returns (inUse: bool)
      ensures inUse == InUseAsTarget(View(), kind, id)
    {
      var count := 0;
      var rest := collections.Keys;
      while rest != {}
        invariant rest <= collections.Keys
        invariant count > 0 <==>
          exists d :: d in collections && d !in rest && Concerns(View(), kind, id, collections[d])
      {
        var d :| d in rest;
        rest := rest - {d};
        if Concerns(View(), kind, id, collections[d]) {
          count := count + 1;
        }
      }
      inUse := count > 0;
    }

    /** It alone can leave the invariant broken, and only by coming too late. */
    method HandleUpdateUser(user: Id, disabled: Option<bool>, refused: bool)
      returns (response: Response, ghost at: State)
      requires Good(View())
      modifies this
      ensures Handled(old(View()), at, View(), UpdateUser(user, disabled, refused), response)
      ensures Good(View()) <==> !TooLate(old(View()), at, UpdateUser(user, disabled, refused), response)
    {
      ghost var r := UpdateUser(user, disabled, refused);
      ghost var seen := View();
      at := seen;
      var off;
      response, off := CheckUpdateUser(user, disabled, refused);
      if response != Done {
        return response, at;
      }
      Interfere();
      at := View();
      users := users[user := !off];
      HandledKeepsIff(seen, at, View(), r, response);
    }

    method CheckUpdateUser(user: Id, disabled: Option<bool>, refused: bool) returns (response: Response, off: bool)
      ensures response == Check(View(), UpdateUser(user, disabled, refused))
      ensures off == Disables(View(), user, disabled) || user !in users
    {
      if user !in users {
        return NotFound, true;
      }
      off := !users[user];
      if disabled.Some? {
        off := disabled.value;
      }
      if off {
        var inUse := CollectionTargetInUse(OfUser, user);
        if inUse {
          return InUse, off;
        }
      }
      response := if refused then BadRequest else Done;
    }

    /** The database refuses when a target has passed to the user meanwhile. */
    method HandleDeleteUser(user: Id, refused: bool) returns (response: Response, ghost at: State)
      requires Good(View())
      modifies this
      ensures Handled(old(View()), at, View(), DeleteUser(user, refused), response) && Good(View())
    {
      ghost var r := DeleteUser(user, refused);
      ghost var seen := View();
      at := seen;
      var inUse := CollectionTargetInUse(OfUser, user);
      if inUse {
        return InUse, at;
      }
      if user !in users {
        return NotFound, at;
      }
      if refused {
        return BadRequest, at;
      }
      Interfere();
      at := View();
      inUse := CollectionTargetInUse(OfUser, user);
      if inUse {
        return Refused, at;
      }
      mailboxes := mailboxes - OwnedBy(View(), user);
      users := users - {user};
      response := Done;
      HandledKeepsIff(seen, at, View(), r, response);
    }

    method HandleUpdateDomain(domain: Id, active: bool) returns (response: Response, ghost at: State)
      requires Good(View())
      modifies this
      ensures Handled(old(View()), at, View(), UpdateDomain(domain, active), response) && Good(View())
    {
      ghost var r := UpdateDomain(domain, active);
      ghost var seen := View();
      at := seen;
      if !active {
        var inUse := CollectionTargetInUse(OfDomain, domain);
        if inUse {
          return InUse, at;
        }
      }
      if domain !in domains {
        return NotFound, at;
      }
      Interfere();
      at := View();
      domains := domains[domain := active];
      response := Done;
      HandledKeepsIff(seen, at, View(), r, response);
    }

    method HandleDeleteDomain(domain: Id) returns (response: Response, ghost at: State)
      requires Good(View())
      modifies this
      ensures Handled(old(View()), at, View(), DeleteDomain(domain), response) && Good(View())
    {
      ghost var r := DeleteDomain(domain);
      ghost var seen := View();
      at := seen;
      response := CheckDeleteDomain(domain);
      if response != Done {
        return response, at;
      }
      Interfere();
      at := View();
      var inUse := CollectionTargetInUse(OfDomain, domain);
      if inUse {
        return Refused, at;
      }
      mailboxes := mailboxes - LyingIn(View(), domain);
      aliases := aliases - AliasesOf(View(), domain);
      collections := collections - {domain};
      domains := domains - {domain};
      HandledKeepsIff(seen, at, View(), r, response);
    }

    method CheckDeleteDomain(domain: Id) returns (response: Response)
      ensures response == Check(View(), DeleteDomain(domain))
    {
      var inUse := CollectionTargetInUse(OfDomain, domain);
      if inUse {
        return InUse;
      }
      if exists m :: m in mailboxes && mailboxes[m].domain == domain {
        return BadRequest;
      }
      response := if domain !in domains then NotFound else Done;
    }

    method HandleUpdateMailbox(mailbox: Id, user: Id, active: bool) returns (response: Response, ghost at: State)
      requires Good(View())
      modifies this
      ensures Handled(old(View()), at, View(), UpdateMailbox(mailbox, user, active), response) && Good(View())
    {
      ghost var r := UpdateMailbox(mailbox, user, active);
      ghost var seen := View();
      at := seen;
      response := CheckUpdateMailbox(mailbox, user, active);
      if response != Done {
        return response, at;
      }
      Interfere();
      at := View();
      mailboxes := mailboxes[mailbox := mailboxes[mailbox].(user := user, active := active)];
      HandledKeepsIff(seen, at, View(), r, response);
    }

    method CheckUpdateMailbox(mailbox: Id, user: Id, active: bool) returns (response: Response)
      ensures response == Check(View(), UpdateMailbox(mailbox, user, active))
    {
      if user !in users {
        return NotFound;
      }
      if !users[user] {
        return BadRequest;
      }
      if mailbox !in mailboxes {
        return NotFound;
      }
      if !active || user != mailboxes[mailbox].user {
        var inUse := CollectionTargetInUse(OfMailbox, mailbox);
        if inUse {
          return InUse;
        }
      }
      response := Done;
    }

    method HandleDeleteMailbox(mailbox: Id, refused: bool) returns (response: Response, ghost at: State)
      requires Good(View())
      modifies this
      ensures Handled(old(View()), at, View(), DeleteMailbox(mailbox, refused), response) && Good(View())
    {
      ghost var r := DeleteMailbox(mailbox, refused);
      ghost var seen := View();
      at := seen;
      var inUse := CollectionTargetInUse(OfMailbox, mailbox);
      if inUse {
        return InUse, at;
      }
      if mailbox !in mailboxes {
        return NotFound, at;
      }
      if refused {
        return BadRequest, at;
      }
      Interfere();
      at := View();
      inUse := CollectionTargetInUse(OfMailbox, mailbox);
      if inUse {
        return Refused, at;
      }
      mailboxes := mailboxes - {mailbox};
      response := Done;
      HandledKeepsIff(seen, at, View(), r, response);
    }

    method HandleCreateAlias(id: Id, a: Alias, refused: bool) returns (response: Response, ghost at: State)
      requires Good(View())
      modifies this
      ensures Handled(old(View()), at, View(), CreateAlias(id, a, refused), response) && Good(View())
    {
      ghost var r := CreateAlias(id, a, refused);
      ghost var seen := View();
      at := seen;
      if a.domain !in domains {
        return NotFound, at;
      }
      if refused {
        return BadRequest, at;
      }
      if !AliasAllowed(View(), a.source, a.destination, a.enabled) {
        return ForwardsTarget, at;
      }
      if id in aliases {
        return BadRequest, at;
      }
      Interfere();
      at := View();
      aliases := aliases[id := a];
      response := Done;
      HandledKeepsIff(seen, at, View(), r, response);
    }

    method HandleUpdateAlias(id: Id, source: Address, destination: Address, enabled: bool, refused: bool)
      returns (response: Response, ghost at: State)
      requires Good(View())
      modifies this
      ensures Handled(old(View()), at, View(), UpdateAlias(id, source, destination, enabled, refused), response)
      ensures Good(View())
    {
      ghost var r := UpdateAlias(id, source, destination, enabled, refused);
      ghost var seen := View();
      at := seen;
      if id !in aliases || aliases[id].domain !in domains {
        return NotFound, at;
      }
      if refused {
        return BadRequest, at;
      }
      if !AliasAllowed(View(), source, destination, enabled) {
        return ForwardsTarget, at;
      }
      Interfere();
      at := View();
      if id in aliases {
        aliases := aliases[id := Alias(aliases[id].domain, source, destination, enabled)];
      }
      response := Done;
      HandledKeepsIff(seen, at, View(), r, response);
    }

    /** Checks, replaces the rule and writes the audit row, in one transaction. */
    method HandleSetDomainCollection(domain: Id, enabled: bool, target: Id, actor: Id) returns (response: Response)
      requires Good(View())
      modifies this
      ensures Outcome(View(), response) == SetRule(old(View()), domain, enabled, target, actor) && Good(View())
    {
      RuleKeeps(View(), domain, enabled, target, actor);
      if domain !in domains {
        return NotFound;
      }
      if enabled && !(domains[domain] && CanCollect(View(), target)) {
        return BadRequest;
      }
      var before, next := "", "";
      if domain in collections {
        before := collections[domain];
      }
      if enabled {
        next := target;
      }
      if before == next {
        return Done;
      }
      collections := collections - {domain};
      if enabled {
        collections := collections[domain := next];
      }
      audit := audit + [AuditRow(domain, actor, before, next)];
      response := Done;
    }

    /** The accepting transaction; it does not ask whether the receiver is still enabled. */
    method ResolveMailboxPush(mailbox: Id, owner: Id, to: Id) returns (moved: bool)
      requires Good(View()) && to in users
      modifies this
      ensures View() == Transfer(old(View()), mailbox, owner, to)
      ensures Good(View()) <==> TransferSafe(old(View()), mailbox, owner, to)
    {
      TransferKeepsIff(View(), mailbox, owner, to);
      moved := mailbox in mailboxes && mailboxes[mailbox].active && mailboxes[mailbox].user == owner;
      if moved {
        mailboxes := mailboxes[mailbox := mailboxes[mailbox].(user := to)];
      }
    }
  }
}

/** The addresses, tables and queries behind the alias search. */
module RecipientTargets {
  import opened Common
  import opened Text
  import opened AliasSearch

  /** What the queries of one run see. Each map already holds usable rows only: active
      mailboxes of active domains with enabled owners, by address; enabled aliases, by
      source; collection targets of active domains, by domain name. */
  datatype Directory = Directory(
    mailboxes: map<string, Id>,
    aliases: map<string, string>,
    collections: map<string, Id>,
    activeDomains: set<string>,
    catchAll: bool)

  // ---------------------------------------------------------------- addresses

  predicate LocalPartChar(c: char) {
    'a' <= c <= 'z' || '0' <= c <= '9' || c in "._%+-"
  }

  predicate IsDot(c: char) {
    c == '.'
  }

  function CleanLocalPart(lower: string): string {
    Trim(Filter(lower, LocalPartChar), IsDot)
  }

  function NormalizeLocalPart(s: string): string {
    CleanLocalPart(ToLower(TrimSpace(s)))
  }

  function NormalizeDomain(s: string): string {
    var d := ToLower(TrimSpace(s));
    if d != "" && d[|d| - 1] == '.' then d[..|d| - 1] else d
  }

  function Normalize(s: string): string {
    var e := ToLower(TrimSpace(s));
    var at := IndexFrom(e, '@', 0);
    if at == |e| then e else NormalizeLocalPart(e[..at]) + "@" + NormalizeDomain(e[at + 1..])
  }

  function BaseRecipient(s: string): string {
    WithoutTag(Normalize(s))
  }

  /** Drop a plus tag: everything from the first '+' up to the last '@'. */
  function WithoutTag(a: string): string {
    CutTag(a, AfterLast(a, '@'))
  }

  function CutTag(a: string, afterAt: nat): string
    requires afterAt <= |a|
  {
    if afterAt == 0 then a
    else
      var local := a[..afterAt - 1];
      var plus := IndexFrom(local, '+', 0);
      if plus == |local| then a else local[..plus] + a[afterAt - 1..]
  }

  function CollectionOf(dir: Directory, address: string): Option<Id> {
    var afterAt := AfterLast(address, '@');
    if afterAt == 0 || address[afterAt..] !in dir.collections then None
    else Some(dir.collections[address[afterAt..]])
  }

  predicate IsLocal(dir: Directory, address: string) {
    var parts := Split(Normalize(address), '@');
    |parts| == 2 && parts[1] != "" && parts[1] in dir.activeDomains
  }

  function AliasOf(dir: Directory, address: string): Option<string> {
    var base := BaseRecipient(address);
    if address in dir.aliases then Some(dir.aliases[address])
    else if base != address && base in dir.aliases then Some(dir.aliases[base])
    else None
  }

  function MailboxOf(dir: Directory, address: string): set<Id> {
    var base := BaseRecipient(address);
    if base in dir.mailboxes then {dir.mailboxes[base]} else {}
  }

  /** The search's view of one directory. */
  function WorldOf(dir: Directory): World {
    World(
      Normalize,
      address => MailboxOf(dir, address),
      address => match AliasOf(dir, address) case Some(d) => Some(Split(d, ',')) case None => None,
      address => CollectionOf(dir, address),
      address => dir.catchAll && IsLocal(dir, address))
  }

  // ---------------------------------------------------------------- normalising twice

  predicate IsPlainLocal(left: string) {
    && (forall i :: 0 <= i < |left| ==> LocalPartChar(left[i]))
    && (left != "" ==> left[0] != '.' && left[|left| - 1] != '.')
  }

  predicate IsLower(s: string) {
    forall i :: 0 <= i < |s| ==> !IsUpper(s[i])
  }

  lemma LowerIsLower(s: string)
    ensures IsLower(ToLower(s))
    ensures IsLower(s) ==> ToLower(s) == s
    ensures forall i :: 0 <= i < |s| ==> IsSpace(ToLower(s)[i]) == IsSpace(s[i])
  {
  }

  lemma {:induction false} FilterKeeps(s: string, keep: char -> bool)
    requires forall i :: 0 <= i < |s| ==> keep(s[i])
    ensures Filter(s, keep) == s
  {
    if s != [] {
      FilterKeeps(s[1..], keep);
    }
  }

  lemma LocalPartIsPlain(s: string)
    ensures IsPlainLocal(NormalizeLocalPart(s))
  {
    var filtered := Filter(ToLower(TrimSpace(s)), LocalPartChar);
    TrimEnds(filtered, IsDot);
    TrimMembers(filtered, IsDot);
    var left := NormalizeLocalPart(s);
    assert forall i :: 0 <= i < |left| ==> left[i] in left;
  }

  lemma LocalCharIsPlain(c: char)
    requires LocalPartChar(c)
    ensures !IsSpace(c) && !IsUpper(c) && c != '@'
  {
  }

  lemma PlainHasNoSpace(left: string)
    requires IsPlainLocal(left)
    ensures TrimSpace(left) == left
  {
    if left != "" {
      LocalCharIsPlain(left[0]);
      LocalCharIsPlain(left[|left| - 1]);
    }
    TrimKeeps(left, IsSpace);
  }

  lemma PlainIsLower(left: string)
    requires IsPlainLocal(left)
    ensures ToLower(left) == left && '@' !in left
  {
    forall i | 0 <= i < |left| ensures !IsUpper(left[i]) && left[i] != '@' {
      LocalCharIsPlain(left[i]);
    }
    LowerIsLower(left);
  }

  lemma CleanStays(left: string)
    requires IsPlainLocal(left)
    ensures CleanLocalPart(left) == left
  {
    FilterKeeps(left, LocalPartChar);
    TrimKeeps(left, IsDot);
  }

  lemma PlainLocalStays(left: string)
    requires IsPlainLocal(left)
    ensures NormalizeLocalPart(left) == left && '@' !in left
  {
    PlainHasNoSpace(left);
    PlainIsLower(left);
    CleanStays(left);
  }

  lemma DomainIsLower(s: string)
    ensures IsLower(NormalizeDomain(s))
    ensures NormalizeDomain(s) != "" ==> !IsSpace(NormalizeDomain(s)[0])
  {
    var d := ToLower(TrimSpace(s));
    LowerIsLower(TrimSpace(s));
    if d != "" {
      TrimEnds(s, IsSpace);
      assert !IsSpace(d[0]);
    }
  }

  predicate EndsInDotOrSpace(s: string) {
    s != "" && (s[|s| - 1] == '.' || IsSpace(s[|s| - 1]))
  }

  lemma TrimmedDomain(d: string)
    requires IsLower(d) && (d == "" || (!IsSpace(d[0]) && !IsSpace(d[|d| - 1])))
    ensures NormalizeDomain(d) == if d != "" && d[|d| - 1] == '.' then d[..|d| - 1] else d
  {
    TrimKeeps(d, IsSpace);
    LowerIsLower(d);
  }

  lemma DomainStaysIff(domain: string)
    requires IsLower(domain) && (domain != "" ==> !IsSpace(domain[0]))
    ensures NormalizeDomain(TrimRight(domain, IsSpace)) == domain <==> !EndsInDotOrSpace(domain)
  {
    var d := TrimRight(domain, IsSpace);
    TrimmedDomain(d);
  }

  lemma {:induction false} TrimRightStops(left: string, right: string)
    ensures TrimRight(left + "@" + right, IsSpace) == left + "@" + TrimRight(right, IsSpace)
    decreases |right|
  {
    var s := left + "@" + right;
    if right == "" {
      assert s[|s| - 1] == '@' && s == left + "@";
    } else if IsSpace(right[|right| - 1]) {
      assert s[..|s| - 1] == left + "@" + right[..|right| - 1];
      assert s[|s| - 1] == right[|right| - 1];
      TrimRightStops(left, right[..|right| - 1]);
    } else {
      assert s[|s| - 1] == right[|right| - 1];
    }
  }

  lemma {:induction false} IndexAt(s: string, c: char, from: nat, k: nat)
    requires from <= k < |s| && s[k] == c && forall i :: from <= i < k ==> s[i] != c
    ensures IndexFrom(s, c, from) == k
    decreases k - from
  {
    if from < k {
      IndexAt(s, c, from + 1, k);
    }
  }

  lemma SplitAtFirst(left: string, c: char, right: string)
    requires c !in left
    ensures IndexFrom(left + [c] + right, c, 0) == |left|
  {
    IndexAt(left + [c] + right, c, 0, |left|);
  }

  lemma NormalizeAt(s: string, left: string, domain: string)
    requires ToLower(TrimSpace(s)) == left + "@" + domain && '@' !in left
    ensures Normalize(s) == NormalizeLocalPart(left) + "@" + NormalizeDomain(domain)
  {
    var e := left + "@" + domain;
    SplitAtFirst(left, '@', domain);
    assert e[..|left|] == left && e[|left| + 1..] == domain;
  }

  lemma PartsLower(left: string, domain: string)
    requires IsPlainLocal(left) && IsLower(domain)
    ensures IsLower(left + "@" + domain)
  {
    forall i | 0 <= i < |left| ensures !IsUpper(left[i]) {
      LocalCharIsPlain(left[i]);
    }
  }

  lemma PartsLeft(left: string, domain: string)
    requires IsPlainLocal(left)
    ensures TrimLeft(left + "@" + domain, IsSpace) == left + "@" + domain
  {
    if left != "" {
      LocalCharIsPlain(left[0]);
      assert (left + "@" + domain)[0] == left[0];
    }
  }

  lemma PartsTrimmed(left: string, domain: string)
    requires IsPlainLocal(left) && IsLower(domain)
    ensures ToLower(TrimSpace(left + "@" + domain)) == left + "@" + TrimRight(domain, IsSpace)
  {
    var d := TrimRight(domain, IsSpace);
    PartsLeft(left, domain);
    TrimRightStops(left, domain);
    assert TrimSpace(left + "@" + domain) == left + "@" + d;
    assert IsLower(d);
    PartsLower(left, d);
    LowerIsLower(left + "@" + d);
  }

  /** An address in parts: what normalising it makes of the parts. */
  lemma PartsNormalized(left: string, domain: string)
    requires IsPlainLocal(left) && IsLower(domain)
    ensures Normalize(left + "@" + domain) == left + "@" + NormalizeDomain(TrimRight(domain, IsSpace))
  {
    PlainLocalStays(left);
    PartsTrimmed(left, domain);
    NormalizeAt(left + "@" + domain, left, TrimRight(domain, IsSpace));
  }

  /** No address without an at sign changes when normalised again. */
  lemma WholeStays(s: string)
    requires '@' !in ToLower(TrimSpace(s))
    ensures Normalize(s) == ToLower(TrimSpace(s)) && Normalize(Normalize(s)) == Normalize(s)
  {
    var e := ToLower(TrimSpace(s));
    TrimmedLowerStays(s);
    NormalizeWhole(s, e);
    NormalizeWhole(e, e);
  }

  lemma NormalizeWhole(s: string, e: string)
    requires e == ToLower(TrimSpace(s)) && '@' !in e
    ensures Normalize(s) == e
  {
    assert IndexFrom(e, '@', 0) == |e|;
  }

  lemma TrimmedLowerStays(s: string)
    ensures ToLower(TrimSpace(ToLower(TrimSpace(s)))) == ToLower(TrimSpace(s))
  {
    SpaceTrimmed(s);
    LowerIsTrimmed(TrimSpace(s));
    TrimmedStays(ToLower(TrimSpace(s)));
    LowerTwice(TrimSpace(s));
  }

  lemma LowerIsTrimmed(t: string)
    requires IsTrimmed(t)
    ensures IsTrimmed(ToLower(t))
  {
  }

  lemma LowerTwice(t: string)
    ensures ToLower(ToLower(t)) == ToLower(t)
  {
  }

  lemma SplitAt(e: string) returns (left: string, right: string)
    requires '@' in e
    ensures e == left + "@" + right && '@' !in left
  {
    var at := IndexFrom(e, '@', 0);
    assert e[0..|e|] == e;
    left, right := e[0..at], e[at + 1..];
  }

  lemma NormalizeParts(s: string) returns (left: string, domain: string)
    requires '@' in ToLower(TrimSpace(s))
    ensures Normalize(s) == left + "@" + domain && IsPlainLocal(left) && IsLower(domain)
    ensures domain != "" ==> !IsSpace(domain[0])
  {
    var a, b := SplitAt(ToLower(TrimSpace(s)));
    NormalizeAt(s, a, b);
    left, domain := NormalizeLocalPart(a), NormalizeDomain(b);
    LocalPartIsPlain(a);
    DomainIsLower(b);
  }

  /**
    Normalising an address twice changes nothing exactly when there is no at sign in it or
    it ends in neither a dot nor a space.
   */
  lemma NormalizeStableIff(s: string)
    ensures var n := Normalize(s); Normalize(n) == n <==> '@' !in n || !EndsInDotOrSpace(n)
  {
    if '@' !in ToLower(TrimSpace(s)) {
      WholeStays(s);
    } else {
      var left, domain := NormalizeParts(s);
      PartsNormalized(left, domain);
      DomainStaysIff(domain);
      PartsEqual(left, NormalizeDomain(TrimRight(domain, IsSpace)), domain);
    }
  }

  lemma PartsEqual(left: string, a: string, b: string)
    ensures left + "@" + a == left + "@" + b <==> a == b
    ensures '@' in left + "@" + b
    ensures EndsInDotOrSpace(left + "@" + b) <==> EndsInDotOrSpace(b)
  {
    assert (left + "@" + a)[|left| + 1..] == a && (left + "@" + b)[|left| + 1..] == b;
    assert (left + "@" + b)[|left|] == '@';
  }

  /** What the catch-all keeps, for recipients that end in neither a dot nor a space. */
  lemma CatchAllIsComplete(dir: Directory, recipients: seq<string>)
    requires forall r :: r in recipients ==>
      NoLongPath(WorldOf(dir), Root(WorldOf(dir), r)) && ('@' !in Normalize(r) || !EndsInDotOrSpace(Normalize(r)))
    ensures forall a :: a in LocalRecipientTargets(WorldOf(dir), recipients).1 <==>
      exists r :: r in recipients && Reachable(WorldOf(dir), Normalize(r), a) && IsUnknown(WorldOf(dir), a)
  {
    forall r | r in recipients ensures Root(WorldOf(dir), r) == WorldOf(dir).normalize(r) == Normalize(r) {
      NormalizeStableIff(r);
    }
    UnknownAreComplete(WorldOf(dir), recipients);
  }

  lemma CutBefore(a: string, n: nat)
    requires 0 < n <= |a| && a[n - 1] == '@' && '@' !in a[n..] && CutTag(a, n) != a
    ensures var b := CutTag(a, n); var m := AfterLast(b, '@'); m > 0 && b[m..] == a[n..]
  {
    var left := a[..n - 1][..IndexFrom(a[..n - 1], '+', 0)];
    assert CutTag(a, n) == left + ['@'] + a[n..];
    LastIsUnique(left, '@', a[n..]);
  }

  lemma CollectionByDomain(dir: Directory, a: string, n: nat, domain: string)
    requires 0 < n <= |a| && AfterLast(a, '@') == n && a[n..] == domain
    ensures CollectionOf(dir, a) == if domain !in dir.collections then None else Some(dir.collections[domain])
  {
  }

  /** Dropping a plus tag never moves an address to another domain, so a tagged recipient
      falls back to the same collection. */
  lemma TagsDoNotMatter(dir: Directory, a: string)
    ensures CollectionOf(dir, WithoutTag(a)) == CollectionOf(dir, a)
  {
    var n := AfterLast(a, '@');
    if CutTag(a, n) != a {
      CutBefore(a, n);
      CollectionByDomain(dir, a, n, a[n..]);
      CollectionByDomain(dir, CutTag(a, n), AfterLast(CutTag(a, n), '@'), a[n..]);
    }
  }
}

/**
  Message ids and the threads made from them: a new message joins the thread of the first
  message it refers to that the mailbox knows, or starts from the first id it names.
 */
module Threading {
  import opened Common
  import opened Text

  // ---------------------------------------------------------------- message ids

  predicate IsBracket(c: char) {
    c == '<' || c == '>'
  }

  predicate Malformed(c: char) {
    c in "<>\r\n,"
  }

  predicate IsComma(c: char) {
    c == ',' || c == ';'
  }

  predicate NotSpace(c: char) {
    !IsSpace(c)
  }

  /** The id in its plain form, or "" when it is malformed. */
  function NormalizeMessageId(value: string): string {
    if '\r' in value || '\n' in value || !Acceptable(Stripped(value)) then "" else ToLower(Stripped(value))
  }

  /** Without surrounding brackets and without white space. */
  function Stripped(value: string): string {
    Filter(Trim(TrimSpace(value), IsBracket), NotSpace)
  }

  predicate Acceptable(v: string) {
    v != "" && '@' in v && forall i :: 0 <= i < |v| ==> !Malformed(v[i])
  }

  lemma {:induction false} FilterAll(s: string, keep: char -> bool)
    requires forall i :: 0 <= i < |s| ==> keep(s[i])
    ensures Filter(s, keep) == s
  {
    if s != "" {
      FilterAll(s[1..], keep);
    }
  }

  lemma TrimNothing(s: string, cut: char -> bool)
    requires forall i :: 0 <= i < |s| ==> !cut(s[i])
    ensures Trim(s, cut) == s
  {
  }

  /** What a valid id looks like. */
  predicate PlainId(v: string) {
    && v != "" && '@' in v
    && forall i :: 0 <= i < |v| ==> Clean(v[i])
  }

  lemma LowerIsPlain(v: string)
    requires Acceptable(v) && forall i :: 0 <= i < |v| ==> !IsSpace(v[i])
    ensures PlainId(ToLower(v))
  {
    var r := ToLower(v);
    forall i | 0 <= i < |r| ensures Clean(r[i]) {
      assert !Malformed(v[i]);
    }
    var k :| 0 <= k < |v| && v[k] == '@';
    assert r[k] == '@';
  }

  lemma NormalizedIsPlain(value: string)
    ensures NormalizeMessageId(value) == "" || PlainId(NormalizeMessageId(value))
  {
    if NormalizeMessageId(value) != "" {
      var v := Stripped(value);
      forall i | 0 <= i < |v| ensures !IsSpace(v[i]) {
        assert v[i] in v;
      }
      LowerIsPlain(v);
    }
  }

  predicate Clean(c: char) {
    !IsSpace(c) && !Malformed(c) && !IsUpper(c)
  }

  lemma CleanChar(c: char)
    requires Clean(c)
    ensures !IsSpace(c) && !IsBracket(c) && NotSpace(c) && c != '\r' && c != '\n' && LowerChar(c) == c
  {
    assert forall x :: IsBracket(x) || x == '\r' || x == '\n' ==> x in "<>\r\n,";
  }

  lemma StrippedPlain(v: string)
    requires forall i :: 0 <= i < |v| ==> Clean(v[i])
    ensures Stripped(v) == v
  {
    forall i | 0 <= i < |v| ensures !IsSpace(v[i]) && !IsBracket(v[i]) && NotSpace(v[i]) {
      CleanChar(v[i]);
    }
    TrimNothing(v, IsSpace);
    TrimNothing(v, IsBracket);
    FilterAll(v, NotSpace);
  }

  lemma CleanIsLower(v: string)
    requires forall i :: 0 <= i < |v| ==> Clean(v[i])
    ensures ToLower(v) == v && '\r' !in v && '\n' !in v
  {
    forall i | 0 <= i < |v| ensures v[i] != '\r' && v[i] != '\n' && LowerChar(v[i]) == v[i] {
      CleanChar(v[i]);
    }
  }

  lemma PlainIsKept(v: string)
    requires PlainId(v)
    ensures NormalizeMessageId(v) == v
  {
    StrippedPlain(v);
    CleanIsLower(v);
    PlainIsAcceptable(v);
  }

  lemma PlainIsAcceptable(v: string)
    requires PlainId(v)
    ensures Acceptable(v)
  {
    forall i | 0 <= i < |v| ensures !Malformed(v[i]) {
      assert Clean(v[i]);
    }
  }

  lemma {:induction false} FilterHas(s: string, keep: char -> bool, c: char)
    requires c in s && keep(c)
    ensures c in Filter(s, keep)
  {
    if s[0] != c {
      FilterHas(s[1..], keep, c);
    }
  }

  lemma {:induction false} TrimLeftHas(s: string, cut: char -> bool, c: char)
    requires c in s && !cut(c)
    ensures c in TrimLeft(s, cut)
  {
    if cut(s[0]) {
      TrimLeftHas(s[1..], cut, c);
    }
  }

  lemma {:induction false} TrimRightHas(s: string, cut: char -> bool, c: char)
    requires c in s && !cut(c)
    ensures c in TrimRight(s, cut)
  {
    if cut(s[|s| - 1]) {
      TrimRightHas(s[..|s| - 1], cut, c);
    }
  }

  lemma StrippedHas(value: string, c: char)
    requires c in value && !IsSpace(c) && !IsBracket(c)
    ensures c in Stripped(value)
  {
    TrimLeftHas(value, IsSpace, c);
    TrimRightHas(TrimLeft(value, IsSpace), IsSpace, c);
    TrimLeftHas(TrimSpace(value), IsBracket, c);
    TrimRightHas(TrimLeft(TrimSpace(value), IsBracket), IsBracket, c);
    FilterHas(Trim(TrimSpace(value), IsBracket), NotSpace, c);
  }

  lemma StrippedFrom(value: string, c: char)
    requires c in Stripped(value)
    ensures c in value
  {
    TrimMembers(TrimSpace(value), IsBracket);
    TrimMembers(value, IsSpace);
  }

  /** A line break or a comma anywhere, or no at sign, and it is no id. */
  lemma RefusedIds(value: string)
    requires '\r' in value || '\n' in value || ',' in value || '@' !in value
    ensures NormalizeMessageId(value) == ""
  {
    if ',' in value {
      CommaIsRefused(value);
    } else if '@' in Stripped(value) {
      StrippedFrom(value, '@');
    }
  }

  lemma CommaIsRefused(value: string)
    requires ',' in value
    ensures !Acceptable(Stripped(value))
  {
    StrippedHas(value, ',');
    var v := Stripped(value);
    var i :| 0 <= i < |v| && v[i] == ',';
    assert Malformed(v[i]);
  }

  /** Normalising twice changes nothing, and leaves exactly the plain ids alone. */
  lemma NormalizeTwice(value: string)
    ensures NormalizeMessageId(NormalizeMessageId(value)) == NormalizeMessageId(value)
  {
    NormalizedIsPlain(value);
    if NormalizeMessageId(value) != "" {
      PlainIsKept(NormalizeMessageId(value));
    }
  }

  predicate IdChar(c: char) {
    !IsSpace(c) && c != '<' && c != '>' && c != ','
  }

  /** An id in any case: an at sign, and no white space, bracket or comma. */
  predicate IsId(v: string) {
    '@' in v && AllId(v)
  }

  predicate AllId(v: string) {
    forall i :: 0 <= i < |v| ==> IdChar(v[i])
  }

  lemma IdCharIs(c: char)
    requires IdChar(c)
    ensures NotSpace(c) && !IsBracket(c) && !Malformed(c) && c != '\r' && c != '\n'
  {
  }

  lemma IdChars(v: string)
    requires AllId(v)
    ensures '\r' !in v && '\n' !in v
    ensures forall i :: 0 <= i < |v| ==> NotSpace(v[i]) && !IsBracket(v[i]) && !Malformed(v[i])
  {
    forall i | 0 <= i < |v|
      ensures NotSpace(v[i]) && !IsBracket(v[i]) && !Malformed(v[i]) && v[i] != '\r' && v[i] != '\n'
    {
      IdCharIs(v[i]);
    }
  }

  lemma BareIsStripped(v: string)
    requires AllId(v)
    ensures Stripped(v) == v
  {
    assert TrimSpace(v) == v by {
      IdChars(v);
      TrimNothing(v, IsSpace);
    }
    assert Trim(v, IsBracket) == v by {
      IdChars(v);
      TrimNothing(v, IsBracket);
    }
    IdsAreKept(v);
  }

  lemma IdsAreKept(v: string)
    requires AllId(v)
    ensures Filter(v, NotSpace) == v
  {
    IdChars(v);
    FilterAll(v, NotSpace);
  }

  lemma TrimLeftOne(s: string, rest: string, cut: char -> bool)
    requires s != "" && cut(s[0]) && s[1..] == rest && rest != "" && !cut(rest[0])
    ensures TrimLeft(s, cut) == rest
  {
  }

  lemma TrimRightOne(s: string, v: string, cut: char -> bool)
    requires s != "" && cut(s[|s| - 1]) && s[..|s| - 1] == v && v != "" && !cut(v[|v| - 1])
    ensures TrimRight(s, cut) == v
  {
  }

  lemma BracketsTrimmed(v: string, s: string)
    requires AllId(v) && v != "" && s == "<" + v + ">"
    ensures Trim(s, IsBracket) == v
  {
    IdCharIs(v[0]);
    IdCharIs(v[|v| - 1]);
    TrimLeftOne(s, v + ">", IsBracket);
    TrimRightOne(v + ">", v, IsBracket);
  }

  lemma NoBreaks(v: string, s: string)
    requires AllId(v) && s == "<" + v + ">"
    ensures '\r' !in s && '\n' !in s
  {
    forall i | 0 <= i < |s| ensures s[i] != '\r' && s[i] != '\n' {
      if 0 < i < |s| - 1 {
        IdCharIs(v[i - 1]);
      }
    }
  }

  lemma BracketEnds(v: string, s: string)
    requires s == "<" + v + ">"
    ensures s[0] == '<' && s[|s| - 1] == '>'
  {
  }

  lemma EndsStay(s: string, cut: char -> bool)
    requires s != "" && s[0] == '<' && s[|s| - 1] == '>' && !cut('<') && !cut('>')
    ensures Trim(s, cut) == s
  {
    TrimKeeps(s, cut);
  }

  lemma BracketedIsStripped(v: string, s: string)
    requires AllId(v) && v != "" && s == "<" + v + ">"
    ensures Stripped(s) == v
  {
    BracketEnds(v, s);
    EndsStay(s, IsSpace);
    BracketsTrimmed(v, s);
    IdsAreKept(v);
  }

  lemma StrippedIsRead(v: string, s: string)
    requires IsId(v) && Stripped(s) == v && '\r' !in s && '\n' !in s
    ensures NormalizeMessageId(s) == ToLower(v)
  {
    IdChars(v);
    assert Acceptable(v);
  }

  /** An id reads as its lower-case form, with or without brackets. */
  lemma BracketsGo(v: string, s: string)
    requires IsId(v) && (s == v || s == "<" + v + ">")
    ensures NormalizeMessageId(s) == ToLower(v)
  {
    if s == v {
      IdChars(v);
      BareIsStripped(v);
    } else {
      NoBreaks(v, s);
      BracketedIsStripped(v, s);
    }
    StrippedIsRead(v, s);
  }

  // ---------------------------------------------------------------- lists of ids

  /** The length of the leading run of characters with `p`. */
  function RunLength(s: string, p: char -> bool): (n: nat)
    ensures n <= |s| && (forall i :: 0 <= i < n ==> p(s[i])) && (n < |s| ==> !p(s[n]))
  {
    if s == "" || !p(s[0]) then 0 else 1 + RunLength(s[1..], p)
  }

  /** The pieces between white space. */
  function Fields(s: string): seq<string>
    decreases |s|
  {
    var rest := s[RunLength(s, IsSpace)..];
    if rest == "" then []
    else
      var n := RunLength(rest, NotSpace);
      [rest[..n]] + Fields(rest[n..])
  }

  function IdOf(token: string): string {
    NormalizeMessageId(Trim(token, IsComma))
  }

  function IdsOf(tokens: seq<string>): seq<string> {
    seq(|tokens|, i requires 0 <= i < |tokens| => IdOf(tokens[i]))
  }

  /** Without blanks and repetitions. */
  function Distinct(ids: seq<string>): seq<string> {
    if ids == [] then []
    else
      var before, id := Distinct(ids[..|ids| - 1]), ids[|ids| - 1];
      if id == "" || id in before then before else before + [id]
  }

  /** The valid ids of a header, each once, in the order they first appear. */
  function MessageIds(value: string): seq<string> {
    Distinct(IdsOf(Fields(value)))
  }

  lemma {:induction false} DistinctIsDistinct(ids: seq<string>)
    ensures NoRepeats(Distinct(ids)) && "" !in Distinct(ids)
    ensures forall id :: id in Distinct(ids) ==> id in ids
    ensures forall id :: id in ids && id != "" ==> id in Distinct(ids)
  {
    if ids != [] {
      var init, last := ids[..|ids| - 1], ids[|ids| - 1];
      DistinctIsDistinct(init);
      if last !in Distinct(init) {
        AppendNew(Distinct(init), last);
      }
      assert forall id :: id in ids <==> id in init || id == last;
    }
  }

  /** The ids of a header are valid, in plain form, and each is there once. */
  lemma IdsAreValidAndDistinct(value: string)
    ensures NoRepeats(MessageIds(value)) && forall id :: id in MessageIds(value) ==> PlainId(id)
  {
    var tokens := Fields(value);
    DistinctIsDistinct(IdsOf(tokens));
    forall id | id in MessageIds(value) ensures PlainId(id) {
      var i :| 0 <= i < |tokens| && IdsOf(tokens)[i] == id;
      NormalizedIsPlain(Trim(tokens[i], IsComma));
    }
  }

  // ---------------------------------------------------------------- what a header says

  /** What may follow an id in a header. */
  predicate IsMark(mark: string) {
    mark == "" || mark == "," || mark == ";"
  }

  /** A header as it is written: each id in brackets, a mark, if any, and a space between them. */
  function Header(ids: seq<string>, mark: string): string {
    if ids == [] then "" else "<" + ids[0] + ">" + if |ids| == 1 then "" else mark + " " + Header(ids[1..], mark)
  }

  lemma {:induction false} RunOver(token: string, rest: string, p: char -> bool)
    requires (forall i :: 0 <= i < |token| ==> p(token[i])) && (rest == "" || !p(rest[0]))
    ensures RunLength(token + rest, p) == |token|
  {
    var s := token + rest;
    if token == "" {
      assert s == rest;
    } else {
      assert s[0] == token[0] && s[1..] == token[1..] + rest;
      RunOver(token[1..], rest, p);
    }
  }

  lemma FieldsFirst(token: string, rest: string)
    requires token != "" && (forall i :: 0 <= i < |token| ==> NotSpace(token[i])) && (rest == "" || IsSpace(rest[0]))
    ensures Fields(token + rest) == [token] + Fields(rest)
  {
    var s := token + rest;
    assert s[0] == token[0] && s[0..] == s;
    RunOver(token, rest, NotSpace);
    assert s[..|token|] == token && s[|token|..] == rest;
  }

  lemma FieldsSkip(s: string)
    ensures Fields(" " + s) == Fields(s)
  {
    var t := " " + s;
    assert t[1..] == s && t[1 + RunLength(s, IsSpace)..] == s[RunLength(s, IsSpace)..];
  }

  function TokenAt(ids: seq<string>, mark: string, i: nat): string
    requires i < |ids|
  {
    "<" + ids[i] + ">" + if i < |ids| - 1 then mark else ""
  }

  function HeaderTokens(ids: seq<string>, mark: string): seq<string> {
    seq(|ids|, i requires 0 <= i < |ids| => TokenAt(ids, mark, i))
  }

  lemma TokenIsField(v: string, mark: string, token: string, rest: string)
    requires AllId(v) && IsMark(mark) && token == "<" + v + ">" + mark && (rest == "" || IsSpace(rest[0]))
    ensures Fields(token + rest) == [token] + Fields(rest)
  {
    IdChars(v);
    FieldsFirst(token, rest);
  }

  lemma {:induction false} HeaderFields(ids: seq<string>, mark: string)
    requires IsMark(mark) && forall i :: 0 <= i < |ids| ==> AllId(ids[i])
    ensures Fields(Header(ids, mark)) == HeaderTokens(ids, mark)
  {
    if ids != [] {
      HeaderFields(ids[1..], mark);
      HeaderFirst(ids, mark, TokenAt(ids, mark, 0), Header(ids[1..], mark));
      TokensFirst(ids, mark);
    }
  }

  lemma TokensFirst(ids: seq<string>, mark: string)
    requires ids != []
    ensures HeaderTokens(ids, mark) == [TokenAt(ids, mark, 0)] + HeaderTokens(ids[1..], mark)
  {
  }

  lemma HeaderFirst(ids: seq<string>, mark: string, token: string, rest: string)
    requires ids != [] && IsMark(mark) && AllId(ids[0])
    requires token == TokenAt(ids, mark, 0) && rest == Header(ids[1..], mark)
    ensures Fields(Header(ids, mark)) == [token] + Fields(rest)
  {
    if |ids| == 1 {
      TokenIsField(ids[0], "", token, "");
      assert token + "" == token;
    } else {
      TokenIsField(ids[0], mark, token, " " + rest);
      FieldsSkip(rest);
      HeaderStep(token, rest, ids, mark);
    }
  }

  lemma HeaderStep(token: string, rest: string, ids: seq<string>, mark: string)
    requires |ids| > 1 && token == "<" + ids[0] + ">" + mark && rest == Header(ids[1..], mark)
    ensures Header(ids, mark) == token + (" " + rest)
  {
  }

  lemma {:induction false} DistinctKeeps(ids: seq<string>)
    requires NoRepeats(ids) && "" !in ids
    ensures Distinct(ids) == ids
  {
    if ids != [] {
      var init, last := ids[..|ids| - 1], ids[|ids| - 1];
      assert NoRepeats(init) && last != "" && last !in init && "" !in init;
      DistinctKeeps(init);
      assert init + [last] == ids;
    }
  }

  function Lowered(ids: seq<string>): seq<string> {
    seq(|ids|, i requires 0 <= i < |ids| => ToLower(ids[i]))
  }

  lemma TokensRead(ids: seq<string>, mark: string)
    requires IsMark(mark) && forall i :: 0 <= i < |ids| ==> IsId(ids[i])
    ensures IdsOf(HeaderTokens(ids, mark)) == Lowered(ids)
  {
    forall i | 0 <= i < |ids| ensures IdOf(TokenAt(ids, mark, i)) == ToLower(ids[i]) {
      TokenReads(ids[i], if i < |ids| - 1 then mark else "", TokenAt(ids, mark, i));
    }
  }

  lemma LoweredNotBlank(ids: seq<string>)
    requires forall i :: 0 <= i < |ids| ==> IsId(ids[i])
    ensures "" !in Lowered(ids)
  {
    forall i | 0 <= i < |ids| ensures Lowered(ids)[i] != "" {
      assert IsId(ids[i]);
    }
  }

  /** A header written from ids, with or without marks between them, names those ids: in order, in
      lower case and each once. */
  lemma HeaderNamesIds(ids: seq<string>, mark: string)
    requires IsMark(mark) && forall i :: 0 <= i < |ids| ==> IsId(ids[i])
    ensures MessageIds(Header(ids, mark)) == Distinct(Lowered(ids))
    ensures NoRepeats(Lowered(ids)) ==> MessageIds(Header(ids, mark)) == Lowered(ids)
  {
    assert Fields(Header(ids, mark)) == HeaderTokens(ids, mark) by {
      HeaderFields(ids, mark);
    }
    TokensRead(ids, mark);
    if NoRepeats(Lowered(ids)) {
      LoweredNotBlank(ids);
      DistinctKeeps(Lowered(ids));
    }
  }

  lemma TokenReads(v: string, mark: string, token: string)
    requires IsId(v) && IsMark(mark) && token == "<" + v + ">" + mark
    ensures IdOf(token) == ToLower(v)
  {
    var s := "<" + v + ">";
    BracketEnds(v, s);
    if mark == "" {
      assert token == s;
      EndsStay(s, IsComma);
    } else {
      MarkTrimmed(s, token);
    }
    BracketsGo(v, s);
  }

  lemma MarkTrimmed(s: string, token: string)
    requires s != "" && s[0] == '<' && s[|s| - 1] == '>' && (token == s + "," || token == s + ";")
    ensures Trim(token, IsComma) == s
  {
    assert token[0] == '<';
    TrimRightOne(token, s, IsComma);
  }

  method MessageIdList(value: string) returns (out: seq<string>)
    ensures out == MessageIds(value)
  {
    var ids := IdsOf(Fields(value));
    out := CollectDistinct(ids);
  }

  method CollectDistinct(ids: seq<string>) returns (out: seq<string>)
    ensures out == Distinct(ids)
  {
    var seen: set<string> := {};
    out := [];
    for i := 0 to |ids|
      invariant out == Distinct(ids[..i]) && forall id :: id in seen <==> id in out
    {
      assert ids[..i + 1][..i] == ids[..i];
      if ids[i] != "" && ids[i] !in seen {
        seen := seen + {ids[i]};
        out := out + [ids[i]];
      }
    }
    assert ids[..|ids|] == ids;
  }

  // ---------------------------------------------------------------- resolving a thread

  /** A stored message: its id as the lookup compares it, and its thread. */
  datatype Row = Row(key: string, thread: string)

  predicate Blank(t: string) {
    TrimSpace(t) == ""
  }

  /** A thread that is nothing but white space counts as none. */
  lemma BlankIff(t: string)
    ensures Blank(t) <==> forall i :: 0 <= i < |t| ==> IsSpace(t[i])
  {
    if forall i :: 0 <= i < |t| ==> IsSpace(t[i]) {
      TrimLeftAll(t, "", IsSpace);
      assert t + "" == t;
    } else {
      var i :| 0 <= i < |t| && !IsSpace(t[i]);
      TrimLeftHas(t, IsSpace, t[i]);
      TrimRightHas(TrimLeft(t, IsSpace), IsSpace, t[i]);
    }
  }

  /** What one lookup may find: any one of the rows with that id, if its thread is not blank. */
  ghost predicate MayFind(rows: seq<Row>, ref: string, t: string) {
    if t == "" then
      (forall r :: r in rows ==> r.key != ref) || (exists r :: r in rows && r.key == ref && Blank(r.thread))
    else !Blank(t) && Row(ref, t) in rows
  }

  /** What resolving may answer. */
  ghost predicate MayResolve(rows: seq<Row>, ids: seq<string>, own: string, t: string) {
    || (exists k :: FoundAt(rows, ids, k, t))
    || (AllMiss(rows, ids, |ids|) && t == if ids != [] then ids[0] else own)
  }

  ghost predicate AllMiss(rows: seq<Row>, ids: seq<string>, k: nat)
    requires k <= |ids|
  {
    forall j :: 0 <= j < k ==> MayFind(rows, ids[j], "")
  }

  ghost predicate FoundAt(rows: seq<Row>, ids: seq<string>, k: int, t: string) {
    0 <= k < |ids| && AllMiss(rows, ids, k) && t != "" && MayFind(rows, ids[k], t)
  }

  method FindThread(rows: seq<Row>, ref: string) returns (t: string)
    ensures MayFind(rows, ref, t)
  {
    for i := 0 to |rows|
      invariant forall j :: 0 <= j < i ==> rows[j].key != ref
    {
      if rows[i].key == ref {
        if Blank(rows[i].thread) {
          assert rows[i] in rows;
          return "";
        }
        assert TrimSpace("") == "";
        return rows[i].thread;
      }
    }
    return "";
  }

  method ResolveIds(rows: seq<Row>, ids: seq<string>, own: string) returns (t: string)
    ensures MayResolve(rows, ids, own, t)
  {
    for k := 0 to |ids|
      invariant AllMiss(rows, ids, k)
    {
      var existing := FindThread(rows, ids[k]);
      if existing != "" {
        assert FoundAt(rows, ids, k, existing);
        return existing;
      }
    }
    if |ids| > 0 {
      return ids[0];
    }
    t := own;
  }

  method ResolveThreadId(rows: seq<Row>, messageId: string, inReplyTo: string, references: string) returns (t: string)
    ensures MayResolve(rows, MessageIds(references) + MessageIds(inReplyTo), NormalizeMessageId(messageId), t)
  {
    var ids := MessageIdList(references);
    var more := MessageIdList(inReplyTo);
    t := ResolveIds(rows, ids + more, NormalizeMessageId(messageId));
  }

  // ---------------------------------------------------------------- conversations

  /** A message as it arrives: how lookups will find it, the ids it names, and its own id. */
  datatype Arrival = Arrival(key: string, ids: seq<string>, own: string)

  /** What the mailbox holds when message `i` arrives: any of the earlier messages. */
  ghost predicate Earlier(arrivals: seq<Arrival>, threads: seq<string>, i: nat, rows: seq<Row>)
    requires i <= |arrivals| == |threads|
  {
    forall r :: r in rows ==> exists j :: 0 <= j < i && r == Row(arrivals[j].key, threads[j])
  }

  ghost predicate IsRun(arrivals: seq<Arrival>, threads: seq<string>) {
    && |arrivals| == |threads|
    && forall i :: 0 <= i < |arrivals| ==> Arrived(arrivals, threads, i)
  }

  ghost predicate Arrived(arrivals: seq<Arrival>, threads: seq<string>, i: nat)
    requires i < |arrivals| == |threads|
  {
    exists rows :: Earlier(arrivals, threads, i, rows) && MayResolve(rows, arrivals[i].ids, arrivals[i].own, threads[i])
  }

  /** The root names nothing, every other message names the root first. */
  predicate StartsFrom(a: Arrival, root: string) {
    if a.ids == [] then a.own == root else a.ids[0] == root
  }

  /** `members` is a conversation: all start from the root, and none names a message outside. */
  ghost predicate Conversation(arrivals: seq<Arrival>, members: set<nat>, root: string) {
    && !Blank(root)
    && (forall i :: i in members ==> i < |arrivals| && StartsFrom(arrivals[i], root))
    && (forall i, j :: i in members && 0 <= j < |arrivals| && arrivals[j].key in arrivals[i].ids ==> j in members)
  }

  /**
    Every message of a conversation gets the root's id for its thread, in whatever order they
    arrive and whichever earlier ones have been deleted meanwhile.
   */
  lemma {:induction false} SameThread(arrivals: seq<Arrival>, threads: seq<string>, members: set<nat>, root: string,
                                      i: nat)
    requires IsRun(arrivals, threads) && Conversation(arrivals, members, root) && i in members
    ensures threads[i] == root
    decreases i
  {
    assert Arrived(arrivals, threads, i);
    var rows :| Earlier(arrivals, threads, i, rows) && MayResolve(rows, arrivals[i].ids, arrivals[i].own, threads[i]);
    var ids := arrivals[i].ids;
    if k :| FoundAt(rows, ids, k, threads[i]) {
      var r := Row(ids[k], threads[i]);
      var j :| 0 <= j < i && r == Row(arrivals[j].key, threads[j]);
      assert arrivals[j].key in ids;
      SameThread(arrivals, threads, members, root, j);
    }
  }

  /** So two conversations with different roots stay apart. */
  lemma DifferentThreads(arrivals: seq<Arrival>, threads: seq<string>, a: set<nat>, b: set<nat>, rootA: string,
                         rootB: string, i: nat, j: nat)
    requires IsRun(arrivals, threads) && rootA != rootB
    requires Conversation(arrivals, a, rootA) && Conversation(arrivals, b, rootB) && i in a && j in b
    ensures threads[i] != threads[j]
  {
    SameThread(arrivals, threads, a, rootA, i);
    SameThread(arrivals, threads, b, rootB, j);
  }
}

/**
  Rewriting neutral `?` placeholders into PostgreSQL's `$n` form: a scanner that must leave
  quoted text, quoted identifiers, comments and dollar-quoted bodies alone.
 */
module RebindPostgres {
  import opened Common
  import Decimal

  datatype Token =
    | Quoted(text: string)
    | Identifier(text: string)
    | LineComment(text: string)
    | BlockComment(text: string)
    | DollarBody(text: string)
    | KeptMark
    | DoubledMark
    | Placeholder
    | Other(sign: char)

  /** The characters of the query that a token stands for. */
  function Source(t: Token): string {
    match t
    case Quoted(text) => text
    case Identifier(text) => text
    case LineComment(text) => text
    case BlockComment(text) => text
    case DollarBody(text) => text
    case KeptMark => "?"
    case DoubledMark => "??"
    case Placeholder => "?"
    case Other(c) => [c]
  }

  /** What is written for a token when it is (or would be) placeholder number `k`. */
  function Written(t: Token, k: nat): string {
    match t
    case DoubledMark => "?"
    case Placeholder => "$" + Decimal.Format(k)
    case _ => Source(t)
  }

  // ---------------------------------------------------------------- the lexical states

  /** How much of `s` belongs to a quoted text already opened. */
  function QuotedLen(s: string): (n: nat)
    ensures n <= |s|
  {
    if s == "" then 0
    else if s[0] == '\\' && |s| > 1 then 2 + QuotedLen(s[2..])
    else if s[0] == '\'' then if |s| > 1 && s[1] == '\'' then 2 + QuotedLen(s[2..]) else 1
    else 1 + QuotedLen(s[1..])
  }

  function IdentifierLen(s: string): (n: nat)
    ensures n <= |s|
  {
    if s == "" then 0
    else if s[0] == '"' then if |s| > 1 && s[1] == '"' then 2 + IdentifierLen(s[2..]) else 1
    else 1 + IdentifierLen(s[1..])
  }

  function LineLen(s: string): (n: nat)
    ensures n <= |s|
  {
    if s == "" || s[0] == '\n' then 0 else 1 + LineLen(s[1..])
  }

  predicate Opens(s: string) {
    |s| > 1 && s[0] == '/' && s[1] == '*'
  }

  predicate Closes(s: string) {
    |s| > 1 && s[0] == '*' && s[1] == '/'
  }

  /** How much of `s` belongs to block comments nested `depth` deep. */
  function BlockLen(s: string, depth: nat): (n: nat)
    ensures n <= |s|
    decreases |s|
  {
    if s == "" || depth == 0 then 0
    else if Opens(s) then 2 + BlockLen(s[2..], depth + 1)
    else if Closes(s) then 2 + BlockLen(s[2..], depth - 1)
    else 1 + BlockLen(s[1..], depth)
  }

  predicate IsTagChar(c: char) {
    'a' <= c <= 'z' || 'A' <= c <= 'Z' || '0' <= c <= '9' || c == '_'
  }

  /** The length of the tag and closing dollar that `s` starts with, zero for none. */
  function TagLen(s: string): (n: nat)
    ensures n <= |s|
    ensures n > 0 ==> s[n - 1] == '$'
  {
    if s == "" then 0
    else if s[0] == '$' then 1
    else if !IsTagChar(s[0]) || TagLen(s[1..]) == 0 then 0
    else 1 + TagLen(s[1..])
  }

  /** The position just after the first `delimiter` in `s`, or the end of `s`. */
  function PastFirst(s: string, delimiter: string): (n: nat)
    ensures n <= |s|
  {
    if delimiter <= s then |delimiter|
    else if s == "" then 0
    else 1 + PastFirst(s[1..], delimiter)
  }

  /** The opening delimiter, dollars included, of a dollar-quoted body that `s` starts with. */
  function Delimiter(s: string): (d: string)
    requires s != ""
    ensures d <= s
  {
    if s[0] == '$' && TagLen(s[1..]) > 0 then s[..1 + TagLen(s[1..])] else ""
  }

  function DollarLen(s: string): (n: nat)
    requires s != "" && Delimiter(s) != ""
    ensures 0 < n <= |s|
  {
    |Delimiter(s)| + PastFirst(s[|Delimiter(s)|..], Delimiter(s))
  }

  function First(s: string): (t: Token)
    requires s != ""
    ensures Source(t) <= s && Source(t) != ""
  {
    match s[0]
    case '\'' => Quoted(s[..1 + QuotedLen(s[1..])])
    case '"' => Identifier(s[..1 + IdentifierLen(s[1..])])
    case '-' => if |s| > 1 && s[1] == '-' then LineComment(s[..2 + LineLen(s[2..])]) else Other('-')
    case '/' => if Opens(s) then BlockComment(s[..2 + BlockLen(s[2..], 1)]) else Other('/')
    case '$' => if Delimiter(s) != "" then DollarBody(s[..DollarLen(s)]) else Other('$')
    case '?' =>
      if |s| > 1 && s[1] == '?' then DoubledMark
      else if |s| > 1 && (s[1] == '|' || s[1] == '&') then KeptMark
      else Placeholder
    case c => Other(c)
  }

  function Rest(s: string): (r: string)
    requires s != ""
    ensures |r| < |s| && s == Source(First(s)) + r
  {
    s[|Source(First(s))|..]
  }

  function Tokens(s: string): seq<Token> {
    if s == "" then [] else [First(s)] + Tokens(Rest(s))
  }

  predicate IsPlaceholder(t: Token) {
    t.Placeholder?
  }

  function Count(ts: seq<Token>): nat {
    if ts == [] then 0 else Count(ts[..|ts| - 1]) + if IsPlaceholder(ts[|ts| - 1]) then 1 else 0
  }

  /** The rewritten form of `s` when its first placeholder is number `k`. */
  function Rebound(s: string, k: nat): string {
    if s == "" then ""
    else Written(First(s), k) + Rebound(Rest(s), if IsPlaceholder(First(s)) then k + 1 else k)
  }

  // ---------------------------------------------------------------- the loop

  method SkipQuoted(query: string, from: nat) returns (i: nat)
    requires from <= |query|
    ensures i == from + QuotedLen(query[from..])
  {
    i := from;
    while i < |query|
      invariant from <= i <= |query|
      invariant from + QuotedLen(query[from..]) == i + QuotedLen(query[i..])
    {
      if query[i] == '\\' && i + 1 < |query| {
        assert query[i..][2..] == query[i + 2..];
        i := i + 2;
        continue;
      }
      if query[i] == '\'' {
        assert i + 1 < |query| ==> query[i..][1] == query[i + 1];
        if i + 1 < |query| && query[i + 1] == '\'' {
          assert query[i..][2..] == query[i + 2..];
          i := i + 2;
          continue;
        }
        return i + 1;
      }
      assert query[i..][1..] == query[i + 1..];
      i := i + 1;
    }
  }

  method SkipIdentifier(query: string, from: nat) returns (i: nat)
    requires from <= |query|
    ensures i == from + IdentifierLen(query[from..])
  {
    i := from;
    while i < |query|
      invariant from <= i <= |query|
      invariant from + IdentifierLen(query[from..]) == i + IdentifierLen(query[i..])
    {
      if query[i] == '"' {
        assert i + 1 < |query| ==> query[i..][1] == query[i + 1];
        if i + 1 < |query| && query[i + 1] == '"' {
          assert query[i..][2..] == query[i + 2..];
          i := i + 2;
          continue;
        }
        return i + 1;
      }
      assert query[i..][1..] == query[i + 1..];
      i := i + 1;
    }
  }

  method SkipLine(query: string, from: nat) returns (i: nat)
    requires from <= |query|
    ensures i == from + LineLen(query[from..])
  {
    i := from;
    while i < |query| && query[i] != '\n'
      invariant from <= i <= |query|
      invariant from + LineLen(query[from..]) == i + LineLen(query[i..])
    {
      assert query[i..][1..] == query[i + 1..];
      i := i + 1;
    }
  }

  /** Where block comments nested `depth` deep at `i` end. */
  function BlockEnd(query: string, i: nat, depth: nat): nat
    requires i <= |query|
  {
    i + BlockLen(query[i..], depth)
  }

  lemma BlockEnded(query: string, i: nat, depth: nat)
    requires i <= |query| && (i == |query| || depth == 0)
    ensures BlockEnd(query, i, depth) == i
  {
  }

  predicate PairAt(query: string, i: nat, a: char, b: char) {
    i + 1 < |query| && query[i] == a && query[i + 1] == b
  }

  lemma BlockStepAt(query: string, i: nat, depth: nat)
    requires i < |query| && depth > 0
    ensures PairAt(query, i, '/', '*') ==> BlockEnd(query, i, depth) == BlockEnd(query, i + 2, depth + 1)
    ensures PairAt(query, i, '*', '/') ==> BlockEnd(query, i, depth) == BlockEnd(query, i + 2, depth - 1)
    ensures !PairAt(query, i, '/', '*') && !PairAt(query, i, '*', '/') ==>
      BlockEnd(query, i, depth) == BlockEnd(query, i + 1, depth)
  {
    var rest := query[i..];
    BlockStep(rest, depth);
    SliceTwice(query, i, StepLen(rest));
  }

  method SkipBlock(query: string, from: nat) returns (i: nat)
    requires from <= |query|
    ensures i == BlockEnd(query, from, 1)
  {
    var depth: nat := 1;
    i := from;
    while i < |query| && depth > 0
      invariant from <= i <= |query|
      invariant BlockEnd(query, from, 1) == BlockEnd(query, i, depth)
    {
      BlockStepAt(query, i, depth);
      if i + 1 < |query| && query[i] == '/' && query[i + 1] == '*' {
        depth := depth + 1;
        i := i + 2;
      } else if i + 1 < |query| && query[i] == '*' && query[i + 1] == '/' {
        depth := depth - 1;
        i := i + 2;
      } else {
        i := i + 1;
      }
    }
    BlockEnded(query, i, depth);
  }

  method DollarDelimiter(query: string) returns (delimiter: string, ok: bool)
    requires query != ""
    ensures delimiter == Delimiter(query) && ok == (delimiter != "")
  {
    if |query| < 2 || query[0] != '$' {
      return "", false;
    }
    for i := 1 to |query|
      invariant forall k :: 1 <= k < i ==> IsTagChar(query[k])
      invariant TagLen(query[1..]) == if TagLen(query[i..]) == 0 then 0 else i - 1 + TagLen(query[i..])
    {
      if query[i] == '$' {
        return query[..i + 1], true;
      }
      if !IsTagChar(query[i]) {
        return "", false;
      }
      assert query[i..][1..] == query[i + 1..];
    }
    return "", false;
  }

  /** Where the text, identifier, comment or body opened at `i` ends; one further when none is. */
  method SkipVerbatim(query: string, i: nat) returns (j: nat)
    requires i < |query| && query[i] != '?'
    ensures j == i + |Source(First(query[i..]))|
  {
    ghost var s := query[i..];
    match query[i]
    case '\'' =>
      j := SkipQuoted(query, i + 1);
      assert query[i + 1..] == s[1..];
    case '"' =>
      j := SkipIdentifier(query, i + 1);
      assert query[i + 1..] == s[1..];
    case '-' => j := SkipDash(query, i);
    case '/' => j := SkipSlash(query, i);
    case '$' => j := SkipDollar(query, i);
    case _ =>
      j := i + 1;
  }

  method SkipDash(query: string, i: nat) returns (j: nat)
    requires i < |query| && query[i] == '-'
    ensures j == i + |Source(First(query[i..]))|
  {
    j := i + 1;
    if i + 1 < |query| && query[i + 1] == '-' {
      j := SkipLine(query, i + 2);
      assert query[i + 2..] == query[i..][2..];
    }
  }

  method SkipSlash(query: string, i: nat) returns (j: nat)
    requires i < |query| && query[i] == '/'
    ensures j == i + |Source(First(query[i..]))|
  {
    j := i + 1;
    if i + 1 < |query| && query[i + 1] == '*' {
      j := SkipBlock(query, i + 2);
      assert query[i + 2..] == query[i..][2..];
    }
  }

  method SkipDollar(query: string, i: nat) returns (j: nat)
    requires i < |query| && query[i] == '$'
    ensures j == i + |Source(First(query[i..]))|
  {
    j := i + 1;
    var delimiter, ok := DollarDelimiter(query[i..]);
    if ok {
      assert query[i + |delimiter|..] == query[i..][|delimiter|..];
      j := i + |delimiter| + PastFirst(query[i + |delimiter|..], delimiter);
    }
  }

  /** One turn of the loop: what is written for the token at `i`, and where the next one starts. */
  method CopyToken(query: string, i: nat, placeholder: nat) returns (piece: string, j: nat, next: nat)
    requires i < |query|
    ensures j == i + |Source(First(query[i..]))|
    ensures piece == Written(First(query[i..]), placeholder)
    ensures next == if IsPlaceholder(First(query[i..])) then placeholder + 1 else placeholder
  {
    next := placeholder;
    if query[i] != '?' {
      j := SkipVerbatim(query, i);
      VerbatimIsWritten(query[i..], placeholder);
      piece := query[i..j];
    } else if i + 1 < |query| && query[i + 1] == '?' {
      piece, j := "?", i + 2;
    } else if i + 1 < |query| && (query[i + 1] == '|' || query[i + 1] == '&') {
      piece, j := "?", i + 1;
    } else {
      piece, j, next := "$" + Decimal.Format(placeholder), i + 1, placeholder + 1;
    }
  }

  lemma VerbatimIsWritten(s: string, k: nat)
    requires s != "" && s[0] != '?'
    ensures !IsPlaceholder(First(s)) && Written(First(s), k) == Source(First(s)) == s[..|Source(First(s))|]
  {
  }

  method Rebind(query: string) returns (out: string)
    ensures out == Rebound(query, 1)
  {
    out := "";
    var placeholder := 1;
    var i := 0;
    while i < |query|
      invariant i <= |query|
      invariant Rebound(query, 1) == out + Rebound(query[i..], placeholder)
    {
      var piece, j, next := CopyToken(query, i, placeholder);
      assert query[j..] == Rest(query[i..]);
      out, i, placeholder := out + piece, j, next;
    }
  }

  // ---------------------------------------------------------------- what is written

  function Sources(ts: seq<Token>): seq<string> {
    seq(|ts|, j requires 0 <= j < |ts| => Source(ts[j]))
  }

  /** Token by token: placeholder number n becomes $n, a doubled mark a single one, all else is kept. */
  function Pieces(ts: seq<Token>, k: nat): seq<string> {
    seq(|ts|, j requires 0 <= j < |ts| => Written(ts[j], k + Count(ts[..j])))
  }

  /** Nothing of the query is lost or moved: the tokens spell it out. */
  lemma {:induction false} TokensSpellTheQuery(s: string)
    ensures Concat(Sources(Tokens(s))) == s
  {
    if s != "" {
      TokensSpellTheQuery(Rest(s));
      ConcatFirst(First(s), Tokens(Rest(s)));
    }
  }

  lemma ConcatFirst(t: Token, rest: seq<Token>)
    ensures Concat(Sources([t] + rest)) == Source(t) + Concat(Sources(rest))
  {
    assert Sources([t] + rest)[1..] == Sources(rest);
  }

  lemma {:induction false} CountFirst(ts: seq<Token>)
    requires ts != []
    ensures Count(ts) == Count(ts[1..]) + if IsPlaceholder(ts[0]) then 1 else 0
  {
    if |ts| == 1 {
      assert ts[..0] == [] && ts[1..] == [];
    } else {
      var init := ts[..|ts| - 1];
      CountFirst(init);
      assert init[1..] == ts[1..][..|ts| - 2];
    }
  }

  lemma PiecesFirst(ts: seq<Token>, k: nat)
    requires ts != []
    ensures Pieces(ts, k) == [Written(ts[0], k)] + Pieces(ts[1..], if IsPlaceholder(ts[0]) then k + 1 else k)
  {
    forall j | 1 <= j < |ts| ensures Count(ts[..j]) == Count(ts[1..][..j - 1]) + if IsPlaceholder(ts[0]) then 1 else 0 {
      CountFirst(ts[..j]);
      assert ts[..j][1..] == ts[1..][..j - 1];
    }
  }

  /** Placeholders are numbered in order with no gaps, and nothing else is touched. */
  lemma {:induction false} PlaceholdersAreNumbered(s: string, k: nat)
    ensures Rebound(s, k) == Concat(Pieces(Tokens(s), k))
  {
    if s != "" {
      PlaceholdersAreNumbered(Rest(s), if IsPlaceholder(First(s)) then k + 1 else k);
      PiecesFirst(Tokens(s), k);
      assert Tokens(s)[1..] == Tokens(Rest(s));
    }
  }

  // ---------------------------------------------------------------- what the tokens are

  /** What one character or one comment mark does to the nesting depth. */
  function StepLen(s: string): (n: nat)
    ensures s != "" ==> 0 < n <= |s|
  {
    if Opens(s) || Closes(s) then 2 else 1
  }

  function DepthAfter(s: string, depth: nat): nat
    requires depth > 0
  {
    if Opens(s) then depth + 1 else if Closes(s) then depth - 1 else depth
  }

  lemma BlockStep(s: string, depth: nat)
    requires s != "" && depth > 0
    ensures BlockLen(s, depth) == StepLen(s) + BlockLen(s[StepLen(s)..], DepthAfter(s, depth))
  {
  }

  lemma SliceTwice(s: string, m: nat, n: nat)
    requires m + n <= |s|
    ensures s[m..][n..] == s[m + n..]
  {
  }

  /** Comments nest: once the inner ones are closed, the outer ones go on from there. */
  lemma {:induction false} CommentsNest(s: string, inner: nat, outer: nat)
    ensures BlockLen(s, inner + outer) == BlockLen(s, inner) + BlockLen(s[BlockLen(s, inner)..], outer)
    decreases |s|
  {
    if s != "" && inner > 0 {
      NestStep(s, inner, outer, StepLen(s), s[StepLen(s)..], DepthAfter(s, inner));
    } else {
      assert s[0..] == s;
    }
  }

  lemma NestStep(s: string, inner: nat, outer: nat, n: nat, rest: string, depth: nat)
    requires s != "" && inner > 0 && n == StepLen(s) && rest == s[n..] && depth == DepthAfter(s, inner)
    ensures BlockLen(s, inner + outer) == BlockLen(s, inner) + BlockLen(s[BlockLen(s, inner)..], outer)
    decreases |s|, 0
  {
    CommentsNest(rest, depth, outer);
    var m := BlockLen(rest, depth);
    SliceTwice(s, n, m);
    BlockStep(s, inner);
    BlockStep(s, inner + outer);
  }

  /** A value written as a quoted text, its quotes doubled and its backslashes escaped. */
  function Escaped(value: string): string {
    if value == "" then ""
    else (if value[0] == '\'' then "''" else if value[0] == '\\' then "\\\\" else [value[0]]) + Escaped(value[1..])
  }

  /** A quoted value ends at its own closing quote, whatever the value contains. */
  lemma {:induction false} QuotedValueIsKept(value: string, rest: string)
    requires rest == "" || rest[0] != '\''
    ensures QuotedLen(Escaped(value) + "'" + rest) == |Escaped(value)| + 1
  {
    var s := Escaped(value) + "'" + rest;
    if value != "" {
      QuotedValueIsKept(value[1..], rest);
      var step := if value[0] == '\'' || value[0] == '\\' then 2 else 1;
      assert s[step..] == Escaped(value[1..]) + "'" + rest;
    }
  }

  /** `d` occurs in `s` and ends before position `n`. */
  predicate EndsAt(s: string, d: string, n: nat) {
    |d| <= n <= |s| && s[n - |d|..n] == d
  }

  lemma EndsAtTail(s: string, d: string, n: nat)
    requires s != "" && EndsAt(s[1..], d, n)
    ensures EndsAt(s, d, n + 1)
  {
    assert s[1..][n - |d|..n] == s[n + 1 - |d|..n + 1];
  }

  lemma StartsAtTail(s: string, d: string, k: nat)
    requires 0 < k <= |s| && d <= s[k..]
    ensures d <= s[1..][k - 1..]
  {
    assert s[k..] == s[1..][k - 1..];
  }

  lemma EndsAtStart(s: string, d: string)
    requires d <= s
    ensures PastFirst(s, d) == |d| && EndsAt(s, d, |d|)
  {
    assert s[0..|d|] == d;
  }

  /** A dollar-quoted body ends with the first repetition of its delimiter, if there is one. */
  lemma {:induction false} BodyEndsAtFirst(s: string, d: string, k: nat)
    requires k <= |s| && d <= s[k..]
    ensures PastFirst(s, d) <= k + |d| && EndsAt(s, d, PastFirst(s, d))
  {
    if d <= s {
      EndsAtStart(s, d);
    } else {
      LaterOnly(s, d, k);
      StartsAtTail(s, d, k);
      BodyEndsAtFirst(s[1..], d, k - 1);
      EndsAtTail(s, d, PastFirst(s[1..], d));
    }
  }

  lemma LaterOnly(s: string, d: string, k: nat)
    requires k <= |s| && d <= s[k..] && !(d <= s)
    ensures k > 0 && s != "" && PastFirst(s, d) == 1 + PastFirst(s[1..], d)
  {
    assert s[0..] == s;
  }

  lemma {:induction false} BodyWithoutEnd(s: string, d: string)
    requires forall k :: 0 <= k <= |s| ==> !(d <= s[k..])
    ensures PastFirst(s, d) == |s|
  {
    assert s[0..] == s;
    if s != "" {
      forall k | 0 <= k <= |s| - 1 ensures !(d <= s[1..][k..]) {
        assert s[1..][k..] == s[k + 1..];
      }
      BodyWithoutEnd(s[1..], d);
    }
  }
}

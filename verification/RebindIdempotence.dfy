/**
  What scanning a rewritten query finds: the tokens of the query again, where nothing hides
  them. And for any text, rewriting changes nothing exactly when it holds no token that is
  rewritten.
 */
module RebindIdempotence {

  import opened Common
  import opened RebindPostgres
  import Decimal

  /** None of the tokens is rewritten. */
  predicate Stable(us: seq<Token>) {
    us != [] ==> !us[0].Placeholder? && !us[0].DoubledMark? && Stable(us[1..])
  }

  lemma TokensSplit(s: string)
    requires s != ""
    ensures Tokens(s) == [First(s)] + Tokens(Rest(s)) && Tokens(s)[1..] == Tokens(Rest(s)) && |Rest(s)| < |s|
  {
  }

  lemma {:induction false} StableIsUnchanged(s: string, k: nat)
    requires Stable(Tokens(s))
    ensures Rebound(s, k) == s
  {
    if s != "" {
      TokensSplit(s);
      StableIsUnchanged(Rest(s), k);
    }
  }

  // ---------------------------------------------------------------- tokens look ahead one character

  /** `r` begins as `q` does, as far as a token before it can tell. */
  predicate StartsLike(r: string, q: string) {
    if q == "" then r == "" else r != "" && (r[0] == q[0] || (q[0] == '?' && r[0] == '$'))
  }

  /** `t` has the first `n` characters of `s`, and then something that starts like the rest of `s`. */
  predicate Agrees(t: string, s: string, n: nat)
    requires n <= |s|
  {
    n <= |t| && t[..n] == s[..n] && StartsLike(t[n..], s[n..])
  }

  lemma AgreesTail(t: string, s: string, n: nat, step: nat)
    requires step <= n <= |s| && Agrees(t, s, n)
    ensures Agrees(t[step..], s[step..], n - step)
  {
    assert t[step..][..n - step] == t[..n][step..];
    assert s[step..][..n - step] == s[..n][step..];
    assert t[step..][n - step..] == t[n..] && s[step..][n - step..] == s[n..];
  }

  lemma AgreesAt(t: string, s: string, n: nat, i: nat)
    requires i <= n <= |s| && i < |s| && Agrees(t, s, n)
    ensures i < |t|
    ensures i < n ==> t[i] == s[i]
    ensures i == n && s[i] != '?' ==> t[i] == s[i]
    ensures i == n && s[i] == '?' ==> t[i] == '?' || t[i] == '$'
  {
    if i < n {
      assert t[..n][i] == s[..n][i];
    } else {
      assert t[n..][0] == t[n] && s[n..][0] == s[n];
    }
  }

  lemma {:induction false} QuotedAgrees(t: string, s: string)
    requires Agrees(t, s, QuotedLen(s))
    ensures QuotedLen(t) == QuotedLen(s)
  {
    var n := QuotedLen(s);
    if s == "" {
      assert t[0..] == t && s[0..] == s;
    } else {
      AgreesAt(t, s, n, 0);
      if |s| > 1 {
        AgreesAt(t, s, n, 1);
      } else {
        assert t[n..] == "";
      }
      var step := if s[0] == '\\' && |s| > 1 then 2 else if s[0] == '\'' && |s| > 1 && s[1] == '\'' then 2 else 1;
      AgreesTail(t, s, n, step);
      if step == 2 || s[0] != '\'' {
        QuotedAgrees(t[step..], s[step..]);
      }
    }
  }

  lemma {:induction false} IdentifierAgrees(t: string, s: string)
    requires Agrees(t, s, IdentifierLen(s))
    ensures IdentifierLen(t) == IdentifierLen(s)
  {
    var n := IdentifierLen(s);
    if s == "" {
      assert t[0..] == t && s[0..] == s;
    } else {
      AgreesAt(t, s, n, 0);
      if |s| > 1 {
        AgreesAt(t, s, n, 1);
      } else {
        assert t[n..] == "";
      }
      var step := if s[0] == '"' && |s| > 1 && s[1] == '"' then 2 else 1;
      AgreesTail(t, s, n, step);
      if step == 2 || s[0] != '"' {
        IdentifierAgrees(t[step..], s[step..]);
      }
    }
  }

  lemma {:induction false} LineAgrees(t: string, s: string)
    requires Agrees(t, s, LineLen(s))
    ensures LineLen(t) == LineLen(s)
  {
    var n := LineLen(s);
    if s == "" {
      assert t[0..] == t && s[0..] == s;
    } else {
      AgreesAt(t, s, n, 0);
      if s[0] != '\n' {
        AgreesTail(t, s, n, 1);
        LineAgrees(t[1..], s[1..]);
      }
    }
  }

  lemma {:induction false} BlockAgrees(t: string, s: string, depth: nat)
    requires Agrees(t, s, BlockLen(s, depth))
    ensures BlockLen(t, depth) == BlockLen(s, depth)
    decreases |s|
  {
    var n := BlockLen(s, depth);
    if s == "" {
      assert t[0..] == t && s[0..] == s;
    } else if depth > 0 {
      AgreesAt(t, s, n, 0);
      if |s| > 1 {
        AgreesAt(t, s, n, 1);
      } else {
        assert t[n..] == "";
      }
      var step := if Opens(s) || Closes(s) then 2 else 1;
      AgreesTail(t, s, n, step);
      BlockAgrees(t[step..], s[step..], if Opens(s) then depth + 1 else if Closes(s) then depth - 1 else depth);
    }
  }

  /** Outside dollar bodies a token does not change when what follows it starts alike. */
  lemma FirstAgrees(s: string, r: string)
    requires s != "" && s[0] != '$' && !First(s).Placeholder? && !First(s).DoubledMark?
    requires StartsLike(r, Rest(s))
    ensures First(Source(First(s)) + r) == First(s)
    ensures Rest(Source(First(s)) + r) == r
  {
    var n := |Source(First(s))|;
    var t := Source(First(s)) + r;
    assert t[..n] == s[..n] && t[n..] == r;
    assert Agrees(t, s, n);
    AgreesAt(t, s, n, 0);
    if |s| > 1 {
      AgreesAt(t, s, n, 1);
    }
    SameFirst(t, s, n);
    assert First(t) == First(s);
  }

  lemma SameFirst(t: string, s: string, n: nat)
    requires s != "" && s[0] != '$' && !First(s).Placeholder? && !First(s).DoubledMark?
    requires n == |Source(First(s))| && Agrees(t, s, n) && t != ""
    ensures First(t) == First(s)
  {
    AgreesAt(t, s, n, 0);
    if s[0] == '\'' || s[0] == '"' {
      SameText(t, s, n);
    } else if s[0] == '-' || s[0] == '/' {
      SameComment(t, s, n);
    } else if s[0] == '?' {
      AgreesAt(t, s, n, 1);
    }
  }

  lemma SameText(t: string, s: string, n: nat)
    requires s != "" && (s[0] == '\'' || s[0] == '"')
    requires n == |Source(First(s))| && Agrees(t, s, n) && t != ""
    ensures First(t) == First(s)
  {
    AgreesAt(t, s, n, 0);
    AgreesTail(t, s, n, 1);
    if s[0] == '"' {
      IdentifierAgrees(t[1..], s[1..]);
    } else {
      QuotedAgrees(t[1..], s[1..]);
    }
    assert t[..n] == s[..n];
  }

  lemma SameComment(t: string, s: string, n: nat)
    requires s != "" && (s[0] == '-' || s[0] == '/')
    requires n == |Source(First(s))| && Agrees(t, s, n) && t != ""
    ensures First(t) == First(s)
  {
    AgreesAt(t, s, n, 0);
    SecondAgrees(t, s, n);
    if n > 1 {
      AgreesTail(t, s, n, 2);
      if s[0] == '-' {
        SameLine(t, s, n);
      } else {
        SameBlock(t, s, n);
      }
    }
  }

  lemma SameLine(t: string, s: string, n: nat)
    requires |s| > 1 && s[0] == s[1] == '-' && |t| > 1 && t[0] == t[1] == '-'
    requires n == 2 + LineLen(s[2..]) <= |t| && t[..n] == s[..n] && Agrees(t[2..], s[2..], n - 2)
    ensures First(t) == First(s)
  {
    LineAgrees(t[2..], s[2..]);
  }

  lemma SameBlock(t: string, s: string, n: nat)
    requires Opens(s) && Opens(t)
    requires n == 2 + BlockLen(s[2..], 1) <= |t| && t[..n] == s[..n] && Agrees(t[2..], s[2..], n - 2)
    ensures First(t) == First(s)
  {
    BlockAgrees(t[2..], s[2..], 1);
  }

  lemma SecondAgrees(t: string, s: string, n: nat)
    requires 0 < n <= |s| && Agrees(t, s, n)
    ensures (|t| > 1) == (|s| > 1)
    ensures |s| > 1 ==> t[1] == s[1] || (s[1] == '?' && t[1] == '$')
  {
    if |s| > 1 {
      AgreesAt(t, s, n, 1);
    } else {
      assert t[n..] == "";
    }
  }

  /** What is written for a query begins as the query does. */
  lemma ReboundStartsLike(q: string, k: nat)
    ensures StartsLike(Rebound(q, k), q)
  {
  }

  // ---------------------------------------------------------------- a rewritten token shows

  function Marks(m: nat): (s: string)
    ensures |s| == m && forall i :: 0 <= i < m ==> s[i] == '?'
  {
    seq(m, _ => '?')
  }

  lemma MarkBehind(r: string, rest: string, m: nat)
    requires "?" + r == Marks(m) + ("??" + rest) && m > 0
    ensures r == Marks(m + 1) + rest
  {
    var all := "?" + r;
    assert all[1..] == r;
    assert (Marks(m) + ("??" + rest))[1..] == Marks(m + 1) + rest;
  }

  lemma KeptBehind(r: string, rest: string, m: nat)
    requires m > 0 && rest != "" && rest[0] != '?' && r != "" && r[0] == rest[0]
    ensures "?" + r != Marks(m) + ("?" + rest)
  {
    assert ("?" + r)[1] == rest[0];
    assert (Marks(m) + ("?" + rest))[1] == '?';
  }

  lemma OtherBehind(a: string, b: string, m: nat)
    requires m > 0 && a != "" && a[0] != '?'
    ensures a != Marks(m) + b
  {
    assert (Marks(m) + b)[0] == '?';
  }

  lemma WrittenStart(x: string, k: nat)
    requires x != "" && !First(x).DoubledMark? && !First(x).KeptMark?
    ensures Rebound(x, k) != "" && Rebound(x, k)[0] != '?'
  {
  }

  lemma KeptParts(x: string, k: nat)
    requires x != "" && First(x).KeptMark?
    ensures x == "?" + Rest(x) && Rebound(x, k) == "?" + Rebound(Rest(x), k)
    ensures Rest(x) != "" && (Rest(x)[0] == '|' || Rest(x)[0] == '&')
  {
    assert Rest(x)[0] == x[1];
  }

  lemma DoubledParts(x: string, k: nat)
    requires x != "" && First(x).DoubledMark?
    ensures x == "??" + Rest(x) && Rebound(x, k) == "?" + Rebound(Rest(x), k) && |Rest(x)| < |x|
  {
  }

  /** What is written for a text is never that text behind some marks. */
  lemma {:induction false} NeverShifted(x: string, k: nat, m: nat)
    requires m > 0
    ensures Rebound(x, k) != Marks(m) + x
    decreases |x|
  {
    if x != "" {
      if First(x).DoubledMark? {
        DoubledParts(x, k);
        NeverShifted(Rest(x), k, m + 1);
        if "?" + Rebound(Rest(x), k) == Marks(m) + ("??" + Rest(x)) {
          MarkBehind(Rebound(Rest(x), k), Rest(x), m);
        }
      } else if First(x).KeptMark? {
        KeptParts(x, k);
        ReboundStartsLike(Rest(x), k);
        KeptBehind(Rebound(Rest(x), k), Rest(x), m);
      } else {
        WrittenStart(x, k);
        OtherBehind(Rebound(x, k), x, m);
      }
    }
  }

  lemma ChangesBehind(t: Token, k: nat, rest: string, more: string)
    requires t.DoubledMark? ==> more != "?" + rest
    requires !t.DoubledMark? && !t.Placeholder? ==> more != rest
    ensures Written(t, k) + more != Source(t) + rest
  {
    var n := |Written(t, k)|;
    if t.Placeholder? {
      assert (Written(t, k) + more)[0] == '$';
    } else {
      assert (Written(t, k) + more)[n..] == more;
      assert (Source(t) + rest)[n..] == if t.DoubledMark? then "?" + rest else rest;
    }
  }

  lemma {:induction false} UnstableChanges(s: string, k: nat)
    requires !Stable(Tokens(s))
    ensures Rebound(s, k) != s
  {
    TokensSplit(s);
    var t, rest := First(s), Rest(s);
    var next := NextNumber(t, k);
    if t.DoubledMark? {
      NeverShifted(rest, next, 1);
      assert Marks(1) == "?";
    } else if !t.Placeholder? {
      UnstableChanges(rest, next);
    }
    ChangesBehind(t, k, rest, Rebound(rest, next));
  }

  /** Whatever the text, rewriting keeps it exactly when none of its tokens is rewritten. */
  lemma UnchangedIff(s: string, k: nat)
    ensures Rebound(s, k) == s <==> Stable(Tokens(s))
  {
    if Stable(Tokens(s)) {
      StableIsUnchanged(s, k);
    } else {
      UnstableChanges(s, k);
    }
  }

  // ---------------------------------------------------------------- what is written for tokens

  function NextNumber(t: Token, k: nat): nat {
    if t.Placeholder? then k + 1 else k
  }

  /** What is written for tokens, the first placeholder being number `k`. */
  function Render(ts: seq<Token>, k: nat): string {
    if ts == [] then "" else Written(ts[0], k) + Render(ts[1..], NextNumber(ts[0], k))
  }

  lemma {:induction false} RenderIsRebound(q: string, k: nat)
    ensures Render(Tokens(q), k) == Rebound(q, k)
  {
    if q != "" {
      RenderIsRebound(Rest(q), NextNumber(First(q), k));
      assert Tokens(q)[1..] == Tokens(Rest(q));
    }
  }

  predicate IsOperator(t: Token) {
    t == Other('|') || t == Other('&')
  }

  /** A doubled mark that no | or & follows: the single mark written for it would be a placeholder. */
  predicate Bare(ts: seq<Token>)
    requires ts != []
  {
    ts[0].DoubledMark? && !(|ts| > 1 && IsOperator(ts[1]))
  }

  predicate NoneBare(ts: seq<Token>) {
    ts != [] ==> !Bare(ts) && NoneBare(ts[1..])
  }

  predicate HasNoDollar(s: string) {
    forall i :: 0 <= i < |s| ==> s[i] != '$'
  }

  lemma RestHasNoDollar(q: string)
    requires q != "" && HasNoDollar(q)
    ensures HasNoDollar(Rest(q)) && HasNoDollar(Source(First(q))) && q[0] != '$'
  {
    var n := |Source(First(q))|;
    assert forall i :: 0 <= i < |Rest(q)| ==> Rest(q)[i] == q[n + i];
  }

  ghost predicate IsDigits(d: string) {
    forall i :: 0 <= i < |d| ==> Decimal.IsDigit(d[i])
  }

  lemma FormatIsDigits(k: nat)
    ensures IsDigits(Decimal.Format(k)) && HasNoDollar(Decimal.Format(k)) && Decimal.Format(k) != ""
  {
    Decimal.FormatReadsBack(k);
  }

  lemma SplitOff(q: string) returns (t: Token, r: string)
    requires q != ""
    ensures Tokens(q) == [t] + Tokens(r) && |r| < |q|
  {
    TokensSplit(q);
    t, r := First(q), Rest(q);
  }

  lemma ConsTail(t: Token, ts: seq<Token>, i: nat)
    requires 0 < i <= |ts| + 1
    ensures ([t] + ts)[i..] == ts[i - 1..]
  {
  }

  /** The part of the query from its token `i` on. */
  lemma {:induction false} SuffixAt(q: string, i: nat) returns (r: string)
    requires i <= |Tokens(q)|
    ensures Tokens(r) == Tokens(q)[i..] && (if i == 0 then r == q else |r| < |q|)
    decreases |q|
  {
    if i == 0 {
      r := q;
    } else {
      var t, rest := SplitOff(q);
      r := SuffixAt(rest, i - 1);
      ConsTail(t, Tokens(rest), i);
    }
  }

  // ---------------------------------------------------------------- scanning what was written

  lemma ScanCons(s: string, u: Token, rest: string)
    requires s != "" && First(s) == u && s == Source(u) + rest
    ensures Tokens(s) == [u] + Tokens(rest)
  {
    assert Rest(s) == rest;
  }

  lemma DigitFirst(s: string)
    requires s != "" && Decimal.IsDigit(s[0])
    ensures First(s) == Other(s[0])
  {
  }

  lemma DigitInFront(d: string, r: string, text: string) returns (d1: string, more: string)
    requires d != "" && IsDigits(d) && text == d + r
    ensures IsDigits(d1) && |d1| == |d| - 1 && more == d1 + r && Tokens(text) == [Other(d[0])] + Tokens(more)
  {
    d1, more := d[1..], d[1..] + r;
    assert text == [d[0]] + more;
    DigitAgain(d[0], text, more);
  }

  lemma DigitAgain(c: char, text: string, more: string)
    requires Decimal.IsDigit(c) && text == [c] + more
    ensures Tokens(text) == [Other(c)] + Tokens(more)
  {
    DigitFirst(text);
    ScanCons(text, Other(c), more);
  }

  lemma DollarFirst(s: string)
    requires s != "" && s[0] == '$' && Delimiter(s) == ""
    ensures First(s) == Other('$')
  {
  }

  lemma LoneSign(text: string, more: string)
    requires text == "$" + more && Delimiter(text) == ""
    ensures Tokens(text) == [Other('$')] + Tokens(more)
  {
    DollarFirst(text);
    ScanCons(text, Other('$'), more);
  }

  lemma BodyFirst(s: string) returns (head: string, tail: string)
    requires s != "" && s[0] == '$' && Delimiter(s) != ""
    ensures s == head + tail && |head| == DollarLen(s) && First(s) == DollarBody(head)
  {
    head, tail := s[..DollarLen(s)], s[DollarLen(s)..];
  }

  lemma OperatorFirst(r: string)
    requires r != ""
    ensures IsOperator(First(r)) <==> r[0] == '|' || r[0] == '&'
  {
  }

  lemma OperatorNext(r: string)
    ensures Tokens(r) != [] && IsOperator(Tokens(r)[0]) <==> r != "" && (r[0] == '|' || r[0] == '&')
  {
    if r != "" {
      TokensSplit(r);
      OperatorFirst(r);
    }
  }

  /** What follows a single mark decides what it is, as far as its first character tells. */
  lemma MarkFirst(text: string, rest: string, r: string)
    requires text == "?" + rest && StartsLike(rest, r)
    ensures if r == "" || (r[0] != '|' && r[0] != '&') then First(text).Placeholder? || First(text).DoubledMark?
      else First(text).KeptMark?
  {
    assert rest != "" ==> text[1] == rest[0];
  }

  /** A single mark, `rest` behind it being written for `r`, is kept exactly when `r` starts with an operator. */
  predicate MarkScanned(u: Token, vs: seq<Token>, rest: string, r: string) {
    && (u.Placeholder? || u.DoubledMark? || u.KeptMark?)
    && (u.KeptMark? <==> Tokens(r) != [] && IsOperator(Tokens(r)[0]))
    && (u.KeptMark? ==> vs == Tokens(rest))
  }

  lemma MarkFound(text: string, rest: string, r: string) returns (u: Token, vs: seq<Token>)
    requires text == "?" + rest && StartsLike(rest, r)
    ensures Tokens(text) == [u] + vs && MarkScanned(u, vs, rest, r)
  {
    u, vs := First(text), Tokens(Rest(text));
    TokensSplit(text);
    MarkFirst(text, rest, r);
    OperatorNext(r);
    if u.KeptMark? {
      ScanCons(text, u, rest);
    }
  }

  /** What the scan finds for a token that neither is a placeholder nor starts with a dollar sign. */
  lemma ScannedAgain(q: string, k: nat, text: string)
      returns (t: Token, r: string, rest: string, u: Token, vs: seq<Token>)
    requires q != "" && q[0] != '$' && text == Rebound(q, k) && !First(q).Placeholder?
    ensures Tokens(q) == [t] + Tokens(r) && |r| < |q| && t == First(q)
    ensures rest == Rebound(r, k) && Tokens(text) == [u] + vs
    ensures t.DoubledMark? ==> MarkScanned(u, vs, rest, r)
    ensures !t.DoubledMark? ==> u == t && vs == Tokens(rest)
  {
    TokensSplit(q);
    t, r, rest := First(q), Rest(q), Rebound(Rest(q), k);
    ReboundStartsLike(r, k);
    if t.DoubledMark? {
      u, vs := MarkFound(text, rest, r);
    } else {
      FirstAgrees(q, rest);
      ScanCons(text, t, rest);
      u, vs := t, Tokens(rest);
    }
  }
}

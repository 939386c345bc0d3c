/**
  What the rewriting does to each thing a query can go on with, told from its text: quoted
  texts, quoted identifiers, comments and dollar-quoted bodies are kept up to where they end,
  and marks are numbered, kept or halved.
 */
module RebindVerbatim {
  import opened Common
  import opened RebindPostgres
  import Decimal

  lemma Step(s: string, t: Token, r: string, k: nat)
    requires s != "" && First(s) == t && Source(t) + r == s
    ensures Rebound(s, k) == Written(t, k) + Rebound(r, if t.Placeholder? then k + 1 else k)
  {
    assert s[|Source(t)|..] == r;
  }

  // ---------------------------------------------------------------- marks

  /** A mark that no mark and no operator follows is a placeholder. */
  lemma MarkIsNumbered(s: string, r: string, k: nat)
    requires s == "?" + r && (r == "" || r[0] !in "?|&")
    ensures Rebound(s, k) == "$" + Decimal.Format(k) + Rebound(r, k + 1)
  {
    Step(s, Placeholder, r, k);
  }

  /** The marks of the operators are kept. */
  lemma OperatorIsKept(s: string, r: string, k: nat)
    requires s == "?" + r && r != "" && r[0] in "|&"
    ensures Rebound(s, k) == s[..1] + Rebound(r, k)
  {
    Step(s, KeptMark, r, k);
  }

  lemma DoubledIsHalved(s: string, r: string, k: nat)
    requires s == "??" + r
    ensures Rebound(s, k) == "?" + Rebound(r, k)
  {
    Step(s, DoubledMark, r, k);
  }

  /** Any other character stands for itself, as does one that opens nothing. */
  lemma OtherIsKept(s: string, c: char, r: string, k: nat)
    requires s == [c] + r && c !in "'\"?"
    requires c == '-' ==> r == "" || r[0] != '-'
    requires c == '/' ==> r == "" || r[0] != '*'
    requires c == '$' ==> TagLen(r) == 0
    ensures Rebound(s, k) == [c] + Rebound(r, k)
  {
    assert s[1..] == r;
    Step(s, Other(c), r, k);
  }

  // ---------------------------------------------------------------- text that is kept

  /** `text` opens the query and is kept as it is. */
  lemma TextIsKept(s: string, t: Token, text: string, r: string, k: nat)
    requires s == text + r && s != "" && First(s) == t && Source(t) == text && !t.Placeholder? && !t.DoubledMark?
    ensures Rebound(s, k) == text + Rebound(r, k)
  {
    Step(s, t, r, k);
  }

  /** A quoted text whose quotes are doubled and whose backslashes are escaped. */
  lemma QuotedIsKept(s: string, value: string, r: string, k: nat)
    requires s == "'" + Escaped(value) + "'" + r && (r == "" || r[0] != '\'')
    ensures Rebound(s, k) == "'" + Escaped(value) + "'" + Rebound(r, k)
  {
    QuotedValueIsKept(value, r);
    var text := "'" + Escaped(value) + "'";
    assert s[1..] == Escaped(value) + "'" + r;
    assert s[..1 + QuotedLen(s[1..])] == text;
    TextIsKept(s, Quoted(text), text, r, k);
  }

  /** A name as it stands in a quoted identifier, its double quotes doubled. */
  function DoubledQuotes(name: string): string {
    if name == "" then "" else (if name[0] == '"' then "\"\"" else [name[0]]) + DoubledQuotes(name[1..])
  }

  lemma {:induction false} IdentifierEnds(name: string, r: string)
    requires r == "" || r[0] != '"'
    ensures IdentifierLen(DoubledQuotes(name) + "\"" + r) == |DoubledQuotes(name)| + 1
  {
    var s := DoubledQuotes(name) + "\"" + r;
    if name != "" {
      IdentifierEnds(name[1..], r);
      var step := if name[0] == '"' then 2 else 1;
      assert s[step..] == DoubledQuotes(name[1..]) + "\"" + r;
    }
  }

  lemma IdentifierIsKept(s: string, name: string, r: string, k: nat)
    requires s == "\"" + DoubledQuotes(name) + "\"" + r && (r == "" || r[0] != '"')
    ensures Rebound(s, k) == "\"" + DoubledQuotes(name) + "\"" + Rebound(r, k)
  {
    IdentifierEnds(name, r);
    var text := "\"" + DoubledQuotes(name) + "\"";
    assert s[1..] == DoubledQuotes(name) + "\"" + r;
    assert s[..1 + IdentifierLen(s[1..])] == text;
    TextIsKept(s, Identifier(text), text, r, k);
  }

  lemma {:induction false} LineEnds(body: string, r: string)
    requires '\n' !in body && (r == "" || r[0] == '\n')
    ensures LineLen(body + r) == |body|
  {
    var s := body + r;
    if body == "" {
      assert s == r;
    } else {
      assert s[0] == body[0] && s[1..] == body[1..] + r;
      LineEnds(body[1..], r);
    }
  }

  /** A line comment, up to the end of its line. */
  lemma LineCommentIsKept(s: string, body: string, r: string, k: nat)
    requires s == "--" + body + r && '\n' !in body && (r == "" || r[0] == '\n')
    ensures Rebound(s, k) == "--" + body + Rebound(r, k)
  {
    LineEnds(body, r);
    assert s[2..] == body + r && s[..2 + |body|] == "--" + body;
    TextIsKept(s, LineComment("--" + body), "--" + body, r, k);
  }

  /** No comment opens or closes at any of its first `n` characters. */
  ghost predicate NoMarks(s: string, n: nat)
    requires n <= |s|
  {
    forall i :: 0 <= i < n ==> !Opens(s[i..]) && !Closes(s[i..])
  }

  lemma NoMarksTail(s: string, n: nat)
    requires 0 < n <= |s| && NoMarks(s, n)
    ensures NoMarks(s[1..], n - 1) && StepLen(s) == 1
  {
    assert s[0..] == s;
    forall i | 0 <= i < n - 1 ensures !Opens(s[1..][i..]) && !Closes(s[1..][i..]) {
      assert s[1..][i..] == s[i + 1..];
    }
  }

  lemma {:induction false} BlockGoesOn(s: string, n: nat, depth: nat)
    requires n <= |s| && NoMarks(s, n) && depth > 0
    ensures BlockLen(s, depth) == n + BlockLen(s[n..], depth)
  {
    if n > 0 {
      NoMarksTail(s, n);
      BlockStep(s, depth);
      BlockGoesOn(s[1..], n - 1, depth);
      SliceTwice(s, 1, n - 1);
    } else {
      assert s[0..] == s;
    }
  }

  lemma BlockEndsAfter(body: string, r: string)
    requires NoMarks(body + "*/" + r, |body|)
    ensures BlockLen(body + "*/" + r, 1) == |body| + 2
  {
    BlockGoesOn(body + "*/" + r, |body|, 1);
    assert (body + "*/" + r)[|body|..] == "*/" + r;
    BlockCloses("*/" + r);
  }

  lemma BlockCloses(s: string)
    requires Closes(s)
    ensures BlockLen(s, 1) == 2
  {
  }

  /** A block comment without comments in it, up to the first closing mark. */
  lemma BlockCommentIsKept(s: string, body: string, r: string, text: string, k: nat)
    requires text == "/*" + body + "*/" && s == text + r && NoMarks(body + "*/" + r, |body|)
    ensures Rebound(s, k) == text + Rebound(r, k)
  {
    BlockEndsAfter(body, r);
    assert s[2..] == body + "*/" + r && s[..|text|] == text;
    TextIsKept(s, BlockComment(text), text, r, k);
  }

  lemma BodyLen(s: string, d: string, after: string, n: nat)
    requires s == d + after && d != "" && d[0] == '$' && Delimiter(s) == d
    requires n <= |after| && d <= after[n..] && forall i :: 0 <= i < n ==> !(d <= after[i..])
    ensures DollarLen(s) == |d| + n + |d|
  {
    assert s[|d|..] == after;
    FoundThere(after, d, n);
  }

  lemma DollarFirst(s: string)
    requires s != "" && s[0] == '$' && Delimiter(s) != ""
    ensures First(s) == DollarBody(s[..DollarLen(s)])
  {
  }

  lemma BodyToken(s: string, d: string, after: string, n: nat, text: string)
    requires s == d + after && d != "" && d[0] == '$' && Delimiter(s) == d
    requires n <= |after| && d <= after[n..] && forall i :: 0 <= i < n ==> !(d <= after[i..])
    requires |text| == |d| + n + |d| && text <= s
    ensures First(s) == DollarBody(text)
  {
    BodyLen(s, d, after, n);
    DollarFirst(s);
  }

  /** A dollar-quoted body, up to the first repetition of its delimiter. */
  lemma BodyIsKept(s: string, d: string, body: string, after: string, r: string, k: nat)
    requires s == d + after && after == body + (d + r) && d != "" && d[0] == '$' && Delimiter(s) == d
    requires forall i :: 0 <= i < |body| ==> !(d <= after[i..])
    ensures Rebound(s, k) == d + body + d + Rebound(r, k)
  {
    var text := d + body + d;
    assert after[|body|..] == d + r;
    BodyIsText(s, d, body, r, text);
    BodyToken(s, d, after, |body|, text);
    TextIsKept(s, DollarBody(text), text, r, k);
  }

  lemma BodyIsText(s: string, d: string, body: string, r: string, text: string)
    requires s == d + (body + (d + r)) && text == d + body + d
    ensures s == text + r && s[..|text|] == text
  {
  }

  lemma {:induction false} FoundThere(s: string, d: string, n: nat)
    requires n <= |s| && d <= s[n..] && forall i :: 0 <= i < n ==> !(d <= s[i..])
    ensures PastFirst(s, d) == n + |d|
  {
    if n == 0 {
      assert s[0..] == s;
    } else {
      assert s[0..] == s && s[1..][n - 1..] == s[n..];
      forall i | 0 <= i < n - 1 ensures !(d <= s[1..][i..]) {
        assert s[1..][i..] == s[i + 1..];
      }
      FoundThere(s[1..], d, n - 1);
    }
  }

  /** A tag is made of letters, digits and underscores. */
  lemma TagChars(c: char)
    ensures var n := c as int; IsTagChar(c) <==> 97 <= n <= 122 || 65 <= n <= 90 || 48 <= n <= 57 || n == 95
  {
  }

  /** Two dollar signs with a tag between them, if any, open a body. */
  lemma {:induction false} TagEnds(tag: string, r: string)
    requires forall i :: 0 <= i < |tag| ==> IsTagChar(tag[i])
    ensures TagLen(tag + "$" + r) == |tag| + 1
  {
    var s := tag + "$" + r;
    if tag != "" {
      TagEnds(tag[1..], r);
      assert s[1..] == tag[1..] + "$" + r;
    }
  }

  lemma DelimiterIs(tag: string, r: string)
    requires forall i :: 0 <= i < |tag| ==> IsTagChar(tag[i])
    ensures Delimiter("$" + tag + "$" + r) == "$" + tag + "$"
  {
    var s := "$" + tag + "$" + r;
    TagEnds(tag, r);
    assert s[1..] == tag + "$" + r && s[..|tag| + 2] == "$" + tag + "$";
  }

  /** What is not closed takes the rest. */
  lemma UnclosedIsKept(s: string, d: string, k: nat)
    requires s != "" && s[0] == '$' && Delimiter(s) == d && d != ""
    requires forall i :: 0 <= i <= |s| - |d| ==> !(d <= s[|d|..][i..])
    ensures Rebound(s, k) == s
  {
    BodyWithoutEnd(s[|d|..], d);
    assert s[..|s|] == s && s + "" == s;
    TextIsKept(s, DollarBody(s), s, "", k);
  }
}

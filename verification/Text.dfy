/** The few string operations that several parts of the server share, on ASCII text. */
module Text {

  predicate IsSpace(c: char) {
    c == ' ' || '\t' <= c <= '\r'
  }

  predicate IsUpper(c: char) {
    'A' <= c <= 'Z'
  }

  function LowerChar(c: char): char {
    if IsUpper(c) then (c as int + 32) as char else c
  }

  function ToLower(s: string): (r: string)
    ensures |r| == |s| && forall i :: 0 <= i < |s| ==> r[i] == LowerChar(s[i])
  {
    seq(|s|, i requires 0 <= i < |s| => LowerChar(s[i]))
  }

  /** White space is blank, tab, line feed, vertical tab, form feed and carriage return; only the 26 capitals change. */
  lemma AsciiClasses(c: char)
    ensures var n := c as int;
      && (IsSpace(c) <==> n == 32 || n == 9 || n == 10 || n == 11 || n == 12 || n == 13)
      && LowerChar(c) as int == if 65 <= n <= 90 then n + 32 else n
  {
  }

  function TrimLeft(s: string, cut: char -> bool): (r: string)
    ensures |r| <= |s| && r == s[|s| - |r|..]
    ensures r != [] ==> !cut(r[0])
  {
    if s != [] && cut(s[0]) then TrimLeft(s[1..], cut) else s
  }

  function TrimRight(s: string, cut: char -> bool): (r: string)
    ensures |r| <= |s| && r == s[..|r|]
    ensures r != [] ==> !cut(r[|r| - 1])
  {
    if s != [] && cut(s[|s| - 1]) then TrimRight(s[..|s| - 1], cut) else s
  }

  function Trim(s: string, cut: char -> bool): string {
    TrimRight(TrimLeft(s, cut), cut)
  }

  function TrimSpace(s: string): string {
    Trim(s, IsSpace)
  }

  lemma TrimEnds(s: string, cut: char -> bool)
    ensures var r := Trim(s, cut); r != "" ==> !cut(r[0]) && !cut(r[|r| - 1])
  {
    var left := TrimLeft(s, cut);
    var r := TrimRight(left, cut);
    assert r != "" ==> r[0] == left[0];
  }

  lemma TrimMembers(s: string, cut: char -> bool)
    ensures forall c :: c in Trim(s, cut) ==> c in s
  {
  }

  lemma TrimKeeps(s: string, cut: char -> bool)
    requires s == "" || (!cut(s[0]) && !cut(s[|s| - 1]))
    ensures Trim(s, cut) == s
  {
  }

  predicate IsTrimmed(s: string) {
    s != "" ==> !IsSpace(s[0]) && !IsSpace(s[|s| - 1])
  }

  lemma SpaceTrimmed(s: string)
    ensures IsTrimmed(TrimSpace(s))
  {
    TrimEnds(s, IsSpace);
  }

  lemma TrimmedStays(s: string)
    requires IsTrimmed(s)
    ensures TrimSpace(s) == s
  {
    TrimKeeps(s, IsSpace);
  }

  function Filter(s: string, keep: char -> bool): (r: string)
    ensures forall c :: c in r ==> c in s && keep(c)
  {
    if s == [] then [] else (if keep(s[0]) then [s[0]] else []) + Filter(s[1..], keep)
  }

  /** The position of the first `c` at or after `from`, or the length of `s`. */
  function IndexFrom(s: string, c: char, from: nat): (i: nat)
    requires from <= |s|
    ensures from <= i <= |s| && c !in s[from..i] && (i < |s| ==> s[i] == c)
    decreases |s| - from
  {
    if from == |s| || s[from] == c then from else IndexFrom(s, c, from + 1)
  }

  /** The length of the text up to and including the last `c`; 0 when there is none. */
  function AfterLast(s: string, c: char): (n: nat)
    ensures n <= |s| && c !in s[n..] && (n > 0 ==> s[n - 1] == c)
  {
    if s == [] then 0
    else if s[|s| - 1] == c then |s|
    else
      var n := AfterLast(s[..|s| - 1], c);
      assert s[n..] == s[..|s| - 1][n..] + [s[|s| - 1]];
      n
  }

  function Split(s: string, c: char): (parts: seq<string>)
    ensures |parts| > 0
    decreases |s|
  {
    var i := IndexFrom(s, c, 0);
    if i == |s| then [s] else [s[..i]] + Split(s[i + 1..], c)
  }

  lemma LastIsUnique(left: string, c: char, right: string)
    requires c !in right
    ensures AfterLast(left + [c] + right, c) == |left| + 1
  {
    var s := left + [c] + right;
    var n := AfterLast(s, c);
    assert s[|left|] == c && s[|left| + 1..] == right;
  }

  lemma {:induction false} TrimRightAll(s: string, blank: string, cut: char -> bool)
    requires (forall i :: 0 <= i < |blank| ==> cut(blank[i])) && (s != "" ==> !cut(s[|s| - 1]))
    ensures TrimRight(s + blank, cut) == s
    decreases |blank|
  {
    if blank == "" {
      assert s + blank == s;
    } else {
      assert (s + blank)[..|s + blank| - 1] == s + blank[..|blank| - 1];
      TrimRightAll(s, blank[..|blank| - 1], cut);
    }
  }

  lemma {:induction false} TrimLeftAll(blank: string, s: string, cut: char -> bool)
    requires (forall i :: 0 <= i < |blank| ==> cut(blank[i])) && (s != "" ==> !cut(s[0]))
    ensures TrimLeft(blank + s, cut) == s
    decreases |blank|
  {
    if blank == "" {
      assert blank + s == s;
    } else {
      assert (blank + s)[1..] == blank[1..] + s;
      TrimLeftAll(blank[1..], s, cut);
    }
  }

  /** Trimming takes the white space at both ends, and nothing else. */
  lemma SpaceGoes(before: string, s: string, behind: string)
    requires forall i :: 0 <= i < |before| ==> IsSpace(before[i])
    requires forall i :: 0 <= i < |behind| ==> IsSpace(behind[i])
    requires IsTrimmed(s) && s != ""
    ensures TrimSpace(before + s + behind) == s
  {
    assert before + s + behind == before + (s + behind);
    TrimLeftAll(before, s + behind, IsSpace);
    TrimRightAll(s, behind, IsSpace);
  }

  /** The parts of a text, put together again. */
  function Join(parts: seq<string>, c: char): string {
    if parts == [] then "" else if |parts| == 1 then parts[0] else parts[0] + [c] + Join(parts[1..], c)
  }

  /** Splitting cuts at every separator and nowhere else. */
  lemma {:induction false} SplitIs(s: string, c: char)
    ensures Join(Split(s, c), c) == s
    ensures forall i :: 0 <= i < |Split(s, c)| ==> c !in Split(s, c)[i]
    decreases |s|
  {
    var i := IndexFrom(s, c, 0);
    assert s[0..i] == s[..i];
    if i < |s| {
      SplitIs(s[i + 1..], c);
      var parts := Split(s, c);
      assert parts[1..] == Split(s[i + 1..], c);
      assert s == s[..i] + [c] + s[i + 1..];
    } else {
      assert s[..i] == s;
    }
  }
}

/**
  When rewriting a rewritten query changes nothing, told from the tokens of the query. A dollar
  sign, written for a placeholder or standing alone in the query, can open a dollar-quoted body
  when only letters, digits and underscores stand between it and the next one: then everything
  up to where the same tag shows again is hidden from the second rewriting, and a mark hidden
  there is kept.
 */
module RebindTwice {
  import opened Common
  import opened RebindPostgres
  import opened RebindIdempotence
  import opened RebindVerbatim
  import Decimal

  // ---------------------------------------------------------------- labels

  /** A dollar sign is written for it, with a number behind or without. */
  predicate IsSign(t: Token) {
    t.Placeholder? || t == Other('$')
  }

  function NumberOf(t: Token, k: nat): (number: string)
    ensures IsDigits(number)
  {
    FormatIsDigits(k);
    if t.Placeholder? then Decimal.Format(k) else ""
  }

  /** Just behind a dollar sign: its number, the tokens after it, and the number of the next placeholder. */
  datatype Point = Point(number: string, rest: seq<Token>, next: nat)

  function TextAt(p: Point): string {
    p.number + Render(p.rest, p.next)
  }

  predicate HasNext(ts: seq<Token>) {
    ts != [] && (IsSign(ts[0]) || HasNext(ts[1..]))
  }

  function NextPoint(ts: seq<Token>, k: nat): (p: Point)
    requires HasNext(ts)
    ensures |p.rest| < |ts| && IsDigits(p.number)
  {
    if IsSign(ts[0]) then Point(NumberOf(ts[0], k), ts[1..], NextNumber(ts[0], k)) else NextPoint(ts[1..], k)
  }

  /** What stands before the next dollar sign, if that is nothing but tag characters. */
  function Label(ts: seq<Token>): (tag: Option<string>)
    ensures tag.Some? ==> HasNext(ts) && IsTag(tag.value)
  {
    if ts == [] then None
    else if IsSign(ts[0]) then Some("")
    else if !ts[0].Other? || !IsTagChar(ts[0].sign) then None
    else match Label(ts[1..])
      case None => None
      case Some(tag) => Some([ts[0].sign] + tag)
  }

  ghost predicate IsTag(tag: string) {
    forall i :: 0 <= i < |tag| ==> IsTagChar(tag[i])
  }

  /** What stands between this dollar sign and the next one, if that makes a delimiter. */
  function LabelAt(p: Point): Option<string> {
    match Label(p.rest)
    case None => None
    case Some(tag) => Some(p.number + tag)
  }

  /** Where a body ends that is open at `p`: at the dollar sign after the first one with the same tag. */
  function BodyEnd(p: Point, tag: string): (end: Option<Point>)
    ensures end.Some? ==> |end.value.rest| < |p.rest| && IsDigits(end.value.number)
    decreases |p.rest|
  {
    if !HasNext(p.rest) then None
    else
      var n := NextPoint(p.rest, p.next);
      if LabelAt(n) == Some(tag) then Some(NextPoint(n.rest, n.next)) else BodyEnd(n, tag)
  }

  /** Every bare mark lies in a body that dollar signs open, the next placeholder being number `k`. */
  predicate BareAreHidden(ts: seq<Token>, k: nat)
    decreases |ts|, 0
  {
    ts != [] ==>
      if IsSign(ts[0]) then HiddenBehind(NextPoint(ts, k)) else !Bare(ts) && BareAreHidden(ts[1..], k)
  }

  /** The same of what stands behind a dollar sign. */
  predicate HiddenBehind(p: Point)
    decreases |p.rest|, 1
  {
    match LabelAt(p)
    case None => BareAreHidden(p.rest, p.next)
    case Some(tag) => HiddenAfter(BodyEnd(NextPoint(p.rest, p.next), tag), p.rest)
  }

  /** The same of what stands behind a body, which is some of the last of `ts`. */
  predicate HiddenAfter(end: Option<Point>, ts: seq<Token>)
    requires end.Some? ==> |end.value.rest| < |ts|
    decreases |ts|, 0
  {
    end.Some? ==> BareAreHidden(end.value.rest, end.value.next)
  }

  ghost predicate IsSuffix(rest: seq<Token>, ts: seq<Token>) {
    |rest| <= |ts| && rest == ts[|ts| - |rest|..]
  }

  lemma SuffixTrans(a: seq<Token>, b: seq<Token>, c: seq<Token>)
    requires IsSuffix(a, b) && IsSuffix(b, c)
    ensures IsSuffix(a, c)
  {
  }

  lemma {:induction false} NextIsSuffix(ts: seq<Token>, k: nat)
    requires HasNext(ts)
    ensures IsSuffix(NextPoint(ts, k).rest, ts)
  {
    if !IsSign(ts[0]) {
      NextIsSuffix(ts[1..], k);
      SuffixTrans(NextPoint(ts, k).rest, ts[1..], ts);
    }
  }

  lemma {:induction false} BodyEndIsSuffix(p: Point, tag: string)
    requires BodyEnd(p, tag).Some?
    ensures IsSuffix(BodyEnd(p, tag).value.rest, p.rest)
    decreases |p.rest|
  {
    var n := NextPoint(p.rest, p.next);
    NextIsSuffix(p.rest, p.next);
    if LabelAt(n) == Some(tag) {
      NextIsSuffix(n.rest, n.next);
    } else {
      BodyEndIsSuffix(n, tag);
    }
    SuffixTrans(BodyEnd(p, tag).value.rest, n.rest, p.rest);
  }

  // ---------------------------------------------------------------- what the written text shows of them

  /** The dollar signs of a query stand alone: none is part of a text, identifier, comment or body. */
  ghost predicate DollarsAlone(ts: seq<Token>) {
    forall i :: 0 <= i < |ts| ==> ts[i] == Other('$') || HasNoDollar(Source(ts[i]))
  }

  /** A token of such a query. Only a lone character can continue a tag. */
  predicate IsPlain(t: Token) {
    || t == Other('$')
    || (HasNoDollar(Source(t)) && (t.Other? || t.Placeholder? || (Source(t) != "" && !IsTagChar(Source(t)[0]))))
  }

  ghost predicate ArePlain(ts: seq<Token>) {
    forall i :: 0 <= i < |ts| ==> IsPlain(ts[i])
  }

  lemma FirstIsPlain(q: string)
    requires q != "" && (First(q) == Other('$') || HasNoDollar(Source(First(q))))
    ensures IsPlain(First(q)) && (q[0] == '$' ==> First(q) == Other('$'))
  {
    assert Source(First(q))[0] == q[0];
  }

  lemma {:induction false} TokensArePlain(q: string)
    requires DollarsAlone(Tokens(q))
    ensures ArePlain(Tokens(q))
    decreases |q|
  {
    if q != "" {
      TokensSplit(q);
      assert Tokens(q)[0] == First(q);
      FirstIsPlain(q);
      AloneTail(First(q), Tokens(Rest(q)));
      TokensArePlain(Rest(q));
    }
  }

  lemma AloneTail(t: Token, ts: seq<Token>)
    requires DollarsAlone([t] + ts)
    ensures DollarsAlone(ts)
  {
    forall i | 0 <= i < |ts| ensures ts[i] == Other('$') || HasNoDollar(Source(ts[i])) {
      assert ts[i] == ([t] + ts)[i + 1];
    }
  }

  lemma PlainTail(t: Token, ts: seq<Token>)
    requires ArePlain([t] + ts)
    ensures IsPlain(t) && ArePlain(ts)
  {
    assert ([t] + ts)[0] == t;
    forall i | 0 <= i < |ts| ensures IsPlain(ts[i]) {
      assert ts[i] == ([t] + ts)[i + 1];
    }
  }

  lemma {:induction false} NoDollarsAreAlone(q: string)
    requires HasNoDollar(q)
    ensures DollarsAlone(Tokens(q))
    decreases |q|
  {
    if q != "" {
      RestHasNoDollar(q);
      NoDollarsAreAlone(Rest(q));
      TokensSplit(q);
    }
  }

  lemma WrittenPlain(t: Token, k: nat)
    requires IsPlain(t) && !IsSign(t)
    ensures HasNoDollar(Written(t, k)) && Written(t, k) != ""
    ensures t.Other? || !IsTagChar(Written(t, k)[0])
  {
  }

  lemma TagLenCons(c: char, s: string)
    ensures TagLen([c] + s) ==
      if c == '$' then 1 else if !IsTagChar(c) || TagLen(s) == 0 then 0 else 1 + TagLen(s)
  {
    assert ([c] + s)[1..] == s;
  }

  lemma NoTag(s: string, more: string)
    requires s != "" && s[0] != '$' && !IsTagChar(s[0])
    ensures TagLen(s + more) == 0
  {
  }

  lemma {:induction false} TagBefore(tag: string, s: string)
    requires IsTag(tag)
    ensures TagLen(tag + s) == if TagLen(s) == 0 then 0 else |tag| + TagLen(s)
  {
    if tag == "" {
      assert tag + s == s;
    } else {
      TagBefore(tag[1..], s);
      assert tag + s == [tag[0]] + (tag[1..] + s);
      TagLenCons(tag[0], tag[1..] + s);
    }
  }

  /** What is written for tokens with a dollar sign among them, cut at that one. */
  lemma {:induction false} RenderToNext(ts: seq<Token>, k: nat) returns (before: string)
    requires ArePlain(ts) && HasNext(ts)
    ensures Render(ts, k) == before + ("$" + TextAt(NextPoint(ts, k)))
    ensures HasNoDollar(before) && (Label(ts).Some? ==> before == Label(ts).value)
    decreases |ts|
  {
    if IsSign(ts[0]) {
      before := "";
      SignFirst(ts, k);
    } else {
      var later := RenderToNext(ts[1..], k);
      before := Written(ts[0], k) + later;
      WrittenPlain(ts[0], k);
      RenderPast(ts, k, later, "$" + TextAt(NextPoint(ts[1..], k)));
    }
  }

  lemma SignFirst(ts: seq<Token>, k: nat)
    requires ts != [] && IsSign(ts[0])
    ensures Render(ts, k) == "" + ("$" + TextAt(NextPoint(ts, k)))
  {
    Associative("$", NumberOf(ts[0], k), Render(ts[1..], NextNumber(ts[0], k)));
  }

  lemma RenderPast(ts: seq<Token>, k: nat, later: string, more: string)
    requires ts != [] && !ts[0].Placeholder? && Render(ts[1..], k) == later + more
    ensures Render(ts, k) == (Written(ts[0], k) + later) + more
  {
    Associative(Written(ts[0], k), later, more);
  }

  lemma {:induction false} NoLabelNoTag(ts: seq<Token>, k: nat)
    requires ArePlain(ts) && Label(ts).None?
    ensures TagLen(Render(ts, k)) == 0
    decreases |ts|
  {
    if ts != [] {
      if Label(ts[1..]).None? {
        NoLabelNoTag(ts[1..], NextNumber(ts[0], k));
      }
      LabelStops(ts, k);
    }
  }

  lemma LabelStops(ts: seq<Token>, k: nat)
    requires ts != [] && IsPlain(ts[0]) && !IsSign(ts[0])
    requires Label(ts[1..]).None? ==> TagLen(Render(ts[1..], k)) == 0
    ensures Label(ts).None? ==> TagLen(Render(ts, k)) == 0
  {
    if ts[0].Other? {
      TagLenCons(ts[0].sign, Render(ts[1..], k));
    } else {
      WrittenPlain(ts[0], k);
      NoTag(Written(ts[0], k), Render(ts[1..], k));
    }
  }

  lemma {:induction false} RenderWithout(ts: seq<Token>, k: nat)
    requires ArePlain(ts) && !HasNext(ts)
    ensures HasNoDollar(Render(ts, k))
    decreases |ts|
  {
    if ts != [] {
      WrittenPlain(ts[0], k);
      RenderWithout(ts[1..], k);
    }
  }

  lemma DigitsAreTag(d: string)
    requires IsDigits(d)
    ensures IsTag(d)
  {
  }

  /** Behind a dollar sign the text begins with a tag and a dollar sign exactly when there is a label. */
  lemma LabelShows(p: Point, text: string)
    requires ArePlain(p.rest) && IsDigits(p.number) && text == TextAt(p)
    ensures LabelAt(p).None? <==> TagLen(text) == 0
    ensures LabelAt(p).Some? ==>
      var tag := LabelAt(p).value;
      && IsTag(tag) && TagLen(text) == |tag| + 1
      && text == tag + ("$" + TextAt(NextPoint(p.rest, p.next)))
  {
    DigitsAreTag(p.number);
    TagBefore(p.number, Render(p.rest, p.next));
    if Label(p.rest).None? {
      NoLabelNoTag(p.rest, p.next);
    } else {
      var before := RenderToNext(p.rest, p.next);
      LabelWritten(p.number, before, TextAt(NextPoint(p.rest, p.next)));
    }
  }

  lemma LabelWritten(number: string, tag: string, more: string)
    requires IsTag(number) && IsTag(tag)
    ensures TagLen(number + (tag + ("$" + more))) == |number + tag| + 1
    ensures number + (tag + ("$" + more)) == (number + tag) + ("$" + more) && IsTag(number + tag)
  {
    Associative(number, tag, "$" + more);
    TagLenCons('$', more);
    TagBefore(number + tag, "$" + more);
  }

  // ---------------------------------------------------------------- where a body ends

  /** A delimiter is found only at a dollar sign. */
  lemma {:induction false} PastText(before: string, s: string, delimiter: string)
    requires HasNoDollar(before) && delimiter != "" && delimiter[0] == '$'
    ensures PastFirst(before + s, delimiter) == |before| + PastFirst(s, delimiter)
  {
    if before == "" {
      assert before + s == s;
    } else {
      assert (before + s)[0] == before[0];
      assert (before + s)[1..] == before[1..] + s;
      PastText(before[1..], s, delimiter);
    }
  }

  lemma PastNothing(s: string, delimiter: string)
    requires HasNoDollar(s) && delimiter != "" && delimiter[0] == '$'
    ensures PastFirst(s, delimiter) == |s|
  {
    PastText(s, "", delimiter);
    assert s + "" == s;
  }

  /** A tag and a dollar sign are found behind a dollar sign exactly when they are its own. */
  lemma LabelFound(p: Point, text: string, tag: string)
    requires ArePlain(p.rest) && IsDigits(p.number) && text == TextAt(p) && IsTag(tag)
    ensures tag + "$" <= text <==> LabelAt(p) == Some(tag)
  {
    LabelShows(p, text);
    if tag + "$" <= text {
      TagInFront(text, tag);
      if LabelAt(p).Some? {
        SameFront(text, tag, LabelAt(p).value);
      }
    }
  }

  lemma TagInFront(text: string, tag: string)
    requires IsTag(tag) && tag + "$" <= text
    ensures TagLen(text) == |tag| + 1
  {
    var more := text[|tag| + 1..];
    assert text == tag + ("$" + more);
    TagLenCons('$', more);
    TagBefore(tag, "$" + more);
  }

  lemma SameFront(text: string, a: string, b: string)
    requires |a| == |b| && a <= text && b <= text
    ensures a == b
  {
  }

  /** Of the text, what the tokens tell is left behind its first `n` characters. */
  ghost predicate EndsAt(end: Option<Point>, text: string, n: nat)
    requires n <= |text|
  {
    match end
    case None => n == |text|
    case Some(there) => text[n..] == TextAt(there)
  }

  /** The search for the closing delimiter, behind a dollar sign, finds what the tokens tell. */
  lemma {:induction false} BodyEndsThere(p: Point, text: string, tag: string, delimiter: string)
    requires ArePlain(p.rest) && IsDigits(p.number) && text == TextAt(p)
    requires IsTag(tag) && delimiter == "$" + (tag + "$")
    ensures EndsAt(BodyEnd(p, tag), text, PastFirst(text, delimiter))
    decreases |p.rest|
  {
    if !HasNext(p.rest) {
      RenderWithout(p.rest, p.next);
      PastNothing(text, delimiter);
    } else {
      var before := RenderToNext(p.rest, p.next);
      var n := NextPoint(p.rest, p.next);
      NextIsSuffix(p.rest, p.next);
      if LabelAt(n) == Some(tag) {
        BodyEndsHere(n, TextAt(n), tag, delimiter);
      } else {
        BodyEndsThere(n, TextAt(n), tag, delimiter);
        BodyEndsLater(n, TextAt(n), tag, delimiter);
      }
      NumberInFront(BodyEnd(p, tag), p.number, before, TextAt(n), text, delimiter);
    }
  }

  lemma BodyEndsHere(p: Point, text: string, tag: string, delimiter: string)
    requires ArePlain(p.rest) && IsDigits(p.number) && text == TextAt(p)
    requires LabelAt(p) == Some(tag) && delimiter == "$" + (tag + "$")
    ensures EndsAt(Some(NextPoint(p.rest, p.next)), "$" + text, PastFirst("$" + text, delimiter))
  {
    LabelShows(p, text);
    FoundAtOnce("$" + text, delimiter, tag, text, TextAt(NextPoint(p.rest, p.next)));
  }

  lemma FoundAtOnce(sign: string, delimiter: string, tag: string, text: string, more: string)
    requires sign == "$" + text && delimiter == "$" + (tag + "$") && text == tag + ("$" + more)
    ensures PastFirst(sign, delimiter) == |delimiter| && sign[|delimiter|..] == more
  {
    assert sign == delimiter + more;
  }

  lemma BodyEndsLater(p: Point, text: string, tag: string, delimiter: string)
    requires ArePlain(p.rest) && IsDigits(p.number) && text == TextAt(p)
    requires IsTag(tag) && LabelAt(p) != Some(tag) && delimiter == "$" + (tag + "$")
    requires EndsAt(BodyEnd(p, tag), text, PastFirst(text, delimiter))
    ensures EndsAt(BodyEnd(p, tag), "$" + text, PastFirst("$" + text, delimiter))
  {
    LabelFound(p, text, tag);
    NotFoundHere(text, delimiter, tag);
    EndsOneLater(BodyEnd(p, tag), text, PastFirst(text, delimiter));
  }

  lemma EndsOneLater(end: Option<Point>, text: string, n: nat)
    requires n <= |text| && EndsAt(end, text, n)
    ensures EndsAt(end, "$" + text, 1 + n)
  {
    assert ("$" + text)[1 + n..] == text[n..];
  }

  lemma NotFoundHere(text: string, delimiter: string, tag: string)
    requires delimiter == "$" + (tag + "$") && !(tag + "$" <= text)
    ensures PastFirst("$" + text, delimiter) == 1 + PastFirst(text, delimiter)
  {
    assert ("$" + text)[1..] == text && delimiter[1..] == tag + "$";
    assert !(delimiter <= "$" + text);
  }

  lemma NumberInFront(end: Option<Point>, number: string, before: string, later: string, text: string,
                      delimiter: string)
    requires IsDigits(number) && HasNoDollar(before) && text == number + (before + ("$" + later))
    requires delimiter != "" && delimiter[0] == '$' && EndsAt(end, "$" + later, PastFirst("$" + later, delimiter))
    ensures EndsAt(end, text, PastFirst(text, delimiter))
  {
    var front, n := number + before, PastFirst("$" + later, delimiter);
    Associative(number, before, "$" + later);
    PastText(front, "$" + later, delimiter);
    assert (front + ("$" + later))[|front| + n..] == ("$" + later)[n..];
  }

  // ---------------------------------------------------------------- when rewriting twice changes nothing

  /**
    Digits and then what is written for a query whose dollar signs stand alone: scanning it
    rewrites nothing exactly when the query's bare marks are hidden.
   */
  lemma {:induction false} StableIff(q: string, k: nat, d: string, text: string)
    requires ArePlain(Tokens(q)) && IsDigits(d) && text == d + Rebound(q, k)
    ensures Stable(Tokens(text)) <==> BareAreHidden(Tokens(q), k)
    decreases |q|, 2, |d|
  {
    if d != "" {
      var d1, more := DigitInFront(d, Rebound(q, k), text);
      StableIff(q, k, d1, more);
      StableCons(Other(d[0]), Tokens(more));
    } else if q != "" {
      FirstStableIff(q, k, text);
    }
  }

  lemma FirstStableIff(q: string, k: nat, text: string)
    requires ArePlain(Tokens(q)) && q != "" && text == Rebound(q, k)
    ensures Stable(Tokens(text)) <==> BareAreHidden(Tokens(q), k)
    decreases |q|, 1, 0
  {
    TokensSplit(q);
    PlainTail(First(q), Tokens(Rest(q)));
    if IsSign(First(q)) {
      NextPointCons(First(q), Tokens(Rest(q)), k);
      SignWritten(First(q), Rest(q), k);
      SignStableIff(Rest(q), NextPoint(Tokens(q), k), text, NumberOf(First(q), k));
    } else {
      PlainStableIff(q, k, text);
    }
  }

  lemma PlainStableIff(q: string, k: nat, text: string)
    requires q != "" && ArePlain(Tokens(Rest(q))) && text == Rebound(q, k) && IsPlain(First(q)) && !IsSign(First(q))
    ensures Stable(Tokens(text)) <==> BareAreHidden(Tokens(q), k)
    decreases |q|, 0, 0
  {
    PlainFirst(q);
    TokensSplit(q);
    var t, r, rest, u, vs := ScannedAgain(q, k, text);
    StableIff(r, k, "", rest);
    AgainStableIff(t, Tokens(r), u, vs, Tokens(rest));
    HiddenCons(t, Tokens(r), k);
  }

  lemma HiddenCons(t: Token, ts: seq<Token>, k: nat)
    requires !IsSign(t)
    ensures BareAreHidden([t] + ts, k) <==> !Bare([t] + ts) && BareAreHidden(ts, k)
  {
    assert ([t] + ts)[1..] == ts;
  }

  lemma PlainFirst(q: string)
    requires q != "" && IsPlain(First(q)) && First(q) != Other('$')
    ensures q[0] != '$'
  {
    assert Source(First(q))[0] == q[0];
  }

  lemma NextPointCons(t: Token, ts: seq<Token>, k: nat)
    requires IsSign(t)
    ensures NextPoint([t] + ts, k) == Point(NumberOf(t, k), ts, NextNumber(t, k))
  {
    assert ([t] + ts)[1..] == ts;
  }

  lemma SignWritten(t: Token, r: string, k: nat)
    requires IsSign(t)
    ensures Written(t, k) + Rebound(r, NextNumber(t, k)) ==
      "$" + (NumberOf(t, k) + Rebound(r, NextNumber(t, k)))
  {
    Associative("$", NumberOf(t, k), Rebound(r, NextNumber(t, k)));
  }

  lemma StableCons(u: Token, vs: seq<Token>)
    ensures Stable([u] + vs) <==> !u.Placeholder? && !u.DoubledMark? && Stable(vs)
  {
    assert ([u] + vs)[1..] == vs;
  }

  /** A token that is not a placeholder, and what the scan finds for it. */
  lemma AgainStableIff(t: Token, ts: seq<Token>, u: Token, vs: seq<Token>, ws: seq<Token>)
    requires !t.Placeholder?
    requires t.DoubledMark? ==>
      (u.Placeholder? || u.DoubledMark? || u.KeptMark?) && (u.KeptMark? <==> ts != [] && IsOperator(ts[0]))
    requires t.DoubledMark? && u.KeptMark? ==> vs == ws
    requires !t.DoubledMark? ==> u == t && vs == ws
    ensures Stable([u] + vs) <==> !Bare([t] + ts) && Stable(ws)
  {
    StableCons(u, vs);
    assert Bare([t] + ts) <==> t.DoubledMark? && !u.KeptMark?;
  }

  /** A dollar sign stands alone, or opens a body up to where the tokens tell. */
  lemma SignStableIff(r: string, p: Point, text: string, number: string)
    requires ArePlain(p.rest) && p.rest == Tokens(r) && IsDigits(number) && p.number == number
    requires text == "$" + (number + Rebound(r, p.next))
    ensures Stable(Tokens(text)) <==> HiddenBehind(p)
    decreases |r|, 3, 3
  {
    var more := number + Rebound(r, p.next);
    RenderIsRebound(r, p.next);
    LabelShows(p, more);
    if LabelAt(p).None? {
      LoneStableIff(r, p.next, number, text, more);
    } else {
      BodyStableIff(r, p, text, more, LabelAt(p).value);
    }
  }

  lemma LoneStableIff(r: string, k: nat, number: string, text: string, more: string)
    requires ArePlain(Tokens(r)) && IsDigits(number)
    requires more == number + Rebound(r, k) && text == "$" + more && TagLen(more) == 0
    ensures Stable(Tokens(text)) <==> BareAreHidden(Tokens(r), k)
    decreases |r|, 3, 0
  {
    assert text[1..] == more;
    LoneSign(text, more);
    StableIff(r, k, number, more);
    StableCons(Other('$'), Tokens(more));
  }

  /** Where the tokens say that a body ends, and what is written from there on. */
  ghost predicate LeavesTail(end: Option<Point>, ts: seq<Token>, tail: string) {
    match end
    case None => tail == ""
    case Some(there) => IsSuffix(there.rest, ts) && |there.rest| < |ts| && tail == TextAt(there)
  }

  lemma BodyStableIff(r: string, p: Point, text: string, more: string, tag: string)
    requires ArePlain(p.rest) && p.rest == Tokens(r) && LabelAt(p) == Some(tag) && IsTag(tag)
    requires more == tag + ("$" + TextAt(NextPoint(p.rest, p.next)))
    requires text == "$" + more && TagLen(more) == |tag| + 1
    ensures Stable(Tokens(text)) <==> HiddenAfter(BodyEnd(NextPoint(p.rest, p.next), tag), p.rest)
    decreases |r|, 3, 2
  {
    var head, tail := SignOpens(p, text, more, tag);
    StableCons(DollarBody(head), Tokens(tail));
    TailStableIff(r, p.rest, BodyEnd(NextPoint(p.rest, p.next), tag), tail);
  }

  lemma SignOpens(p: Point, text: string, more: string, tag: string) returns (head: string, tail: string)
    requires ArePlain(p.rest) && LabelAt(p) == Some(tag) && IsTag(tag)
    requires more == tag + ("$" + TextAt(NextPoint(p.rest, p.next)))
    requires text == "$" + more && TagLen(more) == |tag| + 1
    ensures Tokens(text) == [DollarBody(head)] + Tokens(tail)
    ensures LeavesTail(BodyEnd(NextPoint(p.rest, p.next), tag), p.rest, tail)
  {
    var n, delimiter := NextPoint(p.rest, p.next), "$" + (tag + "$");
    NextIsSuffix(p.rest, p.next);
    BodyEndsThere(n, TextAt(n), tag, delimiter);
    head, tail := BodyScanned(text, more, tag, TextAt(n), delimiter);
    EndLeavesTail(n, tag, p.rest, TextAt(n), PastFirst(TextAt(n), delimiter), tail);
  }

  lemma EndLeavesTail(p: Point, tag: string, ts: seq<Token>, after: string, n: nat, tail: string)
    requires IsSuffix(p.rest, ts) && n <= |after| && EndsAt(BodyEnd(p, tag), after, n) && tail == after[n..]
    ensures LeavesTail(BodyEnd(p, tag), ts, tail)
  {
    if BodyEnd(p, tag).Some? {
      BodyEndIsSuffix(p, tag);
      SuffixTrans(BodyEnd(p, tag).value.rest, p.rest, ts);
    }
  }

  lemma TailStableIff(r: string, ts: seq<Token>, end: Option<Point>, tail: string)
    requires ArePlain(ts) && ts == Tokens(r) && LeavesTail(end, ts, tail)
    requires end.Some? ==> IsDigits(end.value.number)
    ensures Stable(Tokens(tail)) <==> HiddenAfter(end, ts)
    decreases |r|, 3, 1
  {
    if end.Some? {
      SuffixStableIff(r, |ts| - |end.value.rest|, end.value, tail);
    }
  }

  lemma SuffixStableIff(r: string, i: nat, p: Point, text: string)
    requires ArePlain(Tokens(r)) && i <= |Tokens(r)| && p.rest == Tokens(r)[i..]
    requires IsDigits(p.number) && text == TextAt(p)
    ensures Stable(Tokens(text)) <==> BareAreHidden(p.rest, p.next)
    decreases |r|, 3, 0
  {
    var q := SuffixAt(r, i);
    RenderIsRebound(q, p.next);
    StableIff(q, p.next, p.number, text);
  }

  /** The scan takes the body for one token. */
  lemma BodyScanned(text: string, more: string, tag: string, after: string, delimiter: string)
      returns (head: string, tail: string)
    requires text == "$" + more && more == tag + ("$" + after) && TagLen(more) == |tag| + 1
    requires delimiter == "$" + (tag + "$")
    ensures Tokens(text) == [DollarBody(head)] + Tokens(tail) && tail == after[PastFirst(after, delimiter)..]
  {
    assert text[1..] == more;
    assert text == delimiter + after;
    assert Delimiter(text) == delimiter && text[|delimiter|..] == after;
    head, tail := BodyFirst(text);
    assert tail == after[PastFirst(after, delimiter)..];
    ScanCons(text, DollarBody(head), tail);
  }

  /**
    For a query whose dollar signs, if any, stand alone: rewriting twice changes nothing exactly
    when every doubled mark not directly followed by the token | or & stands where the dollar
    signs written before it have opened a body.
   */
  lemma RebindTwiceIff(q: string, k: nat, again: nat)
    requires DollarsAlone(Tokens(q))
    ensures Rebound(Rebound(q, k), again) == Rebound(q, k) <==> BareAreHidden(Tokens(q), k)
  {
    var once := Rebound(q, k);
    assert "" + once == once;
    TokensArePlain(q);
    StableIff(q, k, "", once);
    UnchangedIff(once, again);
  }

  // ---------------------------------------------------------------- where nothing opens

  /** What is written for it begins with a dollar sign. */
  predicate ShowsSign(t: Token) {
    IsSign(t) || t.DollarBody?
  }

  /** Nothing but tag characters up to a dollar sign. */
  predicate SignAhead(ts: seq<Token>) {
    ts != [] && (ShowsSign(ts[0]) || (ts[0].Other? && IsTagChar(ts[0].sign) && SignAhead(ts[1..])))
  }

  /** No dollar sign that is written for a placeholder, or stands alone, can open a body. */
  predicate NoneOpens(ts: seq<Token>) {
    ts != [] ==> (IsSign(ts[0]) ==> !SignAhead(ts[1..])) && NoneOpens(ts[1..])
  }

  lemma WrittenFirst(q: string, k: nat)
    requires q != ""
    ensures Rebound(q, k) != "" && (ShowsSign(First(q)) <==> Rebound(q, k)[0] == '$')
    ensures !ShowsSign(First(q)) && !First(q).Other? ==> !IsTagChar(Rebound(q, k)[0])
  {
    assert Source(First(q))[0] == q[0];
    WrittenStarts(First(q), k, q[0]);
  }

  lemma WrittenStarts(t: Token, k: nat, c: char)
    requires Source(t) != "" && Source(t)[0] == c
    requires (t.Quoted? <==> c == '\'') && (t.Identifier? <==> c == '"') && (t.DollarBody? ==> c == '$')
    requires t.LineComment? ==> c == '-'
    requires t.BlockComment? ==> c == '/'
    ensures Written(t, k) != "" && (ShowsSign(t) <==> Written(t, k)[0] == '$')
    ensures !ShowsSign(t) && !t.Other? ==> !IsTagChar(Written(t, k)[0])
  {
  }

  /** Whatever the query: what is written begins with a tag and a dollar sign exactly when its tokens say so. */
  lemma {:induction false} SignAheadShows(q: string, k: nat)
    ensures TagLen(Rebound(q, k)) > 0 <==> SignAhead(Tokens(q))
    decreases |q|
  {
    if q != "" {
      TokensSplit(q);
      WrittenFirst(q, k);
      var text := Rebound(q, k);
      assert text == [text[0]] + text[1..];
      TagLenCons(text[0], text[1..]);
      if First(q).Other? && First(q) != Other('$') {
        SignAheadShows(Rest(q), k);
        assert text[1..] == Rebound(Rest(q), k);
      }
    }
  }

  lemma {:induction false} TagLenAgrees(a: string, b: string)
    requires TagLen(a) > 0 && |b| >= TagLen(a) && b[..TagLen(a)] == a[..TagLen(a)]
    ensures TagLen(b) == TagLen(a)
  {
    assert b[0] == b[..TagLen(a)][0] == a[0];
    if a[0] != '$' {
      assert b[1..][..TagLen(a) - 1] == b[..TagLen(a)][1..] == a[1..][..TagLen(a) - 1];
      TagLenAgrees(a[1..], b[1..]);
    }
  }

  lemma {:induction false} PastFirstIsLong(s: string, d: string)
    ensures PastFirst(s, d) < |s| ==> |d| <= PastFirst(s, d)
  {
    if !(d <= s) && s != "" {
      PastFirstIsLong(s[1..], d);
    }
  }

  /** A body that ends before its text does ends there whatever follows. */
  lemma {:induction false} PastFirstAgrees(s: string, d: string, r: string)
    requires PastFirst(s, d) < |s| || r == ""
    ensures PastFirst(s[..PastFirst(s, d)] + r, d) == PastFirst(s, d)
  {
    var n := PastFirst(s, d);
    var t := s[..n] + r;
    if d <= s {
      assert d <= t;
    } else if s != "" {
      PastFirstAgrees(s[1..], d, r);
      assert t[1..] == s[1..][..n - 1] + r;
      NotEarlier(s, d, r);
    }
  }

  lemma NotEarlier(s: string, d: string, r: string)
    requires s != "" && !(d <= s) && (PastFirst(s, d) < |s| || r == "")
    ensures PastFirst(s, d) > 0 && !(d <= s[..PastFirst(s, d)] + r)
  {
    var n := PastFirst(s, d);
    PastFirstIsLong(s, d);
    assert n == |s| ==> s[..n] + r == s;
    if |d| <= n {
      assert (s[..n] + r)[..|d|] == s[..|d|];
    }
  }

  lemma DelimiterAgrees(s: string, t: string)
    requires s != "" && Delimiter(s) != "" && |Delimiter(s)| <= |t| && t[..|Delimiter(s)|] == s[..|Delimiter(s)|]
    ensures Delimiter(t) == Delimiter(s)
  {
    var m := |Delimiter(s)|;
    assert t[0] == t[..m][0] == s[0];
    assert t[1..][..m - 1] == t[..m][1..] == s[1..][..m - 1];
    TagLenAgrees(s[1..], t[1..]);
  }

  lemma BodyIsFirst(t: string, d: string, body: string, r: string)
    requires t == d + (body + r) && d != "" && d[0] == '$' && Delimiter(t) == d
    requires PastFirst(body + r, d) == |body|
    ensures Tokens(t) == [DollarBody(d + body)] + Tokens(r)
  {
    assert t[|d|..] == body + r;
    var head, tail := BodyFirst(t);
    assert head + tail == (d + body) + r;
    assert head == d + body && tail == r;
    ScanCons(t, DollarBody(head), tail);
  }

  /** A dollar-quoted body of the query is found again. */
  lemma BodyAgrees(s: string, r: string)
    requires s != "" && First(s).DollarBody? && (Rest(s) == "" ==> r == "")
    ensures Tokens(Source(First(s)) + r) == [First(s)] + Tokens(r)
  {
    var d := Delimiter(s);
    var body := s[|d|..][..PastFirst(s[|d|..], d)];
    BodySource(s, d, body);
    BodyStays(s, d, body, r);
    Associative(d, body, r);
    BodyIsFirst(d + (body + r), d, body, r);
  }

  lemma BodySource(s: string, d: string, body: string)
    requires s != "" && First(s).DollarBody? && d == Delimiter(s)
    requires body == s[|d|..][..PastFirst(s[|d|..], d)]
    ensures s[0] == '$' && d != "" && First(s) == DollarBody(d + body)
    ensures DollarLen(s) == |s| <==> Rest(s) == ""
  {
    BodySign(s);
    var head, tail := BodyFirst(s);
    assert head == d + body;
  }

  lemma BodySign(s: string)
    requires s != "" && First(s).DollarBody?
    ensures s[0] == '$' && Delimiter(s) != ""
  {
  }

  lemma BodyStays(s: string, d: string, body: string, r: string)
    requires s != "" && s[0] == '$' && d == Delimiter(s) && d != ""
    requires body == s[|d|..][..PastFirst(s[|d|..], d)] && (DollarLen(s) == |s| ==> r == "")
    ensures Delimiter(d + (body + r)) == d && PastFirst(body + r, d) == |body|
  {
    assert (d + (body + r))[..|d|] == d == s[..|d|];
    DelimiterAgrees(s, d + (body + r));
    PastFirstAgrees(s[|d|..], d, r);
  }

  /** Any query in which nothing opens: scanning what is written, behind digits, finds its tokens again. */
  lemma {:induction false} UnopenedStableIff(q: string, k: nat, d: string, text: string)
    requires NoneOpens(Tokens(q)) && IsDigits(d) && text == d + Rebound(q, k)
    ensures Stable(Tokens(text)) <==> NoneBare(Tokens(q))
    decreases |q|, |d|, 1
  {
    if d != "" {
      var d1, more := DigitInFront(d, Rebound(q, k), text);
      UnopenedStableIff(q, k, d1, more);
      StableCons(Other(d[0]), Tokens(more));
    } else if q != "" {
      assert text == Rebound(q, k);
      TokensSplit(q);
      if IsSign(First(q)) {
        UnopenedSign(q, k, text);
      } else if First(q).DollarBody? {
        UnopenedBody(q, k, text);
      } else {
        UnopenedPlain(q, k, text);
      }
    }
  }

  lemma UnopenedSign(q: string, k: nat, text: string)
    requires NoneOpens(Tokens(q)) && q != "" && text == Rebound(q, k) && IsSign(First(q))
    ensures Stable(Tokens(text)) <==> NoneBare(Tokens(q))
    decreases |q|, 0, 0
  {
    var r, number, next := Rest(q), NumberOf(First(q), k), NextNumber(First(q), k);
    var more := number + Rebound(r, next);
    TokensSplit(q);
    SignWritten(First(q), r, k);
    SignAheadShows(r, next);
    DigitsAreTag(number);
    TagBefore(number, Rebound(r, next));
    assert Tokens(q)[1..] == Tokens(r) && text[1..] == more;
    LoneSign(text, more);
    UnopenedStableIff(r, next, number, more);
    StableCons(Other('$'), Tokens(more));
  }

  lemma UnopenedBody(q: string, k: nat, text: string)
    requires NoneOpens(Tokens(q)) && q != "" && text == Rebound(q, k) && First(q).DollarBody?
    ensures Stable(Tokens(text)) <==> NoneBare(Tokens(q))
    decreases |q|, 0, 0
  {
    var rest := Rebound(Rest(q), k);
    TokensSplit(q);
    BodyAgrees(q, rest);
    UnopenedStableIff(Rest(q), k, "", rest);
    StableCons(First(q), Tokens(rest));
  }

  lemma UnopenedPlain(q: string, k: nat, text: string)
    requires NoneOpens(Tokens(q)) && q != "" && text == Rebound(q, k) && !ShowsSign(First(q))
    ensures Stable(Tokens(text)) <==> NoneBare(Tokens(q))
    decreases |q|, 0, 0
  {
    WrittenFirst(q, k);
    var t, r, rest, u, vs := ScannedAgain(q, k, text);
    assert ([t] + Tokens(r))[1..] == Tokens(r);
    UnopenedStableIff(r, k, "", rest);
    AgainStableIff(t, Tokens(r), u, vs, Tokens(rest));
  }

  /**
    For every query in which no dollar sign can open a body, wherever else dollar signs stand:
    rewriting twice changes nothing exactly when a | or & directly follows every doubled mark.
   */
  lemma RebindTwiceUnopened(q: string, k: nat, again: nat)
    requires NoneOpens(Tokens(q))
    ensures Rebound(Rebound(q, k), again) == Rebound(q, k) <==> NoneBare(Tokens(q))
  {
    var once := Rebound(q, k);
    assert "" + once == once;
    UnopenedStableIff(q, k, "", once);
    UnchangedIff(once, again);
  }

  lemma {:induction false} NoneBareSuffix(ts: seq<Token>, rest: seq<Token>)
    requires NoneBare(ts) && IsSuffix(rest, ts)
    ensures NoneBare(rest)
  {
    if rest != ts {
      assert ts[1..][|ts| - 1 - |rest|..] == rest;
      NoneBareSuffix(ts[1..], rest);
    }
  }

  lemma {:induction false} NoneBareNoneHidden(ts: seq<Token>, k: nat)
    requires NoneBare(ts)
    ensures BareAreHidden(ts, k)
    decreases |ts|, 2
  {
    if ts != [] {
      if IsSign(ts[0]) {
        NoneBareBehind(NextPoint(ts, k));
      } else {
        NoneBareNoneHidden(ts[1..], k);
      }
    }
  }

  lemma NoneBareBehind(p: Point)
    requires NoneBare(p.rest)
    ensures HiddenBehind(p)
    decreases |p.rest|, 3
  {
    match LabelAt(p)
    case None => NoneBareNoneHidden(p.rest, p.next);
    case Some(tag) =>
      EndIsSuffix(p, tag);
      NoneBareAfter(BodyEnd(NextPoint(p.rest, p.next), tag), p.rest);
  }

  lemma EndIsSuffix(p: Point, tag: string)
    requires HasNext(p.rest)
    ensures var end := BodyEnd(NextPoint(p.rest, p.next), tag); end.Some? ==> IsSuffix(end.value.rest, p.rest)
  {
    var n := NextPoint(p.rest, p.next);
    NextIsSuffix(p.rest, p.next);
    if BodyEnd(n, tag).Some? {
      BodyEndIsSuffix(n, tag);
      SuffixTrans(BodyEnd(n, tag).value.rest, n.rest, p.rest);
    }
  }

  lemma NoneBareAfter(end: Option<Point>, ts: seq<Token>)
    requires NoneBare(ts) && (end.Some? ==> |end.value.rest| < |ts| && IsSuffix(end.value.rest, ts))
    ensures HiddenAfter(end, ts)
    decreases |ts|, 1
  {
    if end.Some? {
      NoneBareSuffix(ts, end.value.rest);
      NoneBareNoneHidden(end.value.rest, end.value.next);
    }
  }

  /** Where dollar signs stand alone a | or & directly after every doubled mark is enough, whatever opens. */
  lemma RebindTwiceNoneBare(q: string, k: nat, again: nat)
    requires DollarsAlone(Tokens(q)) && NoneBare(Tokens(q))
    ensures Rebound(Rebound(q, k), again) == Rebound(q, k)
  {
    RebindTwiceIff(q, k, again);
    NoneBareNoneHidden(Tokens(q), k);
  }

  predicate Neutral(q: string) {
    && '$' !in q
    && forall i :: 0 <= i < |q| - 1 ==> q[i] != '?' || q[i + 1] != '?'
  }

  lemma {:induction false} NeutralHasNoneBare(q: string)
    requires Neutral(q)
    ensures NoneBare(Tokens(q))
  {
    if q != "" {
      NeutralRest(q);
      NeutralHasNoneBare(Rest(q));
      assert Tokens(q)[1..] == Tokens(Rest(q));
    }
  }

  lemma NeutralRest(q: string)
    requires q != "" && Neutral(q)
    ensures Neutral(Rest(q)) && !First(q).DoubledMark?
  {
  }

  /** In particular for every query with neither a dollar sign nor a doubled mark. */
  lemma RebindTwice(q: string, k: nat, again: nat)
    requires Neutral(q)
    ensures Rebound(Rebound(q, k), again) == Rebound(q, k)
  {
    assert forall i :: 0 <= i < |q| ==> q[i] in q;
    NoDollarsAreAlone(q);
    NeutralHasNoneBare(q);
    RebindTwiceNoneBare(q, k, again);
  }

  // ---------------------------------------------------------------- single cases

  lemma FormatOne(k: nat)
    requires k == 1
    ensures Decimal.Format(k) == "1"
  {
  }

  /** A bare mark: the single mark written for it is a placeholder next time. */
  lemma DoubledMarkIsLost(q: string, once: string)
    requires q == "??" && once == "?"
    ensures Rebound(q, 1) == once && Rebound(once, 1) == "$1"
  {
    FormatOne(1);
    Step(q, DoubledMark, "", 1);
    MarkIsNumbered(once, "", 1);
  }

  lemma OtherStep(s: string, c: char, r: string, k: nat)
    requires s == [c] + r && First(s) == Other(c)
    ensures Rebound(s, k) == s[..1] + Rebound(r, k)
  {
    Step(s, Other(c), r, k);
  }

  lemma BarStep(bar: string, k: nat)
    requires bar == "|"
    ensures Rebound(bar, k) == bar
  {
    OtherStep(bar, '|', "", k);
  }

  /** A doubled mark before an operator: what is written is kept from then on. */
  lemma DoubledMarkStays(q: string, bar: string, k: nat)
    requires bar == "|" && q == "??" + bar
    ensures Rebound(q, k) == "?" + bar && Rebound("?" + bar, k) == "?" + bar
  {
    BarStep(bar, k);
    DoubledIsHalved(q, bar, k);
    OperatorIsKept("?" + bar, bar, k);
  }

  lemma UnclosedStep(s: string, d: string, k: nat)
    requires s != "" && s[0] == '$' && Delimiter(s) == d && d != ""
    requires forall i :: |d| <= i < |s| ==> s[i] != '$'
    ensures Rebound(s, k) == s
  {
    var after := s[|d|..];
    assert d[0] == s[0];
    forall i | 0 <= i <= |after|
      ensures !(d <= after[i..])
    {
      assert i < |after| ==> after[i..][0] == s[|d| + i];
    }
    UnclosedIsKept(s, d, k);
  }

  lemma MarkAndLetter(s: string, tail: string, r: string, k: nat, number: string, more: string)
    requires s == "?" + tail && tail == "a" + r && Rebound(r, k + 1) == more && number == Decimal.Format(k)
    ensures Rebound(s, k) == "$" + number + ("a" + more)
  {
    OtherStep(tail, 'a', r, k + 1);
    MarkIsNumbered(s, tail, k);
  }

  lemma DoubledAlone(s: string, k: nat)
    requires s == "??"
    ensures Rebound(s, k) == "?"
  {
    Step(s, DoubledMark, "", k);
  }

  lemma FormatTwo(k: nat)
    requires k == 2
    ensures Decimal.Format(k) == "2"
  {
  }

  lemma HiddenOnce(q: string, t: string, r: string, u: string, last: string, first: string, second: string,
                   inner: string)
    requires q == "?" + t && t == "a" + r && r == "?" + u && u == "a" + last && last == "??"
    requires first == Decimal.Format(1) && second == Decimal.Format(2) && inner == "$" + second + ("a" + "?")
    ensures Rebound(q, 1) == "$" + first + ("a" + inner)
  {
    DoubledAlone(last, 3);
    MarkAndLetter(r, u, last, 2, second, "?");
    MarkAndLetter(q, t, r, 1, first, inner);
  }

  lemma HiddenText(first: string, second: string, inner: string)
    requires first == "1" && second == "2" && inner == "$" + second + ("a" + "?")
    ensures "$" + first + ("a" + inner) == "$1a$2a?"
  {
  }

  lemma TagOfTwo(s: string)
    requires |s| > 2 && s[0] == '1' && s[1] == 'a' && s[2] == '$'
    ensures TagLen(s) == 3
  {
    assert s[1..][0] == 'a' && s[1..][1] == '$';
    assert TagLen(s[1..]) == 2;
  }

  lemma HiddenTwice(once: string, k: nat)
    requires once == "$1a$2a?"
    ensures Rebound(once, k) == once
  {
    TagOfTwo(once[1..]);
    UnclosedStep(once, once[..4], k);
  }

  /** A bare mark in a body that two numbers have opened: the query is stable all the same. */
  lemma HiddenMarkStays(q: string, t: string, r: string, u: string, last: string, once: string, k: nat)
    requires q == "?" + t && t == "a" + r && r == "?" + u && u == "a" + last && last == "??"
    requires once == "$1a$2a?"
    ensures Rebound(q, 1) == once && Rebound(once, k) == once && !NoneBare(Tokens(q))
  {
    var inner := "$" + Decimal.Format(2) + ("a" + "?");
    FormatOne(1);
    FormatTwo(2);
    HiddenOnce(q, t, r, u, last, Decimal.Format(1), Decimal.Format(2), inner);
    HiddenText(Decimal.Format(1), Decimal.Format(2), inner);
    HiddenTwice(once, k);
    HiddenIsBare(q, t, r, u, last);
  }

  lemma BareLater(s: string, t: Token, r: string)
    requires s != "" && First(s) == t && Source(t) + r == s && !NoneBare(Tokens(r))
    ensures !NoneBare(Tokens(s))
  {
    TokensSplit(s);
    assert Rest(s) == r;
  }

  lemma HiddenIsBare(q: string, t: string, r: string, u: string, last: string)
    requires q == "?" + t && t == "a" + r && r == "?" + u && u == "a" + last && last == "??"
    ensures !NoneBare(Tokens(q))
  {
    LastIsBare(last);
    BareBehind(r, u, last);
    BareBehind(q, t, r);
  }

  lemma BareBehind(s: string, tail: string, r: string)
    requires s == "?" + tail && tail == "a" + r && !NoneBare(Tokens(r))
    ensures !NoneBare(Tokens(s))
  {
    LetterFirst(tail, r);
    BareLater(tail, Other('a'), r);
    LoneMarkFirst(s, tail);
    BareLater(s, Placeholder, tail);
  }

  lemma LetterFirst(s: string, r: string)
    requires s == "a" + r
    ensures First(s) == Other('a')
  {
  }

  lemma LoneMarkFirst(s: string, r: string)
    requires s == "?" + r && r != "" && r[0] == 'a'
    ensures First(s) == Placeholder
  {
  }

  lemma LastIsBare(s: string)
    requires s == "??"
    ensures !NoneBare(Tokens(s))
  {
    TokensSplit(s);
    assert Rest(s) == "";
    assert Bare(Tokens(s));
  }

  lemma {:induction false} ClosedAtTheEnd(s: string)
    requires s != "" && s[|s| - 1] == '\'' && forall i :: 0 <= i < |s| - 1 ==> s[i] != '\'' && s[i] != '\\'
    ensures QuotedLen(s) == |s|
  {
    if |s| > 1 {
      ClosedAtTheEnd(s[1..]);
    }
  }

  lemma QuotedStep(s: string, k: nat)
    requires s != "" && s[0] == '\'' && QuotedLen(s[1..]) == |s| - 1
    ensures Rebound(s, k) == s
  {
    assert s[..|s|] == s;
    Step(s, Quoted(s), "", k);
  }

  lemma DollarStep(s: string, r: string, k: nat)
    requires s == "$" + r && TagLen(r) == 0
    ensures Rebound(s, k) == "$" + Rebound(r, k)
  {
    assert s[1..] == r;
    Step(s, Other('$'), r, k);
  }

  /** A mark before a dollar sign and a quoted text: the number lands between the two. */
  lemma FirstTime(q: string, middle: string, quoted: string)
    requires q == "?" + middle && middle == "$" + quoted
    requires quoted != "" && quoted[0] == '\'' && QuotedLen(quoted[1..]) == |quoted| - 1
    ensures Rebound(q, 1) == "$" + "1" + ("$" + quoted)
  {
    FormatOne(1);
    MarkIsNumbered(q, middle, 1);
    DollarStep(middle, quoted, 2);
    QuotedStep(quoted, 2);
  }

  lemma BodyStep(s: string, d: string, body: string, r: string, k: nat)
    requires s == d + body + d + r && d != "" && d[0] == '$' && Delimiter(s) == d
    requires forall i :: 0 <= i < |body| ==> body[i] != '$'
    ensures Rebound(s, k) == d + body + d + Rebound(r, k)
  {
    var after := body + (d + r);
    assert s == d + after;
    forall i | 0 <= i < |body| ensures !(d <= after[i..]) {
      assert after[i..][0] == body[i];
    }
    BodyIsKept(s, d, body, after, r, k);
  }

  lemma TagOfOne(s: string)
    requires |s| > 1 && s[0] == '1' && s[1] == '$'
    ensures TagLen(s) == 2
  {
  }

  /** Next time that number opens a body, which ends within the quoted text. */
  lemma SecondTime(once: string, d: string, quote: string, tail: string)
    requires d == "$1$" && quote == "'" && tail == "?" + quote && once == d + quote + d + tail
    ensures Rebound(once, 1) == d + quote + d + ("$" + "1" + quote)
  {
    TagOfOne(once[1..]);
    assert once[..3] == d;
    BodyStep(once, d, quote, tail, 1);
    FormatOne(1);
    MarkIsNumbered(tail, quote, 1);
    LoneQuote(quote, 2);
  }

  lemma LoneQuote(s: string, k: nat)
    requires s == "'"
    ensures Rebound(s, k) == s
  {
    assert QuotedLen(s[1..]) == 0;
    QuotedStep(s, k);
  }

  lemma WholeIsQuoted(quoted: string)
    requires quoted == "'$1$?'"
    ensures QuotedLen(quoted[1..]) == |quoted| - 1
  {
    ClosedAtTheEnd(quoted[1..]);
  }

  lemma NumberCompletesDelimiter(d: string, quote: string, quoted: string)
    requires d == "$1$" && quote == "'" && quoted == "'$1$?'"
    ensures "$" + "1" + ("$" + quoted) == d + quote + d + ("?" + quote)
  {
  }

  /**
    Nor with a dollar sign: the number written before it completes a delimiter, the body it
    opens ends inside the quoted text, and the mark there is taken for a placeholder.
   */
  lemma DollarSignCanBreakIt(d: string, quote: string, quoted: string, q: string)
    requires d == "$1$" && quote == "'" && quoted == "'$1$?'" && q == "?" + ("$" + quoted)
    ensures Rebound(q, 1) == d + quote + d + ("?" + quote)
    ensures |Rebound(Rebound(q, 1), 1)| == |Rebound(q, 1)| + 1
  {
    WholeIsQuoted(quoted);
    FirstTime(q, "$" + quoted, quoted);
    NumberCompletesDelimiter(d, quote, quoted);
    SecondTime(d + quote + d + ("?" + quote), d, quote, "?" + quote);
  }
}

/**
  Folding base64 text into lines of 76 characters while it is written in pieces of any size
  (section 6.8 of RFC 2045).
 */
module LineWriter {
  import opened Common

  const WIDTH := 76
  const CRLF: string := "\r\n"

  // ---------------------------------------------------------------- what is written

  /** The text with a line break before every character that starts a new line. */
  function Wrapped(data: string): string {
    if data == "" then ""
    else
      var init := data[..|data| - 1];
      Wrapped(init) + (if init != "" && |init| % WIDTH == 0 then CRLF else "") + [data[|data| - 1]]
  }

  function Folded(data: string): string {
    Wrapped(data) + CRLF
  }

  /** How full the current line is. */
  function Column(data: string): nat {
    if data == "" then 0 else (|data| - 1) % WIDTH + 1
  }

  /** The lines themselves, cut from the front. */
  function Lines(data: string): seq<string> {
    if |data| <= WIDTH then [data] else [data[..WIDTH]] + Lines(data[WIDTH..])
  }

  function Ended(lines: seq<string>): string {
    if lines == [] then "" else lines[0] + CRLF + Ended(lines[1..])
  }

  /** What a reader makes of it: line breaks dropped. */
  function Unfold(text: string): string {
    if text == "" then ""
    else
      var last := text[|text| - 1];
      Unfold(text[..|text| - 1]) + if last == '\r' || last == '\n' then "" else [last]
  }

  lemma {:induction false} ShortIsUnbroken(data: string)
    requires |data| <= WIDTH
    ensures Wrapped(data) == data
  {
    if data != "" {
      ShortIsUnbroken(data[..|data| - 1]);
      assert data == data[..|data| - 1] + [data[|data| - 1]];
    }
  }

  /** One more character: on the same line, or on the next. */
  lemma WrappedOne(data: string, c: char)
    ensures Wrapped(data + [c]) == Wrapped(data) + (if Column(data) == WIDTH then CRLF else "") + [c]
    ensures Column(data + [c]) == if Column(data) == WIDTH then 1 else Column(data) + 1
  {
    assert (data + [c])[..|data|] == data;
    assert data != "" ==> (|data| % WIDTH == 0 <==> (|data| - 1) % WIDTH == WIDTH - 1);
  }

  /** A character more, with a whole line before or without it. */
  lemma BehindLine(line: string, data: string, rest: string, c: char)
    requires Wrapped(data) == line + CRLF + Wrapped(rest) && rest != "" && |data| == WIDTH + |rest|
    ensures Wrapped(data + [c]) == line + CRLF + Wrapped(rest + [c])
  {
    WrappedOne(data, c);
    WrappedOne(rest, c);
    assert Column(data) == Column(rest);
  }

  /** The first line stands on its own. */
  lemma {:induction false} FirstLineSplits(line: string, rest: string)
    requires |line| == WIDTH && rest != ""
    ensures Wrapped(line + rest) == line + CRLF + Wrapped(rest)
    decreases |rest|
  {
    var init, c := rest[..|rest| - 1], rest[|rest| - 1];
    assert rest == init + [c];
    if init == "" {
      ShortIsUnbroken(line);
      ShortIsUnbroken([c]);
      WrappedOne(line, c);
    } else {
      FirstLineSplits(line, init);
      BehindLine(line, line + init, init, c);
      Associative(line, init, [c]);
    }
  }

  lemma EndedFirst(line: string, rest: seq<string>)
    ensures Ended([line] + rest) == line + CRLF + Ended(rest)
  {
    assert ([line] + rest)[1..] == rest;
  }

  /** The output is the lines, each ended by a line break. */
  lemma {:induction false} FoldedIsLines(data: string)
    ensures Folded(data) == Ended(Lines(data))
  {
    if |data| <= WIDTH {
      ShortIsUnbroken(data);
      EndedFirst(data, []);
      assert [data] + [] == [data];
    } else {
      assert data == data[..WIDTH] + data[WIDTH..];
      FirstLineSplits(data[..WIDTH], data[WIDTH..]);
      FoldedIsLines(data[WIDTH..]);
      EndedFirst(data[..WIDTH], Lines(data[WIDTH..]));
      Associative(data[..WIDTH] + CRLF, Wrapped(data[WIDTH..]), CRLF);
    }
  }

  function Joined(lines: seq<string>): string {
    if lines == [] then "" else lines[0] + Joined(lines[1..])
  }

  /** Every line but the last has exactly 76 characters; together they are the text. */
  lemma {:induction false} LinesCover(data: string)
    ensures Lines(data) != [] && Joined(Lines(data)) == data
    ensures forall i :: 0 <= i < |Lines(data)| - 1 ==> |Lines(data)[i]| == 76
    ensures |Lines(data)[|Lines(data)| - 1]| <= 76
    ensures data != "" ==> Lines(data)[|Lines(data)| - 1] != ""
  {
    if |data| <= WIDTH {
      assert Lines(data)[1..] == [];
    } else {
      LinesCover(data[WIDTH..]);
      assert Lines(data)[1..] == Lines(data[WIDTH..]);
    }
  }

  lemma {:induction false} UnfoldConcat(a: string, b: string)
    ensures Unfold(a + b) == Unfold(a) + Unfold(b)
  {
    if b == "" {
      assert a + b == a;
    } else {
      UnfoldConcat(a, b[..|b| - 1]);
      assert (a + b)[..|a + b| - 1] == a + b[..|b| - 1];
    }
  }

  predicate IsBreak(c: char) {
    c == '\r' || c == '\n'
  }

  lemma UnfoldStep(text: string, gap: string, c: char)
    requires (gap == "" || gap == CRLF) && !IsBreak(c)
    ensures Unfold(text + gap + [c]) == Unfold(text) + [c]
  {
    BreakIsNothing();
    UnfoldConcat(text, gap);
    assert (text + gap + [c])[..|text + gap|] == text + gap;
  }

  /** Folding loses nothing. */
  lemma {:induction false} WrappingIsUndone(data: string)
    requires forall i :: 0 <= i < |data| ==> !IsBreak(data[i])
    ensures Unfold(Wrapped(data)) == data
  {
    if data != "" {
      var init := data[..|data| - 1];
      WrappingIsUndone(init);
      UnfoldStep(Wrapped(init), if init != "" && |init| % WIDTH == 0 then CRLF else "", data[|data| - 1]);
    }
  }

  lemma FoldingIsUndone(data: string)
    requires forall i :: 0 <= i < |data| ==> !IsBreak(data[i])
    ensures Unfold(Folded(data)) == data
  {
    WrappingIsUndone(data);
    BreakIsNothing();
    UnfoldConcat(Wrapped(data), CRLF);
  }

  lemma BreakIsNothing()
    ensures Unfold(CRLF) == ""
  {
    assert CRLF[..1] == "\r" && CRLF[..1][..0] == "";
  }

  // ---------------------------------------------------------------- writing

  lemma {:induction false} WrappedInLine(data: string, more: string)
    requires Column(data) + |more| <= WIDTH
    ensures Wrapped(data + more) == Wrapped(data) + more && Column(data + more) == Column(data) + |more|
  {
    if more == "" {
      assert data + more == data;
    } else {
      var init, c := more[..|more| - 1], more[|more| - 1];
      WrappedInLine(data, init);
      WrappedOne(data + init, c);
      assert data + more == (data + init) + [c];
      Associative(Wrapped(data), init, [c]);
      assert init + [c] == more;
    }
  }

  lemma WrappedNextLine(data: string, c: char, tail: string)
    requires Column(data) == WIDTH && |tail| < WIDTH
    ensures Wrapped(data + [c] + tail) == Wrapped(data) + CRLF + [c] + tail && Column(data + [c] + tail) == 1 + |tail|
  {
    WrappedOne(data, c);
    WrappedInLine(data + [c], tail);
  }

  /** A beginning, but not all. */
  predicate Cut(a: string, b: string) {
    a < b
  }

  lemma CutWithin(start: string, text: string, n: nat, rest: string)
    requires n < |text|
    ensures Cut(start + text[..n], start + text + rest)
  {
    assert (start + text + rest)[..|start| + n] == start + text[..n];
  }

  class Base64LineWriter {
    var sink: string
    /** How many more characters the sink takes before it fails. */
    var room: nat
    var lineLen: nat
    var wrote: bool
    /** Everything accepted so far. */
    ghost var data: string

    ghost predicate Valid()
      reads this
    {
      && sink == Wrapped(data)
      && lineLen == Column(data)
      && wrote == (data != "")
    }

    constructor (room: nat)
      ensures Valid() && data == "" && this.room == room
    {
      sink, this.room, lineLen, wrote, data := "", room, 0, false, "";
    }

    /** The underlying writer: takes what it has room for, and fails when that is not all. */
    method Emit(text: string) returns (n: nat, ok: bool)
      modifies this`sink, this`room
      ensures n == Min(|text|, old(room)) && ok == (n == |text|)
      ensures sink == old(sink) + text[..n] && room == old(room) - n
    {
      n := Min(|text|, room);
      ok := n == |text|;
      sink, room := sink + text[..n], room - n;
    }

    /** A line break if the line is full, then the piece. */
    method EmitPiece(piece: string, ghost gap: string) returns (n: nat, ok: bool)
      requires piece != "" && gap == if lineLen == WIDTH then CRLF else ""
      modifies this`sink, this`room, this`lineLen, this`wrote
      ensures |sink| - |old(sink)| == old(room) - room && n <= |piece|
      ensures ok ==> n == |piece| && sink == old(sink) + gap + piece
      ensures ok ==> wrote && lineLen == (if old(lineLen) == WIDTH then 0 else old(lineLen)) + n
      ensures !ok ==> room == 0 && Cut(sink, old(sink) + gap + piece)
    {
      ghost var start := sink;
      if lineLen == WIDTH {
        var k, ended := Emit(CRLF);
        if !ended {
          CutWithin(start, gap, k, piece);
          return 0, false;
        }
        lineLen := 0;
      }
      assert sink == start + gap;
      n, ok := Emit(piece);
      lineLen, wrote := lineLen + n, wrote || n > 0;
      if !ok {
        CutWithin(start + gap, piece, n, "");
      }
    }

    /** The piece continues the output. */
    method WriteFitting(piece: string) returns (n: nat, ok: bool)
      requires Valid() && piece != "" && |piece| <= if lineLen == WIDTH then WIDTH else WIDTH - lineLen
      modifies this
      ensures |sink| - |old(sink)| == old(room) - room && n <= |piece|
      ensures ok ==> n == |piece| && Valid() && data == old(data) + piece
      ensures !ok ==> room == 0 && Cut(sink, Wrapped(old(data) + piece))
    {
      ghost var gap := if lineLen == WIDTH then CRLF else "";
      PieceFits(data, piece, gap);
      data := data + piece;
      n, ok := EmitPiece(piece, gap);
    }

    /** One turn of the loop: what fits on the line. */
    method WritePiece(p: string) returns (n: nat, ok: bool)
      requires Valid() && p != ""
      modifies this
      ensures |sink| - |old(sink)| == old(room) - room
      ensures ok ==> 0 < n <= |p| && Valid() && data == old(data) + p[..n]
      ensures !ok ==> n <= |p| && room == 0 && Cut(sink, Wrapped(old(data) + p))
    {
      var next := Min(|p|, if lineLen == WIDTH then WIDTH else WIDTH - lineLen);
      PieceIsBeginning(data, p[..next], p[next..], p);
      n, ok := WriteFitting(p[..next]);
    }

    /**
      Takes all of `p`, or fails because the sink did. What a failed write has put into the
      sink is the beginning of what a successful one would have put there.
     */
    method Write(p: string) returns (written: nat, ok: bool)
      requires Valid()
      modifies this
      ensures |sink| - |old(sink)| == old(room) - room
      ensures ok ==> Valid() && data == old(data) + p && written == |p|
      ensures !ok ==> written <= |p| && room == 0 && Cut(sink, Wrapped(old(data) + p))
    {
      written := 0;
      var rest := p;
      ghost var whole := data + p;
      while rest != ""
        invariant Valid() && whole == data + rest && written + |rest| == |p|
        invariant |sink| - |old(sink)| == old(room) - room
        decreases |rest|
      {
        ghost var before := data;
        var n, fine := WritePiece(rest);
        written := written + n;
        if !fine {
          return written, false;
        }
        assert rest == rest[..n] + rest[n..];
        Associative(before, rest[..n], rest[n..]);
        rest := rest[n..];
      }
      assert data + rest == data;
      ok := true;
    }

    /** Ends the last line. */
    method Close() returns (ok: bool)
      requires Valid()
      modifies this`sink, this`room
      ensures ok ==> sink == Folded(data)
      ensures ok <==> old(room) >= |CRLF|
      ensures !ok ==> Cut(sink, Folded(data))
    {
      if lineLen == 0 && wrote {
        return true;
      }
      var _, ended := Emit(CRLF);
      ok := ended;
    }
  }

  lemma PieceFits(data: string, piece: string, gap: string)
    requires piece != "" && gap == if Column(data) == WIDTH then CRLF else ""
    requires |piece| <= if Column(data) == WIDTH then WIDTH else WIDTH - Column(data)
    ensures Wrapped(data + piece) == Wrapped(data) + gap + piece
    ensures Column(data + piece) == (if Column(data) == WIDTH then 0 else Column(data)) + |piece|
  {
    if gap == "" {
      WrappedInLine(data, piece);
      assert Wrapped(data) + gap == Wrapped(data);
    } else {
      var c, tail := piece[0], piece[1..];
      assert piece == [c] + tail;
      Associative(data, [c], tail);
      Associative(Wrapped(data) + gap, [c], tail);
      WrappedNextLine(data, c, tail);
    }
  }

  /** What a piece leaves in the sink is a beginning of what the whole text would. */
  lemma PieceIsBeginning(data: string, piece: string, tail: string, rest: string)
    requires rest == piece + tail
    ensures Wrapped(data + piece) <= Wrapped(data + rest)
  {
    Associative(data, piece, tail);
    WrappedGrows(data + piece, tail);
  }

  lemma {:induction false} WrappedGrows(a: string, b: string)
    ensures Wrapped(a) <= Wrapped(a + b)
  {
    if b == "" {
      assert a + b == a;
    } else {
      WrappedGrows(a, b[..|b| - 1]);
      assert (a + b)[..|a + b| - 1] == a + b[..|b| - 1];
    }
  }

  lemma ConcatNext(parts: seq<string>, i: nat)
    requires i < |parts|
    ensures Concat(parts[..i + 1]) == Concat(parts[..i]) + parts[i]
  {
    assert parts[..i + 1][..i] == parts[..i];
    ConcatLast(parts[..i + 1]);
  }

  lemma StaysCut(out: string, parts: seq<string>, k: nat)
    requires k <= |parts| && Cut(out, Wrapped(Concat(parts[..k])))
    ensures Cut(out, Folded(Concat(parts))) && |out| < |Folded(Concat(parts))|
  {
    ConcatGrows(parts, k);
  }

  /** However the text is cut into writes, the output is the same. */
  method WriteAll(parts: seq<string>, room: nat) returns (out: string, ok: bool)
    ensures ok ==> out == Folded(Concat(parts))
    ensures !ok ==> Cut(out, Folded(Concat(parts)))
    ensures ok <==> |Folded(Concat(parts))| <= room
  {
    var w := new Base64LineWriter(room);
    for i := 0 to |parts|
      invariant w.Valid() && fresh(w) && w.data == Concat(parts[..i])
      invariant w.room == room - |w.sink|
    {
      ConcatNext(parts, i);
      var _, fine := w.Write(parts[i]);
      if !fine {
        StaysCut(w.sink, parts, i + 1);
        return w.sink, false;
      }
    }
    assert parts[..|parts|] == parts;
    ok := w.Close();
    out := w.sink;
  }

  lemma {:induction false} ConcatGrows(parts: seq<string>, k: nat)
    requires k <= |parts|
    ensures Wrapped(Concat(parts[..k])) <= Wrapped(Concat(parts))
    decreases |parts|
  {
    if k == |parts| {
      assert parts[..k] == parts;
    } else {
      var init := parts[..|parts| - 1];
      ConcatGrows(init, k);
      assert init[..k] == parts[..k];
      ConcatLast(parts);
      WrappedGrows(Concat(init), parts[|parts| - 1]);
    }
  }
}

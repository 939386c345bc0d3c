/**
  Read and starred flags in a Maildir file name: writing them, and reading them back.

  A path is a Maildir, one of its subdirectories and a file name. On the systems modelled the
  separator is ":2,"; names written on Windows carry "!2," instead and are understood too.
 */
module MaildirFlags {

  const SEPARATOR := ":2,"
  const WINDOWS_SEPARATOR := "!2,"

  datatype Path = Path(maildir: string, subdir: string, name: string)

  datatype Flags = Flags(read: bool, starred: bool)

  // ---------------------------------------------------------------- names

  predicate IsAt(s: string, sep: string, i: int) {
    0 <= i <= |s| - |sep| && s[i..i + |sep|] == sep
  }

  /** The last position of `sep` before `k`, or -1. */
  function LastBefore(s: string, sep: string, k: nat): (i: int)
    ensures -1 <= i < k && (i >= 0 ==> IsAt(s, sep, i))
    ensures forall j :: i < j < k ==> !IsAt(s, sep, j)
  {
    if k == 0 then -1 else if IsAt(s, sep, k - 1) then k - 1 else LastBefore(s, sep, k - 1)
  }

  function LastIndex(s: string, sep: string): int {
    LastBefore(s, sep, |s|)
  }

  /** The name without its flags. */
  function Stem(name: string): string {
    if LastIndex(name, SEPARATOR) >= 0 then name[..LastIndex(name, SEPARATOR)] else name
  }

  /** What follows the last separator; "" without one. */
  function Info(name: string, sep: string): string {
    if LastIndex(name, sep) >= 0 then name[LastIndex(name, sep) + |sep|..] else ""
  }

  /** The other flags, each once. */
  function Preserved(flags: string): string {
    if flags == "" then ""
    else
      var before, c := Preserved(flags[..|flags| - 1]), flags[|flags| - 1];
      if c == 'S' || c == 'F' || c in before then before else before + [c]
  }

  method PreserveMaildirFlags(flags: string) returns (kept: string)
    ensures kept == Preserved(flags)
  {
    kept := "";
    for i := 0 to |flags|
      invariant kept == Preserved(flags[..i])
    {
      assert flags[..i + 1][..i] == flags[..i];
      if flags[i] == 'S' || flags[i] == 'F' || flags[i] in kept {
        continue;
      }
      kept := kept + [flags[i]];
    }
    assert flags[..|flags|] == flags;
  }

  function Append(flags: string, flag: char): string {
    if flag in flags then flags else flags + [flag]
  }

  function FlagsToWrite(existing: string, f: Flags): string {
    var kept := Preserved(existing);
    var seen := if f.read then Append(kept, 'S') else kept;
    if f.starred then Append(seen, 'F') else seen
  }

  function NameWith(name: string, f: Flags): string {
    var flags := FlagsToWrite(Info(name, SEPARATOR), f);
    if flags == "" then Stem(name) else Stem(name) + SEPARATOR + flags
  }

  /** Anything read or starred belongs in "cur"; what is neither goes back to "new". */
  function PathWithFlags(p: Path, f: Flags): Path {
    var subdir := if f.read || f.starred then "cur" else if p.subdir == "cur" then "new" else p.subdir;
    Path(p.maildir, subdir, NameWith(p.name, f))
  }

  /** Without any separator a message counts as read except in the inbox. */
  function FlagsFromName(name: string, inbox: bool): Flags {
    if LastIndex(name, SEPARATOR) >= 0 then FlagsIn(Info(name, SEPARATOR))
    else if LastIndex(name, WINDOWS_SEPARATOR) >= 0 then FlagsIn(Info(name, WINDOWS_SEPARATOR))
    else Flags(!inbox, false)
  }

  function FlagsIn(info: string): Flags {
    Flags('S' in info, 'F' in info)
  }

  // ---------------------------------------------------------------- what is written

  /** Every other flag is kept, once and in order; S and F are dropped. */
  lemma {:induction false} PreservedMembers(flags: string, c: char)
    ensures c in Preserved(flags) <==> c in flags && c != 'S' && c != 'F'
  {
    if flags != "" {
      PreservedMembers(flags[..|flags| - 1], c);
      assert flags == flags[..|flags| - 1] + [flags[|flags| - 1]];
    }
  }

  function Mark(f: Flags): string {
    (if f.read then "S" else "") + (if f.starred then "F" else "")
  }

  lemma WrittenIsKeptAndMark(existing: string, f: Flags)
    ensures FlagsToWrite(existing, f) == Preserved(existing) + Mark(f)
  {
    PreservedMembers(existing, 'S');
    PreservedMembers(existing, 'F');
  }

  /** A separator cannot overlap the one before it, nor the marks at the end. */
  lemma SeparatorInside(stem: string, kept: string, mark: string, i: int)
    requires IsAt(stem + SEPARATOR + kept + mark, SEPARATOR, i) && i > |stem|
    requires forall c :: c in mark ==> c == 'S' || c == 'F'
    ensures |stem| + |SEPARATOR| <= i && i + |SEPARATOR| <= |stem| + |SEPARATOR| + |kept|
  {
    var name := stem + SEPARATOR + kept + mark;
    assert name[i] == ':' && name[i + 2] == ',' by {
      assert name[i..i + 3] == SEPARATOR;
      assert name[i..i + 3][0] == name[i] && name[i..i + 3][2] == name[i + 2];
    }
    assert name[|stem| + 1] == '2' && name[|stem| + 2] == ',';
    forall x | |stem| + 3 + |kept| <= x < |name| ensures name[x] != ',' {
      assert name[x] == mark[x - (|stem| + 3 + |kept|)];
      assert name[x] in mark;
    }
  }

  /** The flags read back are those after the last separator, which always include the marks. */
  lemma InfoEndsWithMark(stem: string, kept: string, mark: string)
    requires forall c :: c in mark ==> c == 'S' || c == 'F'
    ensures var name := stem + SEPARATOR + kept + mark;
      LastIndex(name, SEPARATOR) >= 0 && exists o: nat :: o <= |kept| && Info(name, SEPARATOR) == kept[o..] + mark
  {
    var name := stem + SEPARATOR + kept + mark;
    assert IsAt(name, SEPARATOR, |stem|);
    var i := LastIndex(name, SEPARATOR);
    if i > |stem| {
      SeparatorInside(stem, kept, mark, i);
    }
    var o := i - |stem|;
    assert name[i + 3..] == kept[o..] + mark;
  }

  /** Whatever part of the kept flags precedes them, the marks decide. */
  lemma MarksDecide(info: string, kept: string, f: Flags)
    requires 'S' !in kept && 'F' !in kept && info == kept + Mark(f)
    ensures FlagsIn(info) == f
  {
    assert 'S' in Mark(f) <==> f.read;
    assert 'F' in Mark(f) <==> f.starred;
  }

  lemma NoMarksKept(existing: string, o: nat)
    requires o <= |Preserved(existing)|
    ensures 'S' !in Preserved(existing)[o..] && 'F' !in Preserved(existing)[o..]
  {
    PreservedMembers(existing, 'S');
    PreservedMembers(existing, 'F');
  }

  lemma MarkIsMarks(f: Flags)
    ensures forall c :: c in Mark(f) ==> c == 'S' || c == 'F'
  {
  }

  lemma WrittenInfo(stem: string, existing: string, f: Flags, name: string)
    requires name == stem + SEPARATOR + (Preserved(existing) + Mark(f))
    ensures LastIndex(name, SEPARATOR) >= 0 && FlagsIn(Info(name, SEPARATOR)) == f
  {
    var kept, mark := Preserved(existing), Mark(f);
    assert name == stem + SEPARATOR + kept + mark;
    MarkIsMarks(f);
    InfoEndsWithMark(stem, kept, mark);
    var o: nat :| o <= |kept| && Info(name, SEPARATOR) == kept[o..] + mark;
    NoMarksKept(existing, o);
    MarksDecide(Info(name, SEPARATOR), kept[o..], f);
  }

  lemma WrittenIsRead(name: string, f: Flags, inbox: bool)
    requires FlagsToWrite(Info(name, SEPARATOR), f) != ""
    ensures FlagsFromName(NameWith(name, f), inbox) == f
  {
    WrittenIsKeptAndMark(Info(name, SEPARATOR), f);
    WrittenInfo(Stem(name), Info(name, SEPARATOR), f, NameWith(name, f));
  }

  /** A name that reads as neither read nor starred. */
  predicate ReadsAsNew(name: string, inbox: bool) {
    FlagsFromName(name, inbox) == Flags(false, false)
  }

  /** Whether some flag other than S and F is set. */
  predicate HasOtherFlags(name: string) {
    exists i :: 0 <= i < |Info(name, SEPARATOR)| && Info(name, SEPARATOR)[i] != 'S' && Info(name, SEPARATOR)[i] != 'F'
  }

  /**
    The flags written are the flags read back, except that clearing both on a name without
    other flags leaves no separator at all: then the bare name decides, and outside the inbox
    a bare name counts as read.
   */
  lemma RoundTripIff(p: Path, f: Flags, inbox: bool)
    ensures FlagsFromName(PathWithFlags(p, f).name, inbox) == f <==>
      f.read || f.starred || HasOtherFlags(p.name) || ReadsAsNew(Stem(p.name), inbox)
  {
    var existing := Info(p.name, SEPARATOR);
    WrittenIsKeptAndMark(existing, f);
    OthersAreKept(existing);
    if FlagsToWrite(existing, f) != "" {
      WrittenIsRead(p.name, f, inbox);
    }
  }

  lemma OthersAreKept(flags: string)
    ensures Preserved(flags) != "" <==> exists i :: 0 <= i < |flags| && flags[i] != 'S' && flags[i] != 'F'
  {
    if Preserved(flags) != "" {
      PreservedMembers(flags, Preserved(flags)[0]);
    }
    forall i | 0 <= i < |flags| && flags[i] != 'S' && flags[i] != 'F' ensures Preserved(flags) != "" {
      PreservedMembers(flags, flags[i]);
    }
  }

  /** An ordinary name, with one separator or none. */
  lemma UnreadOutsideInboxComesBackRead(name: string)
    requires forall i :: !IsAt(Stem(name), SEPARATOR, i) && !IsAt(Stem(name), WINDOWS_SEPARATOR, i)
    requires !HasOtherFlags(name)
    ensures FlagsFromName(NameWith(name, Flags(false, false)), false) == Flags(true, false)
  {
    WrittenIsKeptAndMark(Info(name, SEPARATOR), Flags(false, false));
    OthersAreKept(Info(name, SEPARATOR));
    assert NameWith(name, Flags(false, false)) == Stem(name);
  }

  // ---------------------------------------------------------------- ordinary names

  lemma AtItsFirst(s: string, sep: string, i: int)
    requires sep != ""
    ensures IsAt(s, sep, i) ==> s[i] == sep[0]
  {
    if IsAt(s, sep, i) {
      assert s[i..i + |sep|][0] == s[i];
    }
  }

  lemma LastIs(stem: string, sep: string, flags: string, name: string)
    requires (sep == SEPARATOR || sep == WINDOWS_SEPARATOR) && sep[0] !in flags && name == stem + sep + flags
    ensures LastIndex(name, sep) == |stem| && name[..|stem|] == stem && name[|stem| + 3..] == flags
  {
    assert IsAt(name, sep, |stem|);
    forall i | |stem| < i < |name| ensures !IsAt(name, sep, i) {
      assert name[i] == if i < |stem| + 3 then sep[i - |stem|] else flags[i - |stem| - 3];
      AtItsFirst(name, sep, i);
    }
  }

  lemma NoneIs(name: string, sep: string)
    requires forall i :: !IsAt(name, sep, i)
    ensures LastIndex(name, sep) == -1
  {
    var i := LastIndex(name, sep);
    assert i >= 0 ==> IsAt(name, sep, i);
  }

  /** An ordinary name keeps its stem and its other flags; the two flags come last, in that order. */
  lemma FlaggedName(stem: string, flags: string, f: Flags)
    requires ':' !in flags
    ensures NameWith(stem + SEPARATOR + flags, f) ==
      var all := Preserved(flags) + Mark(f);
      if all == "" then stem else stem + ":2," + all
  {
    LastIs(stem, SEPARATOR, flags, stem + SEPARATOR + flags);
    WrittenIsKeptAndMark(flags, f);
  }

  /** A name without a separator gets one with the first flag. */
  lemma BareName(name: string, f: Flags)
    requires forall i :: !IsAt(name, SEPARATOR, i)
    ensures NameWith(name, f) == if f.read || f.starred then name + ":2," + Mark(f) else name
  {
    NoneIs(name, SEPARATOR);
    WrittenIsKeptAndMark("", f);
  }

  /** Writing flags twice is writing them once: only the last ones count. */
  lemma LastWriteCounts(stem: string, flags: string, f: Flags, g: Flags)
    requires ':' !in flags && forall i :: !IsAt(stem, SEPARATOR, i)
    ensures NameWith(NameWith(stem + SEPARATOR + flags, f), g) == NameWith(stem + SEPARATOR + flags, g)
  {
    FlaggedName(stem, flags, f);
    FlaggedName(stem, flags, g);
    var all := Preserved(flags) + Mark(f);
    PreservedMembers(flags, ':');
    if all == "" {
      BareName(stem, g);
      assert Preserved(flags) + Mark(g) == Mark(g);
    } else {
      assert ':' !in all;
      FlaggedName(stem, all, g);
      MarksDrop(flags, f);
    }
  }

  lemma MarkDrops(flags: string, c: char)
    requires c == 'S' || c == 'F'
    ensures Preserved(flags + [c]) == Preserved(flags)
  {
    assert (flags + [c])[..|flags|] == flags;
  }

  lemma MarksDrop(flags: string, f: Flags)
    ensures Preserved(Preserved(flags) + Mark(f)) == Preserved(flags)
  {
    var kept := Preserved(flags);
    PreservedOnce(flags);
    PreservedStays(kept);
    if f.read {
      MarkDrops(kept, 'S');
      MarkDrops(kept + ['S'], 'F');
      assert kept + Mark(f) == if f.starred then kept + ['S'] + ['F'] else kept + ['S'];
    } else {
      MarkDrops(kept, 'F');
      assert kept + Mark(f) == if f.starred then kept + ['F'] else kept;
    }
  }

  ghost predicate EachOnce(flags: string) {
    (forall i, j :: 0 <= i < j < |flags| ==> flags[i] != flags[j]) && 'S' !in flags && 'F' !in flags
  }

  lemma {:induction false} PreservedOnce(flags: string)
    ensures EachOnce(Preserved(flags))
  {
    if flags != "" {
      var before := Preserved(flags[..|flags| - 1]);
      PreservedOnce(flags[..|flags| - 1]);
      assert forall i :: 0 <= i < |before| ==> before[i] in before;
    }
  }

  /** Other flags that are there once each are kept as they are, in their order. */
  lemma {:induction false} PreservedStays(flags: string)
    requires EachOnce(flags)
    ensures Preserved(flags) == flags
  {
    if flags != "" {
      var init, c := flags[..|flags| - 1], flags[|flags| - 1];
      assert c !in init && c in flags;
      assert 'S' !in init && 'F' !in init;
      PreservedStays(init);
      assert init + [c] == flags;
    }
  }

  /** Whatever is read or starred, and nothing else, is in "cur" afterwards; all else of the path stays. */
  lemma PathAfter(p: Path, f: Flags)
    ensures var q := PathWithFlags(p, f);
      && q.maildir == p.maildir && q.name == NameWith(p.name, f)
      && (q.subdir == "cur" <==> f.read || f.starred)
      && (q.subdir != "cur" ==> q.subdir == if p.subdir == "cur" then "new" else p.subdir)
  {
  }

  /** Reading an ordinary name: what follows its separator, here or on Windows, or else the folder decides. */
  lemma ReadNames(stem: string, flags: string, inbox: bool)
    ensures ':' !in flags ==> FlagsFromName(stem + ":2," + flags, inbox) == Flags('S' in flags, 'F' in flags)
    ensures '!' !in flags && (forall i :: !IsAt(stem + "!2," + flags, ":2,", i)) ==>
      FlagsFromName(stem + "!2," + flags, inbox) == Flags('S' in flags, 'F' in flags)
    ensures (forall i :: !IsAt(stem, ":2,", i) && !IsAt(stem, "!2,", i)) ==>
      FlagsFromName(stem, inbox) == Flags(!inbox, false)
  {
    if ':' !in flags {
      LastIs(stem, SEPARATOR, flags, stem + ":2," + flags);
    }
    if '!' !in flags && forall i :: !IsAt(stem + "!2," + flags, ":2,", i) {
      NoneIs(stem + "!2," + flags, SEPARATOR);
      LastIs(stem, WINDOWS_SEPARATOR, flags, stem + "!2," + flags);
    }
    if forall i :: !IsAt(stem, ":2,", i) && !IsAt(stem, "!2,", i) {
      NoneIs(stem, SEPARATOR);
      NoneIs(stem, WINDOWS_SEPARATOR);
    }
  }
}

/**
  Mod-sequences of one folder outside a transaction: a worker reads `highest_modseq`, raises it
  to one more than it read, and changes a message under that value, in separate statements with
  any number of other workers in between. Where a flag is set, the value is put on the message
  first, and then once more together with the flag. Clients remember a mod-sequence they were shown and
  ask for what has changed since (section 3.1.4 of RFC 7162).
 */
module ImapModSeqs {
  import opened Common
  import opened ImapAllocator

  /** A worker has read the counter, or has raised it and holds the value for its message. */
  datatype Phase = HasRead(highest: int) | HasRaised(modSeq: int)

  /** `given` keeps every value handed out, after the one the folder showed at the start;
      `marks` keeps the values put on messages ahead of a change, `changes` those that messages
      were changed under. */
  datatype Counter = Counter(
    highest: int,
    given: seq<int>,
    marks: seq<int>,
    changes: seq<int>,
    workers: map<nat, Phase>)

  /** `draws` tells a new UID's mod-sequence from that of a mere change. */
  datatype Step = Read(w: nat) | Raise(w: nat, draws: bool) | Mark(w: nat) | Change(w: nat) | Quit(w: nat)

  function Raised(read: int, draws: bool): int {
    if draws then NextModSeq(read) else Bumped(read)
  }

  /** Raising stores the greater of what is there now and one more than was read. */
  function Next(s: Counter, step: Step): Counter {
    match step
    case Read(w) => if w in s.workers then s else s.(workers := s.workers[w := HasRead(s.highest)])
    case Raise(w, draws) =>
      if w !in s.workers || !s.workers[w].HasRead? then s
      else
        var modSeq := Raised(s.workers[w].highest, draws);
        s.(highest := Max(s.highest, modSeq), given := s.given + [modSeq], workers := s.workers[w := HasRaised(modSeq)])
    case Mark(w) =>
      if w !in s.workers || !s.workers[w].HasRaised? then s else s.(marks := s.marks + [s.workers[w].modSeq])
    case Change(w) =>
      if w !in s.workers || !s.workers[w].HasRaised? then s
      else s.(changes := s.changes + [s.workers[w].modSeq], workers := s.workers - {w})
    case Quit(w) => s.(workers := s.workers - {w})
  }

  function Run(s: Counter, steps: seq<Step>): Counter {
    if steps == [] then s else Next(Run(s, steps[..|steps| - 1]), steps[|steps| - 1])
  }

  lemma RunLast(s: Counter, init: seq<Step>, step: Step, steps: seq<Step>)
    requires steps == init + [step]
    ensures Run(s, steps) == Next(Run(s, init), step)
  {
    assert steps[..|steps| - 1] == init;
  }

  lemma RaiseNow(s: Counter, w: nat, draws: bool, up: int)
    requires 1 <= s.highest < MAX_INT64 - 1 && up == s.highest + 1
    requires w in s.workers && s.workers[w] == HasRead(s.highest)
    ensures Next(s, Raise(w, draws)) == Counter(up, s.given + [up], s.marks, s.changes, s.workers[w := HasRaised(up)])
  {
  }

  lemma MarkAndChange(s: Counter, w: nat, up: int)
    requires w in s.workers && s.workers[w] == HasRaised(up)
    ensures Next(Next(s, Mark(w)), Change(w)) ==
      s.(marks := s.marks + [up], changes := s.changes + [up], workers := s.workers - {w})
  {
  }

  /** The statements in a row, with nothing between them: the counter rises by one, and the message changes under it. */
  lemma ChangeInARow(s: Counter, w: nat, draws: bool, up: int)
    requires 1 <= s.highest < MAX_INT64 - 1 && up == s.highest + 1 && w !in s.workers
    ensures Run(s, [Read(w), Raise(w, draws), Mark(w), Change(w)]) ==
      Counter(up, s.given + [up], s.marks + [up], s.changes + [up], s.workers)
  {
    var a := Next(s, Read(w));
    RaiseNow(a, w, draws, up);
    var b := Next(a, Raise(w, draws));
    MarkAndChange(b, w, up);
    assert b.workers - {w} == s.workers;
    RunInOrder(s, Read(w), Raise(w, draws), Mark(w), Change(w));
  }

  lemma RunInOrder(s: Counter, a: Step, b: Step, c: Step, d: Step)
    ensures Run(s, [a, b, c, d]) == Next(Next(Next(Next(s, a), b), c), d)
  {
    RunLast(s, [], a, [a]);
    RunLast(s, [a], b, [a, b]);
    RunLast(s, [a, b], c, [a, b, c]);
    RunLast(s, [a, b, c], d, [a, b, c, d]);
  }

  // ---------------------------------------------------------------- what always holds

  ghost predicate HeldOk(s: Counter, p: Phase) {
    match p
    case HasRead(read) =>
      && 1 <= read <= s.highest
      && forall u :: read <= u <= s.highest ==> u in s.given
    case HasRaised(modSeq) => modSeq <= s.highest
  }

  ghost predicate Inv(s: Counter) {
    && 1 <= s.highest <= MAX_INT64 && s.highest in s.given
    && (forall u :: u in s.given ==> u <= s.highest)
    && forall w :: w in s.workers ==> HeldOk(s, s.workers[w])
  }

  /** New UIDs are not drawn at the largest 64-bit value, where the next one would wrap around. */
  predicate Proper(s: Counter, step: Step) {
    step.Raise? && step.draws && step.w in s.workers && s.workers[step.w].HasRead? ==>
      s.workers[step.w].highest < MAX_INT64
  }

  ghost predicate AllProper(s: Counter, steps: seq<Step>) {
    steps != [] ==>
      var init := steps[..|steps| - 1];
      AllProper(s, init) && Proper(Run(s, init), steps[|steps| - 1])
  }

  /** The counter still shows what the worker read, and can rise. */
  predicate InTime(s: Counter, step: Step) {
    step.Raise? && step.w in s.workers && s.workers[step.w].HasRead? ==>
      s.workers[step.w].highest == s.highest && (step.draws || s.highest < MAX_INT64 - 1)
  }

  ghost predicate AllInTime(s: Counter, steps: seq<Step>) {
    steps != [] ==>
      var init := steps[..|steps| - 1];
      AllInTime(s, init) && InTime(Run(s, init), steps[|steps| - 1])
  }

  lemma RaisedValue(read: int, draws: bool)
    requires 1 <= read <= MAX_INT64 && (draws ==> read < MAX_INT64)
    ensures Raised(read, draws) == if draws || read < MAX_INT64 - 1 then read + 1 else read
  {
  }

  lemma HeldStays(s: Counter, modSeq: int, p: Phase)
    requires HeldOk(s, p) && modSeq <= s.highest + 1
    ensures HeldOk(s.(highest := Max(s.highest, modSeq), given := s.given + [modSeq]), p)
  {
    if p.HasRead? && modSeq == s.highest + 1 {
      assert (s.given + [modSeq])[|s.given|] == modSeq;
    }
  }

  lemma RaiseKeeps(s: Counter, w: nat, draws: bool)
    requires Inv(s) && Proper(s, Raise(w, draws)) && w in s.workers && s.workers[w].HasRead?
    ensures Inv(Next(s, Raise(w, draws)))
    ensures Raised(s.workers[w].highest, draws) in s.given <==> !InTime(s, Raise(w, draws))
  {
    assert HeldOk(s, s.workers[w]);
    var read := s.workers[w].highest;
    var modSeq := Raised(read, draws);
    RaisedValue(read, draws);
    var t := Next(s, Raise(w, draws));
    assert t.given[|s.given|] == modSeq;
    forall v | v in t.workers ensures HeldOk(t, t.workers[v]) {
      if v != w {
        HeldStays(s, modSeq, s.workers[v]);
      }
    }
  }

  lemma NextKeeps(s: Counter, step: Step)
    requires Inv(s) && Proper(s, step)
    ensures Inv(Next(s, step)) && s.highest <= Next(s, step).highest
  {
    if step.Raise? && step.w in s.workers && s.workers[step.w].HasRead? {
      RaiseKeeps(s, step.w, step.draws);
    }
  }

  lemma {:induction false} RunKeeps(s: Counter, steps: seq<Step>)
    requires Inv(s) && AllProper(s, steps)
    ensures Inv(Run(s, steps)) && s.highest <= Run(s, steps).highest
  {
    if steps != [] {
      RunKeeps(s, steps[..|steps| - 1]);
      NextKeeps(Run(s, steps[..|steps| - 1]), steps[|steps| - 1]);
    }
  }

  // ---------------------------------------------------------------- two changes, one value

  /** A value repeats when it is handed out late, or at the top. */
  lemma NextRepeatsIff(s: Counter, step: Step)
    requires Inv(s) && Proper(s, step)
    ensures NoRepeats(Next(s, step).given) <==> NoRepeats(s.given) && InTime(s, step)
  {
    if step.Raise? && step.w in s.workers && s.workers[step.w].HasRead? {
      RaiseKeeps(s, step.w, step.draws);
      AppendedRepeatsIff(s.given, Raised(s.workers[step.w].highest, step.draws));
    }
  }

  lemma AppendedRepeatsIff(xs: seq<int>, x: int)
    ensures NoRepeats(xs + [x]) <==> NoRepeats(xs) && x !in xs
  {
    if NoRepeats(xs) && x !in xs {
      AppendNew(xs, x);
    }
    if NoRepeats(xs + [x]) {
      assert forall i :: 0 <= i < |xs| ==> (xs + [x])[i] == xs[i];
      assert (xs + [x])[|xs|] == x;
    }
  }

  /**
    In every run, with the statements of any number of workers interleaved in any way: no two
    of them are given the same mod-sequence exactly when each raises the counter while it
    still shows what it read, and a mere change finds it below the top.
   */
  lemma {:induction false} RunGivesOnceIff(s: Counter, steps: seq<Step>)
    requires Inv(s) && NoRepeats(s.given) && AllProper(s, steps)
    ensures NoRepeats(Run(s, steps).given) <==> AllInTime(s, steps)
  {
    if steps != [] {
      var init := steps[..|steps| - 1];
      RunGivesOnceIff(s, init);
      RunKeeps(s, init);
      NextRepeatsIff(Run(s, init), steps[|steps| - 1]);
    }
  }

  /** Two workers that read before either raises. */
  lemma TwoReadersShareAModSeq(s: Counter, v: nat, w: nat, draws: bool)
    requires Inv(s) && s.highest < MAX_INT64 - 1 && v != w && v !in s.workers && w !in s.workers
    ensures var t := Next(Next(Next(Next(s, Read(v)), Read(w)), Raise(v, draws)), Raise(w, draws));
      && t.workers[v] == t.workers[w] == HasRaised(s.highest + 1)
      && !NoRepeats(t.given)
  {
    RaisedValue(s.highest, draws);
    var a := Next(Next(s, Read(v)), Read(w));
    var b := Next(a, Raise(v, draws));
    var t := Next(b, Raise(w, draws));
    assert t.given == s.given + [s.highest + 1] + [s.highest + 1];
    assert t.given[|s.given|] == t.given[|s.given| + 1];
  }

  // ---------------------------------------------------------------- what a client is shown

  /** Every change after `s` shows above `seen`. */
  predicate ShowsAbove(s: Counter, t: Counter, seen: int) {
    |s.changes| <= |t.changes| && forall i :: |s.changes| <= i < |t.changes| ==> t.changes[i] > seen
  }

  /** Whatever happens next, a client that remembers what the folder shows now misses no later change. */
  ghost predicate SafeLook(s: Counter) {
    forall steps :: AllProper(s, steps) ==> ShowsAbove(s, Run(s, steps), s.highest)
  }

  /** No worker holds a value the counter has reached, or will: its change would come too late. */
  ghost predicate NoneBehind(s: Counter) {
    forall w :: w in s.workers ==> s.workers[w].HasRead? && s.workers[w].highest == s.highest
  }

  ghost predicate Above(s: Counter, seen: int) {
    seen <= s.highest && forall w :: w in s.workers ==> AboveAt(s.workers[w], seen)
  }

  predicate AboveAt(p: Phase, seen: int) {
    if p.HasRead? then p.highest >= seen else p.modSeq > seen
  }

  lemma {:induction false} StaysAbove(s: Counter, steps: seq<Step>, seen: int)
    requires Inv(s) && AllProper(s, steps) && Above(s, seen) && seen < MAX_INT64 - 1
    ensures Above(Run(s, steps), seen) && ShowsAbove(s, Run(s, steps), seen)
  {
    if steps != [] {
      var init, last := steps[..|steps| - 1], steps[|steps| - 1];
      StaysAbove(s, init, seen);
      RunKeeps(s, init);
      StepAbove(Run(s, init), last, seen);
    }
  }

  lemma StepAbove(s: Counter, step: Step, seen: int)
    requires Inv(s) && Proper(s, step) && Above(s, seen) && seen < MAX_INT64 - 1
    ensures Above(Next(s, step), seen) && ShowsAbove(s, Next(s, step), seen)
    ensures s.changes <= Next(s, step).changes
  {
    if step.Raise? && step.w in s.workers && s.workers[step.w].HasRead? {
      assert HeldOk(s, s.workers[step.w]) && AboveAt(s.workers[step.w], seen);
      RaisedValue(s.workers[step.w].highest, step.draws);
    }
  }

  lemma RunOne(s: Counter, a: Step)
    ensures Run(s, [a]) == Next(s, a) && (AllProper(s, [a]) <==> Proper(s, a))
  {
    assert [a][..0] == [];
  }

  lemma RunTwo(s: Counter, a: Step, b: Step)
    ensures Run(s, [a, b]) == Next(Next(s, a), b)
    ensures AllProper(s, [a, b]) <==> Proper(s, a) && Proper(Next(s, a), b)
  {
    assert [a, b][..1] == [a];
    RunOne(s, a);
  }

  /** A worker that goes on from where it is, and changes its message. */
  lemma FinishesBehind(s: Counter, w: nat)
    requires Inv(s) && w in s.workers && (s.workers[w].HasRead? ==> s.workers[w].highest < s.highest)
    ensures !SafeLook(s)
  {
    assert HeldOk(s, s.workers[w]);
    if s.workers[w].HasRaised? {
      RunOne(s, Change(w));
      assert Run(s, [Change(w)]).changes[|s.changes|] <= s.highest;
    } else {
      RaisedValue(s.workers[w].highest, false);
      RunTwo(s, Raise(w, false), Change(w));
      assert Run(s, [Raise(w, false), Change(w)]).changes[|s.changes|] <= s.highest;
    }
  }

  /** The value on the message already, but not the change: looking now is not safe. */
  lemma MarkedIsBehind(s: Counter, w: nat)
    requires Inv(s) && w in s.workers && s.workers[w].HasRaised?
    ensures Next(s, Mark(w)).marks == s.marks + [s.workers[w].modSeq] && !SafeLook(Next(s, Mark(w)))
  {
    var t := Next(s, Mark(w));
    NextKeeps(s, Mark(w));
    FinishesBehind(t, w);
  }

  lemma ChangesAtTheTop(s: Counter, w: nat)
    requires Inv(s) && w !in s.workers && s.highest >= MAX_INT64 - 1
    ensures !SafeLook(s)
  {
    var steps := [Read(w), Raise(w, false), Change(w)];
    assert steps[..2] == [Read(w), Raise(w, false)];
    RunTwo(s, Read(w), Raise(w, false));
    assert AllProper(s, steps);
    assert Run(s, steps).changes[|s.changes|] <= s.highest;
  }

  lemma SomeoneIsFree(s: Counter) returns (w: nat)
    ensures w !in s.workers
  {
    w := 0;
    ghost var below: set<nat> := {};
    while w in s.workers
      invariant below <= s.workers.Keys && |below| == w && forall v :: v in below ==> v < w
      decreases |s.workers.Keys| - w
    {
      SubsetIsSmaller(below + {w}, s.workers.Keys);
      below, w := below + {w}, w + 1;
    }
  }

  /**
    A client's look at a folder is safe, in the sense that in every continuation all later
    changes show above it, exactly when no worker is between raising the counter and changing
    its message, none holds an outdated reading, and the counter is below the top.
   */
  lemma LookIsSafeIff(s: Counter)
    requires Inv(s)
    ensures SafeLook(s) <==> NoneBehind(s) && s.highest < MAX_INT64 - 1
  {
    if NoneBehind(s) && s.highest < MAX_INT64 - 1 {
      forall steps | AllProper(s, steps) ensures ShowsAbove(s, Run(s, steps), s.highest) {
        StaysAbove(s, steps, s.highest);
      }
    } else if s.highest >= MAX_INT64 - 1 {
      var w := SomeoneIsFree(s);
      ChangesAtTheTop(s, w);
    } else {
      var w :| w in s.workers && !(s.workers[w].HasRead? && s.workers[w].highest == s.highest);
      assert HeldOk(s, s.workers[w]);
      FinishesBehind(s, w);
    }
  }
}

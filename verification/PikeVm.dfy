/** The Pike virtual machine, as the source runs it: stamped visited sets and two thread lists. */
module PikeVm {
  import opened Wrappers
  import opened Widths
  import opened Ast
  import opened Program
  import opened Closure
  import opened Threads

  /** A 32-bit generation number. */
  type Stamp = s: nat | s < U32

  /** A set of instructions that empties in constant time: a member carries the current generation. */
  class Seen {
    ghost var Marked: set<nat>
    const stamps: array<Stamp>
    var gen: Stamp

    ghost predicate Valid()
      reads this, stamps
    {
      && (forall i :: 0 <= i < stamps.Length ==> stamps[i] <= gen)
      && (forall i: nat :: i in Marked <==> i < stamps.Length && stamps[i] == gen)
    }

    constructor (n: nat)
      ensures Valid() && fresh(stamps) && stamps.Length == n
    {
      stamps := new Stamp[n](_ => 0);
      gen := 0;
      Marked := Below(n);
    }

    /** Empty the set; when the 32-bit generation wraps around, the stamps are cleared. */
    method Reset()
      requires Valid()
      modifies this, stamps
      ensures Valid() && Marked == {}
    {
      gen := (gen + 1) % U32;
      if gen == 0 {
        for i := 0 to stamps.Length
          invariant gen == 0
          invariant forall k :: 0 <= k < i ==> stamps[k] == 0
        {
          stamps[i] := 0;
        }
        gen := 1;
      }
      Marked := {};
    }

    /** Add `pc`; tell whether it was new. */
    method Mark(pc: nat) returns (isNew: bool)
      requires Valid() && pc < stamps.Length
      modifies this`Marked, stamps
      ensures Valid() && Marked == old(Marked) + {pc}
      ensures isNew <==> pc !in old(Marked)
    {
      isNew := stamps[pc] != gen;
      if isNew {
        stamps[pc] := gen;
      }
      Marked := Marked + {pc};
    }
  }

  /**
   Epsilon-close `pc` into `out` at position `pos`. `calls` counts this call and every
   call it makes.
   */
  method AddThread(out: seq<Thread>, prog: seq<Inst>, pc: nat, start: nat, pos: nat, len: nat, seen: Seen)
    returns (out': seq<Thread>, calls: nat)
    requires WellFormedProgram(prog) && pc < |prog|
    requires seen.Valid() && seen.stamps.Length == |prog|
    modifies seen`Marked, seen.stamps
    ensures var v := Visit(prog, At(pos == 0, pos == len), [pc], old(seen.Marked));
            seen.Valid() && seen.Marked == v.seen && out' == out + Tag(v.list, start)
    ensures calls == VisitCalls(prog, At(pos == 0, pos == len), [pc], old(seen.Marked))
    decreases AllPcs(prog) - seen.Marked, 0
  {
    hide Visit, VisitFresh, VisitCalls, AllPcs, Tag;
    ghost var before := seen.Marked;
    VisitOne(prog, At(pos == 0, pos == len), pc, before);
    FewerLeft(prog, pc, before);
    TagNone(out, start);
    var isNew := seen.Mark(pc);
    if isNew {
      out', calls := Expand(out, prog, pc, start, pos, len, seen);
      calls := calls + 1;
    } else {
      assert before + {pc} == before;
      out', calls := out, 1;
    }
  }

  /** Follow the epsilon edges of an instruction just marked, or list it if it is ready. */
  method Expand(out: seq<Thread>, prog: seq<Inst>, pc: nat, start: nat, pos: nat, len: nat, seen: Seen)
    returns (out': seq<Thread>, calls: nat)
    requires WellFormedProgram(prog) && pc < |prog|
    requires seen.Valid() && seen.stamps.Length == |prog|
    modifies seen`Marked, seen.stamps
    ensures var mode := At(pos == 0, pos == len);
            if Ready(prog, mode, pc)
            then seen.Marked == old(seen.Marked) && out' == out + Tag([pc], start) && calls == 0
            else
              var v := Visit(prog, mode, Next(prog, mode, pc), old(seen.Marked));
              && seen.Marked == v.seen && out' == out + Tag(v.list, start)
              && calls == VisitCalls(prog, mode, Next(prog, mode, pc), old(seen.Marked))
    ensures seen.Valid()
    decreases AllPcs(prog) - seen.Marked, 2
  {
    VisitNone(prog, At(pos == 0, pos == len), seen.Marked);
    TagNone(out, start);
    TagOne(pc, start);
    match prog[pc] {
      case Jmp(t) => out', calls := AddThread(out, prog, t, start, pos, len, seen);
      case Split(x, y) => out', calls := AddBoth(out, prog, x, y, start, pos, len, seen);
      case StartAssert =>
        out', calls := out, 0;
        if pos == 0 {
          out', calls := AddThread(out, prog, pc + 1, start, pos, len, seen);
        }
      case EndAssert =>
        out', calls := out, 0;
        if pos == len {
          out', calls := AddThread(out, prog, pc + 1, start, pos, len, seen);
        }
      case _ => out', calls := out + [Thread(pc, start)], 0;
    }
  }

  lemma FewerLeft(prog: seq<Inst>, pc: nat, seen: set<nat>)
    requires pc < |prog|
    ensures pc !in seen ==> AllPcs(prog) - (seen + {pc}) < AllPcs(prog) - seen
  {
    assert pc in AllPcs(prog);
  }

  lemma TagNone(out: seq<Thread>, start: nat)
    ensures out + Tag([], start) == out
  {
  }

  lemma TagOne(pc: nat, start: nat)
    ensures Tag([pc], start) == [Thread(pc, start)]
  {
  }

  lemma TagConcat(out: seq<Thread>, a: seq<nat>, b: seq<nat>, start: nat)
    ensures out + Tag(a, start) + Tag(b, start) == out + Tag(a + b, start)
  {
  }

  /** Both arms of a split, the high-priority one first. */
  method AddBoth(out: seq<Thread>, prog: seq<Inst>, x: nat, y: nat, start: nat, pos: nat, len: nat, seen: Seen)
    returns (out': seq<Thread>, calls: nat)
    requires WellFormedProgram(prog) && x < |prog| && y < |prog|
    requires seen.Valid() && seen.stamps.Length == |prog|
    modifies seen`Marked, seen.stamps
    ensures var v := Visit(prog, At(pos == 0, pos == len), [x, y], old(seen.Marked));
            seen.Valid() && seen.Marked == v.seen && out' == out + Tag(v.list, start)
    ensures calls == VisitCalls(prog, At(pos == 0, pos == len), [x, y], old(seen.Marked))
    decreases AllPcs(prog) - seen.Marked, 1
  {
    ghost var mode := At(pos == 0, pos == len);
    ghost var before := seen.Marked;
    hide Visit, VisitCalls, Tag;
    VisitPair(prog, mode, x, y, before);
    ghost var vx := Visit(prog, mode, [x], before);
    ghost var vy := Visit(prog, mode, [y], vx.seen);
    var c, d;
    out', c := AddThread(out, prog, x, start, pos, len, seen);
    assert AllPcs(prog) - vx.seen <= AllPcs(prog) - before;
    assert AllPcs(prog) - vx.seen == AllPcs(prog) - before || AllPcs(prog) - vx.seen < AllPcs(prog) - before;
    out', d := AddThread(out', prog, y, start, pos, len, seen);
    TagConcat(out, vx.list, vy.list, start);
    calls := c + d;
  }

  /**
   One step: advance every thread over the byte at `pos`, in priority order, until one
   stands at `Match`. `matched` is the start of that thread.
   */
  method Step(prog: seq<Inst>, input: seq<Byte>, curr: seq<Thread>, pos: nat, nextSeen: Seen)
    returns (next: seq<Thread>, matched: Option<nat>, calls: nat)
    requires WellFormedProgram(prog) && ThreadsInProg(prog, curr) && pos <= |input|
    requires nextSeen.Valid() && nextSeen.stamps.Length == |prog| && nextSeen.Marked == {}
    modifies nextSeen`Marked, nextSeen.stamps
    ensures nextSeen.Valid() && matched == FirstMatchStart(prog, curr)
    ensures pos < |input| ==> Generation(next, nextSeen.Marked) == Advance(prog, input, curr, pos, NOTHING)
    ensures calls <= |curr| + 2 * |nextSeen.Marked|
  {
    hide Visit, VisitCalls, Tag;
    next, matched, calls := [], None, 0;
    var i := 0;
    while i < |curr|
      invariant i <= |curr| && nextSeen.Valid() && matched.None?
      invariant FirstMatchStart(prog, curr[i..]) == FirstMatchStart(prog, curr)
      invariant pos < |input| ==>
        Advance(prog, input, curr[i..], pos, Generation(next, nextSeen.Marked))
        == Advance(prog, input, curr, pos, NOTHING)
      invariant calls <= i + 2 * |nextSeen.Marked|
    {
      var thread := curr[i];
      assert curr[i..][1..] == curr[i + 1..];
      match prog[thread.pc] {
        case Byte(c) =>
          if pos < |input| && c[input[pos]] {
            ghost var mode := ModeAt(input, pos + 1);
            VisitCallsBound(prog, mode, [thread.pc + 1], nextSeen.Marked);
            var n;
            next, n := AddThread(next, prog, thread.pc + 1, thread.start, pos + 1, |input|, nextSeen);
            calls := calls + n;
          }
        case Match =>
          matched := Some(thread.start);
          return;
        case _ =>
      }
      i := i + 1;
    }
  }

  /**
   One turn of the search at `pos`: step, record a match, and unless the search is over
   seed the next generation at the next position.
   */
  method Turn(prog: seq<Inst>, input: seq<Byte>, curr: seq<Thread>, pos: nat, best: Option<(nat, nat)>,
              unanchored: bool, nextSeen: Seen)
    returns (next: seq<Thread>, best': Option<(nat, nat)>, more: bool, calls: nat)
    requires WellFormedProgram(prog) && ThreadsInProg(prog, curr) && pos <= |input| && |curr| <= |prog|
    requires nextSeen.Valid() && nextSeen.stamps.Length == |prog|
    modifies nextSeen, nextSeen.stamps
    ensures nextSeen.Valid() && calls <= 3 * |prog| + 1
    ensures more ==>
      && pos < |input|
      && ThreadsInProg(prog, next)
      && Covers(prog, ModeAt(input, pos + 1), next, nextSeen.Marked)
      && Answer(prog, input, curr, pos, best, unanchored) == Answer(prog, input, next, pos + 1, best', unanchored)
    ensures !more ==> best' == Answer(prog, input, curr, pos, best, unanchored)
  {
    hide Tag, Covers, Answer, ThreadsInProg, FirstMatchStart;
    nextSeen.Reset();
    var matched;
    next, matched, calls := Step(prog, input, curr, pos, nextSeen);
    MarkedBound(nextSeen);
    best', more := best, true;
    if matched.Some? {
      best' := Some((matched.value, pos));
    }
    if pos == |input| {
      AnswerAtEnd(prog, input, curr, best, unanchored);
      more := false;
      return;
    }
    TurnKeepsAnswer(prog, input, curr, pos, best, unanchored);
    ghost var g := Advance(prog, input, curr, pos, NOTHING);
    assert best' == MatchedAt(FirstMatchStart(prog, curr), pos).OrElse(best);
    if best'.Some? && next == [] {
      AnswerSettled(prog, input, pos + 1, best', unanchored);
      more := false;
      return;
    }
    if unanchored && best'.None? {
      ghost var mode := ModeAt(input, pos + 1);
      VisitCallsBound(prog, mode, [0], nextSeen.Marked);
      var n;
      next, n := AddThread(next, prog, 0, pos + 1, pos + 1, |input|, nextSeen);
      calls := calls + n;
      MarkedBound(nextSeen);
    }
  }

  /** Seed the first start. */
  method Begin(prog: seq<Inst>, input: seq<Byte>, scan: nat, unanchored: bool, seen: Seen)
    returns (curr: seq<Thread>, calls: nat)
    requires WellFormedProgram(prog) && scan <= |input|
    requires seen.Valid() && seen.stamps.Length == |prog|
    modifies seen, seen.stamps
    ensures seen.Valid() && calls <= 3 * |prog| + 1
    ensures ThreadsInProg(prog, curr) && Covers(prog, ModeAt(input, scan), curr, seen.Marked)
    ensures Answer(prog, input, curr, scan, None, unanchored) == Search(prog, input, scan, unanchored)
  {
    seen.Reset();
    curr, calls := AddThread([], prog, 0, scan, scan, |input|, seen);
    assert curr == Tag(Visit(prog, ModeAt(input, scan), [0], {}).list, scan);
    FirstGeneration(prog, input, scan, unanchored);
    VisitCallsBound(prog, ModeAt(input, scan), [0], {});
    CoversBound(prog, ModeAt(input, scan), curr, seen.Marked);
  }

  /** What a program of `size` instructions may spend in so many generations. */
  ghost function Budget(size: nat, generations: nat): nat {
    if generations == 0 then 0 else 3 * size + 1 + Budget(size, generations - 1)
  }

  /** The budget is linear in the program and in the number of generations. */
  lemma {:induction false} BudgetIsLinear(size: nat, generations: nat)
    ensures Budget(size, generations) == (3 * size + 1) * generations
  {
    if generations > 0 {
      BudgetIsLinear(size, generations - 1);
    }
  }

  /**
   The leftmost-first greedy match at or after `scan`, or, when not `unanchored`, at `scan`.
   `calls` counts the calls of `AddThread`, nested ones included.
   */
  method PikeFind(prog: seq<Inst>, input: seq<Byte>, scan: nat, unanchored: bool)
    returns (best: Option<(nat, nat)>, calls: nat)
    requires WellFormedProgram(prog)
    ensures best == Search(prog, input, scan, unanchored)
    ensures scan <= |input| ==> calls <= Budget(|prog|, |input| - scan + 2)
  {
    hide *;
    best, calls := None, 0;
    if scan > |input| {
      SearchBeyond(prog, input, scan, unanchored);
      return;
    }
    var currSeen := new Seen(|prog|);
    var nextSeen := new Seen(|prog|);
    var pos := scan;

    var curr: seq<Thread>;
    curr, calls := Begin(prog, input, scan, unanchored, currSeen);
    ghost var turns := 1;
    BudgetStep(|prog|, 0);
    ghost var covered := currSeen.Marked;
    while true
      invariant scan <= pos <= |input|
      invariant currSeen != nextSeen && currSeen.stamps != nextSeen.stamps
      invariant fresh(currSeen) && fresh(currSeen.stamps) && fresh(nextSeen) && fresh(nextSeen.stamps)
      invariant currSeen.Valid() && currSeen.stamps.Length == |prog|
      invariant nextSeen.Valid() && nextSeen.stamps.Length == |prog|
      invariant ThreadsInProg(prog, curr) && Covers(prog, ModeAt(input, pos), curr, covered)
      invariant Answer(prog, input, curr, pos, best, unanchored) == Search(prog, input, scan, unanchored)
      invariant turns == pos + 1 - scan && calls <= Budget(|prog|, turns)
      decreases |input| - pos
    {
      CoversBound(prog, ModeAt(input, pos), curr, covered);
      var next, more, n;
      next, best, more, n := Turn(prog, input, curr, pos, best, unanchored, nextSeen);
      BudgetStep(|prog|, turns);
      calls, turns := calls + n, turns + 1;
      if !more {
        break;
      }
      pos := pos + 1;
      curr, covered := next, nextSeen.Marked;
      currSeen, nextSeen := nextSeen, currSeen;
    }
    BudgetGrows(|prog|, turns, |input| - scan + 2);
  }

  lemma SearchBeyond(prog: seq<Inst>, input: seq<Byte>, scan: nat, unanchored: bool)
    requires WellFormedProgram(prog) && scan > |input|
    ensures Search(prog, input, scan, unanchored) == None
  {
  }

  lemma BudgetStep(size: nat, generations: nat)
    ensures Budget(size, generations + 1) == Budget(size, generations) + 3 * size + 1
    ensures Budget(size, 0) == 0
  {
  }

  lemma {:induction false} BudgetGrows(size: nat, fewer: nat, more: nat)
    requires fewer <= more
    ensures Budget(size, fewer) <= Budget(size, more)
    decreases more
  {
    if fewer < more {
      BudgetGrows(size, fewer, more - 1);
    }
  }

  lemma MarkedBound(seen: Seen)
    requires seen.Valid()
    ensures |seen.Marked| <= seen.stamps.Length
  {
    SubsetSize(seen.Marked, Below(seen.stamps.Length));
  }

  lemma {:induction false} SubsetSize(a: set<nat>, b: set<nat>)
    requires a <= b
    ensures |a| <= |b|
    decreases a
  {
    if a != {} {
      var x :| x in a;
      SubsetSize(a - {x}, b - {x});
    }
  }

  lemma {:induction false} NoDuplicatesSize(list: seq<nat>, all: set<nat>)
    requires NoDuplicates(list) && forall k :: 0 <= k < |list| ==> list[k] in all
    ensures |list| <= |all|
  {
    if list != [] {
      NoDuplicatesSize(list[1..], all - {list[0]});
    }
  }

  /** A covered list holds at most one thread per instruction. */
  lemma CoversBound(prog: seq<Inst>, mode: Mode, threads: seq<Thread>, seen: set<nat>)
    requires WellFormedProgram(prog) && Covers(prog, mode, threads, seen)
    ensures |threads| <= |prog| && |seen| <= |prog|
  {
    NoDuplicatesSize(Pcs(threads), AllPcs(prog));
    SubsetSize(seen, AllPcs(prog));
  }

  /** At the end of the input the answer is what the current list has matched, or else the best so far. */
  lemma AnswerAtEnd(prog: seq<Inst>, input: seq<Byte>, threads: seq<Thread>, best: Option<(nat, nat)>, unanchored: bool)
    requires WellFormedProgram(prog) && ThreadsInProg(prog, threads)
    ensures Answer(prog, input, threads, |input|, best, unanchored)
         == MatchedAt(FirstMatchStart(prog, threads), |input|).OrElse(best)
  {
    WorthAtEnd(prog, input, threads);
  }

  lemma AnswerSettled(prog: seq<Inst>, input: seq<Byte>, pos: nat, best: Option<(nat, nat)>, unanchored: bool)
    requires WellFormedProgram(prog) && pos <= |input| && best.Some?
    ensures Answer(prog, input, [], pos, best, unanchored) == best
  {
  }

  lemma FirstGeneration(prog: seq<Inst>, input: seq<Byte>, scan: nat, unanchored: bool)
    requires WellFormedProgram(prog) && scan <= |input|
    ensures var v := Visit(prog, ModeAt(input, scan), [0], {});
            var threads := Tag(v.list, scan);
            && Covers(prog, ModeAt(input, scan), threads, v.seen)
            && Answer(prog, input, threads, scan, None, unanchored) == Search(prog, input, scan, unanchored)
  {
    var v := Visit(prog, ModeAt(input, scan), [0], {});
    assert Covers(prog, ModeAt(input, scan), [], {});
    AddRootCovers(prog, ModeAt(input, scan), [], {}, 0, scan);
    AddRootWorth(prog, input, [], {}, 0, scan, scan);
    assert [] + Tag(v.list, scan) == Tag(v.list, scan);
  }
}

/** What an ordered list of Pike threads is worth, and that one generation of the machine keeps it. */
module Threads {
  import opened Wrappers
  import opened Ast
  import opened Program
  import opened Closure

  datatype Thread = Thread(pc: nat, start: nat)

  function Pcs(threads: seq<Thread>): seq<nat> {
    seq(|threads|, k requires 0 <= k < |threads| => threads[k].pc)
  }

  /** Threads at the given instructions, all begun at `start`. */
  function Tag(pcs: seq<nat>, start: nat): seq<Thread> {
    seq(|pcs|, k requires 0 <= k < |pcs| => Thread(pcs[k], start))
  }

  predicate ThreadsInProg(prog: seq<Inst>, threads: seq<Thread>) {
    forall k :: 0 <= k < |threads| ==> threads[k].pc < |prog|
  }

  // ----- the value of instructions -----

  /**
   The end found from instruction `pc`: `Match` ends here, `Byte` consumes and goes on with
   the closure of what follows.
   */
  ghost function WorthOf(prog: seq<Inst>, input: seq<Byte>, pc: nat, pos: nat): (end: Option<nat>)
    requires WellFormedProgram(prog) && pc < |prog| && pos <= |input|
    ensures end.Some? ==> pos <= end.value <= |input|
    decreases |input| - pos, 0
  {
    match prog[pc]
    case Match => Some(pos)
    case Byte(c) =>
      if pos < |input| && c[input[pos]]
      then Worth(prog, input, Close(prog, ModeAt(input, pos + 1), pc + 1), pos + 1)
      else None
    case _ => None
  }

  /** The end found by the first instruction of `pcs` that leads to a match from `pos`. */
  ghost function Worth(prog: seq<Inst>, input: seq<Byte>, pcs: seq<nat>, pos: nat): (end: Option<nat>)
    requires WellFormedProgram(prog) && InProg(prog, pcs) && pos <= |input|
    ensures end.Some? ==> pos <= end.value <= |input|
    decreases |input| - pos, |pcs| + 1
  {
    if pcs == [] then None
    else WorthOf(prog, input, pcs[0], pos).OrElse(Worth(prog, input, pcs[1..], pos))
  }

  /** The end the machine prefers when it is started at instruction `pc`. */
  ghost function WorthFrom(prog: seq<Inst>, input: seq<Byte>, pc: nat, pos: nat): (end: Option<nat>)
    requires WellFormedProgram(prog) && pc < |prog| && pos <= |input|
    ensures end.Some? ==> pos <= end.value <= |input|
  {
    Worth(prog, input, Close(prog, ModeAt(input, pos), pc), pos)
  }

  lemma {:induction false} WorthConcat(prog: seq<Inst>, input: seq<Byte>, a: seq<nat>, b: seq<nat>, pos: nat)
    requires WellFormedProgram(prog) && InProg(prog, a) && InProg(prog, b) && pos <= |input|
    ensures InProg(prog, a + b)
    ensures Worth(prog, input, a + b, pos) == Worth(prog, input, a, pos).OrElse(Worth(prog, input, b, pos))
  {
    if a == [] {
      assert a + b == b;
    } else {
      assert (a + b)[1..] == a[1..] + b;
      WorthConcat(prog, input, a[1..], b, pos);
    }
  }

  /** None of the listed instructions leads to a match. */
  ghost predicate AllFail(prog: seq<Inst>, input: seq<Byte>, pcs: seq<nat>, pos: nat)
    requires WellFormedProgram(prog) && InProg(prog, pcs) && pos <= |input|
  {
    forall k :: 0 <= k < |pcs| ==> WorthOf(prog, input, pcs[k], pos).None?
  }

  lemma {:induction false} WorthNone(prog: seq<Inst>, input: seq<Byte>, pcs: seq<nat>, pos: nat)
    requires WellFormedProgram(prog) && InProg(prog, pcs) && pos <= |input|
    ensures Worth(prog, input, pcs, pos).None? <==> AllFail(prog, input, pcs, pos)
  {
    if pcs != [] {
      WorthNone(prog, input, pcs[1..], pos);
      assert forall k :: 0 <= k < |pcs[1..]| ==> pcs[1..][k] == pcs[k + 1];
    }
  }

  /** Leaving out instructions that fail anyway does not change the value. */
  lemma {:induction false} WorthWithout(prog: seq<Inst>, input: seq<Byte>, pcs: seq<nat>, gone: set<nat>, pos: nat)
    requires WellFormedProgram(prog) && InProg(prog, pcs) && pos <= |input|
    requires forall k :: 0 <= k < |pcs| && pcs[k] in gone ==> WorthOf(prog, input, pcs[k], pos).None?
    ensures InProg(prog, Without(pcs, gone))
    ensures Worth(prog, input, Without(pcs, gone), pos) == Worth(prog, input, pcs, pos)
  {
    if pcs != [] {
      WorthWithout(prog, input, pcs[1..], gone, pos);
      var rest := Without(pcs[1..], gone);
      if pcs[0] in gone {
        assert WorthOf(prog, input, pcs[0], pos).None?;
        assert Without(pcs, gone) == rest;
      } else {
        assert Without(pcs, gone) == [pcs[0]] + rest;
        assert ([pcs[0]] + rest)[1..] == rest;
      }
    }
  }

  // ----- the value of threads -----

  /** The span found by the first thread of the list that leads to a match. */
  ghost function ThreadsWorth(prog: seq<Inst>, input: seq<Byte>, threads: seq<Thread>, pos: nat): (found: Option<(nat, nat)>)
    requires WellFormedProgram(prog) && ThreadsInProg(prog, threads) && pos <= |input|
  {
    if threads == [] then None
    else
      var end := WorthOf(prog, input, threads[0].pc, pos);
      if end.Some? then Some((threads[0].start, end.value))
      else ThreadsWorth(prog, input, threads[1..], pos)
  }

  lemma {:induction false} ThreadsWorthConcat(prog: seq<Inst>, input: seq<Byte>, a: seq<Thread>, b: seq<Thread>, pos: nat)
    requires WellFormedProgram(prog) && ThreadsInProg(prog, a) && ThreadsInProg(prog, b) && pos <= |input|
    ensures ThreadsWorth(prog, input, a + b, pos)
         == ThreadsWorth(prog, input, a, pos).OrElse(ThreadsWorth(prog, input, b, pos))
  {
    if a == [] {
      assert a + b == b;
    } else {
      assert (a + b)[1..] == a[1..] + b;
      ThreadsWorthConcat(prog, input, a[1..], b, pos);
    }
  }

  lemma {:induction false} TagWorth(prog: seq<Inst>, input: seq<Byte>, pcs: seq<nat>, start: nat, pos: nat)
    requires WellFormedProgram(prog) && InProg(prog, pcs) && pos <= |input|
    ensures ThreadsWorth(prog, input, Tag(pcs, start), pos) == match Worth(prog, input, pcs, pos)
                                                               case Some(e) => Some((start, e))
                                                               case None => None
  {
    if pcs != [] {
      assert Tag(pcs, start)[1..] == Tag(pcs[1..], start);
      TagWorth(prog, input, pcs[1..], start, pos);
    }
  }

  lemma {:induction false} ThreadsWorthNone(prog: seq<Inst>, input: seq<Byte>, threads: seq<Thread>, pos: nat)
    requires WellFormedProgram(prog) && ThreadsInProg(prog, threads) && pos <= |input|
    ensures ThreadsWorth(prog, input, threads, pos).None? <==> AllFail(prog, input, Pcs(threads), pos)
  {
    if threads != [] {
      ThreadsWorthNone(prog, input, threads[1..], pos);
      var pcs, rest := Pcs(threads), Pcs(threads[1..]);
      assert pcs[0] == threads[0].pc && pcs[1..] == rest;
      assert AllFail(prog, input, pcs, pos)
        <==> WorthOf(prog, input, pcs[0], pos).None? && AllFail(prog, input, rest, pos) by {
        assert forall k :: 0 <= k < |rest| ==> rest[k] == pcs[k + 1];
        assert forall k :: 1 <= k < |pcs| ==> pcs[k] == rest[k - 1];
      }
    }
  }

  /** `threads` lists the ready instructions of the closed set `seen`. */
  ghost predicate Covers(prog: seq<Inst>, mode: Mode, threads: seq<Thread>, seen: set<nat>)
    requires WellFormedProgram(prog)
  {
    && ThreadsInProg(prog, threads)
    && seen <= AllPcs(prog)
    && ClosedOver(prog, mode, seen, {})
    && ListsReady(prog, mode, Pcs(threads), seen)
  }

  lemma PcsConcat(a: seq<Thread>, b: seq<Thread>)
    ensures Pcs(a + b) == Pcs(a) + Pcs(b)
  {
  }

  lemma TagInProg(prog: seq<Inst>, pcs: seq<nat>, start: nat)
    requires InProg(prog, pcs)
    ensures ThreadsInProg(prog, Tag(pcs, start))
  {
  }

  /** Adding a root to a covered list covers what the visit has then seen. */
  lemma AddRootCovers(prog: seq<Inst>, mode: Mode, threads: seq<Thread>, seen: set<nat>, pc: nat, start: nat)
    requires WellFormedProgram(prog) && pc < |prog|
    requires Covers(prog, mode, threads, seen)
    ensures var v := Visit(prog, mode, [pc], seen);
            InProg(prog, v.list) && Covers(prog, mode, threads + Tag(v.list, start), v.seen)
  {
    var v := Visit(prog, mode, [pc], seen);
    VisitFacts(prog, mode, [pc], seen);
    hide Visit, ClosedOver, InProg;
    VisitAfterClosed(prog, mode, pc, seen);
    assert InProg(prog, v.list);
    hide ListsReady;
    assert seen + (v.seen - seen) == v.seen;
    ListsReadyConcat(prog, mode, Pcs(threads), seen, v.list, v.seen - seen);
    assert ThreadsInProg(prog, threads + Tag(v.list, start)) by {
      TagInProg(prog, v.list, start);
    }
    PcsConcat(threads, Tag(v.list, start));
    assert Pcs(Tag(v.list, start)) == v.list;
  }

  /** A closure without what a failing covered list has seen is worth the whole closure. */
  lemma WorthAfterFailures(prog: seq<Inst>, input: seq<Byte>, threads: seq<Thread>, seen: set<nat>, pc: nat, pos: nat)
    requires WellFormedProgram(prog) && pos <= |input| && pc < |prog|
    requires Covers(prog, ModeAt(input, pos), threads, seen)
    requires ThreadsWorth(prog, input, threads, pos).None?
    ensures var list := Visit(prog, ModeAt(input, pos), [pc], seen).list;
            InProg(prog, list) && Worth(prog, input, list, pos) == WorthFrom(prog, input, pc, pos)
  {
    var mode := ModeAt(input, pos);
    VisitAfterClosed(prog, mode, pc, seen);
    VisitFacts(prog, mode, [pc], {});
    ThreadsWorthNone(prog, input, threads, pos);
    hide Visit, Worth, WorthOf, ThreadsWorth;
    var closure := Close(prog, mode, pc);
    forall k | 0 <= k < |closure| && closure[k] in seen ensures WorthOf(prog, input, closure[k], pos).None? {
      assert closure[k] in closure;
      assert closure[k] in Pcs(threads);
    }
    WorthWithout(prog, input, closure, seen, pos);
  }

  /** Adding a root to a covered list: worth the list, or else the root on its own. */
  lemma AddRootWorth(prog: seq<Inst>, input: seq<Byte>, threads: seq<Thread>, seen: set<nat>, pc: nat, start: nat, pos: nat)
    requires WellFormedProgram(prog) && pos <= |input| && pc < |prog|
    requires Covers(prog, ModeAt(input, pos), threads, seen)
    ensures var v := Visit(prog, ModeAt(input, pos), [pc], seen);
            && ThreadsInProg(prog, threads + Tag(v.list, start))
            && ThreadsWorth(prog, input, threads + Tag(v.list, start), pos)
               == ThreadsWorth(prog, input, threads, pos).OrElse(Begun(start, WorthFrom(prog, input, pc, pos)))
  {
    hide Visit, Worth, WorthOf, ThreadsWorth;
    var v := Visit(prog, ModeAt(input, pos), [pc], seen);
    AddRootCovers(prog, ModeAt(input, pos), threads, seen, pc, start);
    ThreadsWorthConcat(prog, input, threads, Tag(v.list, start), pos);
    TagWorth(prog, input, v.list, start, pos);
    if ThreadsWorth(prog, input, threads, pos).None? {
      WorthAfterFailures(prog, input, threads, seen, pc, pos);
    }
  }

  function Begun(start: nat, end: Option<nat>): Option<(nat, nat)> {
    match end
    case Some(e) => Some((start, e))
    case None => None
  }

  // ----- one generation -----

  datatype Generation = Generation(threads: seq<Thread>, seen: set<nat>)

  /**
   Advance the threads over the byte at `pos`, in order, up to the first `Match`: each
   matching `Byte` adds the closure of what follows it to the next generation.
   */
  ghost function Advance(prog: seq<Inst>, input: seq<Byte>, threads: seq<Thread>, pos: nat, next: Generation): (g: Generation)
    requires WellFormedProgram(prog) && ThreadsInProg(prog, threads) && pos < |input|
  {
    if threads == [] then next
    else
      match prog[threads[0].pc]
      case Match => next
      case Byte(c) =>
        if c[input[pos]] then
          var v := Visit(prog, ModeAt(input, pos + 1), [threads[0].pc + 1], next.seen);
          Advance(prog, input, threads[1..], pos, Generation(next.threads + Tag(v.list, threads[0].start), v.seen))
        else Advance(prog, input, threads[1..], pos, next)
      case _ => Advance(prog, input, threads[1..], pos, next)
  }

  /** The start of the first thread that stands at `Match`. */
  function FirstMatchStart(prog: seq<Inst>, threads: seq<Thread>): Option<nat>
    requires ThreadsInProg(prog, threads)
  {
    if threads == [] then None
    else if prog[threads[0].pc].Match? then Some(threads[0].start)
    else FirstMatchStart(prog, threads[1..])
  }

  function MatchedAt(start: Option<nat>, pos: nat): Option<(nat, nat)> {
    match start
    case Some(s) => Some((s, pos))
    case None => None
  }

  /**
   One generation keeps the value: what the next generation finds, or else the match
   recorded on the way, is what the current list is worth.
   */
  lemma {:induction false} AdvanceWorth(prog: seq<Inst>, input: seq<Byte>, threads: seq<Thread>, pos: nat, next: Generation)
    requires WellFormedProgram(prog) && ThreadsInProg(prog, threads) && pos < |input|
    requires Covers(prog, ModeAt(input, pos + 1), next.threads, next.seen)
    ensures var g := Advance(prog, input, threads, pos, next);
            && Covers(prog, ModeAt(input, pos + 1), g.threads, g.seen)
            && ThreadsWorth(prog, input, g.threads, pos + 1).OrElse(MatchedAt(FirstMatchStart(prog, threads), pos))
               == ThreadsWorth(prog, input, next.threads, pos + 1).OrElse(ThreadsWorth(prog, input, threads, pos))
  {
    hide Covers, Visit, Worth;
    if threads != [] {
      var t := threads[0];
      match prog[t.pc]
      case Match =>
      case Byte(c) =>
        if c[input[pos]] {
          var v := Visit(prog, ModeAt(input, pos + 1), [t.pc + 1], next.seen);
          assert WorthOf(prog, input, t.pc, pos) == WorthFrom(prog, input, t.pc + 1, pos + 1);
          hide WorthOf, WorthFrom;
          AddRootCovers(prog, ModeAt(input, pos + 1), next.threads, next.seen, t.pc + 1, t.start);
          AddRootWorth(prog, input, next.threads, next.seen, t.pc + 1, t.start, pos + 1);
          AdvanceWorth(prog, input, threads[1..], pos, Generation(next.threads + Tag(v.list, t.start), v.seen));
        } else {
          AdvanceWorth(prog, input, threads[1..], pos, next);
        }
      case _ => AdvanceWorth(prog, input, threads[1..], pos, next);
    }
  }

  /** At the end of the input only a `Match` in the list is worth anything. */
  lemma {:induction false} WorthAtEnd(prog: seq<Inst>, input: seq<Byte>, threads: seq<Thread>)
    requires WellFormedProgram(prog) && ThreadsInProg(prog, threads)
    ensures ThreadsWorth(prog, input, threads, |input|) == MatchedAt(FirstMatchStart(prog, threads), |input|)
  {
    if threads != [] {
      WorthAtEnd(prog, input, threads[1..]);
    }
  }

  // ----- the search -----

  /** The least start from `scan` on from which the program leads to a match, with the preferred end. */
  ghost function Leftmost(prog: seq<Inst>, input: seq<Byte>, scan: nat): (found: Option<(nat, nat)>)
    requires WellFormedProgram(prog)
    ensures found.Some? ==> scan <= found.value.0 <= found.value.1 <= |input|
    decreases |input| + 1 - scan
  {
    if scan > |input| then None
    else Begun(scan, WorthFrom(prog, input, 0, scan)).OrElse(Leftmost(prog, input, scan + 1))
  }

  /** What the machine answers: from any start at or after `scan`, or only from `scan`. */
  ghost function Search(prog: seq<Inst>, input: seq<Byte>, scan: nat, unanchored: bool): (found: Option<(nat, nat)>)
    requires WellFormedProgram(prog)
    ensures found.Some? ==> scan <= found.value.0 <= found.value.1 <= |input|
  {
    if scan > |input| then None
    else if unanchored then Leftmost(prog, input, scan)
    else Begun(scan, WorthFrom(prog, input, 0, scan))
  }

  /** The answer of a machine with these threads, this best match so far, and later starts to seed. */
  ghost function Answer(prog: seq<Inst>, input: seq<Byte>, threads: seq<Thread>, pos: nat,
                        best: Option<(nat, nat)>, unanchored: bool): Option<(nat, nat)>
    requires WellFormedProgram(prog) && ThreadsInProg(prog, threads) && pos <= |input|
  {
    ThreadsWorth(prog, input, threads, pos).OrElse(
      best.OrElse(if unanchored then Leftmost(prog, input, pos + 1) else None))
  }

  const NOTHING := Generation([], {})

  /**
   One turn of the search keeps the answer: advance, record a match, and while there is
   none seed a lowest-priority thread at the next position.
   */
  lemma TurnKeepsAnswer(prog: seq<Inst>, input: seq<Byte>, threads: seq<Thread>, pos: nat,
                        best: Option<(nat, nat)>, unanchored: bool)
    requires WellFormedProgram(prog) && ThreadsInProg(prog, threads) && pos < |input|
    ensures var mode := ModeAt(input, pos + 1);
            var g := Advance(prog, input, threads, pos, NOTHING);
            var best' := MatchedAt(FirstMatchStart(prog, threads), pos).OrElse(best);
            var answer := Answer(prog, input, threads, pos, best, unanchored);
            var v := Visit(prog, mode, [0], g.seen);
            && ThreadsInProg(prog, g.threads) && Covers(prog, mode, g.threads, g.seen)
            && ThreadsInProg(prog, g.threads + Tag(v.list, pos + 1))
            && Covers(prog, mode, g.threads + Tag(v.list, pos + 1), v.seen)
            && answer == Answer(prog, input,
                                if unanchored && best'.None? then g.threads + Tag(v.list, pos + 1) else g.threads,
                                pos + 1, best', unanchored)
  {
    var g := Advance(prog, input, threads, pos, NOTHING);
    assert Covers(prog, ModeAt(input, pos + 1), [], {});
    hide Advance, Visit, Worth, WorthOf, WorthFrom;
    AdvanceWorth(prog, input, threads, pos, NOTHING);
    assert ThreadsWorth(prog, input, [], pos + 1).None?;
    hide ThreadsWorth, FirstMatchStart, ClosedOver, ListsReady;
    AddRootCovers(prog, ModeAt(input, pos + 1), g.threads, g.seen, 0, pos + 1);
    AddRootWorth(prog, input, g.threads, g.seen, 0, pos + 1, pos + 1);
  }
}

/**
 One generation of the machine seen as a step between instruction lists, with the
 provenance of each thread.

 This is what a DFA may compute once and reuse, because it does not depend on the input.
 */
module DfaSpec {
  import opened Wrappers
  import opened Ast
  import opened Program
  import opened Closure
  import opened Threads

  // ----- a generation as a function of the instructions alone -----

  /** As `Threads.Advance`, over any byte `b`. */
  ghost function StepOn(prog: seq<Inst>, mode: Mode, threads: seq<Thread>, b: Byte, next: Generation): Generation
    requires WellFormedProgram(prog) && ThreadsInProg(prog, threads)
  {
    if threads == [] then next
    else
      match prog[threads[0].pc]
      case Match => next
      case Byte(c) =>
        if c[b] then
          var v := Visit(prog, mode, [threads[0].pc + 1], next.seen);
          StepOn(prog, mode, threads[1..], b, Generation(next.threads + Tag(v.list, threads[0].start), v.seen))
        else StepOn(prog, mode, threads[1..], b, next)
      case _ => StepOn(prog, mode, threads[1..], b, next)
  }

  /** Without assertions a generation does not depend on the place in the input. */
  lemma {:induction false} AdvanceIsStepOn(prog: seq<Inst>, input: seq<Byte>, threads: seq<Thread>, pos: nat, next: Generation)
    requires WellFormedProgram(prog) && NoAsserts(prog) && ThreadsInProg(prog, threads) && pos < |input|
    ensures Advance(prog, input, threads, pos, next) == StepOn(prog, Blind, threads, input[pos], next)
  {
    if threads != [] {
      var pc := threads[0].pc;
      if prog[pc].Byte? {
        if prog[pc].bits[input[pos]] {
          VisitModeFree(prog, ModeAt(input, pos + 1), Blind, [pc + 1], next.seen);
          var v := Visit(prog, Blind, [pc + 1], next.seen);
          AdvanceIsStepOn(prog, input, threads[1..], pos, Generation(next.threads + Tag(v.list, threads[0].start), v.seen));
        } else {
          AdvanceIsStepOn(prog, input, threads[1..], pos, next);
        }
      } else if !prog[pc].Match? {
        AdvanceIsStepOn(prog, input, threads[1..], pos, next);
      }
    }
  }

  /** A step keeps its generation a covered one. */
  lemma {:induction false} StepOnCovers(prog: seq<Inst>, mode: Mode, threads: seq<Thread>, b: Byte, next: Generation)
    requires WellFormedProgram(prog) && ThreadsInProg(prog, threads)
    requires Covers(prog, mode, next.threads, next.seen)
    ensures var g := StepOn(prog, mode, threads, b, next); Covers(prog, mode, g.threads, g.seen)
  {
    hide Covers, Visit;
    if threads != [] {
      var t := threads[0];
      if prog[t.pc].Byte? && prog[t.pc].bits[b] {
        var v := Visit(prog, mode, [t.pc + 1], next.seen);
        AddRootCovers(prog, mode, next.threads, next.seen, t.pc + 1, t.start);
        StepOnCovers(prog, mode, threads[1..], b, Generation(next.threads + Tag(v.list, t.start), v.seen));
      } else if !prog[t.pc].Match? {
        StepOnCovers(prog, mode, threads[1..], b, next);
      }
    }
  }

  // ----- threads as instructions with starts, and with positions -----

  /** Threads at `pcs` with the given starts. */
  function Zip(pcs: seq<nat>, starts: seq<nat>): seq<Thread>
    requires |pcs| == |starts|
  {
    seq(|pcs|, k requires 0 <= k < |pcs| => Thread(pcs[k], starts[k]))
  }

  /** Threads at `pcs`, each marked with its own position in the list. */
  function Indexed(pcs: seq<nat>): seq<Thread> {
    seq(|pcs|, k requires 0 <= k < |pcs| => Thread(pcs[k], k))
  }

  function Starts(threads: seq<Thread>): seq<nat> {
    seq(|threads|, k requires 0 <= k < |threads| => threads[k].start)
  }

  /** Where the instructions `pcs` lead on `b`, marked with the position each came from. */
  ghost function StepFrom(prog: seq<Inst>, pcs: seq<nat>, b: Byte): Generation
    requires WellFormedProgram(prog) && InProg(prog, pcs)
  {
    StepOn(prog, Blind, Indexed(pcs), b, NOTHING)
  }

  /** `threads` is `marked` with each mark read as a position in `starts`. */
  ghost predicate ReadFrom(threads: seq<Thread>, marked: seq<Thread>, starts: seq<nat>) {
    |threads| == |marked| &&
    forall k :: 0 <= k < |marked| ==>
      marked[k].start < |starts| && threads[k] == Thread(marked[k].pc, starts[marked[k].start])
  }

  /** Marks travel with their threads: a step commutes with reading the marks. */
  lemma {:induction false} StepOnReads(prog: seq<Inst>, mode: Mode, threads: seq<Thread>, marked: seq<Thread>, starts: seq<nat>,
                                       b: Byte, next: Generation, markedNext: Generation)
    requires WellFormedProgram(prog) && ThreadsInProg(prog, threads) && ThreadsInProg(prog, marked)
    requires ReadFrom(threads, marked, starts) && ReadFrom(next.threads, markedNext.threads, starts)
    requires next.seen == markedNext.seen
    ensures var g, m := StepOn(prog, mode, threads, b, next), StepOn(prog, mode, marked, b, markedNext);
            ReadFrom(g.threads, m.threads, starts) && g.seen == m.seen
  {
    hide Visit;
    if threads != [] {
      var t, u := threads[0], marked[0];
      match prog[t.pc]
      case Match =>
      case Byte(c) =>
        if c[b] {
          var v := Visit(prog, mode, [t.pc + 1], next.seen);
          StepOnReads(prog, mode, threads[1..], marked[1..], starts, b,
                      Generation(next.threads + Tag(v.list, t.start), v.seen),
                      Generation(markedNext.threads + Tag(v.list, u.start), v.seen));
        } else {
          StepOnReads(prog, mode, threads[1..], marked[1..], starts, b, next, markedNext);
        }
      case _ => StepOnReads(prog, mode, threads[1..], marked[1..], starts, b, next, markedNext);
    }
  }

  /** The next threads are the stored instructions with the starts their provenance points at. */
  lemma StepFromReads(prog: seq<Inst>, input: seq<Byte>, pcs: seq<nat>, starts: seq<nat>, pos: nat)
    requires WellFormedProgram(prog) && NoAsserts(prog) && InProg(prog, pcs) && |pcs| == |starts| && pos < |input|
    ensures ThreadsInProg(prog, Zip(pcs, starts))
    ensures var g := Advance(prog, input, Zip(pcs, starts), pos, NOTHING);
            var m := StepFrom(prog, pcs, input[pos]);
            g.seen == m.seen && ReadFrom(g.threads, m.threads, starts)
  {
    hide Visit;
    AdvanceIsStepOn(prog, input, Zip(pcs, starts), pos, NOTHING);
    StepOnReads(prog, Blind, Zip(pcs, starts), Indexed(pcs), starts, input[pos], NOTHING, NOTHING);
  }

  // ----- filtering by what is present -----

  ghost function Members(pcs: seq<nat>): set<nat> {
    set k | 0 <= k < |pcs| :: pcs[k]
  }

  lemma {:induction false} WithoutSame(list: seq<nat>, a: set<nat>, b: set<nat>)
    requires forall k :: 0 <= k < |list| ==> (list[k] in a <==> list[k] in b)
    ensures Without(list, a) == Without(list, b)
  {
    if list != [] {
      WithoutSame(list[1..], a, b);
    }
  }

  /** The shared visit from a covered list is the precomputed closure without what is present. */
  lemma VisitIsFilteredClosure(prog: seq<Inst>, mode: Mode, threads: seq<Thread>, seen: set<nat>, pc: nat)
    requires WellFormedProgram(prog) && pc < |prog| && Covers(prog, mode, threads, seen)
    ensures Visit(prog, mode, [pc], seen).list == Without(Close(prog, mode, pc), Members(Pcs(threads)))
  {
    VisitAfterClosed(prog, mode, pc, seen);
    VisitFacts(prog, mode, [pc], {});
    hide Visit, WellFormedProgram, ClosedOver;
    var closure, members := Close(prog, mode, pc), Members(Pcs(threads));
    forall k | 0 <= k < |closure| ensures closure[k] in seen <==> closure[k] in members {
      assert closure[k] in closure;
      assert closure[k] in Pcs(threads) <==> closure[k] in members;
    }
    WithoutSame(closure, seen, members);
  }
}

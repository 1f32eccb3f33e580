/** The Pike machine finds a match exactly when there is one, at the least start, with an actual end. */
module PikeCorrectness {
  import opened Wrappers
  import opened Ast
  import opened Semantics
  import opened Program
  import opened Paths
  import opened Closure
  import opened Threads

  /** `q` is reached from `p` in `steps` epsilon edges. */
  ghost predicate Reaches(prog: seq<Inst>, mode: Mode, p: nat, q: nat, steps: nat)
    requires WellFormedProgram(prog)
    decreases steps
  {
    if steps == 0 then p == q
    else exists m: nat :: Leads(prog, mode, p, m) && Reaches(prog, mode, m, q, steps - 1)
  }

  lemma ReachesLater(prog: seq<Inst>, mode: Mode, p: nat, m: nat, q: nat, steps: nat)
    requires WellFormedProgram(prog) && Leads(prog, mode, p, m) && Reaches(prog, mode, m, q, steps)
    ensures Reaches(prog, mode, p, q, steps + 1)
  {
  }

  lemma ReachesFirst(prog: seq<Inst>, mode: Mode, p: nat, q: nat, steps: nat) returns (m: nat)
    requires WellFormedProgram(prog) && steps > 0 && Reaches(prog, mode, p, q, steps)
    ensures Leads(prog, mode, p, m) && Reaches(prog, mode, m, q, steps - 1)
  {
    m :| Leads(prog, mode, p, m) && Reaches(prog, mode, m, q, steps - 1);
  }

  /** What a visit sees is reached from one of its roots. */
  lemma {:induction false} SeenIsReached(prog: seq<Inst>, mode: Mode, roots: seq<nat>, seen: set<nat>, q: nat)
    returns (k: nat, steps: nat)
    requires WellFormedProgram(prog) && InProg(prog, roots)
    requires q in Visit(prog, mode, roots, seen).seen - seen
    ensures k < |roots| && Reaches(prog, mode, roots[k], q, steps)
    decreases AllPcs(prog) - seen, |roots|
  {
    hide Reaches, Leads, WellFormedProgram, VisitFresh, Ready, Next;
    var pc := roots[0];
    if pc in seen {
      k, steps := SeenIsReached(prog, mode, roots[1..], seen, q);
      k := k + 1;
    } else {
      assert pc in AllPcs(prog) - seen;
      var inner := VisitFresh(prog, mode, pc, seen);
      if q in inner.seen {
        steps := FreshIsReached(prog, mode, pc, seen, q);
        k := 0;
      } else {
        k, steps := SeenIsReached(prog, mode, roots[1..], inner.seen, q);
        k := k + 1;
      }
    }
  }

  lemma {:induction false} FreshIsReached(prog: seq<Inst>, mode: Mode, pc: nat, seen: set<nat>, q: nat)
    returns (steps: nat)
    requires WellFormedProgram(prog) && pc < |prog| && pc !in seen
    requires q in VisitFresh(prog, mode, pc, seen).seen - seen
    ensures Reaches(prog, mode, pc, q, steps)
    decreases AllPcs(prog) - seen, 0
  {
    assert pc in AllPcs(prog) - seen;
    if q == pc {
      steps := 0;
    } else {
      var succ := Next(prog, mode, pc);
      var k;
      k, steps := SeenIsReached(prog, mode, succ, seen + {pc}, q);
      assert Leads(prog, mode, pc, succ[k]);
      ReachesLater(prog, mode, pc, succ[k], q, steps);
      steps := steps + 1;
    }
  }

  // ----- soundness: what the machine finds is a path -----

  /** Epsilon edges before a run make a run. */
  lemma {:induction false} ReachedRuns(prog: seq<Inst>, input: seq<Byte>, p: nat, q: nat, pos: nat,
                                       steps: nat, end: nat, runSteps: nat)
    requires WellFormedProgram(prog) && pos <= |input|
    requires Reaches(prog, ModeAt(input, pos), p, q, steps) && Runs(prog, input, q, pos, end, runSteps)
    ensures Runs(prog, input, p, pos, end, steps + runSteps)
    decreases steps
  {
    if steps > 0 {
      var m := ReachesFirst(prog, ModeAt(input, pos), p, q, steps);
      ReachedRuns(prog, input, m, q, pos, steps - 1, end, runSteps);
      assert CanStep(prog, input, p, pos, m, pos);
      StepRuns(prog, input, p, pos, m, pos, end, steps - 1 + runSteps);
    }
  }

  lemma {:induction false} WorthOfRuns(prog: seq<Inst>, input: seq<Byte>, pc: nat, pos: nat) returns (steps: nat)
    requires WellFormedProgram(prog) && pc < |prog| && pos <= |input|
    requires WorthOf(prog, input, pc, pos).Some?
    ensures Runs(prog, input, pc, pos, WorthOf(prog, input, pc, pos).value, steps)
    decreases |input| - pos, 0
  {
    match prog[pc]
    case Match => steps := 0;
    case Byte(c) =>
      steps := WorthFromRuns(prog, input, pc + 1, pos + 1);
      StepRuns(prog, input, pc, pos, pc + 1, pos + 1, WorthOf(prog, input, pc, pos).value, steps);
      steps := steps + 1;
    case _ =>
  }

  lemma {:induction false} WorthFromRuns(prog: seq<Inst>, input: seq<Byte>, pc: nat, pos: nat) returns (steps: nat)
    requires WellFormedProgram(prog) && pc < |prog| && pos <= |input|
    requires WorthFrom(prog, input, pc, pos).Some?
    ensures Runs(prog, input, pc, pos, WorthFrom(prog, input, pc, pos).value, steps)
    decreases |input| - pos, 1
  {
    hide Visit, Worth, WorthOf, Runs, Reaches, WellFormedProgram, ClosedOver, Ready, ModeAt;
    var mode := ModeAt(input, pos);
    var closure := Close(prog, mode, pc);
    var k := FirstWorth(prog, input, closure, pos);
    VisitFacts(prog, mode, [pc], {});
    assert closure[k] in closure;
    var r, reach := SeenIsReached(prog, mode, [pc], {}, closure[k]);
    steps := WorthOfRuns(prog, input, closure[k], pos);
    ReachedRuns(prog, input, pc, closure[k], pos, reach, WorthFrom(prog, input, pc, pos).value, steps);
    steps := reach + steps;
  }

  lemma {:induction false} FirstWorth(prog: seq<Inst>, input: seq<Byte>, pcs: seq<nat>, pos: nat) returns (k: nat)
    requires WellFormedProgram(prog) && InProg(prog, pcs) && pos <= |input|
    requires Worth(prog, input, pcs, pos).Some?
    ensures k < |pcs| && WorthOf(prog, input, pcs[k], pos) == Worth(prog, input, pcs, pos)
  {
    if WorthOf(prog, input, pcs[0], pos).Some? {
      k := 0;
    } else {
      k := FirstWorth(prog, input, pcs[1..], pos);
      k := k + 1;
    }
  }

  // ----- completeness: a path makes the machine find something -----

  /** A run from inside a closed set makes one of its ready instructions worth something. */
  lemma {:induction false} RunsWorth(prog: seq<Inst>, input: seq<Byte>, closed: set<nat>, pc: nat, pos: nat,
                                     end: nat, steps: nat) returns (q: nat)
    requires WellFormedProgram(prog) && pos <= |input| && pc < |prog|
    requires ClosedOver(prog, ModeAt(input, pos), closed, {}) && pc in closed
    requires Runs(prog, input, pc, pos, end, steps)
    ensures q < |prog| && q in closed && Ready(prog, ModeAt(input, pos), q) && WorthOf(prog, input, q, pos).Some?
    decreases steps, 0
  {
    if prog[pc].Match? {
      q := pc;
    } else {
      var pc', pos' := FirstStep(prog, input, pc, pos, end, steps);
      if prog[pc].Byte? {
        RunsWorthFrom(prog, input, pc', pos', end, steps - 1);
        q := pc;
      } else {
        assert Leads(prog, ModeAt(input, pos), pc, pc') by {
          assert pc' in Next(prog, ModeAt(input, pos), pc);
        }
        q := RunsWorth(prog, input, closed, pc', pos, end, steps - 1);
      }
    }
  }

  lemma {:induction false} RunsWorthFrom(prog: seq<Inst>, input: seq<Byte>, pc: nat, pos: nat, end: nat, steps: nat)
    requires WellFormedProgram(prog) && pos <= |input| && pc < |prog|
    requires Runs(prog, input, pc, pos, end, steps)
    ensures WorthFrom(prog, input, pc, pos).Some?
    decreases steps, 1
  {
    hide Visit, Worth, WorthOf, Runs, WellFormedProgram, ClosedOver, Ready, ModeAt;
    var mode := ModeAt(input, pos);
    var v := Visit(prog, mode, [pc], {});
    VisitFacts(prog, mode, [pc], {});
    assert v.seen - {} == v.seen && [pc][0] in v.seen;
    var q := RunsWorth(prog, input, v.seen, pc, pos, end, steps);
    assert q in v.list;
    WorthNone(prog, input, v.list, pos);
  }

  // ----- the search -----

  lemma NotEmpty(prog: seq<Inst>)
    requires WellFormedProgram(prog)
    ensures |prog| > 0
  {
  }

  /** An anchored search finds something exactly when there is a match at the start, and then an actual end. */
  lemma AnchoredCorrect(ast: Node, input: seq<Byte>, start: nat)
    requires WellFormed(ast) && start <= |input|
    ensures WellFormedProgram(Compile(ast))
    ensures match WorthFrom(Compile(ast), input, 0, start)
            case Some(e) => start <= e <= |input| && Matches(ast, input, start, e)
            case None => forall e: nat :: !Matches(ast, input, start, e)
  {
    hide Compile, Matches, WorthFrom, WellFormed, WellFormedProgram, Runs;
    var prog := Compile(ast);
    CompileWellFormed(ast);
    NotEmpty(prog);
    if WorthFrom(prog, input, 0, start).Some? {
      var steps := WorthFromRuns(prog, input, 0, start);
      CompileCorrect(ast, input, start, WorthFrom(prog, input, 0, start).value);
    } else {
      forall e: nat ensures !Matches(ast, input, start, e) {
        CompileCorrect(ast, input, start, e);
        if steps: nat :| Runs(prog, input, 0, start, e, steps) {
          RunsWorthFrom(prog, input, 0, start, e, steps);
        }
      }
    }
  }

  /** The machine is sound, complete and leftmost, for every pattern and input. */
  lemma {:induction false} PikeCorrect(ast: Node, input: seq<Byte>, scan: nat)
    requires WellFormed(ast)
    ensures WellFormedProgram(Compile(ast))
    ensures match Leftmost(Compile(ast), input, scan)
            case Some((s, e)) =>
              scan <= s <= e <= |input| && Matches(ast, input, s, e) &&
              forall s': nat, e': nat :: scan <= s' < s ==> !Matches(ast, input, s', e')
            case None => forall s': nat, e': nat :: scan <= s' <= |input| ==> !Matches(ast, input, s', e')
    decreases |input| + 1 - scan
  {
    hide Compile, Matches, WorthFrom, WellFormed, WellFormedProgram;
    CompileWellFormed(ast);
    if scan <= |input| {
      AnchoredCorrect(ast, input, scan);
      if WorthFrom(Compile(ast), input, 0, scan).None? {
        PikeCorrect(ast, input, scan + 1);
      }
    }
  }
}

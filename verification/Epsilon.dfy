/**
 Where epsilon edges lead in a compiled pattern: out of a fragment only through its end,
 and through its end only if the fragment is nullable. Hence the arms of most splits do
 not come back to the split.
 */
module Epsilon {
  import opened Ast
  import opened Program
  import opened Paths
  import opened Closure
  import opened PikeCorrectness

  /** Every assertion passes: reaches whatever is reached at any place. */
  const ANYWHERE := At(true, true)

  ghost predicate Reach(prog: seq<Inst>, p: nat, q: nat)
    requires WellFormedProgram(prog)
  {
    exists steps: nat :: Reaches(prog, ANYWHERE, p, q, steps)
  }

  lemma ReachSelf(prog: seq<Inst>, p: nat)
    requires WellFormedProgram(prog)
    ensures Reach(prog, p, p)
  {
    assert Reaches(prog, ANYWHERE, p, p, 0);
  }

  /** Reaching from an instruction is standing there or reaching from a successor. */
  lemma ReachStep(prog: seq<Inst>, p: nat, q: nat)
    requires WellFormedProgram(prog) && p < |prog|
    ensures Reach(prog, p, q)
       <==> p == q || exists k :: 0 <= k < |Next(prog, ANYWHERE, p)| && Reach(prog, Next(prog, ANYWHERE, p)[k], q)
  {
    ReachSelf(prog, p);
    var succ := Next(prog, ANYWHERE, p);
    if steps: nat :| Reaches(prog, ANYWHERE, p, q, steps) {
      if steps > 0 {
        var m := ReachesFirst(prog, ANYWHERE, p, q, steps);
        var k :| 0 <= k < |succ| && succ[k] == m;
        assert Reach(prog, succ[k], q);
      }
    }
    if k :| 0 <= k < |succ| && Reach(prog, succ[k], q) {
      var steps: nat :| Reaches(prog, ANYWHERE, succ[k], q, steps);
      assert Leads(prog, ANYWHERE, p, succ[k]);
      ReachesLater(prog, ANYWHERE, p, succ[k], q, steps);
    }
  }

  lemma ReachSplit(prog: seq<Inst>, p: nat, x: nat, y: nat, q: nat)
    requires WellFormedProgram(prog) && p < |prog| && prog[p] == Split(x, y)
    ensures Reach(prog, p, q) <==> p == q || Reach(prog, x, q) || Reach(prog, y, q)
  {
    ReachStep(prog, p, q);
    var succ := Next(prog, ANYWHERE, p);
    assert succ[0] == x && succ[1] == y;
  }

  lemma ReachJmp(prog: seq<Inst>, p: nat, t: nat, q: nat)
    requires WellFormedProgram(prog) && p < |prog| && prog[p] == Jmp(t)
    ensures Reach(prog, p, q) <==> p == q || Reach(prog, t, q)
  {
    ReachStep(prog, p, q);
    var succ := Next(prog, ANYWHERE, p);
    assert succ[0] == t;
  }

  /** What is reached at some place is reached when every assertion passes. */
  lemma {:induction false} ReachedAnywhere(prog: seq<Inst>, mode: Mode, p: nat, q: nat, steps: nat)
    requires WellFormedProgram(prog) && mode.At? && Reaches(prog, mode, p, q, steps)
    ensures Reaches(prog, ANYWHERE, p, q, steps)
    decreases steps
  {
    if steps > 0 {
      var m := ReachesFirst(prog, mode, p, q, steps);
      ReachedAnywhere(prog, mode, m, q, steps - 1);
      assert Leads(prog, ANYWHERE, p, m);
      ReachesLater(prog, ANYWHERE, p, m, q, steps - 1);
    }
  }

  /** An instruction that is not reached is not seen. */
  lemma NotReachedNotSeen(prog: seq<Inst>, mode: Mode, p: nat, q: nat)
    requires WellFormedProgram(prog) && mode.At? && p < |prog| && !Reach(prog, p, q)
    ensures q !in Visit(prog, mode, [p], {}).seen
  {
    if q in Visit(prog, mode, [p], {}).seen {
      var k, steps := SeenIsReached(prog, mode, [p], {}, q);
      ReachedAnywhere(prog, mode, p, q, steps);
    }
  }

  // ----- escaping a fragment -----

  /** Epsilon edges from the beginning stay in the fragment or leave through the end of a nullable one. */
  lemma {:induction false} Escape(prog: seq<Inst>, n: Node, base: nat, q: nat, steps: nat) returns (rest: nat)
    requires WellFormedProgram(prog) && Placed(prog, n, base) && WellFormed(n)
    requires Reaches(prog, ANYWHERE, base, q, steps)
    ensures rest <= steps
    ensures base <= q < base + Size(n) || (Nullable(n) && Reaches(prog, ANYWHERE, base + Size(n), q, rest))
    decreases n, 0, steps
  {
    hide Reaches, Leads, WellFormedProgram, SeqPlaced, AltPlaced, StarAround, PlusBehind, AllWellFormed, AllNullable, AnyNullable, SeqSize, AltSize;
    rest := 0;
    match n
    case Empty => rest := steps;
    case Class(_) | StartAnchor | EndAnchor => rest := EscapeOne(prog, base, q, steps);
    case Concat(parts) => rest := EscapeSeq(prog, parts, base, q, steps);
    case Alt(branches) => rest := EscapeAlt(prog, branches, base, base + AltSize(branches), q, steps);
    case Star(inner) => rest := EscapeStar(prog, inner, base, q, steps);
    case Plus(inner) => rest := EscapePlus(prog, inner, base, q, steps);
    case Quest(inner) =>
      var m, left := EscapeSplit(prog, base, base + 1, base + 1 + Size(inner), q, steps);
      rest := left;
      if q != base && m == base + 1 {
        rest := Escape(prog, inner, base + 1, q, left);
      }
  }

  /** Not at a split, a path goes on from one of its arms. */
  lemma EscapeSplit(prog: seq<Inst>, pc: nat, x: nat, y: nat, q: nat, steps: nat) returns (m: nat, left: nat)
    requires WellFormedProgram(prog) && pc < |prog| && prog[pc] == Split(x, y)
    requires Reaches(prog, ANYWHERE, pc, q, steps)
    ensures left <= steps && (m == x || m == y)
    ensures q == pc || (left < steps && Reaches(prog, ANYWHERE, m, q, left))
  {
    m, left := x, 0;
    if steps > 0 {
      m := ReachesFirst(prog, ANYWHERE, pc, q, steps);
      left := steps - 1;
    }
  }

  lemma EscapeJmp(prog: seq<Inst>, pc: nat, t: nat, q: nat, steps: nat) returns (left: nat)
    requires WellFormedProgram(prog) && pc < |prog| && prog[pc] == Jmp(t)
    requires Reaches(prog, ANYWHERE, pc, q, steps)
    ensures left <= steps
    ensures q == pc || (left < steps && Reaches(prog, ANYWHERE, t, q, left))
  {
    left := 0;
    if steps > 0 {
      var m := ReachesFirst(prog, ANYWHERE, pc, q, steps);
      left := steps - 1;
    }
  }

  lemma EscapeOne(prog: seq<Inst>, pc: nat, q: nat, steps: nat) returns (left: nat)
    requires WellFormedProgram(prog) && pc < |prog|
    requires prog[pc].Byte? || prog[pc].StartAssert? || prog[pc].EndAssert?
    requires Reaches(prog, ANYWHERE, pc, q, steps)
    ensures left <= steps
    ensures q == pc || (!prog[pc].Byte? && Reaches(prog, ANYWHERE, pc + 1, q, left))
  {
    left := 0;
    if steps > 0 {
      var m := ReachesFirst(prog, ANYWHERE, pc, q, steps);
      left := steps - 1;
    }
  }

  lemma {:induction false} EscapeSeq(prog: seq<Inst>, parts: seq<Node>, base: nat, q: nat, steps: nat) returns (rest: nat)
    requires WellFormedProgram(prog) && SeqPlaced(prog, parts, base) && AllWellFormed(parts)
    requires Reaches(prog, ANYWHERE, base, q, steps)
    ensures rest <= steps
    ensures base <= q < base + SeqSize(parts)
         || (AllNullable(parts) && Reaches(prog, ANYWHERE, base + SeqSize(parts), q, rest))
    decreases parts, 0, steps
  {
    hide Reaches, Leads, WellFormedProgram;
    rest := steps;
    if parts != [] {
      var mid := base + Size(parts[0]);
      rest := Escape(prog, parts[0], base, q, steps);
      if !(base <= q < mid) {
        rest := EscapeSeq(prog, parts[1..], mid, q, rest);
      }
    }
  }

  lemma {:induction false} EscapeAlt(prog: seq<Inst>, branches: seq<Node>, base: nat, end: nat, q: nat, steps: nat)
    returns (rest: nat)
    requires WellFormedProgram(prog) && AltPlaced(prog, branches, base, end) && AllWellFormed(branches)
    requires end == base + AltSize(branches) && branches != []
    requires Reaches(prog, ANYWHERE, base, q, steps)
    ensures rest <= steps
    ensures base <= q < end || (AnyNullable(branches) && Reaches(prog, ANYWHERE, end, q, rest))
    decreases branches, 0, steps
  {
    hide Reaches, Leads, WellFormedProgram;
    if |branches| == 1 {
      rest := Escape(prog, branches[0], base, q, steps);
    } else {
      var next := base + Size(branches[0]) + 2;
      var m, left := EscapeSplit(prog, base, base + 1, next, q, steps);
      rest := 0;
      if q != base && m == base + 1 {
        rest := Escape(prog, branches[0], base + 1, q, left);
        if !(base + 1 <= q < next - 1) {
          rest := EscapeJmp(prog, next - 1, end, q, rest);
        }
      } else if q != base {
        rest := EscapeAlt(prog, branches[1..], next, end, q, left);
      }
    }
  }

  lemma {:induction false} EscapeStar(prog: seq<Inst>, inner: Node, base: nat, q: nat, steps: nat) returns (rest: nat)
    requires WellFormedProgram(prog) && StarAround(prog, inner, base) && Placed(prog, inner, base + 1) && WellFormed(inner)
    requires Reaches(prog, ANYWHERE, base, q, steps)
    ensures rest <= steps
    ensures base <= q < base + Size(inner) + 2 || Reaches(prog, ANYWHERE, base + Size(inner) + 2, q, rest)
    decreases inner, 1, steps
  {
    hide Reaches, Leads, WellFormedProgram, Placed, Size, Nullable, WellFormed;
    var back := base + Size(inner) + 1;
    var m, left := EscapeSplit(prog, base, base + 1, back + 1, q, steps);
    rest := left;
    if q != base && m == base + 1 {
      rest := Escape(prog, inner, base + 1, q, left);
      if !(base + 1 <= q < back) {
        rest := EscapeJmp(prog, back, base, q, rest);
        if q != back {
          rest := EscapeStar(prog, inner, base, q, rest);
        }
      }
    }
  }

  lemma {:induction false} EscapePlus(prog: seq<Inst>, inner: Node, base: nat, q: nat, steps: nat) returns (rest: nat)
    requires WellFormedProgram(prog) && PlusBehind(prog, inner, base) && Placed(prog, inner, base) && WellFormed(inner)
    requires Reaches(prog, ANYWHERE, base, q, steps)
    ensures rest <= steps
    ensures base <= q < base + Size(inner) + 1
         || (Nullable(inner) && Reaches(prog, ANYWHERE, base + Size(inner) + 1, q, rest))
    decreases inner, 1, steps
  {
    hide Reaches, Leads, WellFormedProgram, Placed, Size, Nullable, WellFormed;
    var back := base + Size(inner);
    rest := Escape(prog, inner, base, q, steps);
    if !(base <= q < back) {
      var m;
      m, rest := EscapeSplit(prog, back, base, back + 1, q, rest);
      if q != back && m == base {
        rest := EscapePlus(prog, inner, base, q, rest);
      }
    }
  }

  /** A stretch of code that epsilon edges leave only through its end, and only if it is nullable. */
  ghost predicate Escapes(prog: seq<Inst>, base: nat, end: nat, nullable: bool)
    requires WellFormedProgram(prog)
  {
    forall q: nat :: Reach(prog, base, q) ==> base <= q < end || (nullable && Reach(prog, end, q))
  }

  lemma NodeEscapes(prog: seq<Inst>, n: Node, base: nat)
    requires WellFormedProgram(prog) && Placed(prog, n, base) && WellFormed(n)
    ensures Escapes(prog, base, base + Size(n), Nullable(n))
  {
    forall q: nat | Reach(prog, base, q)
      ensures base <= q < base + Size(n) || (Nullable(n) && Reach(prog, base + Size(n), q))
    {
      var steps: nat :| Reaches(prog, ANYWHERE, base, q, steps);
      var rest := Escape(prog, n, base, q, steps);
    }
  }

  lemma SeqEscapes(prog: seq<Inst>, parts: seq<Node>, base: nat)
    requires WellFormedProgram(prog) && SeqPlaced(prog, parts, base) && AllWellFormed(parts)
    ensures Escapes(prog, base, base + SeqSize(parts), AllNullable(parts))
  {
    forall q: nat | Reach(prog, base, q)
      ensures base <= q < base + SeqSize(parts) || (AllNullable(parts) && Reach(prog, base + SeqSize(parts), q))
    {
      var steps: nat :| Reaches(prog, ANYWHERE, base, q, steps);
      var rest := EscapeSeq(prog, parts, base, q, steps);
    }
  }

  lemma AltEscapes(prog: seq<Inst>, branches: seq<Node>, base: nat, end: nat)
    requires WellFormedProgram(prog) && AltPlaced(prog, branches, base, end) && AllWellFormed(branches)
    requires end == base + AltSize(branches) && branches != []
    ensures Escapes(prog, base, end, AnyNullable(branches))
  {
    forall q: nat | Reach(prog, base, q)
      ensures base <= q < end || (AnyNullable(branches) && Reach(prog, end, q))
    {
      var steps: nat :| Reaches(prog, ANYWHERE, base, q, steps);
      var rest := EscapeAlt(prog, branches, base, end, q, steps);
    }
  }

  // ----- coming back to a fragment -----

  /**
   What the end of a stretch reaches inside it: nothing if it is nullable, and otherwise
   only what its beginning reaches too.
   */
  ghost predicate Contained(prog: seq<Inst>, base: nat, end: nat, nullable: bool)
    requires WellFormedProgram(prog)
  {
    forall q: nat :: base <= q < end && Reach(prog, end, q) ==> !nullable && Reach(prog, base, q)
  }

  lemma ContainedSeq(prog: seq<Inst>, base: nat, mid: nat, end: nat, nullable0: bool, nullable1: bool)
    requires WellFormedProgram(prog) && base <= mid <= end
    requires Escapes(prog, base, mid, nullable0) && Escapes(prog, mid, end, nullable1)
    requires Contained(prog, base, end, nullable0 && nullable1)
    ensures Contained(prog, base, mid, nullable0) && Contained(prog, mid, end, nullable1)
  {
    hide Reach;
  }

  lemma ContainedAlt(prog: seq<Inst>, base: nat, next: nat, end: nat, nullable0: bool, nullable1: bool)
    requires WellFormedProgram(prog) && base + 2 <= next <= end && next <= |prog|
    requires prog[base] == Split(base + 1, next) && prog[next - 1] == Jmp(end)
    requires Escapes(prog, base + 1, next - 1, nullable0) && Escapes(prog, next, end, nullable1)
    requires Contained(prog, base, end, nullable0 || nullable1)
    ensures Contained(prog, base + 1, next - 1, nullable0) && Contained(prog, next, end, nullable1)
    ensures !Reach(prog, base + 1, base)
  {
    hide Reach;
    ReachSelf(prog, base);
    var back, body := next - 1, base + 1;
    forall q: nat ensures Reach(prog, base, q) <==> base == q || Reach(prog, base + 1, q) || Reach(prog, next, q) {
      ReachSplit(prog, base, base + 1, next, q);
    }
    forall q: nat ensures Reach(prog, back, q) <==> back == q || Reach(prog, end, q) {
      ReachJmp(prog, back, end, q);
    }
    forall q: nat | body <= q < back && Reach(prog, back, q)
      ensures !nullable0 && Reach(prog, body, q)
    {
      assert Reach(prog, end, q);
      assert Reach(prog, base, q);
    }
  }

  lemma ContainedQuest(prog: seq<Inst>, base: nat, end: nat, nullable: bool)
    requires WellFormedProgram(prog) && base + 1 <= end && base < |prog|
    requires prog[base] == Split(base + 1, end)
    requires Escapes(prog, base + 1, end, nullable)
    requires Contained(prog, base, end, true)
    ensures Contained(prog, base + 1, end, nullable)
    ensures !Reach(prog, base + 1, base)
  {
    hide Reach;
  }

  lemma ContainedPlus(prog: seq<Inst>, base: nat, back: nat)
    requires WellFormedProgram(prog) && base <= back < |prog|
    requires prog[back] == Split(base, back + 1)
    requires Escapes(prog, base, back, false)
    requires Contained(prog, base, back + 1, false)
    ensures Contained(prog, base, back, false)
    ensures !Reach(prog, base, back)
  {
    hide Reach;
    forall q: nat ensures Reach(prog, back, q) <==> back == q || Reach(prog, base, q) || Reach(prog, back + 1, q) {
      ReachSplit(prog, back, base, back + 1, q);
    }
  }

  /** A whole compiled pattern: its end is `Match`, which leads nowhere. */
  lemma ContainedWhole(ast: Node)
    ensures WellFormedProgram(Compile(ast))
    ensures Contained(Compile(ast), 0, Size(ast), Nullable(ast))
  {
    CompileWellFormed(ast);
    var prog := Compile(ast);
    forall q: nat | q < Size(ast) ensures !Reach(prog, Size(ast), q) {
      ReachStep(prog, Size(ast), q);
    }
  }
}

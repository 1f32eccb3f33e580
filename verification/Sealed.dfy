/**
 How the code of a fragment is tied into the program.

 Epsilon edges from inside a fragment lead no further than its end, and edges from outside
 enter it only at its beginning.
 */
module Sealed {
  import opened Ast
  import opened Program
  import opened Paths
  import opened Closure
  import opened PikeCorrectness
  import opened Epsilon

  /** Edges from the stretch lead into it or to its end. */
  ghost predicate Stays(prog: seq<Inst>, base: nat, end: nat)
    requires WellFormedProgram(prog)
  {
    forall pc: nat, q: nat {:trigger Leads(prog, ANYWHERE, pc, q)} ::
      base <= pc < end && Leads(prog, ANYWHERE, pc, q) ==> base <= q <= end
  }

  /** Edges from elsewhere enter the stretch only at its beginning. */
  ghost predicate Entered(prog: seq<Inst>, base: nat, end: nat)
    requires WellFormedProgram(prog)
  {
    forall pc: nat, q: nat {:trigger Leads(prog, ANYWHERE, pc, q)} ::
      !(base <= pc < end) && Leads(prog, ANYWHERE, pc, q) ==> !(base < q < end)
  }

  /** The fragment and every fragment in it are entered only at their beginnings. */
  ghost predicate IsSealed(prog: seq<Inst>, n: Node, base: nat)
    requires WellFormedProgram(prog)
    decreases n, 0
  {
    && Entered(prog, base, base + Size(n))
    && match n
       case Concat(parts) => SeqSealed(prog, parts, base)
       case Alt(branches) => AltSealed(prog, branches, base, base + AltSize(branches))
       case Star(inner) => IsSealed(prog, inner, base + 1)
       case Plus(inner) => IsSealed(prog, inner, base)
       case Quest(inner) => IsSealed(prog, inner, base + 1)
       case _ => true
  }

  ghost predicate SeqSealed(prog: seq<Inst>, parts: seq<Node>, base: nat)
    requires WellFormedProgram(prog)
    decreases parts, 0
  {
    && Entered(prog, base, base + SeqSize(parts))
    && (parts == [] || (IsSealed(prog, parts[0], base) && SeqSealed(prog, parts[1..], base + Size(parts[0]))))
  }

  ghost predicate AltSealed(prog: seq<Inst>, branches: seq<Node>, base: nat, end: nat)
    requires WellFormedProgram(prog)
    decreases branches, 0
  {
    && Entered(prog, base, end)
    && if branches == [] then true
       else if |branches| == 1 then IsSealed(prog, branches[0], base)
       else
         && IsSealed(prog, branches[0], base + 1)
         && AltSealed(prog, branches[1..], base + Size(branches[0]) + 2, end)
  }

  // ----- edges stay in a fragment -----

  lemma AnywhereLeads(prog: seq<Inst>, mode: Mode, pc: nat, q: nat)
    requires WellFormedProgram(prog) && mode.At? && Leads(prog, mode, pc, q)
    ensures Leads(prog, ANYWHERE, pc, q)
  {
  }

  lemma OneStays(prog: seq<Inst>, base: nat)
    requires WellFormedProgram(prog) && base < |prog|
    requires prog[base].Byte? || prog[base].StartAssert? || prog[base].EndAssert?
    ensures Stays(prog, base, base + 1)
  {
  }

  lemma StaysJoined(prog: seq<Inst>, base: nat, mid: nat, end: nat)
    requires WellFormedProgram(prog) && base <= mid <= end
    requires Stays(prog, base, mid) && Stays(prog, mid, end)
    ensures Stays(prog, base, end)
  {
  }

  lemma SplitLeads(prog: seq<Inst>, mode: Mode, pc: nat, x: nat, y: nat, q: nat)
    requires WellFormedProgram(prog) && pc < |prog| && prog[pc] == Split(x, y)
    ensures Leads(prog, mode, pc, q) <==> q == x || q == y
  {
    var succ := Next(prog, mode, pc);
    assert succ == [x, y];
    assert succ[0] == x && succ[1] == y;
  }

  lemma JmpLeads(prog: seq<Inst>, mode: Mode, pc: nat, t: nat, q: nat)
    requires WellFormedProgram(prog) && pc < |prog| && prog[pc] == Jmp(t)
    ensures Leads(prog, mode, pc, q) <==> q == t
  {
    var succ := Next(prog, mode, pc);
    assert succ == [t];
    assert succ[0] == t;
  }

  /** A split in front of a stretch, or a split or jump behind it, that leads into the whole. */
  lemma StaysExtended(prog: seq<Inst>, pc: nat, base: nat, end: nat, from: nat, to: nat)
    requires WellFormedProgram(prog) && Stays(prog, base, end) && from <= base <= end <= to && from <= pc < to
    requires forall q: nat :: Leads(prog, ANYWHERE, pc, q) ==> from <= q <= to
    requires (pc == from && base == from + 1 && end == to) || (pc == end && base == from && to == end + 1)
    ensures Stays(prog, from, to)
  {
  }

  lemma {:induction false} FragmentStays(prog: seq<Inst>, n: Node, base: nat)
    requires WellFormedProgram(prog) && Placed(prog, n, base)
    ensures Stays(prog, base, base + Size(n))
    decreases n, 0
  {
    hide Stays, WellFormedProgram, Leads;
    match n
    case Empty => NothingStays(prog, base);
    case Class(_) | StartAnchor | EndAnchor => OneStays(prog, base);
    case Concat(parts) => SeqStays(prog, parts, base);
    case Alt(branches) => AltStays(prog, branches, base, base + AltSize(branches));
    case Star(inner) =>
      var back := base + Size(inner) + 1;
      FragmentStays(prog, inner, base + 1);
      forall q: nat ensures Leads(prog, ANYWHERE, base, q) <==> q == base + 1 || q == back + 1 {
        SplitLeads(prog, ANYWHERE, base, base + 1, back + 1, q);
      }
      BracketStays(prog, base, base + 1, back, back + 1, base);
    case Plus(inner) =>
      var back := base + Size(inner);
      FragmentStays(prog, inner, base);
      forall q: nat ensures Leads(prog, ANYWHERE, back, q) <==> q == base || q == back + 1 {
        SplitLeads(prog, ANYWHERE, back, base, back + 1, q);
      }
      StaysExtended(prog, back, base, back, base, back + 1);
    case Quest(inner) =>
      var end := base + 1 + Size(inner);
      FragmentStays(prog, inner, base + 1);
      forall q: nat ensures Leads(prog, ANYWHERE, base, q) <==> q == base + 1 || q == end {
        SplitLeads(prog, ANYWHERE, base, base + 1, end, q);
      }
      StaysExtended(prog, base, base + 1, end, base, end);
  }

  lemma NothingStays(prog: seq<Inst>, base: nat)
    requires WellFormedProgram(prog)
    ensures Stays(prog, base, base)
  {
  }

  /** A stretch between a split and a jump. */
  lemma BracketStays(prog: seq<Inst>, split: nat, body: nat, jump: nat, end: nat, target: nat)
    requires WellFormedProgram(prog) && split + 1 == body <= jump < end && jump < |prog|
    requires Stays(prog, body, jump) && prog[jump] == Jmp(target) && split <= target <= end
    requires forall q: nat :: Leads(prog, ANYWHERE, split, q) ==> split <= q <= end
    requires end == jump + 1 || Stays(prog, jump + 1, end)
    ensures Stays(prog, split, end)
  {
    forall pc: nat, q: nat {:trigger Leads(prog, ANYWHERE, pc, q)} | split <= pc < end && Leads(prog, ANYWHERE, pc, q)
      ensures split <= q <= end
    {
      if pc == jump {
        JmpLeads(prog, ANYWHERE, jump, target, q);
      }
    }
  }

  lemma {:induction false} SeqStays(prog: seq<Inst>, parts: seq<Node>, base: nat)
    requires WellFormedProgram(prog) && SeqPlaced(prog, parts, base)
    ensures Stays(prog, base, base + SeqSize(parts))
    decreases parts, 0
  {
    hide Stays, WellFormedProgram, Leads;
    if parts == [] {
      NothingStays(prog, base);
    } else {
      var mid := base + Size(parts[0]);
      FragmentStays(prog, parts[0], base);
      SeqStays(prog, parts[1..], mid);
      StaysJoined(prog, base, mid, base + SeqSize(parts));
    }
  }

  lemma {:induction false} AltStays(prog: seq<Inst>, branches: seq<Node>, base: nat, end: nat)
    requires WellFormedProgram(prog) && AltPlaced(prog, branches, base, end) && end == base + AltSize(branches)
    ensures Stays(prog, base, end)
    decreases branches, 0
  {
    hide Stays, WellFormedProgram, Leads;
    if branches == [] {
      NothingStays(prog, base);
    } else if |branches| == 1 {
      FragmentStays(prog, branches[0], base);
    } else {
      var next := base + Size(branches[0]) + 2;
      FragmentStays(prog, branches[0], base + 1);
      AltStays(prog, branches[1..], next, end);
      forall q: nat ensures Leads(prog, ANYWHERE, base, q) <==> q == base + 1 || q == next {
        SplitLeads(prog, ANYWHERE, base, base + 1, next, q);
      }
      BracketStays(prog, base, base + 1, next - 1, end, end);
    }
  }

  // ----- compiled programs are sealed -----

  /** What is entered only at its beginning, beside stretches that stay, leaves its own stretches so. */
  lemma EnteredInside(prog: seq<Inst>, base: nat, end: nat, lo: nat, hi: nat)
    requires WellFormedProgram(prog) && base <= lo <= hi <= end && Entered(prog, base, end)
    requires forall pc: nat, q: nat {:trigger Leads(prog, ANYWHERE, pc, q)} ::
      (base <= pc < lo || hi <= pc < end) && Leads(prog, ANYWHERE, pc, q) ==> !(lo < q < hi)
    ensures Entered(prog, lo, hi)
  {
  }

  lemma {:induction false} FragmentSealed(prog: seq<Inst>, n: Node, base: nat)
    requires WellFormedProgram(prog) && Placed(prog, n, base) && Entered(prog, base, base + Size(n))
    ensures IsSealed(prog, n, base)
    decreases n, 0
  {
    hide Entered, Stays, WellFormedProgram, Leads;
    match n
    case Empty | Class(_) | StartAnchor | EndAnchor =>
    case Concat(parts) => PartsSealed(prog, parts, base);
    case Alt(branches) => BranchesSealed(prog, branches, base, base + AltSize(branches));
    case Star(inner) =>
      var back := base + Size(inner) + 1;
      LoopEntered(prog, base, base + 1, back, back + 1, base, back + 1);
      FragmentSealed(prog, inner, base + 1);
    case Plus(inner) =>
      var back := base + Size(inner);
      PlusEntered(prog, base, back);
      FragmentSealed(prog, inner, base);
    case Quest(inner) =>
      QuestEntered(prog, base, base + 1 + Size(inner));
      FragmentSealed(prog, inner, base + 1);
  }

  /** The body between a split and a jump, with other code behind. */
  lemma LoopEntered(prog: seq<Inst>, split: nat, body: nat, jump: nat, end: nat, target: nat, other: nat)
    requires WellFormedProgram(prog) && split + 1 == body <= jump < end && jump < |prog|
    requires prog[split] == Split(body, other) && prog[jump] == Jmp(target)
    requires (target <= body || target >= jump) && other >= jump
    requires end == jump + 1 || Stays(prog, jump + 1, end)
    requires Entered(prog, split, end)
    ensures Entered(prog, body, jump)
  {
    forall pc: nat, q: nat {:trigger Leads(prog, ANYWHERE, pc, q)} |
      (split <= pc < body || jump <= pc < end) && Leads(prog, ANYWHERE, pc, q)
      ensures !(body < q < jump)
    {
      SplitLeads(prog, ANYWHERE, split, body, other, q);
      JmpLeads(prog, ANYWHERE, jump, target, q);
    }
    EnteredInside(prog, split, end, body, jump);
  }

  lemma PlusEntered(prog: seq<Inst>, base: nat, back: nat)
    requires WellFormedProgram(prog) && base <= back < |prog| && prog[back] == Split(base, back + 1)
    requires Entered(prog, base, back + 1)
    ensures Entered(prog, base, back)
  {
    forall q: nat ensures Leads(prog, ANYWHERE, back, q) <==> q == base || q == back + 1 {
      SplitLeads(prog, ANYWHERE, back, base, back + 1, q);
    }
  }

  lemma QuestEntered(prog: seq<Inst>, base: nat, end: nat)
    requires WellFormedProgram(prog) && base + 1 <= end && base < |prog| && prog[base] == Split(base + 1, end)
    requires Entered(prog, base, end)
    ensures Entered(prog, base + 1, end)
  {
    forall q: nat ensures Leads(prog, ANYWHERE, base, q) <==> q == base + 1 || q == end {
      SplitLeads(prog, ANYWHERE, base, base + 1, end, q);
    }
  }

  /** Two stretches, one behind the other. */
  lemma SeqEntered(prog: seq<Inst>, base: nat, mid: nat, end: nat)
    requires WellFormedProgram(prog) && base <= mid <= end && Entered(prog, base, end)
    requires Stays(prog, base, mid) && Stays(prog, mid, end)
    ensures Entered(prog, base, mid) && Entered(prog, mid, end)
  {
  }

  lemma {:induction false} PartsSealed(prog: seq<Inst>, parts: seq<Node>, base: nat)
    requires WellFormedProgram(prog) && SeqPlaced(prog, parts, base) && Entered(prog, base, base + SeqSize(parts))
    ensures SeqSealed(prog, parts, base)
    decreases parts, 0
  {
    hide Entered, Stays, WellFormedProgram, Leads;
    if parts != [] {
      var mid := base + Size(parts[0]);
      FragmentStays(prog, parts[0], base);
      SeqStays(prog, parts[1..], mid);
      SeqEntered(prog, base, mid, base + SeqSize(parts));
      FragmentSealed(prog, parts[0], base);
      PartsSealed(prog, parts[1..], mid);
    }
  }

  lemma {:induction false} BranchesSealed(prog: seq<Inst>, branches: seq<Node>, base: nat, end: nat)
    requires WellFormedProgram(prog) && AltPlaced(prog, branches, base, end) && end == base + AltSize(branches)
    requires Entered(prog, base, end)
    ensures AltSealed(prog, branches, base, end)
    decreases branches, 0
  {
    hide Entered, Stays, WellFormedProgram, Leads;
    if |branches| == 1 {
      FragmentSealed(prog, branches[0], base);
    } else if |branches| > 1 {
      var next := base + Size(branches[0]) + 2;
      FragmentStays(prog, branches[0], base + 1);
      AltStays(prog, branches[1..], next, end);
      LoopEntered(prog, base, base + 1, next - 1, end, end, next);
      FragmentSealed(prog, branches[0], base + 1);
      NextEntered(prog, base, next, end);
      BranchesSealed(prog, branches[1..], next, end);
    }
  }

  lemma NextEntered(prog: seq<Inst>, base: nat, next: nat, end: nat)
    requires WellFormedProgram(prog) && base + 2 <= next <= end && next <= |prog|
    requires prog[base] == Split(base + 1, next) && prog[next - 1] == Jmp(end)
    requires Stays(prog, base + 1, next - 1) && Entered(prog, base, end)
    ensures Entered(prog, next, end)
  {
    forall pc: nat, q: nat {:trigger Leads(prog, ANYWHERE, pc, q)} |
      (base <= pc < next || end <= pc < end) && Leads(prog, ANYWHERE, pc, q)
      ensures !(next < q < end)
    {
      SplitLeads(prog, ANYWHERE, base, base + 1, next, q);
      JmpLeads(prog, ANYWHERE, next - 1, end, q);
    }
    EnteredInside(prog, base, end, next, end);
  }

  /** Every fragment of a compiled pattern is entered only at its beginning. */
  lemma CompileSealed(ast: Node)
    ensures WellFormedProgram(Compile(ast)) && IsSealed(Compile(ast), ast, 0)
  {
    CompileWellFormed(ast);
    CompilePlaced(ast);
    var prog := Compile(ast);
    assert prog[Size(ast)] == Match;
    assert Entered(prog, 0, Size(ast));
    FragmentSealed(prog, ast, 0);
  }

  // ----- what that means for reaching -----

  /** A path into the stretch from outside comes through its beginning. */
  lemma {:induction false} EntersAtBase(prog: seq<Inst>, base: nat, end: nat, p: nat, q: nat, steps: nat)
    returns (rest: nat)
    requires WellFormedProgram(prog) && Entered(prog, base, end)
    requires !(base <= p < end) && base <= q < end && Reaches(prog, ANYWHERE, p, q, steps)
    ensures Reaches(prog, ANYWHERE, base, q, rest)
    decreases steps
  {
    hide Entered;
    var m := ReachesFirst(prog, ANYWHERE, p, q, steps);
    if base <= m < end {
      assert m == base by { EdgeIn(prog, base, end, p, m); }
      rest := steps - 1;
    } else {
      rest := EntersAtBase(prog, base, end, m, q, steps - 1);
    }
  }

  lemma EdgeIn(prog: seq<Inst>, base: nat, end: nat, p: nat, m: nat)
    requires WellFormedProgram(prog) && Entered(prog, base, end) && !(base <= p < end) && Leads(prog, ANYWHERE, p, m)
    ensures !(base < m < end)
  {
  }

  /** What is reached inside a fragment from its end is reached from its beginning. */
  lemma EnteredContained(prog: seq<Inst>, base: nat, end: nat)
    requires WellFormedProgram(prog) && Entered(prog, base, end)
    ensures Contained(prog, base, end, false)
  {
    hide Entered;
    forall q: nat | base <= q < end && Reach(prog, end, q) ensures Reach(prog, base, q) {
      var steps: nat :| Reaches(prog, ANYWHERE, end, q, steps);
      var rest := EntersAtBase(prog, base, end, end, q, steps);
    }
  }
}

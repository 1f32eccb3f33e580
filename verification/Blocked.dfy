/**
 What a closure is worth when some instructions are already on the way: instructions that
 lead only to failures can be left out.

 So a split is worth its first arm, tried without coming back to the split, or else its
 second arm.
 */
module Blocked {
  import opened Wrappers
  import opened Ast
  import opened Program
  import opened Closure
  import opened Threads
  import opened PikeCorrectness
  import opened Epsilon

  /** The value of the closure of `pc` that avoids the instructions of `avoid`. */
  ghost function WorthAvoiding(prog: seq<Inst>, input: seq<Byte>, pc: nat, pos: nat, avoid: set<nat>): Option<nat>
    requires WellFormedProgram(prog) && pc < |prog| && pos <= |input|
  {
    VisitFacts(prog, ModeAt(input, pos), [pc], avoid);
    Worth(prog, input, Visit(prog, ModeAt(input, pos), [pc], avoid).list, pos)
  }

  /** No ready instruction of the set leads to a match. */
  ghost predicate SetFails(prog: seq<Inst>, input: seq<Byte>, pcs: set<nat>, pos: nat)
    requires WellFormedProgram(prog) && pos <= |input|
  {
    forall q: nat :: q in pcs && q < |prog| && Ready(prog, ModeAt(input, pos), q) ==> WorthOf(prog, input, q, pos).None?
  }

  lemma ListFails(prog: seq<Inst>, input: seq<Byte>, list: seq<nat>, pcs: set<nat>, pos: nat)
    requires WellFormedProgram(prog) && pos <= |input| && InProg(prog, list)
    requires forall q: nat :: q in pcs && q < |prog| && Ready(prog, ModeAt(input, pos), q) ==> q in list
    requires Worth(prog, input, list, pos).None?
    ensures SetFails(prog, input, pcs, pos)
  {
    WorthNone(prog, input, list, pos);
  }

  /**
   Having seen besides `avoid` a failing set that leads nowhere but into the two and to `pc`
   does not change what the closure of `pc` is worth.
   */
  lemma FailuresIgnored(prog: seq<Inst>, input: seq<Byte>, pc: nat, pos: nat, avoid: set<nat>, gone: set<nat>)
    requires WellFormedProgram(prog) && pc < |prog| && pos <= |input| && avoid !! gone
    requires ClosedOver(prog, ModeAt(input, pos), gone, avoid + {pc})
    requires SetFails(prog, input, gone, pos)
    ensures WorthAvoiding(prog, input, pc, pos, avoid + gone) == WorthAvoiding(prog, input, pc, pos, avoid)
  {
    hide Visit, VisitFresh, Worth, WorthOf, WellFormedProgram, ModeAt;
    var mode := ModeAt(input, pos);
    VisitOne(prog, mode, pc, avoid + gone);
    VisitOne(prog, mode, pc, avoid);
    if pc in gone {
      InsideFailures(prog, input, pc, pos, avoid, gone);
    } else if pc !in avoid {
      assert avoid + gone + {pc} == avoid + {pc} + gone;
      if !Ready(prog, mode, pc) {
        VisitFiltered(prog, mode, Next(prog, mode, pc), avoid + {pc}, gone);
        ListWithout(prog, input, pc, pos, avoid, gone);
      }
    }
  }

  /** Leaving failing instructions out of a list changes nothing. */
  lemma ListWithout(prog: seq<Inst>, input: seq<Byte>, pc: nat, pos: nat, avoid: set<nat>, gone: set<nat>)
    requires WellFormedProgram(prog) && pc < |prog| && pos <= |input| && SetFails(prog, input, gone, pos)
    ensures var list := Visit(prog, ModeAt(input, pos), [pc], avoid).list;
            InProg(prog, list) && InProg(prog, Without(list, gone)) &&
            Worth(prog, input, Without(list, gone), pos) == Worth(prog, input, list, pos)
  {
    hide Visit, VisitFresh, Worth, WorthOf, WellFormedProgram, ModeAt;
    var list := Visit(prog, ModeAt(input, pos), [pc], avoid).list;
    VisitFacts(prog, ModeAt(input, pos), [pc], avoid);
    forall k | 0 <= k < |list| && list[k] in gone ensures WorthOf(prog, input, list[k], pos).None? {
      assert list[k] in list;
    }
    WorthWithout(prog, input, list, gone, pos);
  }

  /** A closure that starts inside a failing closed set is worth nothing. */
  lemma InsideFailures(prog: seq<Inst>, input: seq<Byte>, pc: nat, pos: nat, avoid: set<nat>, gone: set<nat>)
    requires WellFormedProgram(prog) && pc < |prog| && pos <= |input| && pc in gone
    requires ClosedOver(prog, ModeAt(input, pos), gone, avoid + {pc})
    requires SetFails(prog, input, gone, pos)
    ensures WorthAvoiding(prog, input, pc, pos, avoid + gone) == None == WorthAvoiding(prog, input, pc, pos, avoid)
  {
    hide Visit, VisitFresh, Worth, WorthOf, WellFormedProgram, ModeAt;
    var mode := ModeAt(input, pos);
    VisitFacts(prog, mode, [pc], avoid);
    VisitOne(prog, mode, pc, avoid + gone);
    assert avoid + {pc} + gone == avoid + gone;
    VisitStaysInside(prog, mode, [pc], avoid, gone);
    var list := Visit(prog, mode, [pc], avoid).list;
    forall k | 0 <= k < |list| ensures WorthOf(prog, input, list[k], pos).None? {
      assert list[k] in list;
    }
    WorthNone(prog, input, list, pos);
    WorthNone(prog, input, [], pos);
  }

  /** An instruction with one successor is worth what that is worth. */
  lemma OneSuccessorWorth(prog: seq<Inst>, input: seq<Byte>, pc: nat, next: nat, pos: nat)
    requires WellFormedProgram(prog) && pc < |prog| && next < |prog| && pos <= |input|
    requires !Ready(prog, ModeAt(input, pos), pc) && Next(prog, ModeAt(input, pos), pc) == [next]
    ensures WorthFrom(prog, input, pc, pos) == WorthFrom(prog, input, next, pos)
  {
    OneSuccessorAvoiding(prog, input, pc, next, pos, {});
  }

  lemma OneSuccessorAvoiding(prog: seq<Inst>, input: seq<Byte>, pc: nat, next: nat, pos: nat, avoid: set<nat>)
    requires WellFormedProgram(prog) && pc < |prog| && next < |prog| && pos <= |input| && pc !in avoid
    requires !Ready(prog, ModeAt(input, pos), pc) && Next(prog, ModeAt(input, pos), pc) == [next]
    ensures WorthAvoiding(prog, input, pc, pos, avoid) == WorthAvoiding(prog, input, next, pos, avoid)
  {
    hide Visit, VisitFresh, Worth, WorthOf, WellFormedProgram, ModeAt;
    VisitOne(prog, ModeAt(input, pos), pc, avoid);
    FailuresIgnored(prog, input, next, pos, avoid, {pc});
  }

  lemma JmpWorth(prog: seq<Inst>, input: seq<Byte>, pc: nat, target: nat, pos: nat)
    requires WellFormedProgram(prog) && pc < |prog| && prog[pc] == Jmp(target) && pos <= |input|
    ensures target < |prog| && WorthFrom(prog, input, pc, pos) == WorthFrom(prog, input, target, pos)
  {
    OneSuccessorWorth(prog, input, pc, target, pos);
  }

  /** A split is worth its first arm, avoiding the split, or else its second arm. */
  lemma SplitWorth(prog: seq<Inst>, input: seq<Byte>, pc: nat, x: nat, y: nat, pos: nat)
    requires WellFormedProgram(prog) && pc < |prog| && prog[pc] == Split(x, y) && pos <= |input|
    ensures x < |prog| && y < |prog|
    ensures WorthFrom(prog, input, pc, pos)
         == WorthAvoiding(prog, input, x, pos, {pc}).OrElse(WorthFrom(prog, input, y, pos))
  {
    SplitAvoiding(prog, input, pc, x, y, pos, {});
    assert {} + {pc} == {pc};
  }

  lemma SplitAvoiding(prog: seq<Inst>, input: seq<Byte>, pc: nat, x: nat, y: nat, pos: nat, avoid: set<nat>)
    requires WellFormedProgram(prog) && pc < |prog| && prog[pc] == Split(x, y) && pos <= |input| && pc !in avoid
    ensures x < |prog| && y < |prog|
    ensures WorthAvoiding(prog, input, pc, pos, avoid)
         == WorthAvoiding(prog, input, x, pos, avoid + {pc}).OrElse(WorthAvoiding(prog, input, y, pos, avoid))
  {
    assert x < |prog| && y < |prog|;
    hide Visit, VisitFresh, Worth, WorthOf, WellFormedProgram, ModeAt, ClosedOver;
    var mode := ModeAt(input, pos);
    VisitOne(prog, mode, pc, avoid);
    VisitPair(prog, mode, x, y, avoid + {pc});
    var a := Visit(prog, mode, [x], avoid + {pc});
    VisitFacts(prog, mode, [x], avoid + {pc});
    VisitFacts(prog, mode, [y], a.seen);
    WorthConcat(prog, input, a.list, Visit(prog, mode, [y], a.seen).list, pos);
    if Worth(prog, input, a.list, pos).None? {
      SecondArm(prog, input, pc, x, y, pos, avoid);
    }
  }

  /** A first arm that fails does not change what the second is worth. */
  lemma SecondArm(prog: seq<Inst>, input: seq<Byte>, pc: nat, x: nat, y: nat, pos: nat, avoid: set<nat>)
    requires WellFormedProgram(prog) && pc < |prog| && prog[pc] == Split(x, y) && pos <= |input| && pc !in avoid
    requires x < |prog| && y < |prog| && WorthAvoiding(prog, input, x, pos, avoid + {pc}).None?
    ensures WorthAvoiding(prog, input, y, pos, Visit(prog, ModeAt(input, pos), [x], avoid + {pc}).seen)
         == WorthAvoiding(prog, input, y, pos, avoid)
  {
    hide Visit, WorthAvoiding, WellFormedProgram, ModeAt, ClosedOver, SetFails;
    var gone := Visit(prog, ModeAt(input, pos), [x], avoid + {pc}).seen - avoid;
    FirstArmClosed(prog, input, pc, x, y, pos, avoid);
    assert avoid + gone == Visit(prog, ModeAt(input, pos), [x], avoid + {pc}).seen;
    FailuresIgnored(prog, input, y, pos, avoid, gone);
  }

  /** What a failing first arm has seen fails, and leads nowhere else but to the second arm. */
  lemma FirstArmClosed(prog: seq<Inst>, input: seq<Byte>, pc: nat, x: nat, y: nat, pos: nat, avoid: set<nat>)
    requires WellFormedProgram(prog) && pc < |prog| && prog[pc] == Split(x, y) && pos <= |input| && pc !in avoid
    requires x < |prog| && y < |prog| && WorthAvoiding(prog, input, x, pos, avoid + {pc}).None?
    ensures var gone := Visit(prog, ModeAt(input, pos), [x], avoid + {pc}).seen - avoid;
            ClosedOver(prog, ModeAt(input, pos), gone, avoid + {y}) && SetFails(prog, input, gone, pos)
  {
    hide Visit, VisitFresh, Worth, WorthOf, WellFormedProgram, ModeAt;
    var mode := ModeAt(input, pos);
    var a := Visit(prog, mode, [x], avoid + {pc});
    VisitFacts(prog, mode, [x], avoid + {pc});
    assert [x][0] in a.seen;
    ListFails(prog, input, a.list, a.seen - avoid, pos);
  }

  /** Avoiding instructions that a visit would not see changes nothing. */
  lemma {:induction false} VisitUnaffected(prog: seq<Inst>, mode: Mode, roots: seq<nat>, seen: set<nat>, apart: set<nat>)
    requires WellFormedProgram(prog) && InProg(prog, roots)
    requires apart !! Visit(prog, mode, roots, seen).seen
    ensures Visit(prog, mode, roots, seen + apart)
         == Visited(Visit(prog, mode, roots, seen).list, Visit(prog, mode, roots, seen).seen + apart)
    decreases AllPcs(prog) - seen, |roots|
  {
    if roots != [] {
      var pc := roots[0];
      if pc in seen {
        VisitUnaffected(prog, mode, roots[1..], seen, apart);
      } else {
        assert pc in AllPcs(prog) - seen;
        var inner := VisitFresh(prog, mode, pc, seen);
        assert inner.seen <= Visit(prog, mode, roots[1..], inner.seen).seen;
        assert seen + apart + {pc} == seen + {pc} + apart;
        if !Ready(prog, mode, pc) {
          VisitUnaffected(prog, mode, Next(prog, mode, pc), seen + {pc}, apart);
        }
        VisitUnaffected(prog, mode, roots[1..], inner.seen, apart);
      }
    }
  }

  /** A split whose first arm does not come back is worth its first arm or else its second. */
  lemma StraightSplitWorth(prog: seq<Inst>, input: seq<Byte>, pc: nat, x: nat, y: nat, pos: nat)
    requires WellFormedProgram(prog) && pc < |prog| && prog[pc] == Split(x, y) && pos <= |input|
    requires !Reach(prog, x, pc)
    ensures x < |prog| && y < |prog|
    ensures WorthFrom(prog, input, pc, pos)
         == WorthFrom(prog, input, x, pos).OrElse(WorthFrom(prog, input, y, pos))
  {
    assert x < |prog|;
    NotReachedNotSeen(prog, ModeAt(input, pos), x, pc);
    StraightAvoiding(prog, input, pc, x, y, pos, {});
  }

  lemma StraightAvoiding(prog: seq<Inst>, input: seq<Byte>, pc: nat, x: nat, y: nat, pos: nat, avoid: set<nat>)
    requires WellFormedProgram(prog) && pc < |prog| && prog[pc] == Split(x, y) && pos <= |input| && pc !in avoid
    requires x < |prog| && pc !in Visit(prog, ModeAt(input, pos), [x], avoid).seen
    ensures y < |prog|
    ensures WorthAvoiding(prog, input, pc, pos, avoid)
         == WorthAvoiding(prog, input, x, pos, avoid).OrElse(WorthAvoiding(prog, input, y, pos, avoid))
  {
    SplitAvoiding(prog, input, pc, x, y, pos, avoid);
    hide Visit, VisitFresh, Worth, WorthOf, WellFormedProgram;
    VisitUnaffected(prog, ModeAt(input, pos), [x], avoid, {pc});
  }
}

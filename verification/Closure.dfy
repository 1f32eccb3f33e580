/** Epsilon closure as a depth-first visit, and why sharing what was seen is harmless. */
module Closure {
  import opened Ast
  import opened Program

  /**
   How assertions are treated: at a known place in the input, or blindly (an assertion
   counts as an instruction to stop at), as the DFA builder does.
   */
  datatype Mode = At(atStart: bool, atEnd: bool) | Blind

  function ModeAt(input: seq<Byte>, pos: nat): Mode {
    At(pos == 0, pos == |input|)
  }

  /** A closure stops at `pc` and lists it. */
  predicate Ready(prog: seq<Inst>, mode: Mode, pc: nat)
    requires pc < |prog|
  {
    prog[pc].Byte? || prog[pc].Match? || (mode.Blind? && (prog[pc].StartAssert? || prog[pc].EndAssert?))
  }

  /** The instructions a closure goes on to from `pc`, higher priority first. */
  function Next(prog: seq<Inst>, mode: Mode, pc: nat): (succ: seq<nat>)
    requires WellFormedProgram(prog) && pc < |prog|
    ensures forall k :: 0 <= k < |succ| ==> succ[k] < |prog|
  {
    match prog[pc]
    case Jmp(t) => [t]
    case Split(x, y) => [x, y]
    case StartAssert => if mode.At? && mode.atStart then [pc + 1] else []
    case EndAssert => if mode.At? && mode.atEnd then [pc + 1] else []
    case Byte(_) | Match => []
  }

  predicate InProg(prog: seq<Inst>, pcs: seq<nat>) {
    forall k :: 0 <= k < |pcs| ==> pcs[k] < |prog|
  }

  ghost function AllPcs(prog: seq<Inst>): set<nat> {
    Below(|prog|)
  }

  ghost function Below(n: nat): (s: set<nat>)
    ensures |s| == n && forall k: nat :: k in s <==> k < n
  {
    if n == 0 then {} else Below(n - 1) + {n - 1}
  }

  datatype Visited = Visited(list: seq<nat>, seen: set<nat>)

  /**
   Visit `roots` in turn, depth first, skipping what was seen: the ready instructions in
   priority order, and everything seen so far.
   */
  ghost function Visit(prog: seq<Inst>, mode: Mode, roots: seq<nat>, seen: set<nat>): (v: Visited)
    requires WellFormedProgram(prog) && InProg(prog, roots)
    ensures seen <= v.seen
    decreases AllPcs(prog) - seen, |roots|
  {
    if roots == [] then Visited([], seen)
    else
      var pc := roots[0];
      if pc in seen then Visit(prog, mode, roots[1..], seen)
      else
        assert pc in AllPcs(prog) - seen;
        var inner := VisitFresh(prog, mode, pc, seen);
        assert pc in inner.seen;
        var rest := Visit(prog, mode, roots[1..], inner.seen);
        Visited(inner.list + rest.list, rest.seen)
  }

  /** Visit one instruction that was not seen. */
  ghost function VisitFresh(prog: seq<Inst>, mode: Mode, pc: nat, seen: set<nat>): (v: Visited)
    requires WellFormedProgram(prog) && pc < |prog| && pc !in seen
    ensures seen + {pc} <= v.seen
    decreases AllPcs(prog) - seen, 0
  {
    assert pc in AllPcs(prog) - seen;
    if Ready(prog, mode, pc) then Visited([pc], seen + {pc})
    else Visit(prog, mode, Next(prog, mode, pc), seen + {pc})
  }

  /** The closure of one instruction on its own. */
  ghost function Close(prog: seq<Inst>, mode: Mode, pc: nat): (list: seq<nat>)
    requires WellFormedProgram(prog) && pc < |prog|
    ensures InProg(prog, list)
  {
    VisitFacts(prog, mode, [pc], {});
    Visit(prog, mode, [pc], {}).list
  }

  lemma VisitNone(prog: seq<Inst>, mode: Mode, seen: set<nat>)
    requires WellFormedProgram(prog)
    ensures Visit(prog, mode, [], seen) == Visited([], seen) && VisitCalls(prog, mode, [], seen) == 0
  {
  }

  lemma VisitOne(prog: seq<Inst>, mode: Mode, pc: nat, seen: set<nat>)
    requires WellFormedProgram(prog) && pc < |prog|
    ensures Visit(prog, mode, [pc], seen)
         == if pc in seen then Visited([], seen)
            else if Ready(prog, mode, pc) then Visited([pc], seen + {pc})
            else Visit(prog, mode, Next(prog, mode, pc), seen + {pc})
    ensures VisitCalls(prog, mode, [pc], seen)
         == if pc in seen || Ready(prog, mode, pc) then 1
            else 1 + VisitCalls(prog, mode, Next(prog, mode, pc), seen + {pc})
  {
    assert [pc][1..] == [];
    if pc !in seen {
      var inner := VisitFresh(prog, mode, pc, seen);
      assert inner.list + [] == inner.list;
    }
  }

  lemma VisitPair(prog: seq<Inst>, mode: Mode, x: nat, y: nat, seen: set<nat>)
    requires WellFormedProgram(prog) && x < |prog| && y < |prog|
    ensures var a := Visit(prog, mode, [x], seen);
            var b := Visit(prog, mode, [y], a.seen);
            && Visit(prog, mode, [x, y], seen) == Visited(a.list + b.list, b.seen)
            && VisitCalls(prog, mode, [x, y], seen)
               == VisitCalls(prog, mode, [x], seen) + VisitCalls(prog, mode, [y], a.seen)
  {
    assert [x, y][1..] == [y];
    VisitOne(prog, mode, x, seen);
    var b := Visit(prog, mode, [y], Visit(prog, mode, [x], seen).seen);
    assert [] + b.list == b.list;
  }

  // ----- what a visit sees and lists -----

  /** A closure that reaches `pc` goes on to `q`. */
  ghost predicate Leads(prog: seq<Inst>, mode: Mode, pc: nat, q: nat)
    requires WellFormedProgram(prog)
  {
    pc < |prog| && q in Next(prog, mode, pc)
  }

  /** Everything in `more` leads only into `base + more`. */
  ghost predicate ClosedOver(prog: seq<Inst>, mode: Mode, more: set<nat>, base: set<nat>)
    requires WellFormedProgram(prog)
  {
    forall pc: nat, q: nat {:trigger Leads(prog, mode, pc, q)} ::
      pc in more && Leads(prog, mode, pc, q) ==> q in base + more
  }

  ghost predicate NoDuplicates(pcs: seq<nat>) {
    forall i, j :: 0 <= i < j < |pcs| ==> pcs[i] != pcs[j]
  }

  /** `list` holds the ready instructions of `more`, once each. */
  ghost predicate ListsReady(prog: seq<Inst>, mode: Mode, list: seq<nat>, more: set<nat>) {
    && InProg(prog, list)
    && NoDuplicates(list)
    && (forall pc: nat :: pc in list <==> pc in more && pc < |prog| && Ready(prog, mode, pc))
  }

  lemma ListsReadyConcat(prog: seq<Inst>, mode: Mode, a: seq<nat>, ma: set<nat>, b: seq<nat>, mb: set<nat>)
    requires ListsReady(prog, mode, a, ma) && ListsReady(prog, mode, b, mb) && ma !! mb
    ensures ListsReady(prog, mode, a + b, ma + mb)
  {
    forall i, j | 0 <= i < j < |a + b| ensures (a + b)[i] != (a + b)[j] {
      if i < |a| <= j {
        assert a[i] in a && b[j - |a|] in b;
      }
    }
  }

  lemma ClosedOverConcat(prog: seq<Inst>, mode: Mode, ma: set<nat>, mb: set<nat>, base: set<nat>)
    requires WellFormedProgram(prog)
    requires ClosedOver(prog, mode, ma, base) && ClosedOver(prog, mode, mb, base + ma)
    ensures ClosedOver(prog, mode, ma + mb, base)
  {
  }

  lemma {:induction false} VisitFacts(prog: seq<Inst>, mode: Mode, roots: seq<nat>, seen: set<nat>)
    requires WellFormedProgram(prog) && InProg(prog, roots)
    ensures var v := Visit(prog, mode, roots, seen);
            && (forall k :: 0 <= k < |roots| ==> roots[k] in v.seen)
            && v.seen <= seen + AllPcs(prog)
            && ClosedOver(prog, mode, v.seen - seen, seen)
            && ListsReady(prog, mode, v.list, v.seen - seen)
    decreases AllPcs(prog) - seen, |roots|
  {
    if roots != [] {
      var pc := roots[0];
      if pc in seen {
        VisitFacts(prog, mode, roots[1..], seen);
      } else {
        assert pc in AllPcs(prog) - seen;
        hide ClosedOver, ListsReady;
        var inner := VisitFresh(prog, mode, pc, seen);
        VisitFreshFacts(prog, mode, pc, seen);
        VisitFacts(prog, mode, roots[1..], inner.seen);
        var rest := Visit(prog, mode, roots[1..], inner.seen);
        var ma, mb := inner.seen - seen, rest.seen - inner.seen;
        assert rest.seen - seen == ma + mb && seen + ma == inner.seen;
        ListsReadyConcat(prog, mode, inner.list, ma, rest.list, mb);
        ClosedOverConcat(prog, mode, ma, mb, seen);
      }
    }
  }

  lemma {:induction false} VisitFreshFacts(prog: seq<Inst>, mode: Mode, pc: nat, seen: set<nat>)
    requires WellFormedProgram(prog) && pc < |prog| && pc !in seen
    ensures var v := VisitFresh(prog, mode, pc, seen);
            && v.seen <= seen + AllPcs(prog)
            && ClosedOver(prog, mode, v.seen - seen, seen)
            && ListsReady(prog, mode, v.list, v.seen - seen)
    decreases AllPcs(prog) - seen, 0
  {
    assert pc in AllPcs(prog) - seen;
    var v := VisitFresh(prog, mode, pc, seen);
    if Ready(prog, mode, pc) {
      assert v.seen - seen == {pc};
    } else {
      VisitFacts(prog, mode, Next(prog, mode, pc), seen + {pc});
      assert v == Visit(prog, mode, Next(prog, mode, pc), seen + {pc});
      var deeper := v.seen - (seen + {pc});
      assert v.seen - seen == {pc} + deeper;
      assert ListsReady(prog, mode, v.list, deeper);
    }
  }

  // ----- a closed set of visited instructions only filters -----

  function Without(list: seq<nat>, gone: set<nat>): seq<nat> {
    if list == [] then []
    else (if list[0] in gone then [] else [list[0]]) + Without(list[1..], gone)
  }

  lemma {:induction false} WithoutConcat(a: seq<nat>, b: seq<nat>, gone: set<nat>)
    ensures Without(a + b, gone) == Without(a, gone) + Without(b, gone)
  {
    if a == [] {
      assert a + b == b;
    } else {
      assert (a + b)[1..] == a[1..] + b;
      WithoutConcat(a[1..], b, gone);
    }
  }

  lemma {:induction false} WithoutAll(list: seq<nat>, gone: set<nat>)
    requires forall k :: 0 <= k < |list| ==> list[k] in gone
    ensures Without(list, gone) == []
  {
    if list != [] {
      WithoutAll(list[1..], gone);
    }
  }

  /** From inside a closed set a visit sees and lists nothing outside it. */
  lemma {:induction false} VisitStaysInside(prog: seq<Inst>, mode: Mode, roots: seq<nat>, seen: set<nat>, more: set<nat>)
    requires WellFormedProgram(prog) && InProg(prog, roots)
    requires ClosedOver(prog, mode, more, seen)
    requires forall k :: 0 <= k < |roots| ==> roots[k] in seen + more
    ensures Visit(prog, mode, roots, seen).seen <= seen + more
    decreases AllPcs(prog) - seen, |roots|
  {
    if roots != [] {
      var pc := roots[0];
      if pc in seen {
        VisitStaysInside(prog, mode, roots[1..], seen, more);
      } else {
        assert pc in AllPcs(prog) - seen;
        if !Ready(prog, mode, pc) {
          var succ := Next(prog, mode, pc);
          forall k | 0 <= k < |succ| ensures succ[k] in seen + {pc} + more {
            assert Leads(prog, mode, pc, succ[k]);
          }
          VisitStaysInside(prog, mode, succ, seen + {pc}, more);
        }
        VisitStaysInside(prog, mode, roots[1..], VisitFresh(prog, mode, pc, seen).seen, more);
      }
    }
  }

  /**
   Having already seen a closed set changes a visit only by leaving that set out: the
   precomputed closures filtered by what is present are the closures the shared visit makes.
   */
  lemma {:induction false} VisitFiltered(prog: seq<Inst>, mode: Mode, roots: seq<nat>, seen: set<nat>, more: set<nat>)
    requires WellFormedProgram(prog) && InProg(prog, roots)
    requires ClosedOver(prog, mode, more, seen)
    ensures Visit(prog, mode, roots, seen + more).list == Without(Visit(prog, mode, roots, seen).list, more)
    ensures Visit(prog, mode, roots, seen + more).seen == Visit(prog, mode, roots, seen).seen + more
    decreases AllPcs(prog) - seen, |roots|
  {
    if roots != [] {
      var pc, rest := roots[0], roots[1..];
      if pc in seen {
        VisitFiltered(prog, mode, rest, seen, more);
      } else {
        assert pc in AllPcs(prog) - seen;
        var inner := VisitFresh(prog, mode, pc, seen);
        VisitFreshFacts(prog, mode, pc, seen);
        VisitFiltered(prog, mode, rest, inner.seen, more);
        WithoutConcat(inner.list, Visit(prog, mode, rest, inner.seen).list, more);
        if pc in more {
          assert Visit(prog, mode, [pc], seen).seen == inner.seen by {
            assert Visit(prog, mode, [], inner.seen).seen == inner.seen;
          }
          VisitStaysInside(prog, mode, [pc], seen, more);
          forall k | 0 <= k < |inner.list| ensures inner.list[k] in more {
            assert inner.list[k] in inner.list;
          }
          WithoutAll(inner.list, more);
          assert inner.seen + more == seen + more;
        } else {
          FreshFiltered(prog, mode, pc, seen, more);
        }
      }
    }
  }

  lemma {:induction false} FreshFiltered(prog: seq<Inst>, mode: Mode, pc: nat, seen: set<nat>, more: set<nat>)
    requires WellFormedProgram(prog) && pc < |prog| && pc !in seen + more
    requires ClosedOver(prog, mode, more, seen)
    ensures VisitFresh(prog, mode, pc, seen + more).list == Without(VisitFresh(prog, mode, pc, seen).list, more)
    ensures VisitFresh(prog, mode, pc, seen + more).seen == VisitFresh(prog, mode, pc, seen).seen + more
    decreases AllPcs(prog) - seen, 0
  {
    assert pc in AllPcs(prog) - seen;
    assert seen + more + {pc} == seen + {pc} + more;
    if Ready(prog, mode, pc) {
      assert Without([pc], more) == [pc] + Without([], more);
    } else {
      VisitFiltered(prog, mode, Next(prog, mode, pc), seen + {pc}, more);
    }
  }

  /** A visit that starts from an already closed set is the plain closure, filtered. */
  lemma VisitAfterClosed(prog: seq<Inst>, mode: Mode, pc: nat, seen: set<nat>)
    requires WellFormedProgram(prog) && pc < |prog| && ClosedOver(prog, mode, seen, {})
    ensures Visit(prog, mode, [pc], seen).list == Without(Close(prog, mode, pc), seen)
    ensures ClosedOver(prog, mode, Visit(prog, mode, [pc], seen).seen, {})
  {
    VisitFiltered(prog, mode, [pc], {}, seen);
    assert {} + seen == seen;
    VisitFacts(prog, mode, [pc], seen);
  }

  /** Without assertions every mode visits alike. */
  lemma {:induction false} VisitModeFree(prog: seq<Inst>, m1: Mode, m2: Mode, roots: seq<nat>, seen: set<nat>)
    requires WellFormedProgram(prog) && NoAsserts(prog) && InProg(prog, roots)
    ensures Visit(prog, m1, roots, seen) == Visit(prog, m2, roots, seen)
    decreases AllPcs(prog) - seen, |roots|
  {
    if roots != [] {
      var pc := roots[0];
      if pc in seen {
        VisitModeFree(prog, m1, m2, roots[1..], seen);
      } else {
        assert pc in AllPcs(prog) - seen;
        assert Next(prog, m1, pc) == Next(prog, m2, pc);
        if !Ready(prog, m1, pc) {
          VisitModeFree(prog, m1, m2, Next(prog, m1, pc), seen + {pc});
        }
        VisitModeFree(prog, m1, m2, roots[1..], VisitFresh(prog, m1, pc, seen).seen);
      }
    }
  }

  // ----- work -----

  /** How many times the visit is entered: once per root, seen or not, and per arm followed. */
  ghost function VisitCalls(prog: seq<Inst>, mode: Mode, roots: seq<nat>, seen: set<nat>): nat
    requires WellFormedProgram(prog) && InProg(prog, roots)
    decreases AllPcs(prog) - seen, |roots|
  {
    if roots == [] then 0
    else
      var pc := roots[0];
      if pc in seen then 1 + VisitCalls(prog, mode, roots[1..], seen)
      else
        assert pc in AllPcs(prog) - seen;
        1 + (if Ready(prog, mode, pc) then 0 else VisitCalls(prog, mode, Next(prog, mode, pc), seen + {pc}))
          + VisitCalls(prog, mode, roots[1..], VisitFresh(prog, mode, pc, seen).seen)
  }

  /** Each instruction seen for the first time pays for the two entries it can cause. */
  lemma {:induction false} VisitCallsBound(prog: seq<Inst>, mode: Mode, roots: seq<nat>, seen: set<nat>)
    requires WellFormedProgram(prog) && InProg(prog, roots)
    ensures VisitCalls(prog, mode, roots, seen) <= |roots| + 2 * (|Visit(prog, mode, roots, seen).seen| - |seen|)
    decreases AllPcs(prog) - seen, |roots|
  {
    if roots != [] {
      var pc := roots[0];
      if pc in seen {
        VisitCallsBound(prog, mode, roots[1..], seen);
      } else {
        assert pc in AllPcs(prog) - seen;
        if !Ready(prog, mode, pc) {
          VisitCallsBound(prog, mode, Next(prog, mode, pc), seen + {pc});
        }
        VisitCallsBound(prog, mode, roots[1..], VisitFresh(prog, mode, pc, seen).seen);
      }
    }
  }
}

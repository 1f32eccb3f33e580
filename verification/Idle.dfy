/**
 Stretches of a program none of whose instructions accepts the next byte.

 A closure that runs through such a stretch is worth what the end of the stretch is
 worth, or nothing.
 */
module Idle {
  import opened Wrappers
  import opened Ast
  import opened Program
  import opened Paths
  import opened Closure
  import opened Threads
  import opened Epsilon
  import opened Sealed
  import opened Blocked
  import opened Tail
  import opened TailVisits
  import opened Paint

  /** No class of the pattern accepts the byte, if there is one. */
  predicate Rejects(n: Node, x: Option<Byte>)
    decreases n
  {
    match n
    case Empty | StartAnchor | EndAnchor => true
    case Class(c) => x.Some? ==> !c[x.value]
    case Concat(parts) => AllReject(parts, x)
    case Alt(branches) => AllReject(branches, x)
    case Star(inner) => Rejects(inner, x)
    case Plus(inner) => Rejects(inner, x)
    case Quest(inner) => Rejects(inner, x)
  }

  predicate AllReject(ns: seq<Node>, x: Option<Byte>)
    decreases ns
  {
    ns == [] || (Rejects(ns[0], x) && AllReject(ns[1..], x))
  }

  lemma {:induction false} FillRejects(n: Node, c: ByteClass, x: Option<Byte>)
    requires x.Some? ==> !c[x.value]
    ensures Rejects(Fill(n, c), x)
    decreases n, 0
  {
    match n
    case Empty | Class(_) | StartAnchor | EndAnchor =>
    case Concat(parts) => FillAllReject(parts, c, x);
    case Alt(branches) => FillAllReject(branches, c, x);
    case Star(inner) => FillRejects(inner, c, x);
    case Plus(inner) => FillRejects(inner, c, x);
    case Quest(inner) => FillRejects(inner, c, x);
  }

  lemma {:induction false} FillAllReject(ns: seq<Node>, c: ByteClass, x: Option<Byte>)
    requires x.Some? ==> !c[x.value]
    ensures AllReject(FillAll(ns, c), x)
    decreases ns, 0
  {
    if ns != [] {
      FillRejects(ns[0], c, x);
      FillAllReject(ns[1..], c, x);
      FillAllSplit(ns, c);
    }
  }

  /** No instruction of the stretch accepts the byte, and none is `Match`. */
  ghost predicate IsIdle(prog: seq<Inst>, x: Option<Byte>, lo: nat, hi: nat) {
    forall pc: nat {:trigger prog[pc]} :: lo <= pc < hi && pc < |prog| ==>
      !prog[pc].Match? && (prog[pc].Byte? && x.Some? ==> !prog[pc].bits[x.value])
  }

  function NextByte(input: seq<Byte>, pos: nat): Option<Byte> {
    if pos < |input| then Some(input[pos]) else None
  }

  lemma IdleWorth(prog: seq<Inst>, input: seq<Byte>, pos: nat, lo: nat, hi: nat, pc: nat)
    requires WellFormedProgram(prog) && pos <= |input| && pc < |prog| && lo <= pc < hi
    requires IsIdle(prog, NextByte(input, pos), lo, hi)
    ensures WorthOf(prog, input, pc, pos).None?
  {
  }

  lemma IdleJoin(prog: seq<Inst>, x: Option<Byte>, lo: nat, mid: nat, hi: nat)
    requires IsIdle(prog, x, lo, mid) && IsIdle(prog, x, mid, hi)
    ensures IsIdle(prog, x, lo, hi)
  {
  }

  lemma IdleOne(prog: seq<Inst>, x: Option<Byte>, pc: nat)
    requires pc < |prog| && !prog[pc].Match? && (prog[pc].Byte? && x.Some? ==> !prog[pc].bits[x.value])
    ensures IsIdle(prog, x, pc, pc + 1)
  {
  }

  lemma {:induction false} FragmentIdle(prog: seq<Inst>, x: Option<Byte>, n: Node, base: nat)
    requires Placed(prog, n, base) && Rejects(n, x)
    ensures IsIdle(prog, x, base, base + Size(n))
    decreases n, 0
  {
    hide IsIdle, SeqPlaced, AltPlaced, AllReject, SeqSize, AltSize;
    match n
    case Empty => IdleNone(prog, x, base);
    case Class(_) | StartAnchor | EndAnchor => IdleOne(prog, x, base);
    case Concat(parts) => SeqIdle(prog, x, parts, base);
    case Alt(branches) => AltIdle(prog, x, branches, base, base + AltSize(branches));
    case Star(inner) =>
      var back := base + Size(inner) + 1;
      IdleOne(prog, x, base);
      FragmentIdle(prog, x, inner, base + 1);
      IdleOne(prog, x, back);
      IdleJoin(prog, x, base, base + 1, back);
      IdleJoin(prog, x, base, back, back + 1);
    case Plus(inner) =>
      var back := base + Size(inner);
      FragmentIdle(prog, x, inner, base);
      IdleOne(prog, x, back);
      IdleJoin(prog, x, base, back, back + 1);
    case Quest(inner) =>
      IdleOne(prog, x, base);
      FragmentIdle(prog, x, inner, base + 1);
      IdleJoin(prog, x, base, base + 1, base + 1 + Size(inner));
  }

  lemma IdleNone(prog: seq<Inst>, x: Option<Byte>, base: nat)
    ensures IsIdle(prog, x, base, base)
  {
  }

  lemma {:induction false} SeqIdle(prog: seq<Inst>, x: Option<Byte>, parts: seq<Node>, base: nat)
    requires SeqPlaced(prog, parts, base) && AllReject(parts, x)
    ensures IsIdle(prog, x, base, base + SeqSize(parts))
    decreases parts, 0
  {
    hide IsIdle;
    if parts == [] {
      IdleNone(prog, x, base);
    } else {
      FragmentIdle(prog, x, parts[0], base);
      SeqIdle(prog, x, parts[1..], base + Size(parts[0]));
      IdleJoin(prog, x, base, base + Size(parts[0]), base + SeqSize(parts));
    }
  }

  lemma {:induction false} AltIdle(prog: seq<Inst>, x: Option<Byte>, branches: seq<Node>, base: nat, end: nat)
    requires AltPlaced(prog, branches, base, end) && AllReject(branches, x)
    ensures IsIdle(prog, x, base, base + AltSize(branches))
    decreases branches, 0
  {
    hide IsIdle;
    if branches == [] {
      IdleNone(prog, x, base);
    } else if |branches| == 1 {
      FragmentIdle(prog, x, branches[0], base);
    } else {
      var next := base + Size(branches[0]) + 2;
      FragmentIdle(prog, x, branches[0], base + 1);
      AltIdle(prog, x, branches[1..], next, end);
      BracketIdle(prog, x, base, next);
      IdleJoin(prog, x, base, next, base + AltSize(branches));
    }
  }

  /** An idle branch with its split and its jump. */
  lemma BracketIdle(prog: seq<Inst>, x: Option<Byte>, base: nat, next: nat)
    requires base + 2 <= next <= |prog| && prog[base].Split? && prog[next - 1].Jmp?
    requires IsIdle(prog, x, base + 1, next - 1)
    ensures IsIdle(prog, x, base, next)
  {
  }

  // ----- running through an idle stretch -----

  /** Once the end is seen, an idle stretch adds nothing of worth. */
  lemma AfterEnd(prog: seq<Inst>, input: seq<Byte>, pos: nat, roots: seq<nat>, seen: set<nat>, lo: nat, hi: nat)
    requires WellFormedProgram(prog) && pos <= |input| && InProg(prog, roots) && hi in seen
    requires Stays(prog, lo, hi) && IsIdle(prog, NextByte(input, pos), lo, hi)
    requires forall k :: 0 <= k < |roots| ==> lo <= roots[k] <= hi
    ensures var list := Visit(prog, ModeAt(input, pos), roots, seen).list;
            InProg(prog, list) && Worth(prog, input, list, pos).None?
  {
    hide Visit, Worth, Stays, IsIdle, WellFormedProgram;
    ListedSeen(prog, ModeAt(input, pos), roots, seen);
    SeesStretch(prog, ModeAt(input, pos), roots, seen, lo, hi);
    IdleList(prog, input, pos, Visit(prog, ModeAt(input, pos), roots, seen).list, lo, hi);
  }

  lemma SeesStretch(prog: seq<Inst>, mode: Mode, roots: seq<nat>, seen: set<nat>, lo: nat, hi: nat)
    requires WellFormedProgram(prog) && mode.At? && InProg(prog, roots) && hi in seen && Stays(prog, lo, hi)
    requires forall k :: 0 <= k < |roots| ==> lo <= roots[k] <= hi
    ensures forall q: nat :: q in Visit(prog, mode, roots, seen).seen ==> q in seen || lo <= q < hi
  {
    hide Visit, Stays, ClosedOver, WellFormedProgram;
    var stretch := set q | q in AllPcs(prog) && lo <= q < hi;
    StretchClosed(prog, mode, lo, hi, seen, stretch);
    VisitStaysInside(prog, mode, roots, seen, stretch);
  }

  /** What a visit lists it is the first to see. */
  lemma ListedSeen(prog: seq<Inst>, mode: Mode, roots: seq<nat>, seen: set<nat>)
    requires WellFormedProgram(prog) && InProg(prog, roots)
    ensures var v := Visit(prog, mode, roots, seen);
            InProg(prog, v.list) && forall k :: 0 <= k < |v.list| ==> v.list[k] in v.seen && v.list[k] !in seen
  {
    hide Visit;
    VisitFacts(prog, mode, roots, seen);
    var v := Visit(prog, mode, roots, seen);
    forall k | 0 <= k < |v.list| ensures v.list[k] in v.seen && v.list[k] !in seen {
      assert v.list[k] in v.list;
    }
  }

  /** Instructions of an idle stretch are worth nothing. */
  lemma IdleList(prog: seq<Inst>, input: seq<Byte>, pos: nat, list: seq<nat>, lo: nat, hi: nat)
    requires WellFormedProgram(prog) && pos <= |input| && InProg(prog, list)
    requires IsIdle(prog, NextByte(input, pos), lo, hi) && forall k :: 0 <= k < |list| ==> lo <= list[k] < hi
    ensures Worth(prog, input, list, pos).None?
  {
    hide Worth, WorthOf, IsIdle;
    forall k | 0 <= k < |list| ensures WorthOf(prog, input, list[k], pos).None? {
      IdleWorth(prog, input, pos, lo, hi, list[k]);
    }
    WorthNone(prog, input, list, pos);
  }

  lemma StretchClosed(prog: seq<Inst>, mode: Mode, lo: nat, hi: nat, seen: set<nat>, stretch: set<nat>)
    requires WellFormedProgram(prog) && mode.At? && Stays(prog, lo, hi) && hi in seen
    requires stretch == set q | q in AllPcs(prog) && lo <= q < hi
    ensures ClosedOver(prog, mode, stretch, seen)
  {
    forall pc: nat, q: nat {:trigger Leads(prog, mode, pc, q)} | pc in stretch && Leads(prog, mode, pc, q)
      ensures q in seen + stretch
    {
      AnywhereLeads(prog, mode, pc, q);
      LeadsInside(prog, mode, pc, q);
    }
  }

  /** Having seen some of an idle stretch does not change what its end is worth. */
  lemma EndWorth(prog: seq<Inst>, input: seq<Byte>, pos: nat, avoid: set<nat>, extra: set<nat>, lo: nat, hi: nat)
    requires WellFormedProgram(prog) && pos <= |input| && hi < |prog|
    requires Stays(prog, lo, hi) && IsIdle(prog, NextByte(input, pos), lo, hi)
    requires forall q: nat :: q in extra ==> lo <= q < hi
    ensures WorthAvoiding(prog, input, hi, pos, avoid + extra) == WorthAvoiding(prog, input, hi, pos, avoid)
  {
    hide WorthAvoiding, Stays, IsIdle, Visit;
    var mode := ModeAt(input, pos);
    var stretch := set q | q in AllPcs(prog) && lo <= q < hi;
    var all := stretch - avoid;
    StretchFails(prog, input, pos, lo, hi, all);
    StretchClosed(prog, mode, lo, hi, {hi}, stretch);
    assert ClosedOver(prog, mode, all, avoid + {hi});
    FailuresIgnored(prog, input, hi, pos, avoid, all);
    var more := all - extra;
    assert ClosedOver(prog, mode, more, avoid + extra + {hi});
    StretchFails(prog, input, pos, lo, hi, more);
    FailuresIgnored(prog, input, hi, pos, avoid + extra, more);
    assert avoid + extra + more == avoid + all;
  }

  lemma StretchFails(prog: seq<Inst>, input: seq<Byte>, pos: nat, lo: nat, hi: nat, pcs: set<nat>)
    requires WellFormedProgram(prog) && pos <= |input| && IsIdle(prog, NextByte(input, pos), lo, hi)
    requires forall q: nat :: q in pcs ==> lo <= q < hi
    ensures SetFails(prog, input, pcs, pos)
  {
    hide WorthOf;
    forall q: nat | q in pcs && q < |prog| && Ready(prog, ModeAt(input, pos), q)
      ensures WorthOf(prog, input, q, pos).None?
    {
      IdleWorth(prog, input, pos, lo, hi, q);
    }
  }

  /**
   A closure that starts in an idle stretch is worth what its end is worth, if it gets there,
   and otherwise nothing.
   */
  lemma {:induction false} Sweep(prog: seq<Inst>, input: seq<Byte>, pos: nat, roots: seq<nat>,
                                 avoid: set<nat>, extra: set<nat>, lo: nat, hi: nat)
    requires WellFormedProgram(prog) && pos <= |input| && hi < |prog| && hi !in avoid + extra
    requires Stays(prog, lo, hi) && IsIdle(prog, NextByte(input, pos), lo, hi)
    requires forall k :: 0 <= k < |roots| ==> lo <= roots[k] <= hi
    requires forall q: nat :: q in extra ==> lo <= q < hi
    ensures InProg(prog, roots)
    ensures var v := Visit(prog, ModeAt(input, pos), roots, avoid + extra);
            && InProg(prog, v.list)
            && (if hi in v.seen then Worth(prog, input, v.list, pos) == WorthAvoiding(prog, input, hi, pos, avoid)
                else Worth(prog, input, v.list, pos).None? && forall q: nat :: q in v.seen && q !in avoid ==> lo <= q < hi)
    decreases AllPcs(prog) - (avoid + extra), |roots|
  {
    hide Worth, WorthOf, WorthAvoiding, Stays, IsIdle, Leads;
    var mode, seen := ModeAt(input, pos), avoid + extra;
    VisitFacts(prog, mode, roots, seen);
    if roots == [] {
      WorthNone(prog, input, [], pos);
    } else if roots[0] in seen {
      Sweep(prog, input, pos, roots[1..], avoid, extra, lo, hi);
    } else {
      assert roots[0] in AllPcs(prog) - seen;
      SweepFirst(prog, input, pos, roots[0], avoid, extra, lo, hi);
      VisitOne(prog, mode, roots[0], seen);
      var inner := VisitFresh(prog, mode, roots[0], seen);
      assert inner == Visit(prog, mode, [roots[0]], seen);
      VisitFacts(prog, mode, [roots[0]], seen);
      var rest := Visit(prog, mode, roots[1..], inner.seen);
      VisitFacts(prog, mode, roots[1..], inner.seen);
      WorthConcat(prog, input, inner.list, rest.list, pos);
      if hi in inner.seen {
        AfterEnd(prog, input, pos, roots[1..], inner.seen, lo, hi);
      } else {
        assert avoid + (inner.seen - avoid) == inner.seen;
        Sweep(prog, input, pos, roots[1..], avoid, inner.seen - avoid, lo, hi);
      }
    }
  }

  lemma {:induction false} SweepFirst(prog: seq<Inst>, input: seq<Byte>, pos: nat, root: nat,
                                      avoid: set<nat>, extra: set<nat>, lo: nat, hi: nat)
    requires WellFormedProgram(prog) && pos <= |input| && hi < |prog| && hi !in avoid + extra
    requires Stays(prog, lo, hi) && IsIdle(prog, NextByte(input, pos), lo, hi)
    requires lo <= root <= hi && root !in avoid + extra
    requires forall q: nat :: q in extra ==> lo <= q < hi
    ensures var v := Visit(prog, ModeAt(input, pos), [root], avoid + extra);
            && InProg(prog, v.list)
            && (if hi in v.seen then Worth(prog, input, v.list, pos) == WorthAvoiding(prog, input, hi, pos, avoid)
                else Worth(prog, input, v.list, pos).None? && forall q: nat :: q in v.seen && q !in avoid ==> lo <= q < hi)
    decreases AllPcs(prog) - (avoid + extra), 0
  {
    hide Worth, WorthOf, Stays, IsIdle, Leads, Visit, VisitFresh;
    var mode, seen := ModeAt(input, pos), avoid + extra;
    assert root in AllPcs(prog) - seen;
    VisitOne(prog, mode, root, seen);
    VisitFacts(prog, mode, [root], seen);
    if root == hi {
      EndWorth(prog, input, pos, avoid, extra, lo, hi);
      assert [root][0] in Visit(prog, mode, [root], seen).seen;
    } else if Ready(prog, mode, root) {
      IdleWorth(prog, input, pos, lo, hi, root);
      assert InProg(prog, [root]);
      OneWorth(prog, input, root, pos);
    } else {
      var succ := Next(prog, mode, root);
      forall k | 0 <= k < |succ| ensures lo <= succ[k] <= hi {
        LeadsTo(prog, mode, root, k);
        StaysLeads(prog, mode, lo, hi, root, succ[k]);
      }
      assert seen + {root} == avoid + (extra + {root});
      Sweep(prog, input, pos, succ, avoid, extra + {root}, lo, hi);
    }
  }

  lemma OneWorth(prog: seq<Inst>, input: seq<Byte>, pc: nat, pos: nat)
    requires WellFormedProgram(prog) && pos <= |input| && pc < |prog|
    ensures Worth(prog, input, [pc], pos) == WorthOf(prog, input, pc, pos)
  {
    assert [pc][1..] == [];
  }

  lemma LeadsTo(prog: seq<Inst>, mode: Mode, pc: nat, k: nat)
    requires WellFormedProgram(prog) && pc < |prog| && k < |Next(prog, mode, pc)|
    ensures Leads(prog, mode, pc, Next(prog, mode, pc)[k])
  {
  }

  lemma StaysLeads(prog: seq<Inst>, mode: Mode, lo: nat, hi: nat, pc: nat, q: nat)
    requires WellFormedProgram(prog) && mode.At? && Stays(prog, lo, hi) && lo <= pc < hi && Leads(prog, mode, pc, q)
    ensures lo <= q <= hi
  {
    AnywhereLeads(prog, mode, pc, q);
  }
}

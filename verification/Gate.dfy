/**
 The split at which a pattern ends too early.

 A closure that reaches it goes on behind the pattern before it tries the bytes behind
 the split. So the machine, which does not come back to what it has seen, stops there,
 where the backtracker would go on.
 */
module Gates {
  import opened Wrappers
  import opened Ast
  import opened Syntax
  import opened Semantics
  import opened Program
  import opened Paths
  import opened Closure
  import opened Threads
  import opened Epsilon
  import opened Sealed
  import opened Blocked
  import opened Tail
  import opened TailVisits
  import opened Paint
  import opened Idle

  // ----- a nullable stretch is passed -----

  /** What the instructions of the stretch that are in the set lead to is in the set too. */
  ghost predicate ClosedIn(prog: seq<Inst>, mode: Mode, seen: set<nat>, lo: nat, hi: nat)
    requires WellFormedProgram(prog)
  {
    forall pc: nat, q: nat {:trigger Leads(prog, mode, pc, q)} ::
      pc in seen && lo <= pc < hi && Leads(prog, mode, pc, q) ==> q in seen
  }

  lemma ClosedInside(prog: seq<Inst>, mode: Mode, seen: set<nat>, lo: nat, hi: nat, lo': nat, hi': nat)
    requires WellFormedProgram(prog) && ClosedIn(prog, mode, seen, lo, hi) && lo <= lo' && hi' <= hi
    ensures ClosedIn(prog, mode, seen, lo', hi')
  {
  }

  lemma ClosedSplit(prog: seq<Inst>, mode: Mode, seen: set<nat>, lo: nat, hi: nat, pc: nat, x: nat, y: nat)
    requires WellFormedProgram(prog) && ClosedIn(prog, mode, seen, lo, hi) && lo <= pc < hi && pc in seen
    requires pc < |prog| && prog[pc] == Split(x, y)
    ensures x in seen && y in seen
  {
    SplitLeads(prog, mode, pc, x, y, x);
    SplitLeads(prog, mode, pc, x, y, y);
  }

  lemma ClosedJmp(prog: seq<Inst>, mode: Mode, seen: set<nat>, lo: nat, hi: nat, pc: nat, t: nat)
    requires WellFormedProgram(prog) && ClosedIn(prog, mode, seen, lo, hi) && lo <= pc < hi && pc in seen
    requires pc < |prog| && prog[pc] == Jmp(t)
    ensures t in seen
  {
    JmpLeads(prog, mode, pc, t, t);
  }

  /** A closed set that holds the beginning of a nullable fragment holds its end. */
  lemma {:induction false} NullPass(prog: seq<Inst>, mode: Mode, n: Node, base: nat, seen: set<nat>)
    requires WellFormedProgram(prog) && Placed(prog, n, base) && Nullable(n) && !HasAnchors(n)
    requires ClosedIn(prog, mode, seen, base, base + Size(n)) && base in seen
    ensures base + Size(n) in seen
    decreases n, 0
  {
    hide ClosedIn, WellFormedProgram;
    match n
    case Empty =>
    case Concat(parts) => NullPassSeq(prog, mode, parts, base, seen);
    case Alt(branches) => NullPassAlt(prog, mode, branches, base, base + AltSize(branches), seen);
    case Star(inner) => ClosedSplit(prog, mode, seen, base, base + Size(n), base, base + 1, base + Size(inner) + 2);
    case Plus(inner) =>
      var back := base + Size(inner);
      ClosedInside(prog, mode, seen, base, base + Size(n), base, back);
      NullPass(prog, mode, inner, base, seen);
      ClosedSplit(prog, mode, seen, base, base + Size(n), back, base, back + 1);
    case Quest(inner) => ClosedSplit(prog, mode, seen, base, base + Size(n), base, base + 1, base + 1 + Size(inner));
    case _ =>
  }

  lemma {:induction false} NullPassSeq(prog: seq<Inst>, mode: Mode, parts: seq<Node>, base: nat, seen: set<nat>)
    requires WellFormedProgram(prog) && SeqPlaced(prog, parts, base) && AllNullable(parts) && !AnyHasAnchors(parts)
    requires ClosedIn(prog, mode, seen, base, base + SeqSize(parts)) && base in seen
    ensures base + SeqSize(parts) in seen
    decreases parts, 0
  {
    hide ClosedIn, WellFormedProgram;
    if parts != [] {
      var mid, end := base + Size(parts[0]), base + SeqSize(parts);
      ClosedInside(prog, mode, seen, base, end, base, mid);
      NullPass(prog, mode, parts[0], base, seen);
      ClosedInside(prog, mode, seen, base, end, mid, end);
      NullPassSeq(prog, mode, parts[1..], mid, seen);
    }
  }

  lemma {:induction false} NullPassAlt(prog: seq<Inst>, mode: Mode, branches: seq<Node>, base: nat, end: nat, seen: set<nat>)
    requires WellFormedProgram(prog) && AltPlaced(prog, branches, base, end) && AnyNullable(branches) && !AnyHasAnchors(branches)
    requires end == base + AltSize(branches)
    requires ClosedIn(prog, mode, seen, base, end) && base in seen
    ensures end in seen
    decreases branches, 0
  {
    hide ClosedIn, WellFormedProgram;
    if |branches| == 1 {
      assert !AnyNullable(branches[1..]);
      NullPass(prog, mode, branches[0], base, seen);
    } else {
      var next := base + Size(branches[0]) + 2;
      ClosedSplit(prog, mode, seen, base, end, base, base + 1, next);
      if Nullable(branches[0]) {
        ClosedInside(prog, mode, seen, base, end, base + 1, next - 1);
        NullPass(prog, mode, branches[0], base + 1, seen);
        ClosedJmp(prog, mode, seen, base, end, next - 1, end);
      } else {
        ClosedInside(prog, mode, seen, base, end, next, end);
        NullPassAlt(prog, mode, branches[1..], next, end, seen);
      }
    }
  }

  lemma VisitClosedIn(prog: seq<Inst>, mode: Mode, pc: nat, avoid: set<nat>, lo: nat, hi: nat)
    requires WellFormedProgram(prog) && pc < |prog| && Apart(avoid, lo, hi)
    ensures var seen := Visit(prog, mode, [pc], avoid).seen;
            pc in seen && ClosedIn(prog, mode, seen, lo, hi)
  {
    hide Visit;
    VisitCloses(prog, mode, pc, avoid);
  }

  /** A nullable idle fragment is worth what lies behind it. */
  lemma IdlePass(prog: seq<Inst>, input: seq<Byte>, n: Node, base: nat, pos: nat, avoid: set<nat>)
    requires WellFormedProgram(prog) && Placed(prog, n, base) && base + Size(n) < |prog| && pos <= |input|
    requires Nullable(n) && !HasAnchors(n) && Rejects(n, NextByte(input, pos)) && Apart(avoid, base, base + Size(n) + 1)
    ensures WorthAvoiding(prog, input, base, pos, avoid) == WorthAvoiding(prog, input, base + Size(n), pos, avoid)
  {
    hide Visit, Worth, IsIdle, Stays, ClosedIn, Placed, Size, WellFormedProgram;
    var end := base + Size(n);
    FragmentStays(prog, n, base);
    FragmentIdle(prog, NextByte(input, pos), n, base);
    VisitClosedIn(prog, ModeAt(input, pos), base, avoid, base, end);
    NullPass(prog, ModeAt(input, pos), n, base, Visit(prog, ModeAt(input, pos), [base], avoid).seen);
    assert avoid + {} == avoid;
    Sweep(prog, input, pos, [base], avoid, {}, base, end);
  }

  /** An idle fragment that is not nullable is worth nothing. */
  lemma IdleStuck(prog: seq<Inst>, input: seq<Byte>, n: Node, base: nat, pos: nat, avoid: set<nat>)
    requires WellFormedProgram(prog) && Placed(prog, n, base) && base + Size(n) < |prog| && pos <= |input|
    requires WellFormed(n) && !Nullable(n) && Rejects(n, NextByte(input, pos)) && Apart(avoid, base, base + Size(n))
    ensures WorthAvoiding(prog, input, base, pos, avoid).None?
  {
    hide Visit, Worth, WorthOf, IsIdle, Stays, Placed, WellFormedProgram;
    var mode, end := ModeAt(input, pos), base + Size(n);
    OwnVisit(prog, mode, n, base, avoid);
    FragmentIdle(prog, NextByte(input, pos), n, base);
    VisitFacts(prog, mode, [base], {});
    var list := Visit(prog, mode, [base], {}).list;
    forall k | 0 <= k < |list| ensures WorthOf(prog, input, list[k], pos).None? {
      assert list[k] in list;
      IdleWorth(prog, input, pos, base, end, list[k]);
    }
    WorthNone(prog, input, list, pos);
  }

  // ----- the gate of a pattern that ends early -----

  /** A split, and the code that only its second arm leads to. */
  datatype Gate = Gate(at: nat, next: nat, end: nat)

  const NO_GATE := Gate(0, 0, 0)

  /** Where the early end of `Late(n, b)`, placed at `base`, is. */
  ghost function LateGate(n: Node, b: ByteClass, base: nat): Gate
    requires !Last(n)
    decreases n
  {
    match n
    case Concat(parts) => PartsGate(parts, b, base)
    case Alt(branches) => BranchesGate(branches, b, base, base + AltSize(LateBranches(branches, b)))
    case Quest(inner) => LateGate(inner, b, base + 1)
    case _ => NO_GATE
  }

  ghost function PartsGate(parts: seq<Node>, b: ByteClass, base: nat): Gate
    requires !AllLast(parts)
    decreases parts
  {
    if !Last(parts[0]) then LateGate(parts[0], b, base)
    else PartsGate(parts[1..], b, base + Size(Erase(parts[0])))
  }

  ghost function BranchesGate(branches: seq<Node>, b: ByteClass, base: nat, end: nat): Gate
    requires !LastBranches(branches)
    decreases branches
  {
    if EndsEarly(branches) then Gate(base, base + Size(Erase(branches[0])) + 2, end)
    else if Nullable(branches[0]) && !Last(branches[0]) then
      LateGate(branches[0], b, if |branches| == 1 then base else base + 1)
    else BranchesGate(branches[1..], b, base + Size(Erase(branches[0])) + 2, end)
  }

  /** Only the gate leads into the code behind it. */
  ghost predicate Guarded(prog: seq<Inst>, g: Gate)
    requires WellFormedProgram(prog)
  {
    forall pc: nat, q: nat {:trigger Leads(prog, ANYWHERE, pc, q)} ::
      !(g.next <= pc < g.end) && pc != g.at && Leads(prog, ANYWHERE, pc, q) ==> !(g.next <= q < g.end)
  }

  /** The gate lies in the stretch, and but for the code behind it the stretch is idle. */
  ghost predicate GateIn(prog: seq<Inst>, x: Option<Byte>, g: Gate, base: nat, end: nat)
    requires WellFormedProgram(prog)
  {
    && base <= g.at && g.at + 1 < g.next < g.end <= end && g.at < |prog|
    && prog[g.at] == Split(g.at + 1, g.next)
    && Guarded(prog, g)
    && IsIdle(prog, x, base, g.next) && IsIdle(prog, x, g.end, end)
  }

  lemma GateWider(prog: seq<Inst>, x: Option<Byte>, g: Gate, base: nat, end: nat, lo: nat, hi: nat)
    requires WellFormedProgram(prog) && GateIn(prog, x, g, base, end) && lo <= base && end <= hi
    requires IsIdle(prog, x, lo, base) && IsIdle(prog, x, end, hi)
    ensures GateIn(prog, x, g, lo, hi)
  {
    hide Guarded;
  }

  lemma {:induction false} ByteHasSize(n: Node)
    requires HasByte(n)
    ensures Size(n) > 0
    decreases n, 0
  {
    match n
    case Concat(parts) => ByteHasSeqSize(parts);
    case Alt(branches) => ByteHasAltSize(branches);
    case _ =>
  }

  lemma {:induction false} ByteHasSeqSize(parts: seq<Node>)
    requires AnyHasByte(parts)
    ensures SeqSize(parts) > 0
    decreases parts, 0
  {
    if HasByte(parts[0]) {
      ByteHasSize(parts[0]);
    } else {
      ByteHasSeqSize(parts[1..]);
    }
  }

  lemma {:induction false} ByteHasAltSize(branches: seq<Node>)
    requires AnyHasByte(branches)
    ensures AltSize(branches) > 0
    decreases branches, 0
  {
    if |branches| == 1 {
      assert !AnyHasByte(branches[1..]);
      ByteHasSize(branches[0]);
    }
  }

  /** The split of an alternation guards the branches behind it. */
  lemma AltGuards(prog: seq<Inst>, base: nat, next: nat, end: nat)
    requires WellFormedProgram(prog) && base + 2 <= next < end < |prog| && Entered(prog, base, end)
    requires prog[base] == Split(base + 1, next) && prog[next - 1] == Jmp(end) && Stays(prog, base + 1, next - 1)
    ensures Guarded(prog, Gate(base, next, end))
  {
    forall pc: nat, q: nat {:trigger Leads(prog, ANYWHERE, pc, q)} |
      !(next <= pc < end) && pc != base && Leads(prog, ANYWHERE, pc, q)
      ensures !(next <= q < end)
    {
      JmpLeads(prog, ANYWHERE, next - 1, end, q);
    }
  }

  lemma EraseIdle(prog: seq<Inst>, x: Option<Byte>, n: Node, base: nat)
    requires Placed(prog, Erase(n), base)
    ensures IsIdle(prog, x, base, base + Size(Erase(n)))
  {
    hide Placed, IsIdle, Rejects, Fill, Size;
    FillRejects(n, NoByte(), x);
    FragmentIdle(prog, x, Erase(n), base);
  }

  lemma {:induction false} LateGateIn(prog: seq<Inst>, x: Option<Byte>, n: Node, b: ByteClass, base: nat)
    requires WellFormedProgram(prog) && !Last(n)
    requires Placed(prog, Late(n, b), base) && IsSealed(prog, Late(n, b), base) && base + Size(Late(n, b)) < |prog|
    ensures GateIn(prog, x, LateGate(n, b, base), base, base + Size(Late(n, b)))
    decreases n, 1
  {
    hide GateIn, WellFormedProgram, Placed, IsSealed, Late, LateGate, Size;
    assert n.Concat? || n.Alt? || n.Quest?;
    if n.Concat? {
      ConcatGateIn(prog, x, n, b, base);
    } else if n.Alt? {
      AltGateIn(prog, x, n, b, base);
    } else {
      QuestLateGateIn(prog, x, n, b, base);
    }
  }

  lemma {:induction false} ConcatGateIn(prog: seq<Inst>, x: Option<Byte>, n: Node, b: ByteClass, base: nat)
    requires WellFormedProgram(prog) && !Last(n) && n.Concat?
    requires Placed(prog, Late(n, b), base) && IsSealed(prog, Late(n, b), base) && base + Size(Late(n, b)) < |prog|
    ensures GateIn(prog, x, LateGate(n, b, base), base, base + Size(Late(n, b)))
    decreases n, 0
  {
    hide GateIn, Entered, WellFormedProgram, SeqPlaced, SeqSealed, PartsGate, LateParts;
    PartsGateIn(prog, x, n.parts, b, base);
  }

  lemma {:induction false} AltGateIn(prog: seq<Inst>, x: Option<Byte>, n: Node, b: ByteClass, base: nat)
    requires WellFormedProgram(prog) && !Last(n) && n.Alt?
    requires Placed(prog, Late(n, b), base) && IsSealed(prog, Late(n, b), base) && base + Size(Late(n, b)) < |prog|
    ensures GateIn(prog, x, LateGate(n, b, base), base, base + Size(Late(n, b)))
    decreases n, 0
  {
    hide GateIn, Entered, WellFormedProgram, AltPlaced, AltSealed, BranchesGate, LateBranches;
    BranchesGateIn(prog, x, n.branches, b, base, base + AltSize(LateBranches(n.branches, b)));
  }

  lemma {:induction false} QuestLateGateIn(prog: seq<Inst>, x: Option<Byte>, n: Node, b: ByteClass, base: nat)
    requires WellFormedProgram(prog) && !Last(n) && n.Quest?
    requires Placed(prog, Late(n, b), base) && IsSealed(prog, Late(n, b), base) && base + Size(Late(n, b)) < |prog|
    ensures GateIn(prog, x, LateGate(n, b, base), base, base + Size(Late(n, b)))
    decreases n, 0
  {
    hide GateIn, Entered, WellFormedProgram;
    LateGateIn(prog, x, n.inner, b, base + 1);
    QuestGateIn(prog, x, LateGate(n.inner, b, base + 1), base, base + 1 + Size(Late(n.inner, b)));
  }

  lemma QuestGateIn(prog: seq<Inst>, x: Option<Byte>, g: Gate, base: nat, end: nat)
    requires WellFormedProgram(prog) && base < |prog| && prog[base].Split? && GateIn(prog, x, g, base + 1, end)
    ensures GateIn(prog, x, g, base, end)
  {
    hide GateIn, IsIdle;
    IdleOne(prog, x, base);
    IdleNone(prog, x, end);
    GateWider(prog, x, g, base + 1, end, base, end);
  }

  lemma ConsSeq<T>(x: T, s: seq<T>)
    ensures ([x] + s)[0] == x && ([x] + s)[1..] == s
  {
  }

  lemma {:induction false} PartsGateIn(prog: seq<Inst>, x: Option<Byte>, parts: seq<Node>, b: ByteClass, base: nat)
    requires WellFormedProgram(prog) && !AllLast(parts)
    requires SeqPlaced(prog, LateParts(parts, b), base) && SeqSealed(prog, LateParts(parts, b), base)
    requires base + SeqSize(LateParts(parts, b)) < |prog|
    ensures GateIn(prog, x, PartsGate(parts, b, base), base, base + SeqSize(LateParts(parts, b)))
    decreases parts, 0
  {
    hide GateIn, IsIdle, Entered, WellFormedProgram, Late, LateGate, Erase, Placed, IsSealed;
    var rest, end := parts[1..], base + SeqSize(LateParts(parts, b));
    if !Last(parts[0]) {
      ConsSeq(Late(parts[0], b), EraseAll(rest));
      var mid := base + Size(Late(parts[0], b));
      LateGateIn(prog, x, parts[0], b, base);
      FillAllReject(rest, NoByte(), x);
      SeqIdle(prog, x, EraseAll(rest), mid);
      IdleNone(prog, x, base);
      GateWider(prog, x, LateGate(parts[0], b, base), base, mid, base, end);
    } else {
      ConsSeq(Erase(parts[0]), LateParts(rest, b));
      var mid := base + Size(Erase(parts[0]));
      EraseIdle(prog, x, parts[0], base);
      PartsGateIn(prog, x, rest, b, mid);
      IdleNone(prog, x, end);
      GateWider(prog, x, PartsGate(rest, b, mid), mid, end, base, end);
    }
  }

  lemma {:induction false} BranchesGateIn(prog: seq<Inst>, x: Option<Byte>, branches: seq<Node>, b: ByteClass, base: nat, end: nat)
    requires WellFormedProgram(prog) && !LastBranches(branches)
    requires AltPlaced(prog, LateBranches(branches, b), base, end) && AltSealed(prog, LateBranches(branches, b), base, end)
    requires end == base + AltSize(LateBranches(branches, b)) < |prog|
    ensures GateIn(prog, x, BranchesGate(branches, b, base, end), base, end)
    decreases branches, 1
  {
    hide GateIn, WellFormedProgram, AltPlaced, AltSealed, LateBranches, BranchesGate, AltSize, EndsEarly, Last, Nullable;
    if EndsEarly(branches) {
      EarlyGateHere(prog, x, branches, b, base, end);
    } else if Nullable(branches[0]) && !Last(branches[0]) {
      GateInFirst(prog, x, branches, b, base, end);
    } else {
      GateInRest(prog, x, branches, b, base, end);
    }
  }

  lemma EarlyGateHere(prog: seq<Inst>, x: Option<Byte>, branches: seq<Node>, b: ByteClass, base: nat, end: nat)
    requires WellFormedProgram(prog) && !LastBranches(branches) && EndsEarly(branches)
    requires AltPlaced(prog, LateBranches(branches, b), base, end) && AltSealed(prog, LateBranches(branches, b), base, end)
    requires end == base + AltSize(LateBranches(branches, b)) < |prog|
    ensures GateIn(prog, x, BranchesGate(branches, b, base, end), base, end)
  {
    hide GateIn, IsIdle, Entered, WellFormedProgram, Placed, IsSealed, Late, Erase, HasByte;
    var rest := branches[1..];
    ConsSeq(Erase(branches[0]), FillAll(rest, b));
    FillAllKeeps(rest, b);
    ByteHasAltSize(rest);
    EarlyBranch(prog, x, branches[0], base, base + Size(Erase(branches[0])) + 2, end);
  }

  lemma {:induction false} GateInFirst(prog: seq<Inst>, x: Option<Byte>, branches: seq<Node>, b: ByteClass, base: nat, end: nat)
    requires WellFormedProgram(prog) && !LastBranches(branches) && !EndsEarly(branches) && Nullable(branches[0]) && !Last(branches[0])
    requires AltPlaced(prog, LateBranches(branches, b), base, end) && AltSealed(prog, LateBranches(branches, b), base, end)
    requires end == base + AltSize(LateBranches(branches, b)) < |prog|
    ensures GateIn(prog, x, BranchesGate(branches, b, base, end), base, end)
    decreases branches, 0
  {
    hide GateIn, IsIdle, Entered, WellFormedProgram, Placed, IsSealed, Late, Erase, HasByte;
    var rest := branches[1..];
    ConsSeq(Late(branches[0], b), EraseAll(rest));
    if |branches| == 1 {
      LateGateIn(prog, x, branches[0], b, base);
    } else {
      var next := base + Size(Late(branches[0], b)) + 2;
      LateGateIn(prog, x, branches[0], b, base + 1);
      FillAllReject(rest, NoByte(), x);
      AltIdle(prog, x, EraseAll(rest), next, end);
      BranchGateWider(prog, x, LateGate(branches[0], b, base + 1), base, next, end);
    }
  }

  lemma {:induction false} GateInRest(prog: seq<Inst>, x: Option<Byte>, branches: seq<Node>, b: ByteClass, base: nat, end: nat)
    requires WellFormedProgram(prog) && !LastBranches(branches) && !EndsEarly(branches) && !(Nullable(branches[0]) && !Last(branches[0]))
    requires AltPlaced(prog, LateBranches(branches, b), base, end) && AltSealed(prog, LateBranches(branches, b), base, end)
    requires end == base + AltSize(LateBranches(branches, b)) < |prog|
    ensures GateIn(prog, x, BranchesGate(branches, b, base, end), base, end)
    decreases branches, 0
  {
    hide GateIn, IsIdle, Entered, WellFormedProgram, Placed, IsSealed, Late, Erase, HasByte;
    var rest := branches[1..];
    NotLastBranchHasByte(branches);
    ConsSeq(Erase(branches[0]), LateBranches(rest, b));
    var next := base + Size(Erase(branches[0])) + 2;
    EraseIdle(prog, x, branches[0], base + 1);
    BracketIdle(prog, x, base, next);
    BranchesGateIn(prog, x, rest, b, next, end);
    IdleNone(prog, x, end);
    GateWider(prog, x, BranchesGate(rest, b, next, end), next, end, base, end);
  }

  lemma BranchGateWider(prog: seq<Inst>, x: Option<Byte>, g: Gate, base: nat, next: nat, end: nat)
    requires WellFormedProgram(prog) && base + 2 <= next <= end < |prog| && GateIn(prog, x, g, base + 1, next - 1)
    requires prog[base].Split? && prog[next - 1].Jmp? && IsIdle(prog, x, next, end)
    ensures GateIn(prog, x, g, base, end)
  {
    hide GateIn, IsIdle;
    IdleOne(prog, x, base);
    IdleOne(prog, x, next - 1);
    IdleJoin(prog, x, next - 1, next, end);
    GateWider(prog, x, g, base + 1, next - 1, base, end);
  }

  /** A nullable first branch, with bytes behind it. */
  lemma EarlyBranch(prog: seq<Inst>, x: Option<Byte>, n: Node, base: nat, next: nat, end: nat)
    requires WellFormedProgram(prog) && base + 2 <= next < end < |prog| && next == base + Size(Erase(n)) + 2
    requires prog[base] == Split(base + 1, next) && prog[next - 1] == Jmp(end)
    requires Placed(prog, Erase(n), base + 1) && Entered(prog, base, end)
    ensures GateIn(prog, x, Gate(base, next, end), base, end)
  {
    hide GateIn, IsIdle, Entered, Stays, Placed, Guarded;
    EraseIdle(prog, x, n, base + 1);
    BracketIdle(prog, x, base, next);
    IdleNone(prog, x, end);
    FragmentStays(prog, Erase(n), base + 1);
    AltGuards(prog, base, next, end);
    EarlyGateIn(prog, x, base, next, end);
  }

  lemma EarlyGateIn(prog: seq<Inst>, x: Option<Byte>, base: nat, next: nat, end: nat)
    requires WellFormedProgram(prog) && base + 2 <= next < end && base < |prog| && prog[base] == Split(base + 1, next)
    requires Guarded(prog, Gate(base, next, end)) && IsIdle(prog, x, base, next) && IsIdle(prog, x, end, end)
    ensures GateIn(prog, x, Gate(base, next, end), base, end)
  {
  }

  // ----- what is found at the gate -----

  /** Whatever was seen on the way to it from `lo` on, the split is worth ending right here. */
  ghost predicate Stops(prog: seq<Inst>, input: seq<Byte>, pos: nat, at: nat, lo: nat)
    requires WellFormedProgram(prog) && pos <= |input| && at < |prog|
  {
    forall avoid: set<nat> {:trigger WorthAvoiding(prog, input, at, pos, avoid)} ::
      (forall q: nat :: q in avoid ==> lo <= q < at) ==> WorthAvoiding(prog, input, at, pos, avoid) == Some(pos)
  }

  lemma StopsAt(prog: seq<Inst>, input: seq<Byte>, pos: nat, at: nat, lo: nat, avoid: set<nat>)
    requires WellFormedProgram(prog) && pos <= |input| && at < |prog| && Stops(prog, input, pos, at, lo)
    requires forall q: nat :: q in avoid ==> lo <= q < at
    ensures WorthAvoiding(prog, input, at, pos, avoid) == Some(pos)
  {
  }

  /** What the instructions of the set outside the stretch lead to is in the set too. */
  ghost predicate ClosedOutside(prog: seq<Inst>, mode: Mode, seen: set<nat>, lo: nat, hi: nat)
    requires WellFormedProgram(prog)
  {
    forall pc: nat, q: nat {:trigger Leads(prog, mode, pc, q)} ::
      pc in seen && !(lo <= pc < hi) && Leads(prog, mode, pc, q) ==> q in seen
  }

  lemma OutsideIn(prog: seq<Inst>, mode: Mode, seen: set<nat>, lo: nat, hi: nat, lo': nat, hi': nat)
    requires WellFormedProgram(prog) && ClosedOutside(prog, mode, seen, lo, hi) && (hi <= lo' || hi' <= lo)
    ensures ClosedIn(prog, mode, seen, lo', hi')
  {
  }

  /** From behind the gate the end of the program is reached without coming back to `[lo, gate]`. */
  ghost predicate Returns(prog: seq<Inst>, mode: Mode, at: nat, lo: nat)
    requires WellFormedProgram(prog)
  {
    forall seen: set<nat> {:trigger ClosedOutside(prog, mode, seen, lo, at + 1)} ::
      ClosedOutside(prog, mode, seen, lo, at + 1) && at + 1 in seen ==> |prog| - 1 in seen
  }

  /** Among instructions that fail or end here, one that ends here decides. */
  lemma {:induction false} EndsHere(prog: seq<Inst>, input: seq<Byte>, pos: nat, list: seq<nat>, last: nat)
    requires WellFormedProgram(prog) && pos <= |input| && InProg(prog, list)
    requires forall k :: 0 <= k < |list| ==> WorthOf(prog, input, list[k], pos).None? || list[k] == last
    requires last in list && WorthOf(prog, input, last, pos) == Some(pos)
    ensures Worth(prog, input, list, pos) == Some(pos)
  {
    hide WorthOf;
    if list[0] != last {
      EndsHere(prog, input, pos, list[1..], last);
    }
  }

  /** With the gate on the way, the code it guards is not seen. */
  lemma GuardedOut(prog: seq<Inst>, mode: Mode, g: Gate, root: nat, avoid: set<nat>)
    requires WellFormedProgram(prog) && mode.At? && Guarded(prog, g) && g.at in avoid && root < |prog|
    requires !(g.next <= root < g.end) && !(g.next <= g.at < g.end)
    ensures forall q: nat :: q in Visit(prog, mode, [root], avoid).seen && q !in avoid ==> !(g.next <= q < g.end)
  {
    hide Visit;
    var out := set q | q in AllPcs(prog) && !(g.next <= q < g.end) && q != g.at;
    forall pc: nat, q: nat {:trigger Leads(prog, mode, pc, q)} | pc in out && Leads(prog, mode, pc, q)
      ensures q in avoid + out
    {
      AnywhereLeads(prog, mode, pc, q);
      LeadsInside(prog, mode, pc, q);
    }
    VisitStaysInside(prog, mode, [root], avoid, out);
  }

  /** In a program that is idle but for the code behind the gate, the gate is worth ending here. */
  lemma GateStops(prog: seq<Inst>, input: seq<Byte>, pos: nat, g: Gate, lo: nat)
    requires WellFormedProgram(prog) && pos <= |input| && lo <= g.at
    requires GateIn(prog, NextByte(input, pos), g, 0, |prog| - 1) && Returns(prog, ModeAt(input, pos), g.at, lo)
    ensures Stops(prog, input, pos, g.at, lo)
  {
    hide Visit, Returns, Worth, WorthOf;
    forall avoid: set<nat> {:trigger WorthAvoiding(prog, input, g.at, pos, avoid)} |
      forall q: nat :: q in avoid ==> lo <= q < g.at
      ensures WorthAvoiding(prog, input, g.at, pos, avoid) == Some(pos)
    {
      GateArm(prog, input, pos, g, lo, avoid);
      SplitAvoiding(prog, input, g.at, g.at + 1, g.next, pos, avoid);
    }
  }

  lemma GateArm(prog: seq<Inst>, input: seq<Byte>, pos: nat, g: Gate, lo: nat, avoid: set<nat>)
    requires WellFormedProgram(prog) && pos <= |input| && lo <= g.at && g.at + 1 < |prog|
    requires GateIn(prog, NextByte(input, pos), g, 0, |prog| - 1) && Returns(prog, ModeAt(input, pos), g.at, lo)
    requires forall q: nat :: q in avoid ==> lo <= q < g.at
    ensures WorthAvoiding(prog, input, g.at + 1, pos, avoid + {g.at}) == Some(pos)
  {
    hide Visit, Worth, WorthOf, IsIdle, Guarded, WellFormedProgram;
    var mode, last, blocked := ModeAt(input, pos), |prog| - 1, avoid + {g.at};
    var v := Visit(prog, mode, [g.at + 1], blocked);
    ArmClosed(prog, mode, g.at, lo, avoid);
    assert last in v.seen;
    GuardedOut(prog, mode, g, g.at + 1, blocked);
    ListedSeen(prog, mode, [g.at + 1], blocked);
    MatchReady(prog, input, pos);
    ReadyListed(prog, mode, g.at + 1, blocked);
    forall k | 0 <= k < |v.list| ensures WorthOf(prog, input, v.list[k], pos).None? || v.list[k] == last {
      if v.list[k] < g.next {
        IdleWorth(prog, input, pos, 0, g.next, v.list[k]);
      } else if v.list[k] != last {
        IdleWorth(prog, input, pos, g.end, last, v.list[k]);
      }
    }
    EndsHere(prog, input, pos, v.list, last);
  }

  lemma MatchReady(prog: seq<Inst>, input: seq<Byte>, pos: nat)
    requires WellFormedProgram(prog) && pos <= |input|
    ensures Ready(prog, ModeAt(input, pos), |prog| - 1) && WorthOf(prog, input, |prog| - 1, pos) == Some(pos)
  {
  }

  lemma ArmClosed(prog: seq<Inst>, mode: Mode, at: nat, lo: nat, avoid: set<nat>)
    requires WellFormedProgram(prog) && at + 1 < |prog| && forall q: nat :: q in avoid ==> lo <= q < at
    requires lo <= at
    ensures var seen := Visit(prog, mode, [at + 1], avoid + {at}).seen;
            at + 1 in seen && ClosedOutside(prog, mode, seen, lo, at + 1)
  {
    hide Visit;
    VisitCloses(prog, mode, at + 1, avoid + {at});
  }

  // ----- on the way to the gate -----

  /** A pattern that ends early, entered in an otherwise idle place, is worth ending here. */
  lemma {:induction false} LatePrefix(prog: seq<Inst>, input: seq<Byte>, n: Node, b: ByteClass, base: nat, pos: nat,
                                      lo: nat, avoid: set<nat>)
    requires WellFormedProgram(prog) && !Last(n) && WellFormed(n) && !HasAnchors(n) && pos <= |input|
    requires Placed(prog, Late(n, b), base) && base + Size(Late(n, b)) < |prog|
    requires LateGate(n, b, base).at < |prog| && Stops(prog, input, pos, LateGate(n, b, base).at, lo)
    requires lo <= base <= LateGate(n, b, base).at && forall q: nat :: q in avoid ==> lo <= q < base
    ensures WorthAvoiding(prog, input, base, pos, avoid) == Some(pos)
    decreases n, 0
  {
    hide WellFormedProgram, Stops, WorthAvoiding, SeqPlaced, AltPlaced, PartsGate, BranchesGate, LateParts, LateBranches, SeqSize, AltSize;
    if n.Concat? {
      PartsPrefix(prog, input, n.parts, b, base, pos, lo, avoid);
    } else if n.Alt? {
      BranchesPrefix(prog, input, n.branches, b, base, base + AltSize(LateBranches(n.branches, b)), pos, lo, avoid);
    } else {
      SplitAvoiding(prog, input, base, base + 1, base + 1 + Size(Late(n.inner, b)), pos, avoid);
      LateGateBase(n.inner, b, base + 1);
      LatePrefix(prog, input, n.inner, b, base + 1, pos, lo, avoid + {base});
    }
  }

  lemma {:induction false} PartsPrefix(prog: seq<Inst>, input: seq<Byte>, parts: seq<Node>, b: ByteClass, base: nat, pos: nat,
                                       lo: nat, avoid: set<nat>)
    requires WellFormedProgram(prog) && !AllLast(parts) && AllNullable(parts) && pos <= |input|
    requires AllWellFormed(parts) && !AnyHasAnchors(parts)
    requires SeqPlaced(prog, LateParts(parts, b), base) && base + SeqSize(LateParts(parts, b)) < |prog|
    requires PartsGate(parts, b, base).at < |prog| && Stops(prog, input, pos, PartsGate(parts, b, base).at, lo)
    requires lo <= base <= PartsGate(parts, b, base).at && forall q: nat :: q in avoid ==> lo <= q < base
    ensures WorthAvoiding(prog, input, base, pos, avoid) == Some(pos)
    decreases parts, 0
  {
    hide WellFormedProgram, Stops, WorthAvoiding, Late, LateGate, Erase, Placed;
    var rest := parts[1..];
    if !Last(parts[0]) {
      ConsSeq(Late(parts[0], b), EraseAll(rest));
      LatePrefix(prog, input, parts[0], b, base, pos, lo, avoid);
    } else {
      ConsSeq(Erase(parts[0]), LateParts(rest, b));
      EraseFacts(parts[0], NextByte(input, pos));
      IdlePass(prog, input, Erase(parts[0]), base, pos, avoid);
      var mid := base + Size(Erase(parts[0]));
      PartsGateBase(rest, b, mid);
      PartsPrefix(prog, input, rest, b, mid, pos, lo, avoid);
    }
  }

  lemma EraseFacts(n: Node, x: Option<Byte>)
    ensures Nullable(Erase(n)) == Nullable(n) && HasAnchors(Erase(n)) == HasAnchors(n) && WellFormed(Erase(n)) == WellFormed(n)
    ensures Rejects(Erase(n), x)
  {
    FillKeeps(n, NoByte());
    FillRejects(n, NoByte(), x);
  }

  lemma {:induction false} BranchesPrefix(prog: seq<Inst>, input: seq<Byte>, branches: seq<Node>, b: ByteClass,
                                          base: nat, end: nat, pos: nat, lo: nat, avoid: set<nat>)
    requires WellFormedProgram(prog) && !LastBranches(branches) && pos <= |input|
    requires AllWellFormed(branches) && !AnyHasAnchors(branches)
    requires AltPlaced(prog, LateBranches(branches, b), base, end) && end == base + AltSize(LateBranches(branches, b)) < |prog|
    requires BranchesGate(branches, b, base, end).at < |prog|
    requires Stops(prog, input, pos, BranchesGate(branches, b, base, end).at, lo)
    requires lo <= base <= BranchesGate(branches, b, base, end).at && forall q: nat :: q in avoid ==> lo <= q < base
    ensures WorthAvoiding(prog, input, base, pos, avoid) == Some(pos)
    decreases branches, 1
  {
    hide WellFormedProgram, Stops, WorthAvoiding, Late, LateGate, Erase, Placed;
    if EndsEarly(branches) {
      StopsAt(prog, input, pos, base, lo, avoid);
    } else if Nullable(branches[0]) && !Last(branches[0]) {
      PrefixFirst(prog, input, branches, b, base, end, pos, lo, avoid);
    } else {
      PrefixRest(prog, input, branches, b, base, end, pos, lo, avoid);
    }
  }

  lemma {:induction false} PrefixFirst(prog: seq<Inst>, input: seq<Byte>, branches: seq<Node>, b: ByteClass,
                                       base: nat, end: nat, pos: nat, lo: nat, avoid: set<nat>)
    requires WellFormedProgram(prog) && !LastBranches(branches) && pos <= |input|
    requires AllWellFormed(branches) && !AnyHasAnchors(branches)
    requires !EndsEarly(branches) && Nullable(branches[0]) && !Last(branches[0])
    requires AltPlaced(prog, LateBranches(branches, b), base, end) && end == base + AltSize(LateBranches(branches, b)) < |prog|
    requires BranchesGate(branches, b, base, end).at < |prog|
    requires Stops(prog, input, pos, BranchesGate(branches, b, base, end).at, lo)
    requires lo <= base <= BranchesGate(branches, b, base, end).at && forall q: nat :: q in avoid ==> lo <= q < base
    ensures WorthAvoiding(prog, input, base, pos, avoid) == Some(pos)
    decreases branches, 0
  {
    hide WellFormedProgram, Stops, WorthAvoiding, Late, LateGate, Erase, Placed;
    ConsSeq(Late(branches[0], b), EraseAll(branches[1..]));
    if |branches| == 1 {
      LatePrefix(prog, input, branches[0], b, base, pos, lo, avoid);
    } else {
      SplitAvoiding(prog, input, base, base + 1, base + Size(Late(branches[0], b)) + 2, pos, avoid);
      LateGateBase(branches[0], b, base + 1);
      LatePrefix(prog, input, branches[0], b, base + 1, pos, lo, avoid + {base});
    }
  }

  lemma {:induction false} PrefixRest(prog: seq<Inst>, input: seq<Byte>, branches: seq<Node>, b: ByteClass,
                                      base: nat, end: nat, pos: nat, lo: nat, avoid: set<nat>)
    requires WellFormedProgram(prog) && !LastBranches(branches) && pos <= |input|
    requires AllWellFormed(branches) && !AnyHasAnchors(branches)
    requires !EndsEarly(branches) && !(Nullable(branches[0]) && !Last(branches[0]))
    requires AltPlaced(prog, LateBranches(branches, b), base, end) && end == base + AltSize(LateBranches(branches, b)) < |prog|
    requires BranchesGate(branches, b, base, end).at < |prog|
    requires Stops(prog, input, pos, BranchesGate(branches, b, base, end).at, lo)
    requires lo <= base <= BranchesGate(branches, b, base, end).at && forall q: nat :: q in avoid ==> lo <= q < base
    ensures WorthAvoiding(prog, input, base, pos, avoid) == Some(pos)
    decreases branches, 0
  {
    hide WellFormedProgram, Stops, WorthAvoiding, Late, LateGate, Erase, Placed;
    var rest := branches[1..];
    NotLastBranchHasByte(branches);
    ConsSeq(Erase(branches[0]), LateBranches(rest, b));
    var next := base + Size(Erase(branches[0])) + 2;
    SplitAvoiding(prog, input, base, base + 1, next, pos, avoid);
    EraseFacts(branches[0], NextByte(input, pos));
    IdleStuck(prog, input, Erase(branches[0]), base + 1, pos, avoid + {base});
    BranchesGateBase(rest, b, next, end);
    BranchesPrefix(prog, input, rest, b, next, end, pos, lo, avoid);
  }

  lemma {:induction false} LateGateBase(n: Node, b: ByteClass, base: nat)
    requires !Last(n)
    ensures base <= LateGate(n, b, base).at
    decreases n, 0
  {
    if n.Concat? {
      PartsGateBase(n.parts, b, base);
    } else if n.Alt? {
      BranchesGateBase(n.branches, b, base, base + AltSize(LateBranches(n.branches, b)));
    } else {
      LateGateBase(n.inner, b, base + 1);
    }
  }

  lemma {:induction false} PartsGateBase(parts: seq<Node>, b: ByteClass, base: nat)
    requires !AllLast(parts)
    ensures base <= PartsGate(parts, b, base).at
    decreases parts, 0
  {
    if !Last(parts[0]) {
      LateGateBase(parts[0], b, base);
    } else {
      PartsGateBase(parts[1..], b, base + Size(Erase(parts[0])));
    }
  }

  lemma {:induction false} BranchesGateBase(branches: seq<Node>, b: ByteClass, base: nat, end: nat)
    requires !LastBranches(branches)
    ensures base <= BranchesGate(branches, b, base, end).at
    decreases branches, 0
  {
    if !EndsEarly(branches) {
      if Nullable(branches[0]) && !Last(branches[0]) {
        LateGateBase(branches[0], b, if |branches| == 1 then base else base + 1);
      } else {
        BranchesGateBase(branches[1..], b, base + Size(Erase(branches[0])) + 2, end);
      }
    }
  }

  // ----- from the gate on -----

  /** From behind the gate the end of the pattern is reached without the gate. */
  lemma {:induction false} LateReturn(prog: seq<Inst>, mode: Mode, n: Node, b: ByteClass, base: nat, seen: set<nat>)
    requires WellFormedProgram(prog) && !Last(n) && !HasAnchors(n)
    requires Placed(prog, Late(n, b), base)
    requires LateGate(n, b, base).at + 1 in seen
    requires ClosedIn(prog, mode, seen, LateGate(n, b, base).at + 1, base + Size(Late(n, b)))
    ensures base + Size(Late(n, b)) in seen
    decreases n, 1
  {
    hide WellFormedProgram, ClosedIn, Placed, Late, LateGate, Size, HasAnchors;
    assert n.Concat? || n.Alt? || n.Quest?;
    if n.Concat? {
      ConcatReturn(prog, mode, n, b, base, seen);
    } else if n.Alt? {
      AltReturn(prog, mode, n, b, base, seen);
    } else {
      LateQuest(n, b, base);
      QuestPlaced(prog, Late(n.inner, b), base);
      LateReturn(prog, mode, n.inner, b, base + 1, seen);
    }
  }

  lemma {:induction false} ConcatReturn(prog: seq<Inst>, mode: Mode, n: Node, b: ByteClass, base: nat, seen: set<nat>)
    requires WellFormedProgram(prog) && !Last(n) && !HasAnchors(n) && n.Concat?
    requires Placed(prog, Late(n, b), base)
    requires LateGate(n, b, base).at + 1 in seen
    requires ClosedIn(prog, mode, seen, LateGate(n, b, base).at + 1, base + Size(Late(n, b)))
    ensures base + Size(Late(n, b)) in seen
    decreases n, 0
  {
    hide WellFormedProgram, ClosedIn, SeqPlaced, PartsGate, LateParts;
    PartsReturn(prog, mode, n.parts, b, base, seen);
  }

  lemma {:induction false} AltReturn(prog: seq<Inst>, mode: Mode, n: Node, b: ByteClass, base: nat, seen: set<nat>)
    requires WellFormedProgram(prog) && !Last(n) && !HasAnchors(n) && n.Alt?
    requires Placed(prog, Late(n, b), base)
    requires LateGate(n, b, base).at + 1 in seen
    requires ClosedIn(prog, mode, seen, LateGate(n, b, base).at + 1, base + Size(Late(n, b)))
    ensures base + Size(Late(n, b)) in seen
    decreases n, 0
  {
    hide WellFormedProgram, ClosedIn, AltPlaced, BranchesGate, LateBranches;
    BranchesReturn(prog, mode, n.branches, b, base, base + AltSize(LateBranches(n.branches, b)), seen);
  }

  lemma LateQuest(n: Node, b: ByteClass, base: nat)
    requires !Last(n) && n.Quest?
    ensures !Last(n.inner) && Late(n, b) == Quest(Late(n.inner, b)) && HasAnchors(n) == HasAnchors(n.inner)
    ensures LateGate(n, b, base) == LateGate(n.inner, b, base + 1)
  {
  }

  lemma QuestPlaced(prog: seq<Inst>, inner: Node, base: nat)
    requires Placed(prog, Quest(inner), base)
    ensures Placed(prog, inner, base + 1) && Size(Quest(inner)) == Size(inner) + 1
  {
  }

  lemma {:induction false} PartsReturn(prog: seq<Inst>, mode: Mode, parts: seq<Node>, b: ByteClass, base: nat, seen: set<nat>)
    requires WellFormedProgram(prog) && !AllLast(parts) && AllNullable(parts) && !AnyHasAnchors(parts)
    requires SeqPlaced(prog, LateParts(parts, b), base)
    requires PartsGate(parts, b, base).at + 1 in seen
    requires ClosedIn(prog, mode, seen, PartsGate(parts, b, base).at + 1, base + SeqSize(LateParts(parts, b)))
    ensures base + SeqSize(LateParts(parts, b)) in seen
    decreases parts, 0
  {
    hide WellFormedProgram, ClosedIn, Late, LateGate, Erase, Placed;
    var rest, end := parts[1..], base + SeqSize(LateParts(parts, b));
    if !Last(parts[0]) {
      ConsSeq(Late(parts[0], b), EraseAll(rest));
      var from, mid := LateGate(parts[0], b, base).at + 1, base + Size(Late(parts[0], b));
      ClosedInside(prog, mode, seen, from, end, from, mid);
      LateReturn(prog, mode, parts[0], b, base, seen);
      FillAllKeeps(rest, NoByte());
      LateGateEnd(parts[0], b, base);
      ClosedInside(prog, mode, seen, from, end, mid, end);
      NullPassSeq(prog, mode, EraseAll(rest), mid, seen);
    } else {
      ConsSeq(Erase(parts[0]), LateParts(rest, b));
      PartsReturn(prog, mode, rest, b, base + Size(Erase(parts[0])), seen);
    }
  }

  lemma {:induction false} BranchesReturn(prog: seq<Inst>, mode: Mode, branches: seq<Node>, b: ByteClass, base: nat, end: nat,
                                          seen: set<nat>)
    requires WellFormedProgram(prog) && !LastBranches(branches) && !AnyHasAnchors(branches)
    requires AltPlaced(prog, LateBranches(branches, b), base, end) && end == base + AltSize(LateBranches(branches, b))
    requires BranchesGate(branches, b, base, end).at + 1 in seen
    requires ClosedIn(prog, mode, seen, BranchesGate(branches, b, base, end).at + 1, end)
    ensures end in seen
    decreases branches, 1
  {
    hide WellFormedProgram, ClosedIn, AltPlaced, LateBranches, BranchesGate, AltSize, EndsEarly, Last, Nullable, AnyHasAnchors;
    if EndsEarly(branches) {
      EarlyReturn(prog, mode, branches, b, base, end, seen);
    } else if Nullable(branches[0]) && !Last(branches[0]) {
      ReturnFirst(prog, mode, branches, b, base, end, seen);
    } else {
      ReturnRest(prog, mode, branches, b, base, end, seen);
    }
  }

  lemma {:induction false} EarlyReturn(prog: seq<Inst>, mode: Mode, branches: seq<Node>, b: ByteClass, base: nat, end: nat,
                                       seen: set<nat>)
    requires WellFormedProgram(prog) && !LastBranches(branches) && !AnyHasAnchors(branches)
    requires EndsEarly(branches)
    requires AltPlaced(prog, LateBranches(branches, b), base, end) && end == base + AltSize(LateBranches(branches, b))
    requires BranchesGate(branches, b, base, end).at + 1 in seen
    requires ClosedIn(prog, mode, seen, BranchesGate(branches, b, base, end).at + 1, end)
    ensures end in seen
    decreases branches, 0
  {
    hide WellFormedProgram, ClosedIn, Late, LateGate, Erase, Placed;
    var rest := branches[1..];
    ConsSeq(Erase(branches[0]), FillAll(rest, b));
    var next := base + Size(Erase(branches[0])) + 2;
    EraseFacts(branches[0], None);
    ClosedInside(prog, mode, seen, base + 1, end, base + 1, next - 1);
    NullPass(prog, mode, Erase(branches[0]), base + 1, seen);
    ClosedJmp(prog, mode, seen, base + 1, end, next - 1, end);
  }

  lemma {:induction false} ReturnFirst(prog: seq<Inst>, mode: Mode, branches: seq<Node>, b: ByteClass, base: nat, end: nat,
                                       seen: set<nat>)
    requires WellFormedProgram(prog) && !LastBranches(branches) && !AnyHasAnchors(branches)
    requires !EndsEarly(branches) && Nullable(branches[0]) && !Last(branches[0])
    requires AltPlaced(prog, LateBranches(branches, b), base, end) && end == base + AltSize(LateBranches(branches, b))
    requires BranchesGate(branches, b, base, end).at + 1 in seen
    requires ClosedIn(prog, mode, seen, BranchesGate(branches, b, base, end).at + 1, end)
    ensures end in seen
    decreases branches, 0
  {
    hide WellFormedProgram, ClosedIn, Late, LateGate, Erase, Placed;
    var rest := branches[1..];
    ConsSeq(Late(branches[0], b), EraseAll(rest));
    if |branches| == 1 {
      LateReturn(prog, mode, branches[0], b, base, seen);
    } else {
      var from, next := LateGate(branches[0], b, base + 1).at + 1, base + Size(Late(branches[0], b)) + 2;
      LateGateEnd(branches[0], b, base + 1);
      ClosedInside(prog, mode, seen, from, end, from, next - 1);
      LateReturn(prog, mode, branches[0], b, base + 1, seen);
      ClosedJmp(prog, mode, seen, from, end, next - 1, end);
    }
  }

  lemma {:induction false} ReturnRest(prog: seq<Inst>, mode: Mode, branches: seq<Node>, b: ByteClass, base: nat, end: nat,
                                      seen: set<nat>)
    requires WellFormedProgram(prog) && !LastBranches(branches) && !AnyHasAnchors(branches)
    requires !EndsEarly(branches) && !(Nullable(branches[0]) && !Last(branches[0]))
    requires AltPlaced(prog, LateBranches(branches, b), base, end) && end == base + AltSize(LateBranches(branches, b))
    requires BranchesGate(branches, b, base, end).at + 1 in seen
    requires ClosedIn(prog, mode, seen, BranchesGate(branches, b, base, end).at + 1, end)
    ensures end in seen
    decreases branches, 0
  {
    hide WellFormedProgram, ClosedIn, Late, LateGate, Erase, Placed;
    NotLastBranchHasByte(branches);
    ConsSeq(Erase(branches[0]), LateBranches(branches[1..], b));
    BranchesReturn(prog, mode, branches[1..], b, base + Size(Erase(branches[0])) + 2, end, seen);
  }

  lemma {:induction false} LateGateEnd(n: Node, b: ByteClass, base: nat)
    requires !Last(n)
    ensures LateGate(n, b, base).at < base + Size(Late(n, b))
    decreases n, 0
  {
    if n.Concat? {
      PartsGateEnd(n.parts, b, base);
    } else if n.Alt? {
      BranchesGateEnd(n.branches, b, base, base + AltSize(LateBranches(n.branches, b)));
    } else {
      LateGateEnd(n.inner, b, base + 1);
    }
  }

  lemma {:induction false} PartsGateEnd(parts: seq<Node>, b: ByteClass, base: nat)
    requires !AllLast(parts)
    ensures PartsGate(parts, b, base).at < base + SeqSize(LateParts(parts, b))
    decreases parts, 0
  {
    hide Late, LateGate, Erase;
    if !Last(parts[0]) {
      ConsSeq(Late(parts[0], b), EraseAll(parts[1..]));
      LateGateEnd(parts[0], b, base);
    } else {
      ConsSeq(Erase(parts[0]), LateParts(parts[1..], b));
      PartsGateEnd(parts[1..], b, base + Size(Erase(parts[0])));
    }
  }

  lemma {:induction false} BranchesGateEnd(branches: seq<Node>, b: ByteClass, base: nat, end: nat)
    requires !LastBranches(branches) && end == base + AltSize(LateBranches(branches, b))
    ensures BranchesGate(branches, b, base, end).at < end
    decreases branches, 0
  {
    hide Late, LateGate, Erase;
    if EndsEarly(branches) {
      ConsSeq(Erase(branches[0]), FillAll(branches[1..], b));
    } else if Nullable(branches[0]) && !Last(branches[0]) {
      ConsSeq(Late(branches[0], b), EraseAll(branches[1..]));
      LateGateEnd(branches[0], b, if |branches| == 1 then base else base + 1);
    } else {
      NotLastBranchHasByte(branches);
      ConsSeq(Erase(branches[0]), LateBranches(branches[1..], b));
      BranchesGateEnd(branches[1..], b, base + Size(Erase(branches[0])) + 2, end);
    }
  }
}

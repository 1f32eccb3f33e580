/**
 In a loop body that ends early after a byte: where the byte is consumed.

 From there the machine comes to the gate, and behind the gate it leaves the loop. For the
 byte itself everything else is idle.
 */
module Spots {
  import opened Wrappers
  import opened Ast
  import opened Syntax
  import opened Semantics
  import opened Program
  import opened Paths
  import opened Closure
  import opened Threads
  import opened Epsilon
  import opened Sealed
  import opened Blocked
  import opened Tail
  import opened TailVisits
  import opened Paint
  import opened Idle
  import opened Gates

  /** The stretch whose bytes accept `a`, and the gate behind it. */
  datatype Spot = Spot(lo: nat, mid: nat, gate: Gate)

  const NO_SPOT := Spot(0, 0, NO_GATE)

  ghost function MixedSpot(n: Node, a: ByteClass, b: ByteClass, base: nat): Spot
    requires !Front(n)
    decreases n
  {
    match n
    case Concat(parts) => PartsSpot(parts, a, b, base)
    case Alt(branches) => BranchesSpot(branches, a, b, base)
    case Quest(inner) => MixedSpot(inner, a, b, base + 1)
    case _ => NO_SPOT
  }

  ghost function PartsSpot(parts: seq<Node>, a: ByteClass, b: ByteClass, base: nat): Spot
    requires !FrontParts(parts)
    decreases parts
  {
    if !Front(parts[0]) then MixedSpot(parts[0], a, b, base)
    else if HasByte(parts[0]) then
      var mid := base + Size(Fill(parts[0], a));
      Spot(base, mid, PartsGate(parts[1..], b, mid))
    else PartsSpot(parts[1..], a, b, base + Size(Erase(parts[0])))
  }

  ghost function BranchesSpot(branches: seq<Node>, a: ByteClass, b: ByteClass, base: nat): Spot
    requires !AllFront(branches)
    decreases branches
  {
    if !Front(branches[0]) then MixedSpot(branches[0], a, b, if |branches| == 1 then base else base + 1)
    else BranchesSpot(branches[1..], a, b, base + Size(Erase(branches[0])) + 2)
  }

  /** Spot and gate lie in the stretch; for a byte that only `b` accepts it is idle but for the code behind the gate. */
  ghost predicate SpotIn(prog: seq<Inst>, x: Option<Byte>, s: Spot, base: nat, end: nat)
    requires WellFormedProgram(prog)
  {
    && base <= s.lo <= s.mid <= s.gate.at
    && GateIn(prog, x, s.gate, base, end)
    && Stays(prog, s.lo, s.mid)
  }

  lemma SpotWider(prog: seq<Inst>, x: Option<Byte>, s: Spot, base: nat, end: nat, lo: nat, hi: nat)
    requires WellFormedProgram(prog) && SpotIn(prog, x, s, base, end) && lo <= base && end <= hi
    requires IsIdle(prog, x, lo, base) && IsIdle(prog, x, end, hi)
    ensures SpotIn(prog, x, s, lo, hi)
  {
    hide GateIn;
    GateWider(prog, x, s.gate, base, end, lo, hi);
  }

  lemma BranchSpotWider(prog: seq<Inst>, x: Option<Byte>, s: Spot, base: nat, next: nat, end: nat)
    requires WellFormedProgram(prog) && base + 2 <= next <= end < |prog| && SpotIn(prog, x, s, base + 1, next - 1)
    requires prog[base].Split? && prog[next - 1].Jmp? && IsIdle(prog, x, next, end)
    ensures SpotIn(prog, x, s, base, end)
  {
    hide GateIn;
    BranchGateWider(prog, x, s.gate, base, next, end);
  }

  lemma {:induction false} MixedSpotIn(prog: seq<Inst>, x: Option<Byte>, n: Node, a: ByteClass, b: ByteClass, base: nat)
    requires WellFormedProgram(prog) && !Front(n) && (x.Some? ==> !a[x.value])
    requires Placed(prog, Mixed(n, a, b), base) && IsSealed(prog, Mixed(n, a, b), base)
    requires base + Size(Mixed(n, a, b)) < |prog|
    ensures SpotIn(prog, x, MixedSpot(n, a, b, base), base, base + Size(Mixed(n, a, b)))
    decreases n, 1
  {
    hide SpotIn, WellFormedProgram, Placed, IsSealed, Mixed, MixedSpot, Size;
    assert n.Concat? || n.Alt? || n.Quest?;
    if n.Concat? {
      ConcatSpotIn(prog, x, n, a, b, base);
    } else if n.Alt? {
      AltSpotIn(prog, x, n, a, b, base);
    } else {
      QuestSpotIn(prog, x, n, a, b, base);
    }
  }

  lemma {:induction false} ConcatSpotIn(prog: seq<Inst>, x: Option<Byte>, n: Node, a: ByteClass, b: ByteClass, base: nat)
    requires WellFormedProgram(prog) && !Front(n) && (x.Some? ==> !a[x.value]) && n.Concat?
    requires Placed(prog, Mixed(n, a, b), base) && IsSealed(prog, Mixed(n, a, b), base)
    requires base + Size(Mixed(n, a, b)) < |prog|
    ensures SpotIn(prog, x, MixedSpot(n, a, b, base), base, base + Size(Mixed(n, a, b)))
    decreases n, 0
  {
    hide SpotIn, Entered, WellFormedProgram, SeqPlaced, SeqSealed, PartsSpot, MixedParts;
    PartsSpotIn(prog, x, n.parts, a, b, base);
  }

  lemma {:induction false} AltSpotIn(prog: seq<Inst>, x: Option<Byte>, n: Node, a: ByteClass, b: ByteClass, base: nat)
    requires WellFormedProgram(prog) && !Front(n) && (x.Some? ==> !a[x.value]) && n.Alt?
    requires Placed(prog, Mixed(n, a, b), base) && IsSealed(prog, Mixed(n, a, b), base)
    requires base + Size(Mixed(n, a, b)) < |prog|
    ensures SpotIn(prog, x, MixedSpot(n, a, b, base), base, base + Size(Mixed(n, a, b)))
    decreases n, 0
  {
    hide SpotIn, Entered, WellFormedProgram, AltPlaced, AltSealed, BranchesSpot, MixedBranches;
    BranchesSpotIn(prog, x, n.branches, a, b, base, base + AltSize(MixedBranches(n.branches, a, b)));
  }

  lemma {:induction false} QuestSpotIn(prog: seq<Inst>, x: Option<Byte>, n: Node, a: ByteClass, b: ByteClass, base: nat)
    requires WellFormedProgram(prog) && !Front(n) && (x.Some? ==> !a[x.value]) && n.Quest?
    requires Placed(prog, Mixed(n, a, b), base) && IsSealed(prog, Mixed(n, a, b), base)
    requires base + Size(Mixed(n, a, b)) < |prog|
    ensures SpotIn(prog, x, MixedSpot(n, a, b, base), base, base + Size(Mixed(n, a, b)))
    decreases n, 0
  {
    hide SpotIn, IsIdle, Entered, WellFormedProgram;
    var end := base + 1 + Size(Mixed(n.inner, a, b));
    MixedSpotIn(prog, x, n.inner, a, b, base + 1);
    IdleOne(prog, x, base);
    IdleNone(prog, x, end);
    SpotWider(prog, x, MixedSpot(n.inner, a, b, base + 1), base + 1, end, base, end);
  }

  lemma {:induction false} PartsSpotIn(prog: seq<Inst>, x: Option<Byte>, parts: seq<Node>, a: ByteClass, b: ByteClass, base: nat)
    requires WellFormedProgram(prog) && !FrontParts(parts) && (x.Some? ==> !a[x.value])
    requires SeqPlaced(prog, MixedParts(parts, a, b), base) && SeqSealed(prog, MixedParts(parts, a, b), base)
    requires base + SeqSize(MixedParts(parts, a, b)) < |prog|
    ensures SpotIn(prog, x, PartsSpot(parts, a, b, base), base, base + SeqSize(MixedParts(parts, a, b)))
    decreases parts, 0
  {
    hide SpotIn, IsIdle, Entered, WellFormedProgram, Mixed, MixedSpot, Erase, Fill, HasByte, Placed, IsSealed, LateParts;
    var rest, end := parts[1..], base + SeqSize(MixedParts(parts, a, b));
    IdleNone(prog, x, base);
    IdleNone(prog, x, end);
    if !Front(parts[0]) {
      ConsSeq(Mixed(parts[0], a, b), EraseAll(rest));
      var mid := base + Size(Mixed(parts[0], a, b));
      MixedSpotIn(prog, x, parts[0], a, b, base);
      FillAllReject(rest, NoByte(), x);
      SeqIdle(prog, x, EraseAll(rest), mid);
      SpotWider(prog, x, MixedSpot(parts[0], a, b, base), base, mid, base, end);
    } else if HasByte(parts[0]) {
      ConsSeq(Fill(parts[0], a), LateParts(rest, b));
      var mid := base + Size(Fill(parts[0], a));
      PartsGateIn(prog, x, rest, b, mid);
      HereSpot(prog, x, parts[0], a, PartsGate(rest, b, mid), base, mid, end);
    } else {
      ConsSeq(Erase(parts[0]), MixedParts(rest, a, b));
      var mid := base + Size(Erase(parts[0]));
      EraseIdle(prog, x, parts[0], base);
      PartsSpotIn(prog, x, rest, a, b, mid);
      SpotWider(prog, x, PartsSpot(rest, a, b, mid), mid, end, base, end);
    }
  }

  lemma HereSpot(prog: seq<Inst>, x: Option<Byte>, n: Node, a: ByteClass, g: Gate, base: nat, mid: nat, end: nat)
    requires WellFormedProgram(prog) && (x.Some? ==> !a[x.value])
    requires Placed(prog, Fill(n, a), base) && mid == base + Size(Fill(n, a)) && GateIn(prog, x, g, mid, end)
    ensures SpotIn(prog, x, Spot(base, mid, g), base, end)
  {
    hide IsIdle, Stays, Placed, Fill, Guarded;
    FragmentStays(prog, Fill(n, a), base);
    FillRejects(n, a, x);
    FragmentIdle(prog, x, Fill(n, a), base);
    IdleNone(prog, x, end);
    GateWider(prog, x, g, mid, end, base, end);
  }

  lemma {:induction false} BranchesSpotIn(prog: seq<Inst>, x: Option<Byte>, branches: seq<Node>, a: ByteClass, b: ByteClass,
                                          base: nat, end: nat)
    requires WellFormedProgram(prog) && !AllFront(branches) && (x.Some? ==> !a[x.value])
    requires AltPlaced(prog, MixedBranches(branches, a, b), base, end) && AltSealed(prog, MixedBranches(branches, a, b), base, end)
    requires end == base + AltSize(MixedBranches(branches, a, b)) < |prog|
    ensures SpotIn(prog, x, BranchesSpot(branches, a, b, base), base, end)
    decreases branches, 1
  {
    hide SpotIn, WellFormedProgram, AltPlaced, AltSealed, MixedBranches, BranchesSpot, AltSize, Front;
    if !Front(branches[0]) {
      SpotInFirst(prog, x, branches, a, b, base, end);
    } else {
      SpotInRest(prog, x, branches, a, b, base, end);
    }
  }

  lemma {:induction false} SpotInFirst(prog: seq<Inst>, x: Option<Byte>, branches: seq<Node>, a: ByteClass, b: ByteClass,
                                       base: nat, end: nat)
    requires WellFormedProgram(prog) && !AllFront(branches) && (x.Some? ==> !a[x.value])
    requires AltPlaced(prog, MixedBranches(branches, a, b), base, end) && AltSealed(prog, MixedBranches(branches, a, b), base, end)
    requires end == base + AltSize(MixedBranches(branches, a, b)) < |prog|
    requires !Front(branches[0])
    ensures SpotIn(prog, x, BranchesSpot(branches, a, b, base), base, end)
    decreases branches, 0
  {
    hide SpotIn, IsIdle, Entered, WellFormedProgram, Mixed, MixedSpot, Erase, Placed, IsSealed;
    var rest := branches[1..];
    ConsSeq(Mixed(branches[0], a, b), EraseAll(rest));
    if |branches| == 1 {
      MixedSpotIn(prog, x, branches[0], a, b, base);
    } else {
      var next := base + Size(Mixed(branches[0], a, b)) + 2;
      MixedSpotIn(prog, x, branches[0], a, b, base + 1);
      FillAllReject(rest, NoByte(), x);
      AltIdle(prog, x, EraseAll(rest), next, end);
      BranchSpotWider(prog, x, MixedSpot(branches[0], a, b, base + 1), base, next, end);
    }
  }

  lemma {:induction false} SpotInRest(prog: seq<Inst>, x: Option<Byte>, branches: seq<Node>, a: ByteClass, b: ByteClass,
                                      base: nat, end: nat)
    requires WellFormedProgram(prog) && !AllFront(branches) && (x.Some? ==> !a[x.value])
    requires AltPlaced(prog, MixedBranches(branches, a, b), base, end) && AltSealed(prog, MixedBranches(branches, a, b), base, end)
    requires end == base + AltSize(MixedBranches(branches, a, b)) < |prog|
    requires Front(branches[0])
    ensures SpotIn(prog, x, BranchesSpot(branches, a, b, base), base, end)
    decreases branches, 0
  {
    hide SpotIn, IsIdle, Entered, WellFormedProgram, Mixed, MixedSpot, Erase, Placed, IsSealed;
    var rest := branches[1..];
    ConsSeq(Erase(branches[0]), MixedBranches(rest, a, b));
    var next := base + Size(Erase(branches[0])) + 2;
    EraseIdle(prog, x, branches[0], base + 1);
    BracketIdle(prog, x, base, next);
    BranchesSpotIn(prog, x, rest, a, b, next, end);
    IdleNone(prog, x, end);
    SpotWider(prog, x, BranchesSpot(rest, a, b, next), next, end, base, end);
  }

  // ----- for a byte that only `a` accepts, all but the spot is idle -----

  lemma {:induction false} LateRejects(n: Node, b: ByteClass, x: Option<Byte>)
    requires !Last(n) && (x.Some? ==> !b[x.value])
    ensures Rejects(Late(n, b), x)
    decreases n, 0
  {
    if n.Concat? {
      LatePartsReject(n.parts, b, x);
    } else if n.Alt? {
      LateBranchesReject(n.branches, b, x);
    } else {
      LateRejects(n.inner, b, x);
    }
  }

  lemma {:induction false} LatePartsReject(parts: seq<Node>, b: ByteClass, x: Option<Byte>)
    requires !AllLast(parts) && (x.Some? ==> !b[x.value])
    ensures AllReject(LateParts(parts, b), x)
    decreases parts, 0
  {
    if !Last(parts[0]) {
      LateRejects(parts[0], b, x);
      FillAllReject(parts[1..], NoByte(), x);
      ConsSeq(Late(parts[0], b), EraseAll(parts[1..]));
    } else {
      FillRejects(parts[0], NoByte(), x);
      LatePartsReject(parts[1..], b, x);
      ConsSeq(Erase(parts[0]), LateParts(parts[1..], b));
    }
  }

  lemma {:induction false} LateBranchesReject(branches: seq<Node>, b: ByteClass, x: Option<Byte>)
    requires !LastBranches(branches) && (x.Some? ==> !b[x.value])
    ensures AllReject(LateBranches(branches, b), x)
    decreases branches, 0
  {
    var rest := branches[1..];
    FillRejects(branches[0], NoByte(), x);
    if EndsEarly(branches) {
      FillAllReject(rest, b, x);
      ConsSeq(Erase(branches[0]), FillAll(rest, b));
    } else if Nullable(branches[0]) && !Last(branches[0]) {
      LateRejects(branches[0], b, x);
      FillAllReject(rest, NoByte(), x);
      ConsSeq(Late(branches[0], b), EraseAll(rest));
    } else {
      LateBranchesReject(rest, b, x);
      ConsSeq(Erase(branches[0]), LateBranches(rest, b));
    }
  }

  ghost predicate IdleAround(prog: seq<Inst>, x: Option<Byte>, s: Spot, base: nat, end: nat) {
    base <= s.lo <= s.mid <= end && IsIdle(prog, x, base, s.lo) && IsIdle(prog, x, s.mid, end)
  }

  lemma AroundWider(prog: seq<Inst>, x: Option<Byte>, s: Spot, base: nat, end: nat, lo: nat, hi: nat)
    requires IdleAround(prog, x, s, base, end) && lo <= base && end <= hi
    requires IsIdle(prog, x, lo, base) && IsIdle(prog, x, end, hi)
    ensures IdleAround(prog, x, s, lo, hi)
  {
  }

  lemma BranchAroundWider(prog: seq<Inst>, x: Option<Byte>, s: Spot, base: nat, next: nat, end: nat)
    requires base + 2 <= next <= end < |prog| && IdleAround(prog, x, s, base + 1, next - 1)
    requires prog[base].Split? && prog[next - 1].Jmp? && IsIdle(prog, x, next, end)
    ensures IdleAround(prog, x, s, base, end)
  {
    hide IsIdle;
    IdleOne(prog, x, base);
    IdleOne(prog, x, next - 1);
    IdleJoin(prog, x, next - 1, next, end);
    AroundWider(prog, x, s, base + 1, next - 1, base, end);
  }

  lemma {:induction false} MixedIdleAround(prog: seq<Inst>, x: Option<Byte>, n: Node, a: ByteClass, b: ByteClass, base: nat)
    requires !Front(n) && (x.Some? ==> !b[x.value])
    requires Placed(prog, Mixed(n, a, b), base) && base + Size(Mixed(n, a, b)) < |prog|
    ensures IdleAround(prog, x, MixedSpot(n, a, b, base), base, base + Size(Mixed(n, a, b)))
    decreases n, 0
  {
    hide IdleAround, IsIdle, SeqPlaced, AltPlaced, PartsSpot, BranchesSpot, MixedParts, MixedBranches, SeqSize, AltSize;
    if n.Concat? {
      PartsIdleAround(prog, x, n.parts, a, b, base);
    } else if n.Alt? {
      BranchesIdleAround(prog, x, n.branches, a, b, base, base + AltSize(MixedBranches(n.branches, a, b)));
    } else {
      var end := base + 1 + Size(Mixed(n.inner, a, b));
      MixedIdleAround(prog, x, n.inner, a, b, base + 1);
      IdleOne(prog, x, base);
      IdleNone(prog, x, end);
      AroundWider(prog, x, MixedSpot(n.inner, a, b, base + 1), base + 1, end, base, end);
    }
  }

  lemma {:induction false} PartsIdleAround(prog: seq<Inst>, x: Option<Byte>, parts: seq<Node>, a: ByteClass, b: ByteClass, base: nat)
    requires !FrontParts(parts) && (x.Some? ==> !b[x.value])
    requires SeqPlaced(prog, MixedParts(parts, a, b), base) && base + SeqSize(MixedParts(parts, a, b)) < |prog|
    ensures IdleAround(prog, x, PartsSpot(parts, a, b, base), base, base + SeqSize(MixedParts(parts, a, b)))
    decreases parts, 0
  {
    hide IdleAround, IsIdle, Mixed, MixedSpot, Erase, Fill, HasByte, Placed, LateParts;
    var rest, end := parts[1..], base + SeqSize(MixedParts(parts, a, b));
    IdleNone(prog, x, base);
    IdleNone(prog, x, end);
    if !Front(parts[0]) {
      ConsSeq(Mixed(parts[0], a, b), EraseAll(rest));
      var mid := base + Size(Mixed(parts[0], a, b));
      MixedIdleAround(prog, x, parts[0], a, b, base);
      FillAllReject(rest, NoByte(), x);
      SeqIdle(prog, x, EraseAll(rest), mid);
      AroundWider(prog, x, MixedSpot(parts[0], a, b, base), base, mid, base, end);
    } else if HasByte(parts[0]) {
      ConsSeq(Fill(parts[0], a), LateParts(rest, b));
      var mid := base + Size(Fill(parts[0], a));
      LatePartsReject(rest, b, x);
      SeqIdle(prog, x, LateParts(rest, b), mid);
      assert IdleAround(prog, x, Spot(base, mid, PartsGate(rest, b, mid)), base, end) by { HereAround(prog, x, base, mid, end, PartsGate(rest, b, mid)); }
    } else {
      ConsSeq(Erase(parts[0]), MixedParts(rest, a, b));
      var mid := base + Size(Erase(parts[0]));
      EraseIdle(prog, x, parts[0], base);
      PartsIdleAround(prog, x, rest, a, b, mid);
      AroundWider(prog, x, PartsSpot(rest, a, b, mid), mid, end, base, end);
    }
  }

  lemma HereAround(prog: seq<Inst>, x: Option<Byte>, base: nat, mid: nat, end: nat, g: Gate)
    requires base <= mid <= end && IsIdle(prog, x, base, base) && IsIdle(prog, x, mid, end)
    ensures IdleAround(prog, x, Spot(base, mid, g), base, end)
  {
  }

  lemma {:induction false} BranchesIdleAround(prog: seq<Inst>, x: Option<Byte>, branches: seq<Node>, a: ByteClass, b: ByteClass,
                                              base: nat, end: nat)
    requires !AllFront(branches) && (x.Some? ==> !b[x.value])
    requires AltPlaced(prog, MixedBranches(branches, a, b), base, end)
    requires end == base + AltSize(MixedBranches(branches, a, b)) < |prog|
    ensures IdleAround(prog, x, BranchesSpot(branches, a, b, base), base, end)
    decreases branches, 1
  {
    hide IdleAround, AltPlaced, MixedBranches, BranchesSpot, AltSize, Front;
    if !Front(branches[0]) {
      IdleAroundFirst(prog, x, branches, a, b, base, end);
    } else {
      IdleAroundRest(prog, x, branches, a, b, base, end);
    }
  }

  lemma {:induction false} IdleAroundFirst(prog: seq<Inst>, x: Option<Byte>, branches: seq<Node>, a: ByteClass, b: ByteClass,
                                           base: nat, end: nat)
    requires !AllFront(branches) && (x.Some? ==> !b[x.value])
    requires AltPlaced(prog, MixedBranches(branches, a, b), base, end)
    requires end == base + AltSize(MixedBranches(branches, a, b)) < |prog|
    requires !Front(branches[0])
    ensures IdleAround(prog, x, BranchesSpot(branches, a, b, base), base, end)
    decreases branches, 0
  {
    hide IdleAround, IsIdle, Mixed, MixedSpot, Erase, Placed;
    var rest := branches[1..];
    ConsSeq(Mixed(branches[0], a, b), EraseAll(rest));
    if |branches| == 1 {
      MixedIdleAround(prog, x, branches[0], a, b, base);
    } else {
      var next := base + Size(Mixed(branches[0], a, b)) + 2;
      MixedIdleAround(prog, x, branches[0], a, b, base + 1);
      FillAllReject(rest, NoByte(), x);
      AltIdle(prog, x, EraseAll(rest), next, end);
      BranchAroundWider(prog, x, MixedSpot(branches[0], a, b, base + 1), base, next, end);
    }
  }

  lemma {:induction false} IdleAroundRest(prog: seq<Inst>, x: Option<Byte>, branches: seq<Node>, a: ByteClass, b: ByteClass,
                                          base: nat, end: nat)
    requires !AllFront(branches) && (x.Some? ==> !b[x.value])
    requires AltPlaced(prog, MixedBranches(branches, a, b), base, end)
    requires end == base + AltSize(MixedBranches(branches, a, b)) < |prog|
    requires Front(branches[0])
    ensures IdleAround(prog, x, BranchesSpot(branches, a, b, base), base, end)
    decreases branches, 0
  {
    hide IdleAround, IsIdle, Mixed, MixedSpot, Erase, Placed;
    var rest := branches[1..];
    ConsSeq(Erase(branches[0]), MixedBranches(rest, a, b));
    var next := base + Size(Erase(branches[0])) + 2;
    EraseIdle(prog, x, branches[0], base + 1);
    BracketIdle(prog, x, base, next);
    BranchesIdleAround(prog, x, rest, a, b, next, end);
    IdleNone(prog, x, end);
    AroundWider(prog, x, BranchesSpot(rest, a, b, next), next, end, base, end);
  }

  // ----- from the spot to the gate -----

  /** Behind the spot the machine comes to the gate. */
  lemma {:induction false} MixedMid(prog: seq<Inst>, input: seq<Byte>, n: Node, a: ByteClass, b: ByteClass, base: nat, pos: nat)
    requires WellFormedProgram(prog) && !Front(n) && WellFormed(n) && !HasAnchors(n) && pos <= |input|
    requires Placed(prog, Mixed(n, a, b), base) && base + Size(Mixed(n, a, b)) < |prog|
    requires var s := MixedSpot(n, a, b, base);
             s.mid <= s.gate.at < |prog| && Stops(prog, input, pos, s.gate.at, s.mid)
    ensures WorthAvoiding(prog, input, MixedSpot(n, a, b, base).mid, pos, {}) == Some(pos)
    decreases n, 0
  {
    hide WellFormedProgram, Stops, WorthAvoiding, SeqPlaced, AltPlaced, PartsSpot, BranchesSpot;
    if n.Concat? {
      PartsMid(prog, input, n.parts, a, b, base, pos);
    } else if n.Alt? {
      BranchesMid(prog, input, n.branches, a, b, base, base + AltSize(MixedBranches(n.branches, a, b)), pos);
    } else {
      MixedMid(prog, input, n.inner, a, b, base + 1, pos);
    }
  }

  lemma {:induction false} PartsMid(prog: seq<Inst>, input: seq<Byte>, parts: seq<Node>, a: ByteClass, b: ByteClass, base: nat, pos: nat)
    requires WellFormedProgram(prog) && !FrontParts(parts) && AllNullable(parts) && pos <= |input|
    requires AllWellFormed(parts) && !AnyHasAnchors(parts)
    requires SeqPlaced(prog, MixedParts(parts, a, b), base) && base + SeqSize(MixedParts(parts, a, b)) < |prog|
    requires var s := PartsSpot(parts, a, b, base);
             s.mid <= s.gate.at < |prog| && Stops(prog, input, pos, s.gate.at, s.mid)
    ensures WorthAvoiding(prog, input, PartsSpot(parts, a, b, base).mid, pos, {}) == Some(pos)
    decreases parts, 0
  {
    hide WellFormedProgram, Stops, WorthAvoiding, Mixed, MixedSpot, Erase, Fill, Placed, LateParts, PartsGate, HasByte;
    var rest := parts[1..];
    if !Front(parts[0]) {
      ConsSeq(Mixed(parts[0], a, b), EraseAll(rest));
      MixedMid(prog, input, parts[0], a, b, base, pos);
    } else if HasByte(parts[0]) {
      ConsSeq(Fill(parts[0], a), LateParts(rest, b));
      var mid := base + Size(Fill(parts[0], a));
      PartsPrefix(prog, input, rest, b, mid, pos, mid, {});
    } else {
      ConsSeq(Erase(parts[0]), MixedParts(rest, a, b));
      PartsMid(prog, input, rest, a, b, base + Size(Erase(parts[0])), pos);
    }
  }

  lemma {:induction false} BranchesMid(prog: seq<Inst>, input: seq<Byte>, branches: seq<Node>, a: ByteClass, b: ByteClass,
                                       base: nat, end: nat, pos: nat)
    requires WellFormedProgram(prog) && !AllFront(branches) && pos <= |input|
    requires AllWellFormed(branches) && !AnyHasAnchors(branches)
    requires AltPlaced(prog, MixedBranches(branches, a, b), base, end) && end == base + AltSize(MixedBranches(branches, a, b)) < |prog|
    requires var s := BranchesSpot(branches, a, b, base);
             s.mid <= s.gate.at < |prog| && Stops(prog, input, pos, s.gate.at, s.mid)
    ensures WorthAvoiding(prog, input, BranchesSpot(branches, a, b, base).mid, pos, {}) == Some(pos)
    decreases branches, 0
  {
    hide WellFormedProgram, Stops, WorthAvoiding, Mixed, MixedSpot, Erase, Placed;
    var rest := branches[1..];
    if !Front(branches[0]) {
      ConsSeq(Mixed(branches[0], a, b), EraseAll(rest));
      MixedMid(prog, input, branches[0], a, b, if |branches| == 1 then base else base + 1, pos);
    } else {
      ConsSeq(Erase(branches[0]), MixedBranches(rest, a, b));
      BranchesMid(prog, input, rest, a, b, base + Size(Erase(branches[0])) + 2, end, pos);
    }
  }

  // ----- from the gate to the end -----

  lemma MixedQuest(n: Node, a: ByteClass, b: ByteClass, base: nat)
    requires !Front(n) && n.Quest?
    ensures !Front(n.inner) && Mixed(n, a, b) == Quest(Mixed(n.inner, a, b))
    ensures MixedSpot(n, a, b, base) == MixedSpot(n.inner, a, b, base + 1) && HasAnchors(n) == HasAnchors(n.inner)
  {
  }

  lemma {:induction false} MixedReturn(prog: seq<Inst>, mode: Mode, n: Node, a: ByteClass, b: ByteClass, base: nat, seen: set<nat>)
    requires WellFormedProgram(prog) && !Front(n) && !HasAnchors(n)
    requires Placed(prog, Mixed(n, a, b), base)
    requires var at := MixedSpot(n, a, b, base).gate.at;
             at < base + Size(Mixed(n, a, b)) && at + 1 in seen && ClosedIn(prog, mode, seen, at + 1, base + Size(Mixed(n, a, b)))
    ensures base + Size(Mixed(n, a, b)) in seen
    decreases n, 1
  {
    hide WellFormedProgram, ClosedIn, Placed, Mixed, MixedSpot, Size, HasAnchors;
    assert n.Concat? || n.Alt? || n.Quest?;
    if n.Concat? {
      ConcatSpotReturn(prog, mode, n, a, b, base, seen);
    } else if n.Alt? {
      AltSpotReturn(prog, mode, n, a, b, base, seen);
    } else {
      MixedQuest(n, a, b, base);
      QuestPlaced(prog, Mixed(n.inner, a, b), base);
      MixedReturn(prog, mode, n.inner, a, b, base + 1, seen);
    }
  }

  lemma {:induction false} ConcatSpotReturn(prog: seq<Inst>, mode: Mode, n: Node, a: ByteClass, b: ByteClass, base: nat, seen: set<nat>)
    requires WellFormedProgram(prog) && !Front(n) && !HasAnchors(n) && n.Concat?
    requires Placed(prog, Mixed(n, a, b), base)
    requires var at := MixedSpot(n, a, b, base).gate.at;
             at < base + Size(Mixed(n, a, b)) && at + 1 in seen && ClosedIn(prog, mode, seen, at + 1, base + Size(Mixed(n, a, b)))
    ensures base + Size(Mixed(n, a, b)) in seen
    decreases n, 0
  {
    hide WellFormedProgram, ClosedIn, SeqPlaced, PartsSpot, MixedParts;
    PartsSpotReturn(prog, mode, n.parts, a, b, base, seen);
  }

  lemma {:induction false} AltSpotReturn(prog: seq<Inst>, mode: Mode, n: Node, a: ByteClass, b: ByteClass, base: nat, seen: set<nat>)
    requires WellFormedProgram(prog) && !Front(n) && !HasAnchors(n) && n.Alt?
    requires Placed(prog, Mixed(n, a, b), base)
    requires var at := MixedSpot(n, a, b, base).gate.at;
             at < base + Size(Mixed(n, a, b)) && at + 1 in seen && ClosedIn(prog, mode, seen, at + 1, base + Size(Mixed(n, a, b)))
    ensures base + Size(Mixed(n, a, b)) in seen
    decreases n, 0
  {
    hide WellFormedProgram, ClosedIn, AltPlaced, BranchesSpot, MixedBranches;
    BranchesSpotReturn(prog, mode, n.branches, a, b, base, base + AltSize(MixedBranches(n.branches, a, b)), seen);
  }

  lemma {:induction false} PartsSpotReturn(prog: seq<Inst>, mode: Mode, parts: seq<Node>, a: ByteClass, b: ByteClass, base: nat,
                                           seen: set<nat>)
    requires WellFormedProgram(prog) && !FrontParts(parts) && AllNullable(parts) && !AnyHasAnchors(parts)
    requires SeqPlaced(prog, MixedParts(parts, a, b), base)
    requires var at, end := PartsSpot(parts, a, b, base).gate.at, base + SeqSize(MixedParts(parts, a, b));
             at + 1 in seen && ClosedIn(prog, mode, seen, at + 1, end)
    ensures base + SeqSize(MixedParts(parts, a, b)) in seen
    decreases parts, 0
  {
    hide WellFormedProgram, ClosedIn, Mixed, MixedSpot, Erase, Fill, Placed, LateParts, PartsGate, HasByte;
    var rest, end := parts[1..], base + SeqSize(MixedParts(parts, a, b));
    if !Front(parts[0]) {
      ConsSeq(Mixed(parts[0], a, b), EraseAll(rest));
      var from, mid := MixedSpot(parts[0], a, b, base).gate.at + 1, base + Size(Mixed(parts[0], a, b));
      MixedGateEnd(parts[0], a, b, base);
      ClosedInside(prog, mode, seen, from, end, from, mid);
      MixedReturn(prog, mode, parts[0], a, b, base, seen);
      FillAllKeeps(rest, NoByte());
      ClosedInside(prog, mode, seen, from, end, mid, end);
      NullPassSeq(prog, mode, EraseAll(rest), mid, seen);
    } else if HasByte(parts[0]) {
      ConsSeq(Fill(parts[0], a), LateParts(rest, b));
      PartsReturn(prog, mode, rest, b, base + Size(Fill(parts[0], a)), seen);
    } else {
      ConsSeq(Erase(parts[0]), MixedParts(rest, a, b));
      PartsSpotReturn(prog, mode, rest, a, b, base + Size(Erase(parts[0])), seen);
    }
  }

  lemma {:induction false} BranchesSpotReturn(prog: seq<Inst>, mode: Mode, branches: seq<Node>, a: ByteClass, b: ByteClass,
                                              base: nat, end: nat, seen: set<nat>)
    requires WellFormedProgram(prog) && !AllFront(branches) && !AnyHasAnchors(branches)
    requires AltPlaced(prog, MixedBranches(branches, a, b), base, end) && end == base + AltSize(MixedBranches(branches, a, b))
    requires var at := BranchesSpot(branches, a, b, base).gate.at;
             at + 1 in seen && ClosedIn(prog, mode, seen, at + 1, end)
    ensures end in seen
    decreases branches, 1
  {
    hide WellFormedProgram, ClosedIn, AltPlaced, MixedBranches, BranchesSpot, AltSize, Front, AnyHasAnchors;
    if !Front(branches[0]) {
      SpotReturnFirst(prog, mode, branches, a, b, base, end, seen);
    } else {
      SpotReturnRest(prog, mode, branches, a, b, base, end, seen);
    }
  }

  lemma {:induction false} SpotReturnFirst(prog: seq<Inst>, mode: Mode, branches: seq<Node>, a: ByteClass, b: ByteClass,
                                           base: nat, end: nat, seen: set<nat>)
    requires WellFormedProgram(prog) && !AllFront(branches) && !AnyHasAnchors(branches)
    requires AltPlaced(prog, MixedBranches(branches, a, b), base, end) && end == base + AltSize(MixedBranches(branches, a, b))
    requires var at := BranchesSpot(branches, a, b, base).gate.at;
             at + 1 in seen && ClosedIn(prog, mode, seen, at + 1, end)
    requires !Front(branches[0])
    ensures end in seen
    decreases branches, 0
  {
    hide WellFormedProgram, ClosedIn, Mixed, MixedSpot, Erase, Placed;
    var rest := branches[1..];
    ConsSeq(Mixed(branches[0], a, b), EraseAll(rest));
    if |branches| == 1 {
      MixedGateEnd(branches[0], a, b, base);
      MixedReturn(prog, mode, branches[0], a, b, base, seen);
    } else {
      var from, next := MixedSpot(branches[0], a, b, base + 1).gate.at + 1, base + Size(Mixed(branches[0], a, b)) + 2;
      MixedGateEnd(branches[0], a, b, base + 1);
      ClosedInside(prog, mode, seen, from, end, from, next - 1);
      MixedReturn(prog, mode, branches[0], a, b, base + 1, seen);
      ClosedJmp(prog, mode, seen, from, end, next - 1, end);
    }
  }

  lemma {:induction false} SpotReturnRest(prog: seq<Inst>, mode: Mode, branches: seq<Node>, a: ByteClass, b: ByteClass,
                                          base: nat, end: nat, seen: set<nat>)
    requires WellFormedProgram(prog) && !AllFront(branches) && !AnyHasAnchors(branches)
    requires AltPlaced(prog, MixedBranches(branches, a, b), base, end) && end == base + AltSize(MixedBranches(branches, a, b))
    requires var at := BranchesSpot(branches, a, b, base).gate.at;
             at + 1 in seen && ClosedIn(prog, mode, seen, at + 1, end)
    requires Front(branches[0])
    ensures end in seen
    decreases branches, 0
  {
    hide WellFormedProgram, ClosedIn, Mixed, MixedSpot, Erase, Placed;
    var rest := branches[1..];
    ConsSeq(Erase(branches[0]), MixedBranches(rest, a, b));
    BranchesSpotReturn(prog, mode, rest, a, b, base + Size(Erase(branches[0])) + 2, end, seen);
  }

  lemma {:induction false} MixedGateEnd(n: Node, a: ByteClass, b: ByteClass, base: nat)
    requires !Front(n)
    ensures MixedSpot(n, a, b, base).gate.at < base + Size(Mixed(n, a, b))
    decreases n, 0
  {
    hide PartsSpot, BranchesSpot;
    if n.Concat? {
      PartsSpotEnd(n.parts, a, b, base);
    } else if n.Alt? {
      BranchesSpotEnd(n.branches, a, b, base);
    } else {
      MixedGateEnd(n.inner, a, b, base + 1);
    }
  }

  lemma {:induction false} PartsSpotEnd(parts: seq<Node>, a: ByteClass, b: ByteClass, base: nat)
    requires !FrontParts(parts)
    ensures PartsSpot(parts, a, b, base).gate.at < base + SeqSize(MixedParts(parts, a, b))
    decreases parts, 0
  {
    hide Mixed, MixedSpot, Erase, Fill, LateParts, PartsGate, HasByte;
    var rest := parts[1..];
    if !Front(parts[0]) {
      ConsSeq(Mixed(parts[0], a, b), EraseAll(rest));
      MixedGateEnd(parts[0], a, b, base);
    } else if HasByte(parts[0]) {
      ConsSeq(Fill(parts[0], a), LateParts(rest, b));
      PartsGateEnd(rest, b, base + Size(Fill(parts[0], a)));
    } else {
      ConsSeq(Erase(parts[0]), MixedParts(rest, a, b));
      PartsSpotEnd(rest, a, b, base + Size(Erase(parts[0])));
    }
  }

  lemma {:induction false} BranchesSpotEnd(branches: seq<Node>, a: ByteClass, b: ByteClass, base: nat)
    requires !AllFront(branches)
    ensures BranchesSpot(branches, a, b, base).gate.at < base + AltSize(MixedBranches(branches, a, b))
    decreases branches, 0
  {
    hide Mixed, MixedSpot, Erase;
    var rest := branches[1..];
    if !Front(branches[0]) {
      ConsSeq(Mixed(branches[0], a, b), EraseAll(rest));
      MixedGateEnd(branches[0], a, b, if |branches| == 1 then base else base + 1);
    } else {
      ConsSeq(Erase(branches[0]), MixedBranches(rest, a, b));
      BranchesSpotEnd(rest, a, b, base + Size(Erase(branches[0])) + 2);
    }
  }
}

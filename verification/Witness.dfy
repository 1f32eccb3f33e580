/**
 For every loop that is not orderly, byte classes and an input that tell the two searches
 apart.

 The classes are those of `Late` under a plus, and those of `Mixed` under a star.
 */
module Witness {
  import opened Wrappers
  import opened Ast
  import opened Syntax
  import opened Semantics
  import opened Naive
  import opened Program
  import opened Paths
  import opened Closure
  import opened Threads
  import opened PikeCorrectness
  import opened Epsilon
  import opened Sealed
  import opened Blocked
  import opened Tail
  import opened TailVisits
  import opened Priority
  import opened Paint
  import opened Spells
  import opened Idle
  import opened Gates
  import opened Spots

  /** From this position on, the machine and the backtracker find the same span or none. */
  ghost predicate AgreeFrom(n: Node, input: seq<Byte>, scan: nat) {
    CompileWellFormed(n);
    Leftmost(Compile(n), input, scan) == LeftmostEnd(n, input, scan)
  }

  /** Different ends at the first start show that the searches differ. */
  lemma EndsDiffer(n: Node, input: seq<Byte>, end: nat)
    requires WellFormedProgram(Compile(n)) && WorthFrom(Compile(n), input, 0, 0) == Some(end)
    requires Ends(n, input, 0) != [] && Ends(n, input, 0)[0] != end
    ensures !AgreeFrom(n, input, 0)
  {
    hide WorthFrom, Compile, Ends;
  }

  // ----- a `+` -----

  /** A body that ends early, under a `+`. */
  function LatePlus(inner: Node): Node
    requires !Last(inner)
  {
    Plus(Late(inner, Only(B)))
  }

  lemma PlusPlaced(body: Node)
    ensures var prog, s := Compile(Plus(body)), Size(body);
            && WellFormedProgram(prog) && |prog| == s + 2 && prog[s] == Split(0, s + 1)
            && Placed(prog, body, 0) && IsSealed(prog, body, 0)
  {
    CompileWellFormed(Plus(body));
    CompilePlaced(Plus(body));
    CompileSealed(Plus(body));
  }

  lemma PlusReturns(prog: seq<Inst>, mode: Mode, inner: Node, s: nat)
    requires !HasAnchors(inner) && !Last(inner) && WellFormedProgram(prog) && |prog| == s + 2 && prog[s] == Split(0, s + 1)
    requires s == Size(Late(inner, Only(B))) && Placed(prog, Late(inner, Only(B)), 0)
    ensures Returns(prog, mode, LateGate(inner, Only(B), 0).at, 0)
  {
    hide Late, Last, LateGate, Placed, Size, WellFormedProgram, ClosedOutside, ClosedIn, HasAnchors;
    var at := LateGate(inner, Only(B), 0).at;
    LateGateEnd(inner, Only(B), 0);
    forall seen: set<nat> {:trigger ClosedOutside(prog, mode, seen, 0, at + 1)} |
      ClosedOutside(prog, mode, seen, 0, at + 1) && at + 1 in seen
      ensures |prog| - 1 in seen
    {
      OutsideIn(prog, mode, seen, 0, at + 1, at + 1, s);
      LateReturn(prog, mode, inner, Only(B), 0, seen);
      OutsideIn(prog, mode, seen, 0, at + 1, s, s + 1);
      ClosedSplit(prog, mode, seen, s, s + 1, s, 0, s + 1);
    }
  }

  lemma PlusGateIn(prog: seq<Inst>, x: Option<Byte>, inner: Node, s: nat)
    requires WellFormed(inner) && !HasAnchors(inner) && !Last(inner)
    requires WellFormedProgram(prog) && |prog| == s + 2 && prog[s] == Split(0, s + 1) && s == Size(Late(inner, Only(B)))
    requires Placed(prog, Late(inner, Only(B)), 0) && IsSealed(prog, Late(inner, Only(B)), 0)
    ensures GateIn(prog, x, LateGate(inner, Only(B), 0), 0, s + 1)
  {
    hide Late, Last, LateGate, Placed, IsSealed, Size, WellFormedProgram, GateIn, IsIdle;
    LateGateIn(prog, x, inner, Only(B), 0);
    IdleOne(prog, x, s);
    IdleNone(prog, x, 0);
    GateWider(prog, x, LateGate(inner, Only(B), 0), 0, s, 0, s + 1);
  }

  /** The machine stops where it began: the gate leads out of the loop before the byte is tried. */
  lemma PlusStopsAtOnce(inner: Node, input: seq<Byte>)
    requires WellFormed(inner) && !HasAnchors(inner) && !Last(inner)
    ensures var prog := Compile(LatePlus(inner));
            WellFormedProgram(prog) && WorthFrom(prog, input, 0, 0) == Some(0)
  {
    var body := Late(inner, Only(B));
    PlusPlaced(body);
    hide Late, Last, LateGate, Placed, IsSealed, Size, Compile, WellFormedProgram, WellFormed, HasAnchors, Returns, Stops, GateIn, Visit;
    var prog, s := Compile(Plus(body)), Size(body);
    PlusReturns(prog, ModeAt(input, 0), inner, s);
    PlusGateIn(prog, NextByte(input, 0), inner, s);
    LateGateEnd(inner, Only(B), 0);
    GateStops(prog, input, 0, LateGate(inner, Only(B), 0), 0);
    LatePrefix(prog, input, inner, Only(B), 0, 0, 0, {});
  }

  /** The body of a `+` has to try the empty match last: otherwise some classes and some input tell the searches apart. */
  lemma PlusDiffers(inner: Node) returns (input: seq<Byte>)
    requires WellFormed(inner) && !HasAnchors(inner) && !Last(inner)
    ensures SameShape(LatePlus(inner), Plus(inner)) && !AgreeFrom(LatePlus(inner), input, 0)
  {
    var body := Late(inner, Only(B));
    LateShape(inner, Only(B));
    var len := LateSpells(inner, Only(B));
    input := seq(len, _ => B);
    PlusStopsAtOnce(inner, input);
    hide Late, Compile, WellFormedProgram, WorthFrom, Ends, Matches, AgreeFrom;
    assert IsRun(input, 0, len, Only(B));
    EndsExact(body, input, 0, len);
    PlusStops(body, input, 0);
    EndsDiffer(Plus(body), input, 0);
  }

  // ----- a `*` -----

  /** A body that ends early after a byte, under a `*`. */
  function MixedStar(inner: Node): Node
    requires !Front(inner)
  {
    Star(Mixed(inner, Only(A), Only(B)))
  }

  /** A run of `a` and behind it a run of `b`. */
  function TwoRuns(k: nat, more: nat): (input: seq<Byte>)
    ensures |input| == k + more
    ensures IsRun(input, 0, k, Only(A)) && IsRun(input, k, more, Only(B))
  {
    seq(k, _ => A) + seq(more, _ => B)
  }

  /** The pattern matches the run of `a`, and no shorter part of it but the empty one. */
  ghost predicate LeastRun(n: Node, k: nat, more: nat) {
    && k > 0 && Matches(n, TwoRuns(k, more), 0, k)
    && forall p: nat {:trigger Matches(n, TwoRuns(k, more), 0, p)} :: 0 < p < k ==> !Matches(n, TwoRuns(k, more), 0, p)
  }

  lemma {:induction false} FindLeastRun(n: Node, len: nat, more: nat) returns (k: nat)
    requires !HasAnchors(n) && len > 0 && Matches(n, TwoRuns(len, more), 0, len)
    ensures LeastRun(n, k, more)
    decreases len
  {
    hide Matches, HasAnchors;
    if p: nat :| 0 < p < len && Matches(n, TwoRuns(len, more), 0, p) {
      MatchesLocal(n, TwoRuns(len, more), TwoRuns(p, more), 0, p);
      k := FindLeastRun(n, p, more);
    } else {
      k := len;
    }
  }

  lemma StarPlaced(body: Node)
    ensures var prog, s := Compile(Star(body)), Size(body);
            && WellFormedProgram(prog) && |prog| == s + 3
            && prog[0] == Split(1, s + 2) && prog[s + 1] == Jmp(0)
            && Placed(prog, body, 1) && IsSealed(prog, body, 1)
  {
    CompileWellFormed(Star(body));
    CompilePlaced(Star(body));
    CompileSealed(Star(body));
  }

  lemma StarReturns(prog: seq<Inst>, mode: Mode, inner: Node, s: nat, spot: Spot)
    requires !HasAnchors(inner) && !Front(inner) && WellFormedProgram(prog) && |prog| == s + 3
    requires prog[0] == Split(1, s + 2) && prog[s + 1] == Jmp(0)
    requires s == Size(Mixed(inner, Only(A), Only(B))) && Placed(prog, Mixed(inner, Only(A), Only(B)), 1)
    requires spot == MixedSpot(inner, Only(A), Only(B), 1) && 1 <= spot.mid <= spot.gate.at
    ensures Returns(prog, mode, spot.gate.at, spot.mid)
  {
    hide Mixed, Front, MixedSpot, Placed, Size, WellFormedProgram, ClosedOutside, ClosedIn, HasAnchors;
    var at, lo := spot.gate.at, spot.mid;
    MixedGateEnd(inner, Only(A), Only(B), 1);
    forall seen: set<nat> {:trigger ClosedOutside(prog, mode, seen, lo, at + 1)} |
      ClosedOutside(prog, mode, seen, lo, at + 1) && at + 1 in seen
      ensures |prog| - 1 in seen
    {
      OutsideIn(prog, mode, seen, lo, at + 1, at + 1, s + 1);
      MixedReturn(prog, mode, inner, Only(A), Only(B), 1, seen);
      OutsideIn(prog, mode, seen, lo, at + 1, s + 1, s + 2);
      ClosedJmp(prog, mode, seen, s + 1, s + 2, s + 1, 0);
      OutsideIn(prog, mode, seen, lo, at + 1, 0, 1);
      ClosedSplit(prog, mode, seen, 0, 1, 0, 1, s + 2);
    }
  }

  /**
   The program is idle but for the stretch `[lo, hi)` where only `a` is next and but for
   other code where it is not; behind the stretch the machine stops when the run of `a` is over.
   */
  ghost predicate Halts(prog: seq<Inst>, k: nat, more: nat, lo: nat, hi: nat)
    requires WellFormedProgram(prog)
  {
    && 1 <= lo <= hi < |prog| - 1 && more > 0
    && Stays(prog, lo, hi) && IsIdle(prog, Some(B), lo, hi)
    && IsIdle(prog, Some(A), 0, lo) && IsIdle(prog, Some(A), hi, |prog| - 1)
    && WorthAvoiding(prog, TwoRuns(k, more), hi, k, {}) == Some(k)
  }

  lemma MixedHalts(inner: Node, k: nat, more: nat) returns (lo: nat, hi: nat)
    requires WellFormed(inner) && !HasAnchors(inner) && !Front(inner) && more > 0
    ensures WellFormedProgram(Compile(MixedStar(inner))) && Halts(Compile(MixedStar(inner)), k, more, lo, hi)
  {
    var body := Mixed(inner, Only(A), Only(B));
    StarPlaced(body);
    hide Mixed, Front, Placed, IsSealed, Size, Compile, WellFormedProgram, Halts, HasAnchors, WellFormed;
    lo, hi := HaltsIn(Compile(Star(body)), inner, Size(body), k, more);
  }

  lemma HaltsIn(prog: seq<Inst>, inner: Node, s: nat, k: nat, more: nat) returns (lo: nat, hi: nat)
    requires WellFormed(inner) && !HasAnchors(inner) && !Front(inner) && more > 0
    requires WellFormedProgram(prog) && StarCodeAround(prog, inner, s) && IsSealed(prog, Mixed(inner, Only(A), Only(B)), 1)
    ensures Halts(prog, k, more, lo, hi)
  {
    hide Mixed, Front, MixedSpot, Placed, IsSealed, Size, WellFormedProgram, Stays, IsIdle, WorthAvoiding, HasAnchors,
         WellFormed, SpotIn, IdleAround, GateIn;
    var spot := MixedSpot(inner, Only(A), Only(B), 1);
    lo, hi := spot.lo, spot.mid;
    StarSpotIn(prog, inner, s);
    StarIdleAround(prog, inner, s);
    SpotIdle(prog, Some(B), spot, 0, s + 2);
    StarMid(prog, inner, s, k, more);
    AroundIdle(prog, Some(A), spot, 0, s + 2);
  }

  /** The code of the star is around the code of its body, of size `s`. */
  predicate StarCodeAround(prog: seq<Inst>, inner: Node, s: nat)
    requires !Front(inner)
  {
    && |prog| == s + 3 && prog[0] == Split(1, s + 2) && prog[s + 1] == Jmp(0)
    && s == Size(Mixed(inner, Only(A), Only(B))) && Placed(prog, Mixed(inner, Only(A), Only(B)), 1)
  }

  lemma StarSpotIn(prog: seq<Inst>, inner: Node, s: nat)
    requires WellFormedProgram(prog) && !Front(inner) && StarCodeAround(prog, inner, s)
    requires IsSealed(prog, Mixed(inner, Only(A), Only(B)), 1)
    ensures var spot := MixedSpot(inner, Only(A), Only(B), 1);
            SpotIn(prog, Some(B), spot, 0, s + 2) && 1 <= spot.lo
  {
    hide Mixed, Front, MixedSpot, Placed, IsSealed, Size, WellFormedProgram, IsIdle, SpotIn;
    var spot := MixedSpot(inner, Only(A), Only(B), 1);
    MixedSpotIn(prog, Some(B), inner, Only(A), Only(B), 1);
    SpotIdle(prog, Some(B), spot, 1, s + 1);
    IdleOne(prog, Some(B), 0);
    IdleOne(prog, Some(B), s + 1);
    SpotWider(prog, Some(B), spot, 1, s + 1, 0, s + 2);
  }

  lemma StarIdleAround(prog: seq<Inst>, inner: Node, s: nat)
    requires WellFormedProgram(prog) && !Front(inner) && StarCodeAround(prog, inner, s)
    ensures IdleAround(prog, Some(A), MixedSpot(inner, Only(A), Only(B), 1), 0, s + 2)
  {
    hide Mixed, Front, MixedSpot, Placed, Size, WellFormedProgram, IsIdle, IdleAround;
    var spot := MixedSpot(inner, Only(A), Only(B), 1);
    MixedIdleAround(prog, Some(A), inner, Only(A), Only(B), 1);
    IdleOne(prog, Some(A), 0);
    IdleOne(prog, Some(A), s + 1);
    AroundWider(prog, Some(A), spot, 1, s + 1, 0, s + 2);
  }

  lemma AroundIdle(prog: seq<Inst>, x: Option<Byte>, s: Spot, base: nat, end: nat)
    requires IdleAround(prog, x, s, base, end)
    ensures IsIdle(prog, x, base, s.lo) && IsIdle(prog, x, s.mid, end)
  {
  }

  lemma StarMid(prog: seq<Inst>, inner: Node, s: nat, k: nat, more: nat)
    requires WellFormedProgram(prog) && !Front(inner) && StarCodeAround(prog, inner, s)
    requires WellFormed(inner) && !HasAnchors(inner) && more > 0
    requires SpotIn(prog, Some(B), MixedSpot(inner, Only(A), Only(B), 1), 0, s + 2)
    requires 1 <= MixedSpot(inner, Only(A), Only(B), 1).lo
    ensures WorthAvoiding(prog, TwoRuns(k, more), MixedSpot(inner, Only(A), Only(B), 1).mid, k, {}) == Some(k)
  {
    hide Mixed, Front, MixedSpot, Placed, Size, WellFormedProgram, Returns, Stops, WorthAvoiding, HasAnchors, WellFormed,
         TwoRuns, SpotIn, GateIn, IsIdle;
    var input, spot := TwoRuns(k, more), MixedSpot(inner, Only(A), Only(B), 1);
    assert NextByte(input, k) == Some(B) by { assert IsRun(input, k, more, Only(B)); }
    SpotIdle(prog, Some(B), spot, 0, s + 2);
    StarReturns(prog, ModeAt(input, k), inner, s, spot);
    GateStops(prog, input, k, spot.gate, spot.mid);
    MixedMid(prog, input, inner, Only(A), Only(B), 1, k);
  }

  lemma SpotIdle(prog: seq<Inst>, x: Option<Byte>, s: Spot, base: nat, end: nat)
    requires WellFormedProgram(prog) && SpotIn(prog, x, s, base, end)
    ensures IsIdle(prog, x, s.lo, s.mid) && Stays(prog, s.lo, s.mid)
    ensures base <= s.lo <= s.mid <= s.gate.at < end
    ensures GateIn(prog, x, s.gate, base, end)
  {
  }

  /** Runs from here are the ends of runs from the beginning. */
  ghost predicate OnTheWay(prog: seq<Inst>, input: seq<Byte>, pc: nat, pos: nat) {
    forall end: nat, steps: nat {:trigger Runs(prog, input, pc, pos, end, steps)} ::
      Runs(prog, input, pc, pos, end, steps) ==> Accepts(prog, input, 0, end)
  }

  lemma ReachedOnTheWay(prog: seq<Inst>, input: seq<Byte>, p: nat, q: nat, pos: nat, reach: nat)
    requires WellFormedProgram(prog) && pos <= |input| && OnTheWay(prog, input, p, pos)
    requires Reaches(prog, ModeAt(input, pos), p, q, reach)
    ensures OnTheWay(prog, input, q, pos)
  {
    hide Runs, Reaches;
    forall end: nat, steps: nat {:trigger Runs(prog, input, q, pos, end, steps)} | Runs(prog, input, q, pos, end, steps)
      ensures Accepts(prog, input, 0, end)
    {
      ReachedRuns(prog, input, p, q, pos, reach, end, steps);
    }
  }

  lemma StepOnTheWay(prog: seq<Inst>, input: seq<Byte>, pc: nat, pos: nat, pc': nat, pos': nat)
    requires OnTheWay(prog, input, pc, pos) && CanStep(prog, input, pc, pos, pc', pos')
    ensures OnTheWay(prog, input, pc', pos')
  {
    hide Runs, CanStep;
    forall end: nat, steps: nat {:trigger Runs(prog, input, pc', pos', end, steps)} | Runs(prog, input, pc', pos', end, steps)
      ensures Accepts(prog, input, 0, end)
    {
      StepRuns(prog, input, pc, pos, pc', pos', end, steps);
    }
  }

  /** No run from the beginning ends inside the run of `a`. */
  ghost predicate NoEarlyEnd(prog: seq<Inst>, input: seq<Byte>, k: nat) {
    forall p: nat {:trigger Accepts(prog, input, 0, p)} :: 0 < p < k ==> !Accepts(prog, input, 0, p)
  }

  /** Behind a byte of the stretch the machine finds the end of the run of `a` or nothing. */
  lemma {:induction false} HaltsOrFails(prog: seq<Inst>, k: nat, more: nat, lo: nat, hi: nat, pc: nat, pos: nat)
    requires WellFormedProgram(prog) && Halts(prog, k, more, lo, hi) && lo <= pc < hi && 0 < pos <= k
    requires NoEarlyEnd(prog, TwoRuns(k, more), k) && OnTheWay(prog, TwoRuns(k, more), pc + 1, pos)
    ensures var end := WorthFrom(prog, TwoRuns(k, more), pc + 1, pos);
            end.None? || end == Some(k)
    decreases k - pos
  {
    hide Visit, Worth, WorthOf, Runs, Stays, IsIdle, WellFormedProgram, OnTheWay, NoEarlyEnd, TwoRuns, Reaches;
    var input := TwoRuns(k, more);
    if pos == k {
      AtTheEnd(prog, k, more, lo, hi, pc);
    } else if WorthFrom(prog, input, pc + 1, pos).Some? {
      var q := WorthyByte(prog, k, more, lo, hi, pc + 1, pos);
      StepOnTheWay(prog, input, q, pos, q + 1, pos + 1);
      HaltsOrFails(prog, k, more, lo, hi, q, pos + 1);
    }
  }

  lemma AtTheEnd(prog: seq<Inst>, k: nat, more: nat, lo: nat, hi: nat, pc: nat)
    requires WellFormedProgram(prog) && Halts(prog, k, more, lo, hi) && lo <= pc < hi
    ensures var end := WorthFrom(prog, TwoRuns(k, more), pc + 1, k);
            end.None? || end == Some(k)
  {
    hide Visit, Worth, Stays, IsIdle, WellFormedProgram, TwoRuns;
    var input := TwoRuns(k, more);
    assert NextByte(input, k) == Some(B) by { assert IsRun(input, k, more, Only(B)); }
    var none: set<nat> := {};
    assert none + none == none;
    Sweep(prog, input, k, [pc + 1], none, none, lo, hi);
  }

  /** Inside the run of `a`, what is worth something is so by a byte of the stretch. */
  lemma WorthyByte(prog: seq<Inst>, k: nat, more: nat, lo: nat, hi: nat, pc: nat, pos: nat) returns (q: nat)
    requires WellFormedProgram(prog) && Halts(prog, k, more, lo, hi) && pc < |prog| && 0 < pos < k
    requires NoEarlyEnd(prog, TwoRuns(k, more), k) && OnTheWay(prog, TwoRuns(k, more), pc, pos)
    requires WorthFrom(prog, TwoRuns(k, more), pc, pos).Some?
    ensures lo <= q < hi && CanStep(prog, TwoRuns(k, more), q, pos, q + 1, pos + 1)
    ensures OnTheWay(prog, TwoRuns(k, more), q, pos)
    ensures WorthFrom(prog, TwoRuns(k, more), pc, pos) == WorthFrom(prog, TwoRuns(k, more), q + 1, pos + 1)
  {
    hide Visit, Worth, WorthOf, Runs, Stays, IsIdle, OnTheWay, TwoRuns, Reaches, CanStep;
    var input, mode := TwoRuns(k, more), ModeAt(TwoRuns(k, more), pos);
    var list := Close(prog, mode, pc);
    VisitFacts(prog, mode, [pc], {});
    var j := FirstWorth(prog, input, list, pos);
    q := list[j];
    assert q in list;
    var r, reach := SeenIsReached(prog, mode, [pc], {}, q);
    ReachedOnTheWay(prog, input, pc, q, pos, reach);
    if q == |prog| - 1 {
      MatchAccepted(prog, input, q, pos);
      assert false;
    } else {
      ByteOfStretch(prog, k, more, lo, hi, q, pos);
    }
  }

  lemma MatchAccepted(prog: seq<Inst>, input: seq<Byte>, q: nat, pos: nat)
    requires q < |prog| && prog[q].Match? && OnTheWay(prog, input, q, pos)
    ensures Accepts(prog, input, 0, pos)
  {
    assert Runs(prog, input, q, pos, pos, 0);
  }

  lemma ByteOfStretch(prog: seq<Inst>, k: nat, more: nat, lo: nat, hi: nat, q: nat, pos: nat)
    requires WellFormedProgram(prog) && Halts(prog, k, more, lo, hi) && q < |prog| - 1 && pos < k
    requires WorthOf(prog, TwoRuns(k, more), q, pos).Some?
    ensures lo <= q < hi && CanStep(prog, TwoRuns(k, more), q, pos, q + 1, pos + 1)
    ensures q + 1 < |prog|
    ensures WorthOf(prog, TwoRuns(k, more), q, pos) == WorthFrom(prog, TwoRuns(k, more), q + 1, pos + 1)
  {
    hide Visit, Worth, Stays, IsIdle, TwoRuns;
    var input := TwoRuns(k, more);
    assert NextByte(input, pos) == Some(A) by { assert IsRun(input, 0, k, Only(A)); }
    if q < lo {
      IdleWorth(prog, input, pos, 0, lo, q);
    } else if q >= hi {
      IdleWorth(prog, input, pos, hi, |prog| - 1, q);
    }
  }

  /** A run that consumes leaves a closed set through one of its bytes. */
  lemma {:induction false} RunsByte(prog: seq<Inst>, input: seq<Byte>, closed: set<nat>, pc: nat, pos: nat,
                                    end: nat, steps: nat) returns (q: nat)
    requires WellFormedProgram(prog) && pos <= |input| && pc < |prog| && pos < end
    requires ClosedOver(prog, ModeAt(input, pos), closed, {}) && pc in closed
    requires Runs(prog, input, pc, pos, end, steps)
    ensures q < |prog| - 1 && q in closed && Ready(prog, ModeAt(input, pos), q) && WorthOf(prog, input, q, pos).Some?
    decreases steps
  {
    if prog[pc].Match? {
      OnlyEndAtMatch(prog, input, pc, pos, end, steps);
      assert false;
    } else {
      var pc', pos' := FirstStep(prog, input, pc, pos, end, steps);
      if prog[pc].Byte? {
        RunsWorthFrom(prog, input, pc', pos', end, steps - 1);
        q := pc;
      } else {
        assert Leads(prog, ModeAt(input, pos), pc, pc') by {
          assert pc' in Next(prog, ModeAt(input, pos), pc);
        }
        q := RunsByte(prog, input, closed, pc', pos, end, steps - 1);
      }
    }
  }

  /** What the body of a star sees, entered from the star. */
  lemma BodySees(prog: seq<Inst>, mode: Mode, s: nat)
    requires WellFormedProgram(prog) && mode.At? && |prog| == s + 3 && prog[0] == Split(1, s + 2) && prog[s + 1] == Jmp(0)
    requires Stays(prog, 1, s + 1)
    ensures var v := Visit(prog, mode, [1], {0});
            && InProg(prog, v.list)
            && (forall q :: q in v.list ==> q < s + 2)
            && (forall q :: q in v.seen - {0} && q < |prog| && Ready(prog, mode, q) ==> q in v.list)
            && ClosedOver(prog, mode, v.seen + {s + 2}, {}) && 0 in v.seen
  {
    VisitFacts(prog, mode, [1], {0});
    ListedSeen(prog, mode, [1], {0});
    VisitCloses(prog, mode, 1, {0});
    BodyInside(prog, mode, s);
    hide Visit, Stays, Leads, WellFormedProgram;
    var v := Visit(prog, mode, [1], {0});
    SeenClosed(prog, mode, s, v.seen);
    assert v.seen + {0, s + 2} == v.seen + {s + 2};
  }

  lemma BodyInside(prog: seq<Inst>, mode: Mode, s: nat)
    requires WellFormedProgram(prog) && mode.At? && |prog| == s + 3 && prog[s + 1] == Jmp(0) && Stays(prog, 1, s + 1)
    ensures forall q :: q in Visit(prog, mode, [1], {0}).seen ==> q < s + 2
  {
    hide Visit, Stays, Leads, WellFormedProgram;
    var body := set q | q in AllPcs(prog) && 1 <= q < s + 2;
    forall pc: nat, q: nat {:trigger Leads(prog, mode, pc, q)} | pc in body && Leads(prog, mode, pc, q)
      ensures q in {0} + body
    {
      AnywhereLeads(prog, mode, pc, q);
      LeadsInside(prog, mode, pc, q);
      if pc == s + 1 {
        JmpLeads(prog, mode, s + 1, 0, q);
      } else {
        BodyLeads(prog, s, pc, q);
      }
    }
    VisitStaysInside(prog, mode, [1], {0}, body);
  }

  lemma SeenClosed(prog: seq<Inst>, mode: Mode, s: nat, seen: set<nat>)
    requires WellFormedProgram(prog) && mode.At? && |prog| == s + 3 && prog[0] == Split(1, s + 2)
    requires 1 in seen && ClosedOver(prog, mode, seen - {0}, {0})
    ensures ClosedOver(prog, mode, seen + {0, s + 2}, {})
  {
    forall pc: nat, q: nat {:trigger Leads(prog, mode, pc, q)} | pc in seen + {0, s + 2} && Leads(prog, mode, pc, q)
      ensures q in seen + {0, s + 2}
    {
      SplitLeads(prog, mode, 0, 1, s + 2, q);
    }
  }

  lemma BodyLeads(prog: seq<Inst>, s: nat, pc: nat, q: nat)
    requires WellFormedProgram(prog) && Stays(prog, 1, s + 1) && 1 <= pc < s + 1 && Leads(prog, ANYWHERE, pc, q)
    ensures 1 <= q <= s + 1
  {
  }

  /** The machine stops behind the least run of `a`. */
  lemma StarHalts(prog: seq<Inst>, k: nat, more: nat, lo: nat, hi: nat, s: nat)
    requires WellFormedProgram(prog) && Halts(prog, k, more, lo, hi) && k > 0
    requires |prog| == s + 3 && prog[0] == Split(1, s + 2) && prog[s + 1] == Jmp(0) && Stays(prog, 1, s + 1)
    requires NoEarlyEnd(prog, TwoRuns(k, more), k) && Accepts(prog, TwoRuns(k, more), 0, k)
    ensures WorthFrom(prog, TwoRuns(k, more), 0, 0) == Some(k)
  {
    hide Visit, Worth, WorthOf, Runs, Stays, IsIdle, WellFormedProgram, OnTheWay, NoEarlyEnd, TwoRuns, Reaches, Leads, CanStep;
    var input := TwoRuns(k, more);
    var mode := ModeAt(input, 0);
    var v := Visit(prog, mode, [1], {0});
    BodySees(prog, mode, s);
    var steps: nat :| Runs(prog, input, 0, 0, k, steps);
    var first := RunsByte(prog, input, v.seen + {s + 2}, 0, 0, k, steps);
    SplitNotReady(prog, mode, s);
    assert first in v.list;
    WorthNone(prog, input, v.list, 0);
    var j := FirstWorth(prog, input, v.list, 0);
    var q := v.list[j];
    assert q in v.list;
    ByteOfStretch(prog, k, more, lo, hi, q, 0);
    FromTheStart(prog, input, q, s);
    StepOnTheWay(prog, input, q, 0, q + 1, 1);
    HaltsOrFails(prog, k, more, lo, hi, q, 1);
    SplitWorth(prog, input, 0, 1, s + 2, 0);
  }

  lemma SplitNotReady(prog: seq<Inst>, mode: Mode, s: nat)
    requires WellFormedProgram(prog) && prog[0] == Split(1, s + 2)
    ensures !Ready(prog, mode, 0)
  {
  }

  lemma FromTheStart(prog: seq<Inst>, input: seq<Byte>, q: nat, s: nat)
    requires WellFormedProgram(prog) && |prog| == s + 3 && prog[0] == Split(1, s + 2)
    requires q in Visit(prog, ModeAt(input, 0), [1], {0}).list
    ensures OnTheWay(prog, input, q, 0)
  {
    hide Visit, Runs, Reaches, Leads;
    var mode := ModeAt(input, 0);
    VisitFacts(prog, mode, [1], {0});
    var r, reach := SeenIsReached(prog, mode, [1], {0}, q);
    SplitLeads(prog, mode, 0, 1, s + 2, 1);
    ReachesLater(prog, mode, 0, 1, q, reach);
    assert OnTheWay(prog, input, 0, 0);
    ReachedOnTheWay(prog, input, 0, q, 0, reach + 1);
  }

  /** A body of a `*` that is not `Front`: some classes and some input tell the searches apart. */
  lemma StarDiffers(inner: Node) returns (input: seq<Byte>)
    requires WellFormed(inner) && !HasAnchors(inner) && !Front(inner)
    ensures SameShape(MixedStar(inner), Star(inner)) && !AgreeFrom(MixedStar(inner), input, 0)
  {
    var body := Mixed(inner, Only(A), Only(B));
    MixedShape(inner, Only(A), Only(B));
    ShapeKeeps(body, inner);
    var len, more := MixedSpells(inner, Only(A), Only(B));
    RoundSpells(body, Only(A), len);
    assert IsRun(TwoRuns(len, more), 0, len, Only(A));
    var k := FindLeastRun(Star(body), len, more);
    var lo, hi := MixedHalts(inner, k, more);
    StarPlaced(body);
    FragmentStays(Compile(Star(body)), body, 1);
    input := TwoRuns(k, more);
    RunsAreMatches(Star(body), k, more);
    StarHalts(Compile(Star(body)), k, more, lo, hi, Size(body));
    assert IsRun(input, k, more, Only(B));
    StarMovesOn(body, input, k, more);
    EndsDiffer(Star(body), input, k);
  }

  lemma RunsAreMatches(n: Node, k: nat, more: nat)
    requires WellFormed(n) && LeastRun(n, k, more)
    ensures NoEarlyEnd(Compile(n), TwoRuns(k, more), k) && Accepts(Compile(n), TwoRuns(k, more), 0, k)
  {
    hide Accepts, Compile, Matches, WellFormed;
    forall p: nat ensures Accepts(Compile(n), TwoRuns(k, more), 0, p) <==> Matches(n, TwoRuns(k, more), 0, p) {
      CompileCorrect(n, TwoRuns(k, more), 0, p);
    }
  }

  /** Where the body matches more, the backtracker does not stop. */
  lemma StarMovesOn(body: Node, input: seq<Byte>, k: nat, more: nat)
    requires more > 0 && Matches(body, input, k, k + more)
    ensures Ends(Star(body), input, 0) != [] && Ends(Star(body), input, 0)[0] != k
  {
    StarStops(body, input, 0);
  }
}

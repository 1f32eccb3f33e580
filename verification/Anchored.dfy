/**
 With anchors being orderly is not exact, not even for a loop by itself: `($|b)+` tries the
 end of the input before a byte, but where the end is there is no byte to be tried.

 So the matchers always agree on it, although it is not orderly.
 */
module Anchored {
  import opened Wrappers
  import opened Ast
  import opened Syntax
  import opened Semantics
  import opened Naive
  import opened Program
  import opened Closure
  import opened Threads
  import opened Blocked
  import opened Tail
  import opened Paint
  import opened Engines
  import opened Witness
  import opened Exact

  function EndOr(c: ByteClass): Node {
    Alt([EndAnchor, Class(c)])
  }

  function EndOrCode(c: ByteClass): seq<Inst> {
    [Split(1, 3), EndAssert, Jmp(4), Program.Byte(c), Split(0, 5), Match]
  }

  lemma EndOrCompiled(c: ByteClass)
    ensures Compile(Plus(EndOr(c))) == EndOrCode(c) && WellFormedProgram(EndOrCode(c))
  {
    var b, branches := Class(c), [EndAnchor, Class(c)];
    assert branches[1..] == [b] && Size(EndAnchor) == 1 && Size(b) == 1;
    assert AltSize([b]) == 1 && AltSize(branches) == 4;
    assert AltCode([b], 3, 4) == [Program.Byte(c)];
    assert AltCode(branches, 0, 4) == Bracketed(0, 1, Code(EndAnchor, 1), 4) + AltCode([b], 3, 4);
    assert Code(EndOr(c), 0) == AltCode(branches, 0, 4) && Size(EndOr(c)) == 4;
  }

  /** Where the run of accepted bytes ends. */
  function RunEnd(c: ByteClass, input: seq<Byte>, pos: nat): nat
    requires pos <= |input|
    decreases |input| - pos
  {
    if pos < |input| && c[input[pos]] then RunEnd(c, input, pos + 1) else pos
  }

  /** What both find from `pos`: the whole run if there is one, and the end of the input. */
  function RunFrom(c: ByteClass, input: seq<Byte>, pos: nat): Option<nat>
    requires pos <= |input|
  {
    if pos == |input| || c[input[pos]] then Some(RunEnd(c, input, pos)) else None
  }

  // ----- the machine -----

  lemma ByteWorth(c: ByteClass, input: seq<Byte>, pos: nat, avoid: set<nat>)
    requires pos <= |input| && 3 !in avoid && WellFormedProgram(EndOrCode(c))
    ensures WorthAvoiding(EndOrCode(c), input, 3, pos, avoid)
         == if pos < |input| && c[input[pos]] then WorthFrom(EndOrCode(c), input, 4, pos + 1) else None
  {
    hide Visit;
    var prog := EndOrCode(c);
    assert prog[3] == Program.Byte(c);
    VisitOne(prog, ModeAt(input, pos), 3, avoid);
    assert Worth(prog, input, [3], pos) == WorthOf(prog, input, 3, pos).OrElse(Worth(prog, input, [3][1..], pos));
  }

  lemma MatchWorthAvoiding(c: ByteClass, input: seq<Byte>, pos: nat, avoid: set<nat>)
    requires pos <= |input| && 5 !in avoid && WellFormedProgram(EndOrCode(c))
    ensures WorthAvoiding(EndOrCode(c), input, 5, pos, avoid) == Some(pos)
  {
    hide Visit;
    VisitOne(EndOrCode(c), ModeAt(input, pos), 5, avoid);
    assert Worth(EndOrCode(c), input, [5], pos) == Some(pos);
  }

  lemma SeenWorth(c: ByteClass, input: seq<Byte>, pc: nat, pos: nat, avoid: set<nat>)
    requires pc < 6 && pos <= |input| && pc in avoid && WellFormedProgram(EndOrCode(c))
    ensures WorthAvoiding(EndOrCode(c), input, pc, pos, avoid) == None
  {
    hide Visit;
    VisitOne(EndOrCode(c), ModeAt(input, pos), pc, avoid);
  }

  /** `$` leads on only at the end. */
  lemma EndWorth(c: ByteClass, input: seq<Byte>, pos: nat, avoid: set<nat>)
    requires pos <= |input| && 1 !in avoid && 2 !in avoid && WellFormedProgram(EndOrCode(c))
    ensures WorthAvoiding(EndOrCode(c), input, 1, pos, avoid)
         == if pos == |input| then WorthAvoiding(EndOrCode(c), input, 4, pos, avoid) else None
  {
    hide Visit;
    var prog := EndOrCode(c);
    if pos == |input| {
      OneSuccessorAvoiding(prog, input, 1, 2, pos, avoid);
      OneSuccessorAvoiding(prog, input, 2, 4, pos, avoid);
    } else {
      VisitOne(prog, ModeAt(input, pos), 1, avoid);
      VisitNone(prog, ModeAt(input, pos), avoid + {1});
    }
  }

  lemma {:induction false} MachineRuns(c: ByteClass, input: seq<Byte>, pos: nat)
    requires pos <= |input| && WellFormedProgram(EndOrCode(c))
    ensures WorthFrom(EndOrCode(c), input, 4, pos) == Some(RunEnd(c, input, pos))
    decreases |input| - pos
  {
    hide Visit, WorthAvoiding, EndOrCode;
    var prog := EndOrCode(c);
    SplitsAre(c);
    var none: set<nat> := {};
    SplitAvoiding(prog, input, 4, 0, 5, pos, none);
    SplitAvoiding(prog, input, 0, 1, 3, pos, none + {4});
    EndWorth(c, input, pos, none + {4} + {0});
    SeenWorth(c, input, 4, pos, none + {4} + {0});
    ByteWorth(c, input, pos, none + {4});
    MatchWorthAvoiding(c, input, pos, none);
    FromIsAvoiding(c, input, 4, pos);
    if pos < |input| && c[input[pos]] {
      MachineRuns(c, input, pos + 1);
    }
  }

  lemma SplitsAre(c: ByteClass)
    ensures EndOrCode(c)[0] == Split(1, 3) && EndOrCode(c)[4] == Split(0, 5) && |EndOrCode(c)| == 6
  {
  }

  lemma FromIsAvoiding(c: ByteClass, input: seq<Byte>, pc: nat, pos: nat)
    requires pc < 6 && pos <= |input| && WellFormedProgram(EndOrCode(c))
    ensures WorthFrom(EndOrCode(c), input, pc, pos) == WorthAvoiding(EndOrCode(c), input, pc, pos, {})
  {
  }

  lemma MachineFinds(c: ByteClass, input: seq<Byte>, pos: nat)
    requires pos <= |input| && WellFormedProgram(EndOrCode(c))
    ensures WorthFrom(EndOrCode(c), input, 0, pos) == RunFrom(c, input, pos)
  {
    hide Visit, WorthAvoiding, EndOrCode;
    var prog := EndOrCode(c);
    SplitsAre(c);
    var none: set<nat> := {};
    SplitAvoiding(prog, input, 0, 1, 3, pos, none);
    EndWorth(c, input, pos, none + {0});
    SplitAvoiding(prog, input, 4, 0, 5, pos, none + {0});
    SeenWorth(c, input, 0, pos, none + {0} + {4});
    MatchWorthAvoiding(c, input, pos, none + {0});
    ByteWorth(c, input, pos, none);
    FromIsAvoiding(c, input, 0, pos);
    if pos < |input| {
      MachineRuns(c, input, pos + 1);
    }
  }

  // ----- the backtracker -----

  lemma BodyEnds(c: ByteClass, input: seq<Byte>, pos: nat)
    requires pos <= |input|
    ensures Ends(EndOr(c), input, pos)
         == if pos == |input| then [pos] else if c[input[pos]] then [pos + 1] else []
  {
    var branches := [EndAnchor, Class(c)];
    assert branches[1..] == [Class(c)] && [Class(c)][1..] == [];
    assert AltEnds([Class(c)], input, pos) == Ends(Class(c), input, pos) + AltEnds([], input, pos);
    assert AltEnds(branches, input, pos) == Ends(EndAnchor, input, pos) + AltEnds([Class(c)], input, pos);
  }

  lemma {:induction false} StarRuns(c: ByteClass, input: seq<Byte>, pos: nat)
    requires pos <= |input|
    ensures StarEnds(EndOr(c), input, pos) != [] && StarEnds(EndOr(c), input, pos)[0] == RunEnd(c, input, pos)
    decreases |input| - pos
  {
    hide Ends;
    BodyEnds(c, input, pos);
    var body := EndOr(c);
    assert StarFrom(body, input, pos, []) == [];
    if pos < |input| && c[input[pos]] {
      StarRuns(c, input, pos + 1);
      assert [pos + 1][1..] == [];
      assert StarFrom(body, input, pos, [pos + 1]) == StarEnds(body, input, pos + 1) + [];
    } else if pos == |input| {
      assert [pos][1..] == [];
      assert StarFrom(body, input, pos, [pos]) == [];
    }
  }

  lemma BacktrackerFinds(c: ByteClass, input: seq<Byte>, pos: nat)
    requires pos <= |input|
    ensures PreferredEnd(Plus(EndOr(c)), input, pos) == RunFrom(c, input, pos)
  {
    hide StarEnds;
    BodyEnds(c, input, pos);
    var body, mids := EndOr(c), Ends(EndOr(c), input, pos);
    assert PlusFrom(body, input, pos, []) == [];
    if mids != [] {
      StarRuns(c, input, mids[0]);
      assert mids[1..] == [];
      assert PlusFrom(body, input, pos, mids) == StarEnds(body, input, mids[0]) + [];
    }
  }

  // ----- both -----

  lemma {:induction false} EndOrAgrees(c: ByteClass, input: seq<Byte>, scan: nat)
    ensures AgreeFrom(Plus(EndOr(c)), input, scan)
    decreases |input| + 1 - scan
  {
    EndOrCompiled(c);
    hide WorthFrom, PreferredEnd, Compile, EndOrCode, WellFormedProgram;
    if scan <= |input| {
      MachineFinds(c, input, scan);
      BacktrackerFinds(c, input, scan);
      EndOrAgrees(c, input, scan + 1);
    }
  }

  /** An anchored loop that is not orderly, and on which the matchers always agree. */
  lemma AnchorsHide(c: ByteClass)
    ensures !Orderly(Plus(EndOr(c))) && AlwaysAgree(Plus(EndOr(c)))
  {
    NotOrderly(c);
    hide NaiveSpans, PikeSpans, Leftmost, LeftmostEnd, Compile, SameShape, Orderly;
    forall m: Node, input: seq<Byte> {:trigger NaiveSpans(m, input)} | SameShape(m, Plus(EndOr(c)))
      ensures NaiveSpans(m, input) == PikeSpans(m, input)
    {
      var d := EndOrShape(m, c);
      CompileWellFormed(m);
      forall s: nat | s <= |input| ensures Leftmost(Compile(m), input, s) == LeftmostEnd(m, input, s) {
        EndOrAgrees(d, input, s);
      }
      SameSearchSameSpans(m, input);
    }
  }

  lemma NotOrderly(c: ByteClass)
    ensures !Orderly(Plus(EndOr(c)))
  {
    var branches := [EndAnchor, Class(c)];
    assert branches[1..] == [Class(c)] && HasByte(Class(c)) && AnyHasByte([Class(c)]);
    assert Nullable(branches[0]) && AnyNullable(branches) && !LastBranches(branches);
    assert !Last(Alt(branches));
  }

  lemma EndOrShape(m: Node, c: ByteClass) returns (d: ByteClass)
    requires SameShape(m, Plus(EndOr(c)))
    ensures m == Plus(EndOr(d))
  {
    var branches := [EndAnchor, Class(c)];
    FillAllSplit(branches, NoByte());
    FillAllSplit(branches[1..], NoByte());
    assert branches[1..][0] == Class(c) && Erase(EndAnchor) == EndAnchor && Erase(Class(c)) == Class(NoByte());
    assert EraseAll(branches) == [EndAnchor, Class(NoByte())];
    assert Erase(EndOr(c)) == Alt(EraseAll(branches));
    assert Erase(Plus(EndOr(c))) == Plus(Erase(EndOr(c)));
    assert m.Plus? && Erase(m) == Plus(Erase(m.inner));
    var inner := m.inner;
    assert Erase(inner) == Alt(EraseAll(branches));
    assert inner.Alt?;
    var bs := inner.branches;
    assert Erase(inner) == Alt(EraseAll(bs));
    FillAllSplit(bs, NoByte());
    FillAllSplit(bs[1..], NoByte());
    assert Erase(bs[0]) == EndAnchor && Erase(bs[1]) == Class(NoByte());
    assert bs[0] == EndAnchor && bs[1].Class?;
    d := bs[1].bits;
    assert bs == [EndAnchor, Class(d)];
  }
}

/** Being orderly is exact, loop by loop: on the other loops the matchers differ for some byte classes. */
module Exact {
  import opened Wrappers
  import opened Ast
  import opened Syntax
  import opened Semantics
  import opened Naive
  import opened Program
  import opened Paths
  import opened Closure
  import opened Threads
  import opened Blocked
  import opened Tail
  import opened Paint
  import opened Engines
  import opened Witness

  /** Whatever its byte classes are, the backtracker and the machine give the same spans for the pattern, on every input. */
  ghost predicate AlwaysAgree(n: Node) {
    forall m: Node, input: seq<Byte> {:trigger NaiveSpans(m, input)} ::
      SameShape(m, n) ==> NaiveSpans(m, input) == PikeSpans(m, input)
  }

  /** So it is with every `*` and every `+` in the pattern, taken by itself. */
  ghost predicate LoopsAgree(n: Node)
    decreases n
  {
    match n
    case Empty | Class(_) | StartAnchor | EndAnchor => true
    case Concat(parts) => AllLoopsAgree(parts)
    case Alt(branches) => AllLoopsAgree(branches)
    case Star(inner) => AlwaysAgree(n) && LoopsAgree(inner)
    case Plus(inner) => AlwaysAgree(n) && LoopsAgree(inner)
    case Quest(inner) => LoopsAgree(inner)
  }

  ghost predicate AllLoopsAgree(ns: seq<Node>)
    decreases ns
  {
    ns == [] || (LoopsAgree(ns[0]) && AllLoopsAgree(ns[1..]))
  }

  /** An orderly pattern agrees with any classes. */
  lemma OrderlyAlwaysAgree(n: Node)
    requires WellFormed(n) && Orderly(n)
    ensures AlwaysAgree(n)
  {
    hide WellFormed, Orderly, NaiveSpans, PikeSpans, SameShape;
    forall m: Node, input: seq<Byte> {:trigger NaiveSpans(m, input)} | SameShape(m, n)
      ensures NaiveSpans(m, input) == PikeSpans(m, input)
    {
      ShapeKeeps(m, n);
      ShapeOrder(m, n);
      OrderlySpansAgree(m, input);
    }
  }

  /**
   A loop around an orderly body agrees, whatever the byte classes, exactly when the body
   tries the empty match as late as the loop needs.
   */
  lemma LoopExact(inner: Node)
    requires WellFormed(inner) && !HasAnchors(inner) && Orderly(inner)
    ensures AlwaysAgree(Star(inner)) <==> Front(inner)
    ensures AlwaysAgree(Plus(inner)) <==> Last(inner)
  {
    if Front(inner) {
      OrderlyAlwaysAgree(Star(inner));
    } else {
      StarDisagrees(inner);
    }
    if Last(inner) {
      OrderlyAlwaysAgree(Plus(inner));
    } else {
      PlusDisagrees(inner);
    }
  }

  lemma StarDisagrees(inner: Node)
    requires WellFormed(inner) && !HasAnchors(inner) && !Front(inner)
    ensures !AlwaysAgree(Star(inner))
  {
    hide SameShape, WellFormed, Front, NaiveSpans, PikeSpans, Leftmost, LeftmostEnd, Compile;
    var input := StarDiffers(inner);
    CompileWellFormed(MixedStar(inner));
    DifferenceShows(MixedStar(inner), input);
  }

  lemma PlusDisagrees(inner: Node)
    requires WellFormed(inner) && !HasAnchors(inner) && !Last(inner)
    ensures !AlwaysAgree(Plus(inner))
  {
    hide SameShape, WellFormed, Last, NaiveSpans, PikeSpans, Leftmost, LeftmostEnd, Compile;
    var input := PlusDiffers(inner);
    CompileWellFormed(LatePlus(inner));
    DifferenceShows(LatePlus(inner), input);
  }

  /** An anchor-free pattern is orderly exactly when the searches always agree on each of its loops. */
  lemma {:induction false} OrderlyExact(n: Node)
    requires WellFormed(n) && !HasAnchors(n)
    ensures Orderly(n) <==> LoopsAgree(n)
    decreases n, 0
  {
    hide AlwaysAgree, Front, Last;
    match n
    case Empty | Class(_) =>
    case Concat(parts) => AllOrderlyExact(parts);
    case Alt(branches) => AllOrderlyExact(branches);
    case Star(inner) =>
      OrderlyExact(inner);
      if Orderly(inner) {
        LoopExact(inner);
      }
    case Plus(inner) =>
      OrderlyExact(inner);
      if Orderly(inner) {
        LoopExact(inner);
      }
    case Quest(inner) => OrderlyExact(inner);
  }

  lemma {:induction false} AllOrderlyExact(ns: seq<Node>)
    requires AllWellFormed(ns) && !AnyHasAnchors(ns)
    ensures AllOrderly(ns) <==> AllLoopsAgree(ns)
    decreases ns, 0
  {
    if ns != [] {
      OrderlyExact(ns[0]);
      AllOrderlyExact(ns[1..]);
    }
  }

  // ----- why loop by loop -----

  /** Behind a branch that always matches empty a loop is never tried: the whole always agrees, orderly or not. */
  lemma MaskedAgrees(n: Node)
    ensures AlwaysAgree(Alt([Empty, n])) && (Orderly(Alt([Empty, n])) <==> Orderly(n))
  {
    hide NaiveSpans, PikeSpans, Leftmost, LeftmostEnd, Compile, SameShape;
    TwoBranches(n);
    forall m: Node, input: seq<Byte> {:trigger NaiveSpans(m, input)} | SameShape(m, Alt([Empty, n]))
      ensures NaiveSpans(m, input) == PikeSpans(m, input)
    {
      var l := MaskedShape(m, n);
      CompileWellFormed(m);
      forall s: nat | s <= |input| ensures Leftmost(Compile(m), input, s) == LeftmostEnd(m, input, s) {
        MaskedFrom(l, input, s);
      }
      SameSearchSameSpans(m, input);
    }
  }

  lemma TwoBranches(n: Node)
    ensures Orderly(Alt([Empty, n])) <==> Orderly(n)
  {
    var branches := [Empty, n];
    assert branches[1..] == [n] && [n][1..] == [];
    assert AllOrderly([n]) <==> Orderly(n);
    assert AllOrderly(branches) <==> AllOrderly([n]);
  }

  lemma MaskedShape(m: Node, n: Node) returns (l: Node)
    requires SameShape(m, Alt([Empty, n]))
    ensures m == Alt([Empty, l])
  {
    var branches := [Empty, n];
    FillAllSplit(branches, NoByte());
    assert m.Alt? && |EraseAll(m.branches)| == 2;
    FillAllSplit(m.branches, NoByte());
    l := m.branches[1];
    assert m.branches == [Empty, l];
  }

  lemma MaskedFrom(n: Node, input: seq<Byte>, scan: nat)
    ensures AgreeFrom(Alt([Empty, n]), input, scan)
  {
    var alt, branches := Alt([Empty, n]), [Empty, n];
    CompileWellFormed(alt);
    if scan <= |input| {
      MaskedWorth(n, input, scan);
      assert branches[1..] == [n];
      assert AltEnds(branches, input, scan) == Ends(Empty, input, scan) + AltEnds([n], input, scan);
      assert PreferredEnd(alt, input, scan) == Some(scan);
    }
  }

  lemma MaskedPlaced(n: Node)
    ensures var prog, end := Compile(Alt([Empty, n])), Size(Alt([Empty, n]));
            |prog| == end + 1 && 2 <= end && prog[0] == Split(1, 2) && prog[1] == Jmp(end) && prog[end].Match?
  {
    var alt, branches := Alt([Empty, n]), [Empty, n];
    CompilePlaced(alt);
    assert Size(branches[0]) == 0 && |branches| == 2;
    assert AltPlaced(Compile(alt), branches, 0, AltSize(branches));
  }

  lemma MaskedWorth(n: Node, input: seq<Byte>, pos: nat)
    requires pos <= |input|
    ensures var prog := Compile(Alt([Empty, n]));
            WellFormedProgram(prog) && WorthFrom(prog, input, 0, pos) == Some(pos)
  {
    var prog, end := Compile(Alt([Empty, n])), Size(Alt([Empty, n]));
    CompileWellFormed(Alt([Empty, n]));
    MaskedPlaced(n);
    hide Visit, Compile, Size;
    SplitWorth(prog, input, 0, 1, 2, pos);
    OneSuccessorAvoiding(prog, input, 1, end, pos, {0});
    VisitOne(prog, ModeAt(input, pos), end, {0});
    assert Worth(prog, input, [end], pos) == Some(pos);
  }
}

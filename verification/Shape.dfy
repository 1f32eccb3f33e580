/** The shape of a pattern does not decide whether the machine and the backtracker agree on it. */
module Shape {
  import opened Wrappers
  import opened Ast
  import opened Syntax
  import opened Semantics
  import opened Naive
  import opened Program
  import opened Threads
  import opened PikeCorrectness
  import opened Tail
  import opened Paint
  import opened Priority
  import opened Disorder

  /** From each start the pattern has at most one match. */
  ghost predicate UniqueEnds(ast: Node, input: seq<Byte>) {
    forall i: nat, j: nat, k: nat :: Matches(ast, input, i, j) && Matches(ast, input, i, k) ==> j == k
  }

  /** With nothing to choose between, the machine and the backtracker agree. */
  lemma UniqueEndsAgree(ast: Node, input: seq<Byte>, scan: nat)
    requires WellFormed(ast) && UniqueEnds(ast, input)
    ensures WellFormedProgram(Compile(ast))
    ensures Leftmost(Compile(ast), input, scan) == LeftmostEnd(ast, input, scan)
  {
    hide Leftmost, LeftmostEnd, Matches, WellFormed, Compile, WellFormedProgram;
    StartsAgree(ast, input, scan);
  }

  /** Every shape has a pattern on which the two agree, whatever the input. */
  lemma EveryShapeCanAgree(n: Node, input: seq<Byte>, scan: nat)
    requires WellFormed(n)
    ensures SameShape(Erase(n), n) && WellFormed(Erase(n))
    ensures WellFormedProgram(Compile(Erase(n)))
    ensures Leftmost(Compile(Erase(n)), input, scan) == LeftmostEnd(Erase(n), input, scan)
  {
    FillTwice(n, NoByte(), NoByte());
    FillKeeps(n, NoByte());
    FillInert(n, NoByte());
    hide Leftmost, LeftmostEnd, Matches, WellFormed, Compile, WellFormedProgram, Erase;
    forall i: nat, j: nat, k: nat | Matches(Erase(n), input, i, j) && Matches(Erase(n), input, i, k) ensures j == k {
      InertStays(Erase(n), input, i, j);
      InertStays(Erase(n), input, i, k);
    }
    UniqueEndsAgree(Erase(n), input, scan);
  }

  /** Two patterns of one shape: on one the machine and the backtracker disagree, on the other never. */
  lemma ShapeDoesNotDecide()
    ensures SameShape(Erase(STAR), STAR) && WellFormedProgram(Compile(STAR)) && WellFormedProgram(Compile(Erase(STAR)))
    ensures Leftmost(Compile(STAR), [A, B], 0) != LeftmostEnd(STAR, [A, B], 0)
    ensures forall input: seq<Byte>, scan: nat ::
      Leftmost(Compile(Erase(STAR)), input, scan) == LeftmostEnd(Erase(STAR), input, scan)
  {
    DisorderMatters();
    Disorderly();
    FillTwice(STAR, NoByte(), NoByte());
    hide Leftmost, LeftmostEnd, WellFormed, Compile, WellFormedProgram, Erase;
    EveryShapeCanAgree(STAR, [], 0);
    forall input: seq<Byte>, scan: nat
      ensures Leftmost(Compile(Erase(STAR)), input, scan) == LeftmostEnd(Erase(STAR), input, scan)
    {
      EveryShapeCanAgree(STAR, input, scan);
    }
  }
}

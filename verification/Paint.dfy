/**
 Patterns of one shape: the same tree with other byte classes.

 And, for a loop body that tries the empty match too early, byte classes that show it:
 one byte for what is tried too late, and one for what has to be consumed before.
 */
module Paint {
  import opened Ast
  import opened Syntax
  import opened Semantics
  import opened Program
  import opened Tail

  const A: Byte := 97
  const B: Byte := 98

  /** The pattern with every byte class replaced. */
  function Fill(n: Node, c: ByteClass): Node
    decreases n
  {
    match n
    case Empty | StartAnchor | EndAnchor => n
    case Class(_) => Class(c)
    case Concat(parts) => Concat(FillAll(parts, c))
    case Alt(branches) => Alt(FillAll(branches, c))
    case Star(inner) => Star(Fill(inner, c))
    case Plus(inner) => Plus(Fill(inner, c))
    case Quest(inner) => Quest(Fill(inner, c))
  }

  function FillAll(ns: seq<Node>, c: ByteClass): (filled: seq<Node>)
    ensures |filled| == |ns|
    decreases ns
  {
    if ns == [] then [] else [Fill(ns[0], c)] + FillAll(ns[1..], c)
  }

  /** The pattern with classes that accept nothing. */
  function Erase(n: Node): Node {
    Fill(n, NoByte())
  }

  function EraseAll(ns: seq<Node>): seq<Node> {
    FillAll(ns, NoByte())
  }

  /** The patterns differ only in their classes. */
  predicate SameShape(m: Node, n: Node) {
    Erase(m) == Erase(n)
  }

  predicate SameShapes(ms: seq<Node>, ns: seq<Node>) {
    EraseAll(ms) == EraseAll(ns)
  }

  lemma FillAllSplit(ns: seq<Node>, c: ByteClass)
    requires ns != []
    ensures FillAll(ns, c)[0] == Fill(ns[0], c) && FillAll(ns, c)[1..] == FillAll(ns[1..], c)
  {
  }

  lemma {:induction false} FillTwice(n: Node, c: ByteClass, d: ByteClass)
    ensures Fill(Fill(n, c), d) == Fill(n, d)
    decreases n, 0
  {
    match n
    case Empty | Class(_) | StartAnchor | EndAnchor =>
    case Concat(parts) => FillAllTwice(parts, c, d);
    case Alt(branches) => FillAllTwice(branches, c, d);
    case Star(inner) => FillTwice(inner, c, d);
    case Plus(inner) => FillTwice(inner, c, d);
    case Quest(inner) => FillTwice(inner, c, d);
  }

  lemma {:induction false} FillAllTwice(ns: seq<Node>, c: ByteClass, d: ByteClass)
    ensures FillAll(FillAll(ns, c), d) == FillAll(ns, d)
    decreases ns, 0
  {
    if ns != [] {
      FillTwice(ns[0], c, d);
      FillAllTwice(ns[1..], c, d);
      FillAllSplit(ns, c);
    }
  }

  /** What the shape alone decides. */
  lemma {:induction false} FillKeeps(n: Node, c: ByteClass)
    ensures Nullable(Fill(n, c)) == Nullable(n) && HasAnchors(Fill(n, c)) == HasAnchors(n)
    ensures WellFormed(Fill(n, c)) == WellFormed(n) && Size(Fill(n, c)) == Size(n)
    decreases n, 0
  {
    match n
    case Empty | Class(_) | StartAnchor | EndAnchor =>
    case Concat(parts) => FillAllKeeps(parts, c);
    case Alt(branches) => FillAllKeeps(branches, c);
    case Star(inner) => FillKeeps(inner, c);
    case Plus(inner) => FillKeeps(inner, c);
    case Quest(inner) => FillKeeps(inner, c);
  }

  lemma {:induction false} FillAllKeeps(ns: seq<Node>, c: ByteClass)
    ensures AllNullable(FillAll(ns, c)) == AllNullable(ns) && AnyNullable(FillAll(ns, c)) == AnyNullable(ns)
    ensures AnyHasAnchors(FillAll(ns, c)) == AnyHasAnchors(ns) && AllWellFormed(FillAll(ns, c)) == AllWellFormed(ns)
    ensures SeqSize(FillAll(ns, c)) == SeqSize(ns) && AltSize(FillAll(ns, c)) == AltSize(ns)
    decreases ns, 0
  {
    if ns != [] {
      FillKeeps(ns[0], c);
      FillAllKeeps(ns[1..], c);
      FillAllSplit(ns, c);
    }
  }

  /** Patterns of one shape are nullable, anchored, well formed and sized alike. */
  lemma ShapeKeeps(m: Node, n: Node)
    requires SameShape(m, n)
    ensures Nullable(m) == Nullable(n) && HasAnchors(m) == HasAnchors(n)
    ensures WellFormed(m) == WellFormed(n) && Size(m) == Size(n)
  {
    FillKeeps(m, NoByte());
    FillKeeps(n, NoByte());
  }

  lemma {:induction false} FillOrder(n: Node, c: ByteClass)
    ensures HasByte(Fill(n, c)) == HasByte(n) && Last(Fill(n, c)) == Last(n) && Front(Fill(n, c)) == Front(n)
    ensures Orderly(Fill(n, c)) == Orderly(n)
    decreases n, 0
  {
    FillKeeps(n, c);
    match n
    case Empty | Class(_) | StartAnchor | EndAnchor =>
    case Concat(parts) => FillAllOrder(parts, c);
    case Alt(branches) => FillAllOrder(branches, c);
    case Star(inner) => FillOrder(inner, c);
    case Plus(inner) => FillOrder(inner, c);
    case Quest(inner) => FillOrder(inner, c);
  }

  lemma {:induction false} FillAllOrder(ns: seq<Node>, c: ByteClass)
    ensures AnyHasByte(FillAll(ns, c)) == AnyHasByte(ns) && AllLast(FillAll(ns, c)) == AllLast(ns)
    ensures LastBranches(FillAll(ns, c)) == LastBranches(ns) && FrontParts(FillAll(ns, c)) == FrontParts(ns)
    ensures AllFront(FillAll(ns, c)) == AllFront(ns) && AllOrderly(FillAll(ns, c)) == AllOrderly(ns)
    decreases ns, 0
  {
    hide Fill, Nullable, HasByte, Last, Front, Orderly;
    if ns != [] {
      FillKeeps(ns[0], c);
      FillOrder(ns[0], c);
      FillAllOrder(ns[1..], c);
      FillAllSplit(ns, c);
    }
  }

  /** The shape alone decides whether a pattern is orderly. */
  lemma ShapeOrder(m: Node, n: Node)
    requires SameShape(m, n)
    ensures Orderly(m) == Orderly(n)
  {
    FillOrder(m, NoByte());
    FillOrder(n, NoByte());
  }

  lemma {:induction false} FillInert(n: Node, c: ByteClass)
    requires forall x: Byte :: !c[x]
    ensures Inert(Fill(n, c))
    decreases n, 0
  {
    match n
    case Empty | Class(_) | StartAnchor | EndAnchor =>
    case Concat(parts) => FillAllInert(parts, c);
    case Alt(branches) => FillAllInert(branches, c);
    case Star(inner) => FillInert(inner, c);
    case Plus(inner) => FillInert(inner, c);
    case Quest(inner) => FillInert(inner, c);
  }

  lemma {:induction false} FillAllInert(ns: seq<Node>, c: ByteClass)
    requires forall x: Byte :: !c[x]
    ensures AllInert(FillAll(ns, c))
    decreases ns, 0
  {
    if ns != [] {
      FillInert(ns[0], c);
      FillAllInert(ns[1..], c);
      FillAllSplit(ns, c);
    }
  }

  // ----- classes that show a body trying the empty match before a byte -----

  /**
   For a pattern that does not try the empty match last: the branches behind the first
   nullable one accept `b`, everything else accepts nothing.
   */
  function Late(n: Node, b: ByteClass): Node
    requires !Last(n)
    decreases n
  {
    match n
    case Concat(parts) => Concat(LateParts(parts, b))
    case Alt(branches) => Alt(LateBranches(branches, b))
    case Quest(inner) => Quest(Late(inner, b))
    case _ => n
  }

  function LateParts(parts: seq<Node>, b: ByteClass): (late: seq<Node>)
    requires !AllLast(parts)
    ensures |late| == |parts|
    decreases parts
  {
    if !Last(parts[0]) then [Late(parts[0], b)] + EraseAll(parts[1..])
    else [Erase(parts[0])] + LateParts(parts[1..], b)
  }

  /** The first nullable branch has a byte behind it. */
  predicate EndsEarly(branches: seq<Node>) {
    branches != [] && Nullable(branches[0]) && AnyHasByte(branches[1..])
  }

  function LateBranches(branches: seq<Node>, b: ByteClass): (late: seq<Node>)
    requires !LastBranches(branches)
    ensures |late| == |branches|
    decreases branches
  {
    if EndsEarly(branches) then [Erase(branches[0])] + FillAll(branches[1..], b)
    else if Nullable(branches[0]) && !Last(branches[0]) then [Late(branches[0], b)] + EraseAll(branches[1..])
    else [Erase(branches[0])] + LateBranches(branches[1..], b)
  }

  /** For a body that tries the empty match too early after a byte: that byte is `a`, and then `b` is tried too late. */
  function Mixed(n: Node, a: ByteClass, b: ByteClass): Node
    requires !Front(n)
    decreases n
  {
    match n
    case Concat(parts) => Concat(MixedParts(parts, a, b))
    case Alt(branches) => Alt(MixedBranches(branches, a, b))
    case Quest(inner) => Quest(Mixed(inner, a, b))
    case _ => n
  }

  function MixedParts(parts: seq<Node>, a: ByteClass, b: ByteClass): (mixed: seq<Node>)
    requires !FrontParts(parts)
    ensures |mixed| == |parts|
    decreases parts
  {
    if !Front(parts[0]) then [Mixed(parts[0], a, b)] + EraseAll(parts[1..])
    else if HasByte(parts[0]) then [Fill(parts[0], a)] + LateParts(parts[1..], b)
    else [Erase(parts[0])] + MixedParts(parts[1..], a, b)
  }

  function MixedBranches(branches: seq<Node>, a: ByteClass, b: ByteClass): (mixed: seq<Node>)
    requires !AllFront(branches)
    ensures |mixed| == |branches|
    decreases branches
  {
    if !Front(branches[0]) then [Mixed(branches[0], a, b)] + EraseAll(branches[1..])
    else [Erase(branches[0])] + MixedBranches(branches[1..], a, b)
  }

  lemma SameShapesCons(m: Node, ms: seq<Node>, n: Node, ns: seq<Node>)
    requires SameShape(m, n) && SameShapes(ms, ns)
    ensures SameShapes([m] + ms, [n] + ns)
  {
    FillAllSplit([m] + ms, NoByte());
    FillAllSplit([n] + ns, NoByte());
    assert ([m] + ms)[1..] == ms && ([n] + ns)[1..] == ns;
  }

  lemma {:induction false} LateShape(n: Node, b: ByteClass)
    requires !Last(n)
    ensures SameShape(Late(n, b), n)
    decreases n, 0
  {
    match n
    case Concat(parts) => LatePartsShape(parts, b);
    case Alt(branches) => LateBranchesShape(branches, b);
    case Quest(inner) => LateShape(inner, b);
    case _ =>
  }

  lemma {:induction false} LatePartsShape(parts: seq<Node>, b: ByteClass)
    requires !AllLast(parts)
    ensures SameShapes(LateParts(parts, b), parts)
    decreases parts, 0
  {
    var rest := parts[1..];
    assert parts == [parts[0]] + rest;
    if !Last(parts[0]) {
      LateShape(parts[0], b);
      FillAllTwice(rest, NoByte(), NoByte());
      SameShapesCons(Late(parts[0], b), EraseAll(rest), parts[0], rest);
    } else {
      FillTwice(parts[0], NoByte(), NoByte());
      LatePartsShape(rest, b);
      SameShapesCons(Erase(parts[0]), LateParts(rest, b), parts[0], rest);
    }
  }

  lemma {:induction false} LateBranchesShape(branches: seq<Node>, b: ByteClass)
    requires !LastBranches(branches)
    ensures SameShapes(LateBranches(branches, b), branches)
    decreases branches, 0
  {
    var rest := branches[1..];
    assert branches == [branches[0]] + rest;
    FillTwice(branches[0], NoByte(), NoByte());
    if EndsEarly(branches) {
      FillAllTwice(rest, b, NoByte());
      SameShapesCons(Erase(branches[0]), FillAll(rest, b), branches[0], rest);
    } else if Nullable(branches[0]) && !Last(branches[0]) {
      LateShape(branches[0], b);
      FillAllTwice(rest, NoByte(), NoByte());
      SameShapesCons(Late(branches[0], b), EraseAll(rest), branches[0], rest);
    } else {
      LateBranchesShape(rest, b);
      SameShapesCons(Erase(branches[0]), LateBranches(rest, b), branches[0], rest);
    }
  }

  lemma {:induction false} MixedShape(n: Node, a: ByteClass, b: ByteClass)
    requires !Front(n)
    ensures SameShape(Mixed(n, a, b), n)
    decreases n, 0
  {
    match n
    case Concat(parts) => MixedPartsShape(parts, a, b);
    case Alt(branches) => MixedBranchesShape(branches, a, b);
    case Quest(inner) => MixedShape(inner, a, b);
    case _ =>
  }

  lemma {:induction false} MixedPartsShape(parts: seq<Node>, a: ByteClass, b: ByteClass)
    requires !FrontParts(parts)
    ensures SameShapes(MixedParts(parts, a, b), parts)
    decreases parts, 0
  {
    var rest := parts[1..];
    assert parts == [parts[0]] + rest;
    if !Front(parts[0]) {
      MixedShape(parts[0], a, b);
      FillAllTwice(rest, NoByte(), NoByte());
      SameShapesCons(Mixed(parts[0], a, b), EraseAll(rest), parts[0], rest);
    } else if HasByte(parts[0]) {
      FillTwice(parts[0], a, NoByte());
      LatePartsShape(rest, b);
      SameShapesCons(Fill(parts[0], a), LateParts(rest, b), parts[0], rest);
    } else {
      FillTwice(parts[0], NoByte(), NoByte());
      MixedPartsShape(rest, a, b);
      SameShapesCons(Erase(parts[0]), MixedParts(rest, a, b), parts[0], rest);
    }
  }

  lemma {:induction false} MixedBranchesShape(branches: seq<Node>, a: ByteClass, b: ByteClass)
    requires !AllFront(branches)
    ensures SameShapes(MixedBranches(branches, a, b), branches)
    decreases branches, 0
  {
    var rest := branches[1..];
    assert branches == [branches[0]] + rest;
    if !Front(branches[0]) {
      MixedShape(branches[0], a, b);
      FillAllTwice(rest, NoByte(), NoByte());
      SameShapesCons(Mixed(branches[0], a, b), EraseAll(rest), branches[0], rest);
    } else {
      FillTwice(branches[0], NoByte(), NoByte());
      MixedBranchesShape(rest, a, b);
      SameShapesCons(Erase(branches[0]), MixedBranches(rest, a, b), branches[0], rest);
    }
  }

  lemma {:induction false} NotLastHasByte(n: Node)
    requires !Last(n)
    ensures HasByte(n)
    decreases n, 0
  {
    match n
    case Concat(parts) => NotLastPartHasByte(parts);
    case Alt(branches) => NotLastBranchHasByte(branches);
    case Quest(inner) => NotLastHasByte(inner);
    case _ =>
  }

  lemma {:induction false} NotLastPartHasByte(parts: seq<Node>)
    requires !AllLast(parts)
    ensures AnyHasByte(parts)
    decreases parts, 0
  {
    if !Last(parts[0]) {
      NotLastHasByte(parts[0]);
    } else {
      NotLastPartHasByte(parts[1..]);
    }
  }

  /** Only behind a branch that is not nullable is the early end looked for further on. */
  lemma {:induction false} NotLastBranchHasByte(branches: seq<Node>)
    requires !LastBranches(branches)
    ensures AnyHasByte(branches)
    ensures !EndsEarly(branches) && !(Nullable(branches[0]) && !Last(branches[0])) ==>
      !Nullable(branches[0]) && !LastBranches(branches[1..])
    decreases branches, 0
  {
    if Nullable(branches[0]) && !Last(branches[0]) {
      NotLastHasByte(branches[0]);
    } else if !EndsEarly(branches) {
      NotLastBranchHasByte(branches[1..]);
    }
  }
}

/** Patterns and spans: the data every matcher shares. */
module Ast {
  type Byte = b: int | 0 <= b < 256

  /** A predicate over one byte, as a 256-entry membership table. */
  type ByteClass = bits: seq<bool> | |bits| == 256 witness seq(256, _ => false)

  datatype Span = Span(start: nat, end: nat)

  /** The text stands in the input at `i`. */
  predicate StandsAt(input: seq<Byte>, i: nat, text: seq<Byte>) {
    i + |text| <= |input| && input[i..i + |text|] == text
  }

  lemma StandsBoth(input: seq<Byte>, pos: nat, a: seq<Byte>, b: seq<Byte>)
    ensures StandsAt(input, pos, a + b) <==> StandsAt(input, pos, a) && StandsAt(input, pos + |a|, b)
  {
    if pos + |a + b| <= |input| {
      var both := input[pos..pos + |a + b|];
      assert input[pos..pos + |a|] == both[..|a|];
      assert input[pos + |a|..pos + |a| + |b|] == both[|a|..];
      assert both == both[..|a|] + both[|a|..];
    }
  }

  datatype Node =
    | Empty
    | Class(bits: ByteClass)
    | Concat(parts: seq<Node>)
    | Alt(branches: seq<Node>)
    | Star(inner: Node)
    | Plus(inner: Node)
    | Quest(inner: Node)
    | StartAnchor
    | EndAnchor

  /** Whether a match of the pattern can span zero bytes. */
  predicate Nullable(n: Node)
    decreases n
  {
    match n
    case Empty | Star(_) | Quest(_) | StartAnchor | EndAnchor => true
    case Class(_) => false
    case Plus(inner) => Nullable(inner)
    case Concat(parts) => AllNullable(parts)
    case Alt(branches) => AnyNullable(branches)
  }

  predicate AllNullable(ns: seq<Node>)
    decreases ns
  {
    ns == [] || (Nullable(ns[0]) && AllNullable(ns[1..]))
  }

  predicate AnyNullable(ns: seq<Node>)
    decreases ns
  {
    ns != [] && (Nullable(ns[0]) || AnyNullable(ns[1..]))
  }

  /** What the parser guarantees: every alternation has a branch. */
  predicate WellFormed(n: Node)
    decreases n
  {
    match n
    case Empty | Class(_) | StartAnchor | EndAnchor => true
    case Concat(parts) => AllWellFormed(parts)
    case Alt(branches) => branches != [] && AllWellFormed(branches)
    case Star(inner) => WellFormed(inner)
    case Plus(inner) => WellFormed(inner)
    case Quest(inner) => WellFormed(inner)
  }

  predicate AllWellFormed(ns: seq<Node>)
    decreases ns
  {
    ns == [] || (WellFormed(ns[0]) && AllWellFormed(ns[1..]))
  }

  /** No `*` or `+` repeats a body that can match the empty string. */
  predicate NoNullableLoop(n: Node)
    decreases n
  {
    match n
    case Empty | Class(_) | StartAnchor | EndAnchor => true
    case Concat(parts) => AllNoNullableLoop(parts)
    case Alt(branches) => AllNoNullableLoop(branches)
    case Star(inner) => !Nullable(inner) && NoNullableLoop(inner)
    case Plus(inner) => !Nullable(inner) && NoNullableLoop(inner)
    case Quest(inner) => NoNullableLoop(inner)
  }

  predicate AllNoNullableLoop(ns: seq<Node>)
    decreases ns
  {
    ns == [] || (NoNullableLoop(ns[0]) && AllNoNullableLoop(ns[1..]))
  }

  /** Whether the pattern holds a `^` or a `$`. */
  predicate HasAnchors(n: Node)
    decreases n
  {
    match n
    case StartAnchor | EndAnchor => true
    case Empty | Class(_) => false
    case Concat(parts) => AnyHasAnchors(parts)
    case Alt(branches) => AnyHasAnchors(branches)
    case Star(inner) => HasAnchors(inner)
    case Plus(inner) => HasAnchors(inner)
    case Quest(inner) => HasAnchors(inner)
  }

  predicate AnyHasAnchors(ns: seq<Node>)
    decreases ns
  {
    ns != [] && (HasAnchors(ns[0]) || AnyHasAnchors(ns[1..]))
  }
}

/**
 Patterns that prefer the empty match last.

 For them the list of ends may repeat the current position but holds nothing new behind
 it. Hence trying the position last is the same as trying it where the list has it.

 This is what the loops of such patterns need.
 */
module Tail {
  import opened Wrappers
  import opened Ast
  import opened Semantics
  import opened Naive

  /** The pattern holds a byte class. */
  predicate HasByte(n: Node)
    decreases n
  {
    match n
    case Empty | StartAnchor | EndAnchor => false
    case Class(_) => true
    case Concat(parts) => AnyHasByte(parts)
    case Alt(branches) => AnyHasByte(branches)
    case Star(inner) => HasByte(inner)
    case Plus(inner) => HasByte(inner)
    case Quest(inner) => HasByte(inner)
  }

  predicate AnyHasByte(ns: seq<Node>)
    decreases ns
  {
    ns != [] && (HasByte(ns[0]) || AnyHasByte(ns[1..]))
  }

  /** If the pattern can match empty, it tries that last: no byte is tried behind a nullable branch. */
  predicate Last(n: Node)
    decreases n
  {
    !Nullable(n) ||
    match n
    case Concat(parts) => AllLast(parts)
    case Alt(branches) => LastBranches(branches)
    case Quest(inner) => Last(inner)
    case _ => true
  }

  predicate AllLast(ns: seq<Node>)
    decreases ns
  {
    ns == [] || (Last(ns[0]) && AllLast(ns[1..]))
  }

  predicate LastBranches(branches: seq<Node>)
    decreases branches
  {
    branches == [] ||
    ((Nullable(branches[0]) ==> Last(branches[0]) && !AnyHasByte(branches[1..])) && LastBranches(branches[1..]))
  }

  /** If the pattern can match empty, whatever it tries after having consumed something tries the empty match last. */
  predicate Front(n: Node)
    decreases n
  {
    !Nullable(n) ||
    match n
    case Concat(parts) => FrontParts(parts)
    case Alt(branches) => AllFront(branches)
    case Quest(inner) => Front(inner)
    case _ => true
  }

  /** Up to the first part that holds a byte, any order will do; behind it the empty match is tried last. */
  predicate FrontParts(parts: seq<Node>)
    decreases parts
  {
    parts == [] || (Front(parts[0]) && if HasByte(parts[0]) then AllLast(parts[1..]) else FrontParts(parts[1..]))
  }

  predicate AllFront(ns: seq<Node>)
    decreases ns
  {
    ns == [] || (Front(ns[0]) && AllFront(ns[1..]))
  }

  /**
   No `*` or `+` repeats a body that tries the empty match too early. Patterns without a
   nullable repeated body are orderly, and so are `(a*)*` and `(a*|b)*`.
   */
  predicate Orderly(n: Node)
    decreases n
  {
    match n
    case Empty | Class(_) | StartAnchor | EndAnchor => true
    case Concat(parts) => AllOrderly(parts)
    case Alt(branches) => AllOrderly(branches)
    case Star(inner) => Orderly(inner) && Front(inner)
    case Plus(inner) => Orderly(inner) && Last(inner)
    case Quest(inner) => Orderly(inner)
  }

  predicate AllOrderly(ns: seq<Node>)
    decreases ns
  {
    ns == [] || (Orderly(ns[0]) && AllOrderly(ns[1..]))
  }

  lemma {:induction false} NoNullableLoopIsOrderly(n: Node)
    requires NoNullableLoop(n)
    ensures Orderly(n)
    decreases n
  {
    match n
    case Empty | Class(_) | StartAnchor | EndAnchor =>
    case Concat(parts) => AllNoNullableLoopOrderly(parts);
    case Alt(branches) => AllNoNullableLoopOrderly(branches);
    case Star(inner) => NoNullableLoopIsOrderly(inner);
    case Plus(inner) => NoNullableLoopIsOrderly(inner);
    case Quest(inner) => NoNullableLoopIsOrderly(inner);
  }

  lemma {:induction false} AllNoNullableLoopOrderly(ns: seq<Node>)
    requires AllNoNullableLoop(ns)
    ensures AllOrderly(ns)
    decreases ns
  {
    if ns != [] {
      NoNullableLoopIsOrderly(ns[0]);
      AllNoNullableLoopOrderly(ns[1..]);
    }
  }

  /** The branches of an alternation under a `*` may try the empty match in any order, if each may by itself: as in `(a*|b)*`. */
  lemma StarOfBranchesIsOrderly(branches: seq<Node>)
    requires forall k :: 0 <= k < |branches| ==> Orderly(Star(branches[k]))
    ensures Orderly(Star(Alt(branches)))
  {
    BranchesOrderly(branches);
  }

  lemma {:induction false} BranchesOrderly(branches: seq<Node>)
    requires forall k :: 0 <= k < |branches| ==> Orderly(Star(branches[k]))
    ensures AllOrderly(branches) && AllFront(branches)
  {
    if branches != [] {
      assert Orderly(Star(branches[0]));
      BranchesOrderly(branches[1..]);
    }
  }

  /** Trying the empty match last is more than trying it last after something was consumed. */
  lemma {:induction false} LastIsFront(n: Node)
    requires Last(n)
    ensures Front(n)
    decreases n, 0
  {
    if Nullable(n) {
      match n
      case Concat(parts) => AllLastIsFront(parts);
      case Alt(branches) => LastBranchesFront(branches);
      case Quest(inner) => LastIsFront(inner);
      case _ =>
    }
  }

  lemma {:induction false} AllLastIsFront(parts: seq<Node>)
    requires AllLast(parts)
    ensures FrontParts(parts)
    decreases parts, 0
  {
    if parts != [] {
      LastIsFront(parts[0]);
      AllLastIsFront(parts[1..]);
    }
  }

  lemma {:induction false} LastBranchesFront(branches: seq<Node>)
    requires LastBranches(branches)
    ensures AllFront(branches)
    decreases branches, 0
  {
    if branches != [] {
      if Nullable(branches[0]) {
        LastIsFront(branches[0]);
      }
      LastBranchesFront(branches[1..]);
    }
  }

  // ----- patterns that cannot consume -----

  /** Every byte class of the pattern is empty. */
  predicate Inert(n: Node)
    decreases n
  {
    match n
    case Empty | StartAnchor | EndAnchor => true
    case Class(c) => forall b: Byte :: !c[b]
    case Concat(parts) => AllInert(parts)
    case Alt(branches) => AllInert(branches)
    case Star(inner) => Inert(inner)
    case Plus(inner) => Inert(inner)
    case Quest(inner) => Inert(inner)
  }

  predicate AllInert(ns: seq<Node>)
    decreases ns
  {
    ns == [] || (Inert(ns[0]) && AllInert(ns[1..]))
  }

  lemma {:induction false} NoByteInert(n: Node)
    requires !HasByte(n)
    ensures Inert(n)
    decreases n, 0
  {
    match n
    case Empty | StartAnchor | EndAnchor | Class(_) =>
    case Concat(parts) => NoByteAllInert(parts);
    case Alt(branches) => NoByteAllInert(branches);
    case Star(inner) => NoByteInert(inner);
    case Plus(inner) => NoByteInert(inner);
    case Quest(inner) => NoByteInert(inner);
  }

  lemma {:induction false} NoByteAllInert(ns: seq<Node>)
    requires !AnyHasByte(ns)
    ensures AllInert(ns)
    decreases ns, 0
  {
    if ns != [] {
      NoByteInert(ns[0]);
      NoByteAllInert(ns[1..]);
    }
  }

  /** An inert pattern matches only the empty string. */
  lemma {:induction false} InertStays(n: Node, input: seq<Byte>, i: nat, j: nat)
    requires Inert(n) && Matches(n, input, i, j)
    ensures i == j
    decreases n, 0, 0
  {
    match n
    case Empty | Class(_) | StartAnchor | EndAnchor =>
    case Concat(parts) => InertSeqStays(parts, input, i, j);
    case Alt(branches) => InertAnyStays(branches, input, i, j);
    case Star(inner) =>
      assert RepeatsAny(inner, input, i, j);
      var count: nat :| Repeats(inner, input, i, j, count);
      InertRepeatsStay(inner, input, i, j, count);
    case Plus(inner) =>
      var count: nat :| count > 0 && Repeats(inner, input, i, j, count);
      InertRepeatsStay(inner, input, i, j, count);
    case Quest(inner) =>
      if i != j {
        InertStays(inner, input, i, j);
      }
  }

  lemma {:induction false} InertSeqStays(parts: seq<Node>, input: seq<Byte>, i: nat, j: nat)
    requires AllInert(parts) && MatchesSeq(parts, input, i, j)
    ensures i == j
    decreases parts, 0, 0
  {
    if parts != [] {
      var m: nat :| Matches(parts[0], input, i, m) && MatchesSeq(parts[1..], input, m, j);
      InertStays(parts[0], input, i, m);
      InertSeqStays(parts[1..], input, m, j);
    }
  }

  lemma {:induction false} InertAnyStays(branches: seq<Node>, input: seq<Byte>, i: nat, j: nat)
    requires AllInert(branches) && MatchesAny(branches, input, i, j)
    ensures i == j
    decreases branches, 0, 0
  {
    if Matches(branches[0], input, i, j) {
      InertStays(branches[0], input, i, j);
    } else {
      InertAnyStays(branches[1..], input, i, j);
    }
  }

  lemma {:induction false} InertRepeatsStay(inner: Node, input: seq<Byte>, i: nat, j: nat, count: nat)
    requires Inert(inner) && Repeats(inner, input, i, j, count)
    ensures i == j
    decreases inner, 1, count
  {
    if count > 0 {
      var m := FirstRound(inner, input, i, j, count);
      InertStays(inner, input, i, m);
      InertRepeatsStay(inner, input, m, j, count - 1);
    }
  }

  /** The ends of an inert pattern, if any, are its start. */
  lemma InertEnds(n: Node, input: seq<Byte>, pos: nat)
    requires Inert(n) && pos <= |input|
    ensures forall k :: 0 <= k < |Ends(n, input, pos)| ==> Ends(n, input, pos)[k] == pos
  {
    hide Ends, Matches;
    var ends := Ends(n, input, pos);
    forall k | 0 <= k < |ends| ensures ends[k] == pos {
      assert ends[k] in ends;
      EndsExact(n, input, pos, ends[k]);
      InertStays(n, input, pos, ends[k]);
    }
  }

  lemma {:induction false} InertAltEnds(branches: seq<Node>, input: seq<Byte>, pos: nat)
    requires AllInert(branches) && pos <= |input|
    ensures forall k :: 0 <= k < |AltEnds(branches, input, pos)| ==> AltEnds(branches, input, pos)[k] == pos
    decreases branches
  {
    if branches != [] {
      InertEnds(branches[0], input, pos);
      InertAltEnds(branches[1..], input, pos);
    }
  }

  // ----- the first accepted end, split at the current position -----

  /** `f` beyond `pos` only. */
  function Beyond(f: nat -> Option<nat>, pos: nat): nat -> Option<nat> {
    (p: nat) => if p > pos then f(p) else None
  }

  lemma {:induction false} AcceptedSame(f: nat -> Option<nat>, g: nat -> Option<nat>, ps: seq<nat>)
    requires forall i :: 0 <= i < |ps| ==> f(ps[i]) == g(ps[i])
    ensures FirstAccepted(f, ps) == FirstAccepted(g, ps)
  {
    if ps != [] {
      AcceptedSame(f, g, ps[1..]);
    }
  }

  lemma AcceptedOne(f: nat -> Option<nat>, p: nat)
    ensures FirstAccepted(f, [p]) == f(p) && FirstAccepted(f, []) == None
  {
    assert [p][1..] == [];
  }

  lemma BeyondNotHere(f: nat -> Option<nat>, pos: nat)
    ensures FirstAccepted(Beyond(f, pos), [pos]) == None
  {
    AcceptedOne(Beyond(f, pos), pos);
  }

  lemma AllBeyond(f: nat -> Option<nat>, pos: nat, ps: seq<nat>)
    requires forall i :: 0 <= i < |ps| ==> ps[i] > pos
    ensures FirstAccepted(Beyond(f, pos), ps) == FirstAccepted(f, ps)
  {
    AcceptedSame(f, Beyond(f, pos), ps);
  }

  lemma {:induction false} StarFromBeyond(inner: Node, input: seq<Byte>, pos: nat, mids: seq<nat>)
    requires pos <= |input| && Within(mids, pos, |input|)
    ensures forall i :: 0 <= i < |StarFrom(inner, input, pos, mids)| ==> StarFrom(inner, input, pos, mids)[i] > pos
  {
    if mids != [] {
      StarFromBeyond(inner, input, pos, mids[1..]);
    }
  }

  /** A pattern that is not nullable ends beyond its start. */
  lemma NotNullableBeyond(n: Node, input: seq<Byte>, pos: nat)
    requires pos <= |input| && !Nullable(n)
    ensures forall i :: 0 <= i < |Ends(n, input, pos)| ==> Ends(n, input, pos)[i] > pos
  {
    hide Matches, Ends, Nullable;
    var ends := Ends(n, input, pos);
    forall i | 0 <= i < |ends| ensures ends[i] > pos {
      if ends[i] == pos {
        assert pos in ends;
        EndsExact(n, input, pos, pos);
        EmptyMatchNullable(n, input, pos);
      }
    }
  }

  /** `f` at `pos` if `pos` is among the ends. */
  function Here(f: nat -> Option<nat>, ends: seq<nat>, pos: nat): Option<nat> {
    if pos in ends then f(pos) else None
  }

  /** The first accepted end is the first accepted beyond `pos`, or else `pos` itself if it is an end. */
  ghost predicate SplitsAt(f: nat -> Option<nat>, ends: seq<nat>, pos: nat) {
    FirstAccepted(f, ends) == FirstAccepted(Beyond(f, pos), ends).OrElse(Here(f, ends, pos))
  }

  lemma SplitsConcat(f: nat -> Option<nat>, a: seq<nat>, b: seq<nat>, pos: nat)
    requires pos !in a && SplitsAt(f, a, pos) && SplitsAt(f, b, pos)
    ensures SplitsAt(f, a + b, pos)
  {
    FirstAcceptedConcat(f, a, b);
    FirstAcceptedConcat(Beyond(f, pos), a, b);
  }

  lemma {:induction false} OnlyHere(f: nat -> Option<nat>, ps: seq<nat>, pos: nat)
    requires forall k :: 0 <= k < |ps| ==> ps[k] == pos
    ensures FirstAccepted(f, ps) == Here(f, ps, pos) && FirstAccepted(Beyond(f, pos), ps) == None
  {
    if ps != [] {
      OnlyHere(f, ps[1..], pos);
    }
  }

  /** More of the same position behind a list that splits. */
  lemma SplitsThenHere(f: nat -> Option<nat>, a: seq<nat>, b: seq<nat>, pos: nat)
    requires SplitsAt(f, a, pos) && forall k :: 0 <= k < |b| ==> b[k] == pos
    ensures SplitsAt(f, a + b, pos)
  {
    OnlyHere(f, b, pos);
    FirstAcceptedConcat(f, a, b);
    FirstAcceptedConcat(Beyond(f, pos), a, b);
  }

  lemma SplitsThenPos(f: nat -> Option<nat>, a: seq<nat>, pos: nat)
    requires SplitsAt(f, a, pos)
    ensures SplitsAt(f, a + [pos], pos)
  {
    FirstAcceptedConcat(f, a, [pos]);
    FirstAcceptedConcat(Beyond(f, pos), a, [pos]);
  }

  /** A flattened list of ends splits when its outer list does: `h` and `hb` say what the inner lists give. */
  lemma SplitsFlattened(f: nat -> Option<nat>, mids: seq<nat>, here: seq<nat>, all: seq<nat>, pos: nat,
                        h: nat -> Option<nat>, hb: nat -> Option<nat>)
    requires SplitsAt(h, mids, pos) && SplitsAt(hb, mids, pos)
    requires forall i :: 0 <= i < |mids| && mids[i] > pos ==> h(mids[i]) == hb(mids[i])
    requires FirstAccepted(f, all) == FirstAccepted(h, mids)
    requires FirstAccepted(Beyond(f, pos), all) == FirstAccepted(hb, mids)
    requires SplitsAt(f, here, pos)
    requires h(pos) == FirstAccepted(f, here) && hb(pos) == FirstAccepted(Beyond(f, pos), here)
    requires pos in all <==> pos in mids && pos in here
    ensures SplitsAt(f, all, pos)
  {
    AcceptedSame(Beyond(h, pos), Beyond(hb, pos), mids);
  }

  lemma NotNullableSplit(n: Node, input: seq<Byte>, pos: nat, f: nat -> Option<nat>)
    requires pos <= |input| && !Nullable(n)
    ensures SplitsAt(f, Ends(n, input, pos), pos) && pos !in Ends(n, input, pos)
  {
    NotNullableBeyond(n, input, pos);
    AllBeyond(f, pos, Ends(n, input, pos));
  }

  lemma {:induction false} EndsSplit(n: Node, input: seq<Byte>, pos: nat, f: nat -> Option<nat>)
    requires pos <= |input| && Orderly(n) && Last(n)
    ensures SplitsAt(f, Ends(n, input, pos), pos)
    decreases n, 0
  {
    if !Nullable(n) {
      NotNullableSplit(n, input, pos, f);
    } else {
      match n
      case Empty | Class(_) | StartAnchor | EndAnchor =>
      case Concat(parts) => SeqEndsSplit(parts, input, pos, f);
      case Alt(branches) => AltEndsSplit(branches, input, pos, f);
      case Star(inner) => StarEndsSplit(inner, input, pos, f);
      case Plus(inner) => PlusEndsSplit(inner, input, pos, f);
      case Quest(inner) =>
        EndsSplit(inner, input, pos, f);
        SplitsThenPos(f, Ends(inner, input, pos), pos);
    }
  }

  lemma StarEndsSplit(inner: Node, input: seq<Byte>, pos: nat, f: nat -> Option<nat>)
    requires pos <= |input|
    ensures SplitsAt(f, StarEnds(inner, input, pos), pos)
  {
    hide Ends, StarFrom;
    var more := StarFrom(inner, input, pos, Ends(inner, input, pos));
    StarFromBeyond(inner, input, pos, Ends(inner, input, pos));
    AllBeyond(f, pos, more);
    SplitsThenPos(f, more, pos);
  }

  lemma {:induction false} AltEndsSplit(branches: seq<Node>, input: seq<Byte>, pos: nat, f: nat -> Option<nat>)
    requires pos <= |input| && AllOrderly(branches) && LastBranches(branches)
    ensures SplitsAt(f, AltEnds(branches, input, pos), pos)
    decreases branches, 0
  {
    if branches != [] {
      var ends := Ends(branches[0], input, pos);
      if Nullable(branches[0]) {
        EndsSplit(branches[0], input, pos, f);
        NoByteAllInert(branches[1..]);
        InertAltEnds(branches[1..], input, pos);
        SplitsThenHere(f, ends, AltEnds(branches[1..], input, pos), pos);
      } else {
        NotNullableSplit(branches[0], input, pos, f);
        AltEndsSplit(branches[1..], input, pos, f);
        SplitsConcat(f, ends, AltEnds(branches[1..], input, pos), pos);
      }
    }
  }

  /** What a continuation accepts first among the ends of `rest` from a position. */
  function ThenSeq(rest: seq<Node>, input: seq<Byte>, pos: nat, f: nat -> Option<nat>): nat -> Option<nat> {
    (p: nat) => if pos <= p <= |input| then FirstAccepted(f, SeqEnds(rest, input, p)) else None
  }

  lemma {:induction false} SeqEndsSplit(parts: seq<Node>, input: seq<Byte>, pos: nat, f: nat -> Option<nat>)
    requires pos <= |input| && AllOrderly(parts) && AllLast(parts)
    ensures SplitsAt(f, SeqEnds(parts, input, pos), pos)
    decreases parts, 0
  {
    if parts != [] {
      var rest, mids := parts[1..], Ends(parts[0], input, pos);
      var h, hb := ThenSeq(rest, input, pos, f), ThenSeq(rest, input, pos, Beyond(f, pos));
      EndsSplit(parts[0], input, pos, h);
      EndsSplit(parts[0], input, pos, hb);
      SeqEndsSplit(rest, input, pos, f);
      SeqAccepted(rest, input, pos, f, h, mids);
      SeqAccepted(rest, input, pos, Beyond(f, pos), hb, mids);
      forall i | 0 <= i < |mids| && mids[i] > pos ensures h(mids[i]) == hb(mids[i]) {
        AllBeyond(f, pos, SeqEnds(rest, input, mids[i]));
      }
      PosInSeqFrom(rest, input, pos, mids);
      SplitsFlattened(f, mids, SeqEnds(rest, input, pos), SeqFrom(rest, input, pos, mids), pos, h, hb);
    }
  }

  lemma {:induction false} PosInSeqFrom(rest: seq<Node>, input: seq<Byte>, pos: nat, mids: seq<nat>)
    requires pos <= |input| && Within(mids, pos, |input|)
    ensures pos in SeqFrom(rest, input, pos, mids) <==> pos in mids && pos in SeqEnds(rest, input, pos)
  {
    if mids != [] {
      PosInSeqFrom(rest, input, pos, mids[1..]);
      MembersSplit(mids);
      assert pos in SeqFrom(rest, input, pos, mids)
        <==> pos in SeqEnds(rest, input, mids[0]) || pos in SeqFrom(rest, input, pos, mids[1..]);
    }
  }

  /** What a continuation accepts first among the further rounds from a position. */
  function ThenStar(inner: Node, input: seq<Byte>, pos: nat, f: nat -> Option<nat>): nat -> Option<nat> {
    (p: nat) => if pos <= p <= |input| then FirstAccepted(f, StarEnds(inner, input, p)) else None
  }

  lemma {:induction false} PlusEndsSplit(inner: Node, input: seq<Byte>, pos: nat, f: nat -> Option<nat>)
    requires pos <= |input| && Orderly(inner) && Last(inner)
    ensures SplitsAt(f, PlusFrom(inner, input, pos, Ends(inner, input, pos)), pos)
    decreases inner, 1
  {
    hide SplitsAt, PlusFrom, StarEnds, Ends, Beyond, FirstAccepted;
    var mids := Ends(inner, input, pos);
    var h, hb := ThenStar(inner, input, pos, f), ThenStar(inner, input, pos, Beyond(f, pos));
    EndsSplit(inner, input, pos, h);
    EndsSplit(inner, input, pos, hb);
    StarEndsSplit(inner, input, pos, f);
    PlusAccepted(inner, input, pos, f, h, mids);
    PlusAccepted(inner, input, pos, Beyond(f, pos), hb, mids);
    forall i | 0 <= i < |mids| && mids[i] > pos ensures h(mids[i]) == hb(mids[i]) {
      AllBeyond(f, pos, StarEnds(inner, input, mids[i]));
    }
    PosInPlusFrom(inner, input, pos, mids);
    SplitsFlattened(f, mids, StarEnds(inner, input, pos), PlusFrom(inner, input, pos, mids), pos, h, hb);
  }

  lemma {:induction false} PosInPlusFrom(inner: Node, input: seq<Byte>, pos: nat, mids: seq<nat>)
    requires pos <= |input| && Within(mids, pos, |input|)
    ensures pos in PlusFrom(inner, input, pos, mids) <==> pos in mids
    ensures pos in StarEnds(inner, input, pos)
  {
    if mids != [] {
      PosInPlusFrom(inner, input, pos, mids[1..]);
      MembersSplit(mids);
      assert pos in PlusFrom(inner, input, pos, mids)
        <==> pos in StarEnds(inner, input, mids[0]) || pos in PlusFrom(inner, input, pos, mids[1..]);
    }
  }
}

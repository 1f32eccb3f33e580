/** The meaning of a pattern: the slices it matches, and the ends of its matches in order of preference. */
module Semantics {
  import opened Ast

  // ----- the declarative meaning -----

  ghost predicate Matches(n: Node, input: seq<Byte>, i: nat, j: nat)
    decreases n, 0, 0
  {
    match n
    case Empty => i == j
    case Class(c) => i < |input| && c[input[i]] && j == i + 1
    case StartAnchor => i == j == 0
    case EndAnchor => i == j == |input|
    case Concat(parts) => MatchesSeq(parts, input, i, j)
    case Alt(branches) => MatchesAny(branches, input, i, j)
    case Star(inner) => RepeatsAny(inner, input, i, j)
    case Plus(inner) => exists count: nat :: count > 0 && Repeats(inner, input, i, j, count)
    case Quest(inner) => i == j || Matches(inner, input, i, j)
  }

  ghost predicate MatchesSeq(parts: seq<Node>, input: seq<Byte>, i: nat, j: nat)
    decreases parts, 0, 0
  {
    if parts == [] then i == j
    else exists m: nat :: Matches(parts[0], input, i, m) && MatchesSeq(parts[1..], input, m, j)
  }

  ghost predicate MatchesAny(branches: seq<Node>, input: seq<Byte>, i: nat, j: nat)
    decreases branches, 0, 0
  {
    branches != [] && (Matches(branches[0], input, i, j) || MatchesAny(branches[1..], input, i, j))
  }

  /** `count` matches of `inner`, possibly empty ones, one after the other. */
  ghost predicate Repeats(inner: Node, input: seq<Byte>, i: nat, j: nat, count: nat)
    decreases inner, 0, count + 1
  {
    if count == 0 then i == j
    else exists m: nat :: Matches(inner, input, i, m) && Repeats(inner, input, m, j, count - 1)
  }

  ghost predicate RepeatsAny(inner: Node, input: seq<Byte>, i: nat, j: nat)
    decreases inner, 1, 0
  {
    exists count: nat :: Repeats(inner, input, i, j, count)
  }

  // ----- ends in priority order -----

  /** Every position of the list lies in `[lo, hi]`. */
  predicate Within(ps: seq<nat>, lo: nat, hi: nat) {
    forall k :: 0 <= k < |ps| ==> lo <= ps[k] <= hi
  }

  function Ends(n: Node, input: seq<Byte>, i: nat): (ends: seq<nat>)
    requires i <= |input|
    ensures Within(ends, i, |input|)
    decreases n, 0, 0, 0
  {
    match n
    case Empty => [i]
    case Class(c) => if i < |input| && c[input[i]] then [i + 1] else []
    case StartAnchor => if i == 0 then [i] else []
    case EndAnchor => if i == |input| then [i] else []
    case Concat(parts) => SeqEnds(parts, input, i)
    case Alt(branches) => AltEnds(branches, input, i)
    case Star(inner) => StarEnds(inner, input, i)
    case Plus(inner) => PlusFrom(inner, input, i, Ends(inner, input, i))
    case Quest(inner) => Ends(inner, input, i) + [i]
  }

  function SeqEnds(parts: seq<Node>, input: seq<Byte>, i: nat): (ends: seq<nat>)
    requires i <= |input|
    ensures Within(ends, i, |input|)
    decreases parts, 0, 0, 0
  {
    if parts == [] then [i] else SeqFrom(parts[1..], input, i, Ends(parts[0], input, i))
  }

  /** The ends of `rest` from each position of `mids` in turn. */
  function SeqFrom(rest: seq<Node>, input: seq<Byte>, i: nat, mids: seq<nat>): (ends: seq<nat>)
    requires Within(mids, i, |input|)
    ensures Within(ends, i, |input|)
    decreases rest, 1, 0, |mids|
  {
    if mids == [] then [] else SeqEnds(rest, input, mids[0]) + SeqFrom(rest, input, i, mids[1..])
  }

  function AltEnds(branches: seq<Node>, input: seq<Byte>, i: nat): (ends: seq<nat>)
    requires i <= |input|
    ensures Within(ends, i, |input|)
    decreases branches, 0, 0, 0
  {
    if branches == [] then [] else Ends(branches[0], input, i) + AltEnds(branches[1..], input, i)
  }

  /** Greedy repetition: one more progressing round first, then stop here. */
  function StarEnds(inner: Node, input: seq<Byte>, i: nat): (ends: seq<nat>)
    requires i <= |input|
    ensures Within(ends, i, |input|)
    decreases inner, 1 + |input| - i, 1, 0
  {
    StarFrom(inner, input, i, Ends(inner, input, i)) + [i]
  }

  /** More rounds from each position of `mids` that lies beyond `i`. */
  function StarFrom(inner: Node, input: seq<Byte>, i: nat, mids: seq<nat>): (ends: seq<nat>)
    requires i <= |input|
    requires Within(mids, i, |input|)
    ensures Within(ends, i, |input|)
    decreases inner, 1 + |input| - i, 0, |mids|
  {
    if mids == [] then []
    else (if mids[0] > i then StarEnds(inner, input, mids[0]) else []) + StarFrom(inner, input, i, mids[1..])
  }

  function PlusFrom(inner: Node, input: seq<Byte>, i: nat, mids: seq<nat>): (ends: seq<nat>)
    requires i <= |input|
    requires Within(mids, i, |input|)
    ensures Within(ends, i, |input|)
    decreases inner, 2 + |input|, 0, |mids|
  {
    if mids == [] then [] else StarEnds(inner, input, mids[0]) + PlusFrom(inner, input, i, mids[1..])
  }

  // ----- the two meanings agree -----

  lemma NoRounds(inner: Node, input: seq<Byte>, i: nat)
    ensures forall j: nat :: Repeats(inner, input, i, j, 0) <==> i == j
  {
  }

  lemma OneMoreRound(inner: Node, input: seq<Byte>, i: nat, m: nat, j: nat, count: nat)
    requires Matches(inner, input, i, m) && Repeats(inner, input, m, j, count)
    ensures Repeats(inner, input, i, j, count + 1)
  {
  }

  lemma MembersSplit(ms: seq<nat>)
    requires ms != []
    ensures forall m :: m in ms <==> m == ms[0] || m in ms[1..]
  {
    assert ms == [ms[0]] + ms[1..];
  }

  lemma FirstRound(inner: Node, input: seq<Byte>, i: nat, j: nat, count: nat) returns (m: nat)
    requires count > 0 && Repeats(inner, input, i, j, count)
    ensures Matches(inner, input, i, m) && Repeats(inner, input, m, j, count - 1)
  {
    m :| Matches(inner, input, i, m) && Repeats(inner, input, m, j, count - 1);
  }

  /** Matches stay inside the input. */
  lemma {:induction false} MatchesInRange(n: Node, input: seq<Byte>, i: nat, j: nat)
    requires i <= |input| && Matches(n, input, i, j)
    ensures i <= j <= |input|
    decreases n, 0
  {
    match n
    case Empty | Class(_) | StartAnchor | EndAnchor =>
    case Concat(parts) => SeqInRange(parts, input, i, j);
    case Alt(branches) => AnyInRange(branches, input, i, j);
    case Star(inner) =>
      assert RepeatsAny(inner, input, i, j);
      var count: nat :| Repeats(inner, input, i, j, count);
      RepeatsInRange(inner, input, i, j, count);
    case Plus(inner) =>
      var count: nat :| count > 0 && Repeats(inner, input, i, j, count);
      RepeatsInRange(inner, input, i, j, count);
    case Quest(inner) => if i != j { MatchesInRange(inner, input, i, j); }
  }

  lemma {:induction false} SeqInRange(parts: seq<Node>, input: seq<Byte>, i: nat, j: nat)
    requires i <= |input| && MatchesSeq(parts, input, i, j)
    ensures i <= j <= |input|
    decreases parts, 0
  {
    if parts != [] {
      var m: nat :| Matches(parts[0], input, i, m) && MatchesSeq(parts[1..], input, m, j);
      MatchesInRange(parts[0], input, i, m);
      SeqInRange(parts[1..], input, m, j);
    }
  }

  lemma {:induction false} AnyInRange(branches: seq<Node>, input: seq<Byte>, i: nat, j: nat)
    requires i <= |input| && MatchesAny(branches, input, i, j)
    ensures i <= j <= |input|
    decreases branches, 0
  {
    if Matches(branches[0], input, i, j) {
      MatchesInRange(branches[0], input, i, j);
    } else {
      AnyInRange(branches[1..], input, i, j);
    }
  }

  lemma {:induction false} RepeatsInRange(inner: Node, input: seq<Byte>, i: nat, j: nat, count: nat)
    requires i <= |input| && Repeats(inner, input, i, j, count)
    ensures i <= j <= |input|
    decreases inner, count + 1
  {
    if count > 0 {
      var m := FirstRound(inner, input, i, j, count);
      MatchesInRange(inner, input, i, m);
      RepeatsInRange(inner, input, m, j, count - 1);
    }
  }

  /**
   `Ends` lists exactly the declarative matches: the zero-progress guard of the greedy
   loop discards no reachable end.
   */
  lemma {:induction false} EndsExact(n: Node, input: seq<Byte>, i: nat, j: nat)
    requires i <= |input|
    ensures j in Ends(n, input, i) <==> Matches(n, input, i, j)
    decreases n, 0, 0, 0
  {
    match n
    case Empty | Class(_) | StartAnchor | EndAnchor =>
    case Concat(parts) => SeqEndsExact(parts, input, i, j);
    case Alt(branches) => AltEndsExact(branches, input, i, j);
    case Star(inner) => StarEndsExact(inner, input, i, j);
    case Plus(inner) =>
      PlusFromExact(inner, input, i, Ends(inner, input, i), j);
      if m: nat :| m in Ends(inner, input, i) && j in StarEnds(inner, input, m) {
        EndsExact(inner, input, i, m);
        StarEndsExact(inner, input, m, j);
        var count: nat :| Repeats(inner, input, m, j, count);
        assert Repeats(inner, input, i, j, count + 1);
      }
      if count: nat :| count > 0 && Repeats(inner, input, i, j, count) {
        var m := FirstRound(inner, input, i, j, count);
        EndsExact(inner, input, i, m);
        StarEndsExact(inner, input, m, j);
      }
    case Quest(inner) => EndsExact(inner, input, i, j);
  }

  lemma {:induction false} SeqEndsExact(parts: seq<Node>, input: seq<Byte>, i: nat, j: nat)
    requires i <= |input|
    ensures j in SeqEnds(parts, input, i) <==> MatchesSeq(parts, input, i, j)
    decreases parts, 0, 0, 0
  {
    if parts != [] {
      var mids := Ends(parts[0], input, i);
      SeqFromExact(parts[1..], input, i, mids, j);
      forall m: nat ensures m in mids <==> Matches(parts[0], input, i, m) {
        EndsExact(parts[0], input, i, m);
      }
    }
  }

  lemma {:induction false} SeqFromExact(rest: seq<Node>, input: seq<Byte>, i: nat, mids: seq<nat>, j: nat)
    requires Within(mids, i, |input|)
    ensures j in SeqFrom(rest, input, i, mids) <==> exists m :: m in mids && MatchesSeq(rest, input, m, j)
    decreases rest, 1, 0, |mids|
  {
    if mids != [] {
      SeqEndsExact(rest, input, mids[0], j);
      SeqFromExact(rest, input, i, mids[1..], j);
      MembersSplit(mids);
    }
  }

  lemma {:induction false} AltEndsExact(branches: seq<Node>, input: seq<Byte>, i: nat, j: nat)
    requires i <= |input|
    ensures j in AltEnds(branches, input, i) <==> MatchesAny(branches, input, i, j)
    decreases branches, 0, 0, 0
  {
    if branches != [] {
      EndsExact(branches[0], input, i, j);
      AltEndsExact(branches[1..], input, i, j);
    }
  }

  lemma {:induction false} StarEndsExact(inner: Node, input: seq<Byte>, i: nat, j: nat)
    requires i <= |input|
    ensures j in StarEnds(inner, input, i) <==> RepeatsAny(inner, input, i, j)
    decreases inner, 1 + |input| - i, 1, 0
  {
    var mids := Ends(inner, input, i);
    StarFromExact(inner, input, i, mids, j);
    if j == i {
      assert Repeats(inner, input, i, j, 0);
    }
    if m: nat :| m in mids && m > i && RepeatsAny(inner, input, m, j) {
      assert RepeatsAny(inner, input, m, j);
      var count: nat :| Repeats(inner, input, m, j, count);
      EndsExact(inner, input, i, m);
      assert Repeats(inner, input, i, j, count + 1);
    }
    if count: nat :| Repeats(inner, input, i, j, count) {
      if i != j {
        var m, rest := FirstProgress(inner, input, i, j, count);
        EndsExact(inner, input, i, m);
      }
    }
  }

  lemma {:induction false} StarFromExact(inner: Node, input: seq<Byte>, i: nat, mids: seq<nat>, j: nat)
    requires i <= |input|
    requires Within(mids, i, |input|)
    ensures j in StarFrom(inner, input, i, mids)
       <==> exists m :: m in mids && m > i && RepeatsAny(inner, input, m, j)
    decreases inner, 1 + |input| - i, 0, |mids|
  {
    if mids != [] {
      if mids[0] > i {
        StarEndsExact(inner, input, mids[0], j);
      }
      StarFromExact(inner, input, i, mids[1..], j);
      MembersSplit(mids);
    }
  }

  lemma {:induction false} PlusFromExact(inner: Node, input: seq<Byte>, i: nat, mids: seq<nat>, j: nat)
    requires i <= |input|
    requires Within(mids, i, |input|)
    ensures j in PlusFrom(inner, input, i, mids) <==> exists m :: m in mids && j in StarEnds(inner, input, m)
    decreases inner, 2 + |input|, 0, |mids|
  {
    if mids != [] {
      PlusFromExact(inner, input, i, mids[1..], j);
      MembersSplit(mids);
      assert j in PlusFrom(inner, input, i, mids)
        <==> j in StarEnds(inner, input, mids[0]) || j in PlusFrom(inner, input, i, mids[1..]);
    }
  }

  /** Dropping leading empty rounds: a repetition that moves has a first round that moves. */
  lemma {:induction false} FirstProgress(inner: Node, input: seq<Byte>, i: nat, j: nat, count: nat)
    returns (m: nat, rest: nat)
    requires i <= |input| && i != j && Repeats(inner, input, i, j, count)
    ensures i < m && Matches(inner, input, i, m) && Repeats(inner, input, m, j, rest)
    decreases inner, 0, 0, count
  {
    m := FirstRound(inner, input, i, j, count);
    rest := count - 1;
    MatchesInRange(inner, input, i, m);
    if m == i {
      m, rest := FirstProgress(inner, input, i, j, count - 1);
    }
  }

  // ----- what `Nullable` means -----

  /** An empty match somewhere needs a nullable pattern. */
  lemma {:induction false} EmptyMatchNullable(n: Node, input: seq<Byte>, i: nat)
    requires i <= |input| && Matches(n, input, i, i)
    ensures Nullable(n)
    decreases n, 0
  {
    match n
    case Empty | Class(_) | StartAnchor | EndAnchor | Star(_) | Quest(_) =>
    case Concat(parts) => EmptySeqNullable(parts, input, i);
    case Alt(branches) => EmptyAnyNullable(branches, input, i);
    case Plus(inner) =>
      var count: nat :| count > 0 && Repeats(inner, input, i, i, count);
      var m := FirstRound(inner, input, i, i, count);
      MatchesInRange(inner, input, i, m);
      RepeatsInRange(inner, input, m, i, count - 1);
      EmptyMatchNullable(inner, input, i);
  }

  lemma {:induction false} EmptySeqNullable(parts: seq<Node>, input: seq<Byte>, i: nat)
    requires i <= |input| && MatchesSeq(parts, input, i, i)
    ensures AllNullable(parts)
    decreases parts, 0
  {
    if parts != [] {
      var m: nat :| Matches(parts[0], input, i, m) && MatchesSeq(parts[1..], input, m, i);
      MatchesInRange(parts[0], input, i, m);
      SeqInRange(parts[1..], input, m, i);
      EmptyMatchNullable(parts[0], input, i);
      EmptySeqNullable(parts[1..], input, i);
    }
  }

  lemma {:induction false} EmptyAnyNullable(branches: seq<Node>, input: seq<Byte>, i: nat)
    requires i <= |input| && MatchesAny(branches, input, i, i)
    ensures AnyNullable(branches)
    decreases branches, 0
  {
    if Matches(branches[0], input, i, i) {
      EmptyMatchNullable(branches[0], input, i);
    } else {
      EmptyAnyNullable(branches[1..], input, i);
    }
  }

  /** A nullable pattern matches the empty input. */
  lemma {:induction false} NullableMatchesEmpty(n: Node)
    requires Nullable(n)
    ensures Matches(n, [], 0, 0)
    decreases n, 0
  {
    match n
    case Empty | StartAnchor | EndAnchor | Quest(_) =>
    case Concat(parts) => AllNullableMatchEmpty(parts);
    case Alt(branches) => AnyNullableMatchesEmpty(branches);
    case Star(inner) => assert Repeats(inner, [], 0, 0, 0);
    case Plus(inner) =>
      NullableMatchesEmpty(inner);
      assert Repeats(inner, [], 0, 0, 0);
      assert Repeats(inner, [], 0, 0, 1);
  }

  lemma {:induction false} AllNullableMatchEmpty(parts: seq<Node>)
    requires AllNullable(parts)
    ensures MatchesSeq(parts, [], 0, 0)
    decreases parts, 0
  {
    if parts != [] {
      NullableMatchesEmpty(parts[0]);
      AllNullableMatchEmpty(parts[1..]);
    }
  }

  lemma {:induction false} AnyNullableMatchesEmpty(branches: seq<Node>)
    requires AnyNullable(branches)
    ensures MatchesAny(branches, [], 0, 0)
    decreases branches, 0
  {
    if Nullable(branches[0]) {
      NullableMatchesEmpty(branches[0]);
    } else {
      AnyNullableMatchesEmpty(branches[1..]);
    }
  }

  /** `Nullable` is exact: it holds just when some input has an empty match somewhere. */
  lemma NullableExact(n: Node)
    ensures Nullable(n) <==> exists input: seq<Byte>, i: nat :: i <= |input| && Matches(n, input, i, i)
  {
    if Nullable(n) {
      NullableMatchesEmpty(n);
      var none: seq<Byte> := [];
      assert 0 <= |none| && Matches(n, none, 0, 0);
    }
    forall input: seq<Byte>, i: nat | i <= |input| && Matches(n, input, i, i) ensures Nullable(n) {
      EmptyMatchNullable(n, input, i);
    }
  }
}

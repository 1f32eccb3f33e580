/**
 What filled patterns match: runs of one byte.

 And where the loops of the backtracker stop: where the body has no match that moves on.

 Together they say where the backtracker ends on the inputs that tell the searches apart.
 */
module Spells {
  import opened Wrappers
  import opened Ast
  import opened Syntax
  import opened Semantics
  import opened Naive
  import opened Tail
  import opened Paint

  /** `len` bytes from `i` on are accepted by `c`. */
  ghost predicate IsRun(input: seq<Byte>, i: nat, len: nat, c: ByteClass) {
    i + len <= |input| && forall k :: i <= k < i + len ==> c[input[k]]
  }

  /** The pattern matches every run of that length. */
  ghost predicate Spells(n: Node, c: ByteClass, len: nat) {
    forall input: seq<Byte>, i: nat {:trigger IsRun(input, i, len, c)} ::
      IsRun(input, i, len, c) ==> Matches(n, input, i, i + len)
  }

  ghost predicate SeqSpells(parts: seq<Node>, c: ByteClass, len: nat) {
    forall input: seq<Byte>, i: nat {:trigger IsRun(input, i, len, c)} ::
      IsRun(input, i, len, c) ==> MatchesSeq(parts, input, i, i + len)
  }

  ghost predicate AnySpells(branches: seq<Node>, c: ByteClass, len: nat) {
    forall input: seq<Byte>, i: nat {:trigger IsRun(input, i, len, c)} ::
      IsRun(input, i, len, c) ==> MatchesAny(branches, input, i, i + len)
  }

  lemma RunSplit(input: seq<Byte>, i: nat, len0: nat, len1: nat, c: ByteClass)
    requires IsRun(input, i, len0 + len1, c)
    ensures IsRun(input, i, len0, c) && IsRun(input, i + len0, len1, c)
  {
  }

  lemma SeqSpellsCons(n: Node, rest: seq<Node>, c: ByteClass, len0: nat, len1: nat)
    requires Spells(n, c, len0) && SeqSpells(rest, c, len1)
    ensures SeqSpells([n] + rest, c, len0 + len1)
  {
    var parts := [n] + rest;
    assert parts[1..] == rest;
    forall input: seq<Byte>, i: nat {:trigger IsRun(input, i, len0 + len1, c)} | IsRun(input, i, len0 + len1, c)
      ensures MatchesSeq(parts, input, i, i + (len0 + len1))
    {
      RunSplit(input, i, len0, len1, c);
      assert Matches(parts[0], input, i, i + len0) && MatchesSeq(rest, input, i + len0, i + len0 + len1);
    }
  }

  lemma AnySpellsHead(n: Node, rest: seq<Node>, c: ByteClass, len: nat)
    requires Spells(n, c, len)
    ensures AnySpells([n] + rest, c, len)
  {
    assert ([n] + rest)[0] == n;
  }

  lemma AnySpellsRest(n: Node, rest: seq<Node>, c: ByteClass, len: nat)
    requires AnySpells(rest, c, len)
    ensures AnySpells([n] + rest, c, len)
  {
    assert ([n] + rest)[1..] == rest;
  }

  // ----- the empty string -----

  /** Without anchors a nullable pattern matches the empty string anywhere. */
  lemma {:induction false} NullMatch(n: Node, input: seq<Byte>, i: nat)
    requires Nullable(n) && !HasAnchors(n)
    ensures Matches(n, input, i, i)
    decreases n, 0
  {
    match n
    case Empty | Quest(_) =>
    case Concat(parts) => NullMatchSeq(parts, input, i);
    case Alt(branches) => NullMatchAny(branches, input, i);
    case Star(inner) => assert Repeats(inner, input, i, i, 0);
    case Plus(inner) =>
      NullMatch(inner, input, i);
      assert Repeats(inner, input, i, i, 0);
      assert Repeats(inner, input, i, i, 1);
  }

  lemma {:induction false} NullMatchSeq(parts: seq<Node>, input: seq<Byte>, i: nat)
    requires AllNullable(parts) && !AnyHasAnchors(parts)
    ensures MatchesSeq(parts, input, i, i)
    decreases parts, 0
  {
    if parts != [] {
      NullMatch(parts[0], input, i);
      NullMatchSeq(parts[1..], input, i);
    }
  }

  lemma {:induction false} NullMatchAny(branches: seq<Node>, input: seq<Byte>, i: nat)
    requires AnyNullable(branches) && !AnyHasAnchors(branches)
    ensures MatchesAny(branches, input, i, i)
    decreases branches, 0
  {
    if Nullable(branches[0]) {
      NullMatch(branches[0], input, i);
    } else {
      NullMatchAny(branches[1..], input, i);
    }
  }

  lemma NullSpells(n: Node, c: ByteClass)
    requires Nullable(n) && !HasAnchors(n)
    ensures Spells(n, c, 0)
  {
    forall input: seq<Byte>, i: nat {:trigger IsRun(input, i, 0, c)} | IsRun(input, i, 0, c)
      ensures Matches(n, input, i, i + 0)
    {
      NullMatch(n, input, i);
    }
  }

  lemma NullSeqSpells(parts: seq<Node>, c: ByteClass)
    requires AllNullable(parts) && !AnyHasAnchors(parts)
    ensures SeqSpells(parts, c, 0)
  {
    forall input: seq<Byte>, i: nat {:trigger IsRun(input, i, 0, c)} | IsRun(input, i, 0, c)
      ensures MatchesSeq(parts, input, i, i + 0)
    {
      NullMatchSeq(parts, input, i);
    }
  }

  // ----- filled patterns -----

  lemma RoundSpells(inner: Node, c: ByteClass, len: nat)
    requires Spells(inner, c, len)
    ensures Spells(Star(inner), c, len) && Spells(Plus(inner), c, len) && Spells(Quest(inner), c, len)
  {
    forall input: seq<Byte>, i: nat {:trigger IsRun(input, i, len, c)} | IsRun(input, i, len, c)
      ensures Matches(Star(inner), input, i, i + len) && Matches(Plus(inner), input, i, i + len)
      ensures Matches(Quest(inner), input, i, i + len)
    {
      assert Repeats(inner, input, i + len, i + len, 0);
      OneMoreRound(inner, input, i, i + len, i + len, 0);
      assert RepeatsAny(inner, input, i, i + len);
    }
  }

  /** A filled pattern that holds a byte spells a run that is not empty. */
  lemma {:induction false} FillSpells(n: Node, c: ByteClass) returns (len: nat)
    requires WellFormed(n) && !HasAnchors(n)
    ensures Spells(Fill(n, c), c, len) && (HasByte(n) ==> len > 0)
    decreases n, 0
  {
    hide Spells, SeqSpells, AnySpells;
    match n
    case Empty =>
      len := 0;
      NullSpells(Fill(n, c), c);
    case Class(_) =>
      len := 1;
      assert Spells(Class(c), c, 1) by { ClassSpells(c); }
    case Concat(parts) =>
      len := FillSeqSpells(parts, c);
      ConcatSpells(FillAll(parts, c), c, len);
    case Alt(branches) =>
      len := FillAnySpells(branches, c);
      AltSpells(FillAll(branches, c), c, len);
    case Star(inner) =>
      len := FillSpells(inner, c);
      RoundSpells(Fill(inner, c), c, len);
    case Plus(inner) =>
      len := FillSpells(inner, c);
      RoundSpells(Fill(inner, c), c, len);
    case Quest(inner) =>
      len := FillSpells(inner, c);
      RoundSpells(Fill(inner, c), c, len);
  }

  lemma ClassSpells(c: ByteClass)
    ensures Spells(Class(c), c, 1)
  {
  }

  lemma ConcatSpells(parts: seq<Node>, c: ByteClass, len: nat)
    requires SeqSpells(parts, c, len)
    ensures Spells(Concat(parts), c, len)
  {
  }

  lemma AltSpells(branches: seq<Node>, c: ByteClass, len: nat)
    requires AnySpells(branches, c, len)
    ensures Spells(Alt(branches), c, len)
  {
  }

  lemma {:induction false} FillSeqSpells(parts: seq<Node>, c: ByteClass) returns (len: nat)
    requires AllWellFormed(parts) && !AnyHasAnchors(parts)
    ensures SeqSpells(FillAll(parts, c), c, len) && (AnyHasByte(parts) ==> len > 0)
    decreases parts, 0
  {
    hide Spells, SeqSpells;
    if parts == [] {
      len := 0;
      NullSeqSpells([], c);
    } else {
      var len0 := FillSpells(parts[0], c);
      var len1 := FillSeqSpells(parts[1..], c);
      len := len0 + len1;
      SeqSpellsCons(Fill(parts[0], c), FillAll(parts[1..], c), c, len0, len1);
    }
  }

  lemma {:induction false} FillAnySpells(branches: seq<Node>, c: ByteClass) returns (len: nat)
    requires AllWellFormed(branches) && !AnyHasAnchors(branches) && branches != []
    ensures AnySpells(FillAll(branches, c), c, len) && (AnyHasByte(branches) ==> len > 0)
    decreases branches, 0
  {
    hide Spells, AnySpells;
    if HasByte(branches[0]) || |branches| == 1 {
      len := FillSpells(branches[0], c);
      assert AnyHasByte(branches) == (HasByte(branches[0]) || AnyHasByte(branches[1..]));
      AnySpellsHead(Fill(branches[0], c), FillAll(branches[1..], c), c, len);
    } else {
      len := FillAnySpells(branches[1..], c);
      AnySpellsRest(Fill(branches[0], c), FillAll(branches[1..], c), c, len);
    }
  }

  lemma EraseSpells(n: Node, c: ByteClass)
    requires Nullable(n) && !HasAnchors(n)
    ensures Spells(Erase(n), c, 0)
  {
    FillKeeps(n, NoByte());
    NullSpells(Erase(n), c);
  }

  lemma EraseSeqSpells(parts: seq<Node>, c: ByteClass)
    requires AllNullable(parts) && !AnyHasAnchors(parts)
    ensures SeqSpells(EraseAll(parts), c, 0)
  {
    FillAllKeeps(parts, NoByte());
    NullSeqSpells(EraseAll(parts), c);
  }

  // ----- the patterns that show an early end -----

  /** What is tried too late is a run of `b`. */
  lemma {:induction false} LateSpells(n: Node, b: ByteClass) returns (len: nat)
    requires !Last(n) && WellFormed(n) && !HasAnchors(n)
    ensures Spells(Late(n, b), b, len) && len > 0
    decreases n, 0
  {
    hide Spells, SeqSpells, AnySpells;
    match n
    case Concat(parts) =>
      len := LateSeqSpells(parts, b);
      ConcatSpells(LateParts(parts, b), b, len);
    case Alt(branches) =>
      len := LateAnySpells(branches, b);
      AltSpells(LateBranches(branches, b), b, len);
    case Quest(inner) =>
      len := LateSpells(inner, b);
      RoundSpells(Late(inner, b), b, len);
    case _ =>
  }

  lemma {:induction false} LateSeqSpells(parts: seq<Node>, b: ByteClass) returns (len: nat)
    requires !AllLast(parts) && AllNullable(parts) && AllWellFormed(parts) && !AnyHasAnchors(parts)
    ensures SeqSpells(LateParts(parts, b), b, len) && len > 0
    decreases parts, 0
  {
    hide Spells, SeqSpells;
    if !Last(parts[0]) {
      len := LateSpells(parts[0], b);
      EraseSeqSpells(parts[1..], b);
      SeqSpellsCons(Late(parts[0], b), EraseAll(parts[1..]), b, len, 0);
    } else {
      len := LateSeqSpells(parts[1..], b);
      EraseSpells(parts[0], b);
      SeqSpellsCons(Erase(parts[0]), LateParts(parts[1..], b), b, 0, len);
    }
  }

  lemma {:induction false} LateAnySpells(branches: seq<Node>, b: ByteClass) returns (len: nat)
    requires !LastBranches(branches) && AllWellFormed(branches) && !AnyHasAnchors(branches)
    ensures AnySpells(LateBranches(branches, b), b, len) && len > 0
    decreases branches, 0
  {
    hide Spells, AnySpells;
    if EndsEarly(branches) {
      len := FillAnySpells(branches[1..], b);
      AnySpellsRest(Erase(branches[0]), FillAll(branches[1..], b), b, len);
    } else if Nullable(branches[0]) && !Last(branches[0]) {
      len := LateSpells(branches[0], b);
      AnySpellsHead(Late(branches[0], b), EraseAll(branches[1..]), b, len);
    } else {
      NotLastBranchHasByte(branches);
      len := LateAnySpells(branches[1..], b);
      AnySpellsRest(Erase(branches[0]), LateBranches(branches[1..], b), b, len);
    }
  }

  /** A body that is not `Front` spells a run of `a` and a run of `b`. */
  lemma {:induction false} MixedSpells(n: Node, a: ByteClass, b: ByteClass) returns (len: nat, more: nat)
    requires !Front(n) && WellFormed(n) && !HasAnchors(n)
    ensures Spells(Mixed(n, a, b), a, len) && len > 0 && Spells(Mixed(n, a, b), b, more) && more > 0
    decreases n, 0
  {
    hide Spells, SeqSpells, AnySpells;
    match n
    case Concat(parts) =>
      len, more := MixedSeqSpells(parts, a, b);
      ConcatSpells(MixedParts(parts, a, b), a, len);
      ConcatSpells(MixedParts(parts, a, b), b, more);
    case Alt(branches) =>
      len, more := MixedAnySpells(branches, a, b);
      AltSpells(MixedBranches(branches, a, b), a, len);
      AltSpells(MixedBranches(branches, a, b), b, more);
    case Quest(inner) =>
      len, more := MixedSpells(inner, a, b);
      RoundSpells(Mixed(inner, a, b), a, len);
      RoundSpells(Mixed(inner, a, b), b, more);
    case _ =>
  }

  lemma {:induction false} MixedSeqSpells(parts: seq<Node>, a: ByteClass, b: ByteClass) returns (len: nat, more: nat)
    requires !FrontParts(parts) && AllNullable(parts) && AllWellFormed(parts) && !AnyHasAnchors(parts)
    ensures SeqSpells(MixedParts(parts, a, b), a, len) && len > 0 && SeqSpells(MixedParts(parts, a, b), b, more) && more > 0
    decreases parts, 0
  {
    hide Spells, SeqSpells;
    var rest := parts[1..];
    if !Front(parts[0]) {
      len, more := MixedSpells(parts[0], a, b);
      EraseSeqSpells(rest, a);
      EraseSeqSpells(rest, b);
      SeqSpellsCons(Mixed(parts[0], a, b), EraseAll(rest), a, len, 0);
      SeqSpellsCons(Mixed(parts[0], a, b), EraseAll(rest), b, more, 0);
    } else if HasByte(parts[0]) {
      len := FillSpells(parts[0], a);
      more := LateSeqSpells(rest, b);
      FillKeeps(parts[0], a);
      NullSpells(Fill(parts[0], a), b);
      LatePartsShape(rest, b);
      ShapesKeep(LateParts(rest, b), rest);
      NullSeqSpells(LateParts(rest, b), a);
      SeqSpellsCons(Fill(parts[0], a), LateParts(rest, b), a, len, 0);
      SeqSpellsCons(Fill(parts[0], a), LateParts(rest, b), b, 0, more);
    } else {
      len, more := MixedSeqSpells(rest, a, b);
      EraseSpells(parts[0], a);
      EraseSpells(parts[0], b);
      SeqSpellsCons(Erase(parts[0]), MixedParts(rest, a, b), a, 0, len);
      SeqSpellsCons(Erase(parts[0]), MixedParts(rest, a, b), b, 0, more);
    }
  }

  lemma ShapesKeep(ms: seq<Node>, ns: seq<Node>)
    requires SameShapes(ms, ns)
    ensures AllNullable(ms) == AllNullable(ns) && AnyHasAnchors(ms) == AnyHasAnchors(ns)
  {
    FillAllKeeps(ms, NoByte());
    FillAllKeeps(ns, NoByte());
  }

  lemma {:induction false} MixedAnySpells(branches: seq<Node>, a: ByteClass, b: ByteClass) returns (len: nat, more: nat)
    requires !AllFront(branches) && AllWellFormed(branches) && !AnyHasAnchors(branches)
    ensures AnySpells(MixedBranches(branches, a, b), a, len) && len > 0
    ensures AnySpells(MixedBranches(branches, a, b), b, more) && more > 0
    decreases branches, 0
  {
    hide Spells, AnySpells;
    if !Front(branches[0]) {
      len, more := MixedSpells(branches[0], a, b);
      AnySpellsHead(Mixed(branches[0], a, b), EraseAll(branches[1..]), a, len);
      AnySpellsHead(Mixed(branches[0], a, b), EraseAll(branches[1..]), b, more);
    } else {
      len, more := MixedAnySpells(branches[1..], a, b);
      AnySpellsRest(Erase(branches[0]), MixedBranches(branches[1..], a, b), a, len);
      AnySpellsRest(Erase(branches[0]), MixedBranches(branches[1..], a, b), b, more);
    }
  }

  // ----- matches look only at their own bytes -----

  ghost predicate Agree(s: seq<Byte>, t: seq<Byte>, i: nat, j: nat) {
    j <= |s| && j <= |t| && forall k :: i <= k < j ==> s[k] == t[k]
  }

  lemma {:induction false} MatchesLocal(n: Node, s: seq<Byte>, t: seq<Byte>, i: nat, j: nat)
    requires !HasAnchors(n) && i <= |s| && Matches(n, s, i, j) && Agree(s, t, i, j)
    ensures Matches(n, t, i, j)
    decreases n, 0, 0
  {
    match n
    case Empty | Class(_) =>
    case Concat(parts) => SeqLocal(parts, s, t, i, j);
    case Alt(branches) => AnyLocal(branches, s, t, i, j);
    case Star(inner) =>
      assert RepeatsAny(inner, s, i, j);
      var count: nat :| Repeats(inner, s, i, j, count);
      RepeatsLocal(inner, s, t, i, j, count);
    case Plus(inner) =>
      var count: nat :| count > 0 && Repeats(inner, s, i, j, count);
      RepeatsLocal(inner, s, t, i, j, count);
    case Quest(inner) =>
      if i != j {
        MatchesLocal(inner, s, t, i, j);
      }
  }

  lemma {:induction false} SeqLocal(parts: seq<Node>, s: seq<Byte>, t: seq<Byte>, i: nat, j: nat)
    requires !AnyHasAnchors(parts) && i <= |s| && MatchesSeq(parts, s, i, j) && Agree(s, t, i, j)
    ensures MatchesSeq(parts, t, i, j)
    decreases parts, 0, 0
  {
    if parts != [] {
      var m: nat :| Matches(parts[0], s, i, m) && MatchesSeq(parts[1..], s, m, j);
      MatchesInRange(parts[0], s, i, m);
      SeqInRange(parts[1..], s, m, j);
      MatchesLocal(parts[0], s, t, i, m);
      SeqLocal(parts[1..], s, t, m, j);
    }
  }

  lemma {:induction false} AnyLocal(branches: seq<Node>, s: seq<Byte>, t: seq<Byte>, i: nat, j: nat)
    requires !AnyHasAnchors(branches) && i <= |s| && MatchesAny(branches, s, i, j) && Agree(s, t, i, j)
    ensures MatchesAny(branches, t, i, j)
    decreases branches, 0, 0
  {
    if Matches(branches[0], s, i, j) {
      MatchesLocal(branches[0], s, t, i, j);
    } else {
      AnyLocal(branches[1..], s, t, i, j);
    }
  }

  lemma {:induction false} RepeatsLocal(inner: Node, s: seq<Byte>, t: seq<Byte>, i: nat, j: nat, count: nat)
    requires !HasAnchors(inner) && i <= |s| && Repeats(inner, s, i, j, count) && Agree(s, t, i, j)
    ensures Repeats(inner, t, i, j, count)
    decreases inner, 1, count
  {
    if count > 0 {
      var m := FirstRound(inner, s, i, j, count);
      MatchesInRange(inner, s, i, m);
      RepeatsInRange(inner, s, m, j, count - 1);
      MatchesLocal(inner, s, t, i, m);
      RepeatsLocal(inner, s, t, m, j, count - 1);
    }
  }

  // ----- where a loop of the backtracker stops -----

  /** The pattern has no match from `i` that moves on. */
  ghost predicate Stuck(n: Node, input: seq<Byte>, i: nat) {
    forall j: nat {:trigger Matches(n, input, i, j)} :: Matches(n, input, i, j) ==> j <= i
  }

  /** The preferred end of a star is one from which the body does not move on. */
  lemma {:induction false} StarStops(inner: Node, input: seq<Byte>, i: nat)
    requires i <= |input|
    ensures StarEnds(inner, input, i) != [] && Stuck(inner, input, StarEnds(inner, input, i)[0])
    decreases |input| - i, 1, 0
  {
    hide Ends, Matches;
    var mids := Ends(inner, input, i);
    FromStops(inner, input, i, mids);
    if StarFrom(inner, input, i, mids) == [] {
      forall j: nat {:trigger Matches(inner, input, i, j)} | Matches(inner, input, i, j) ensures j <= i {
        EndsExact(inner, input, i, j);
      }
    }
  }

  lemma {:induction false} FromStops(inner: Node, input: seq<Byte>, i: nat, mids: seq<nat>)
    requires i <= |input| && Within(mids, i, |input|)
    ensures var more := StarFrom(inner, input, i, mids);
            if more == [] then forall k :: 0 <= k < |mids| ==> mids[k] == i
            else Stuck(inner, input, more[0])
    decreases |input| - i, 0, |mids|
  {
    hide Stuck;
    if mids != [] {
      FromStops(inner, input, i, mids[1..]);
      if mids[0] > i {
        StarStops(inner, input, mids[0]);
      }
    }
  }

  lemma PlusStops(inner: Node, input: seq<Byte>, i: nat)
    requires i <= |input| && Ends(inner, input, i) != []
    ensures Ends(Plus(inner), input, i) != [] && Stuck(inner, input, Ends(Plus(inner), input, i)[0])
  {
    hide Stuck;
    var mids := Ends(inner, input, i);
    StarStops(inner, input, mids[0]);
    assert PlusFrom(inner, input, i, mids) == StarEnds(inner, input, mids[0]) + PlusFrom(inner, input, i, mids[1..]);
  }
}

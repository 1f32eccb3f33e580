/**
 The compiler as the source writes it: push instructions with placeholder targets, then
 patch the targets once the addresses are known.

 What comes out is the program that the recursive definition of the code describes.
 */
module Emit {
  import opened Ast
  import opened Program

  class Emitter {
    var insts: seq<Inst>

    constructor ()
      ensures insts == []
    {
      insts := [];
    }

    method Push(inst: Inst)
      modifies this
      ensures insts == old(insts) + [inst]
    {
      insts := insts + [inst];
    }

    /** Set the high-priority arm of a split; other instructions are left alone. */
    method SetFirst(idx: nat, target: nat)
      requires idx < |insts|
      modifies this
      ensures insts == old(insts)[idx := if old(insts)[idx].Split? then Split(target, old(insts)[idx].second)
                                                                   else old(insts)[idx]]
    {
      if insts[idx].Split? {
        insts := insts[idx := insts[idx].(first := target)];
      }
    }

    /** Set the low-priority arm of a split; other instructions are left alone. */
    method SetSecond(idx: nat, target: nat)
      requires idx < |insts|
      modifies this
      ensures insts == old(insts)[idx := if old(insts)[idx].Split? then Split(old(insts)[idx].first, target)
                                                                   else old(insts)[idx]]
    {
      if insts[idx].Split? {
        insts := insts[idx := insts[idx].(second := target)];
      }
    }

    method Emit(n: Node)
      modifies this
      ensures insts == old(insts) + Code(n, |old(insts)|)
      decreases n, 1
    {
      match n {
        case Empty =>
        case Class(c) => Push(Byte(c));
        case StartAnchor => Push(StartAssert);
        case EndAnchor => Push(EndAssert);
        case Concat(parts) =>
          EmitParts(parts);
        case Alt(branches) =>
          EmitBranches(branches);
        case Star(inner) => EmitStar(inner);
        case Plus(inner) => EmitPlus(inner);
        case Quest(inner) => EmitQuest(inner);
      }
    }

    /** Body first (greedy), then loop back to the split; the other arm falls through after the loop. */
    method EmitStar(inner: Node)
      modifies this
      ensures var base := |old(insts)|;
              insts == old(insts) + Bracketed(base, Size(inner), Code(inner, base + 1), base)
      decreases inner, 2
    {
      hide Code, Size;
      ghost var before := insts;
      var sidx := |insts|;
      CodeSize(inner, sidx + 1);
      Push(Split(0, 0));
      SetFirst(sidx, |insts|);
      Emit(inner);
      Push(Jmp(sidx));
      SetSecond(sidx, |insts|);
      assert insts == before + Bracketed(sidx, Size(inner), Code(inner, sidx + 1), sidx);
    }

    /** The body, then a split back to it for another round (greedy); the other arm falls through. */
    method EmitPlus(inner: Node)
      modifies this
      ensures var base := |old(insts)|;
              insts == old(insts) + Looped(base, Size(inner), Code(inner, base))
      decreases inner, 2
    {
      hide Code, Size;
      ghost var before := insts;
      var bodyStart := |insts|;
      CodeSize(inner, bodyStart);
      Emit(inner);
      var sidx := |insts|;
      Push(Split(0, 0));
      SetFirst(sidx, bodyStart);
      SetSecond(sidx, |insts|);
      assert insts == before + Looped(bodyStart, Size(inner), Code(inner, bodyStart));
    }

    /** Body first (greedy); skipping it has the lower priority. */
    method EmitQuest(inner: Node)
      modifies this
      ensures var base := |old(insts)|;
              insts == old(insts) + Skippable(base, Size(inner), Code(inner, base + 1))
      decreases inner, 2
    {
      hide Code, Size;
      ghost var before := insts;
      var sidx := |insts|;
      CodeSize(inner, sidx + 1);
      Push(Split(0, 0));
      SetFirst(sidx, |insts|);
      Emit(inner);
      SetSecond(sidx, |insts|);
      assert insts == before + Skippable(sidx, Size(inner), Code(inner, sidx + 1));
    }

    method EmitParts(parts: seq<Node>)
      modifies this
      ensures insts == old(insts) + SeqCode(parts, |old(insts)|)
      decreases parts, 0
    {
      ghost var before := insts;
      var i := 0;
      while i < |parts|
        invariant i <= |parts|
        invariant insts + SeqCode(parts[i..], |insts|) == before + SeqCode(parts, |before|)
      {
        SeqCodeStep(insts, parts, i);
        Emit(parts[i]);
        i := i + 1;
      }
    }

    /** Branches with a split before and a jump after each but the last; the jumps are patched at the end. */
    method EmitBranches(branches: seq<Node>)
      modifies this
      ensures insts == old(insts) + AltCode(branches, |old(insts)|, |old(insts)| + AltSize(branches))
      decreases branches, 0
    {
      hide Code, Size, Patched, AltCode, JmpSlots, AltSize, AreJumps, BranchCode;
      NoBranchesCode();
      assert branches[0..] == branches;
      ghost var before, base := insts, |insts|;
      var jmps: seq<nat> := [];
      var i := 0;
      while i < |branches|
        invariant i <= |branches|
        invariant insts + AltCode(branches[i..], |insts|, 0) == before + AltCode(branches, base, 0)
        invariant jmps + JmpSlots(branches[i..], |insts|) == JmpSlots(branches, base)
      {
        AltCodeStep(insts, branches, i);
        JmpSlotsStep(branches, i, |insts|);
        var isLast := i + 1 == |branches|;
        EmitBranch(branches[i], isLast);
        if !isLast {
          jmps := jmps + [|insts| - 1];
        }
        i := i + 1;
      }
      assert branches[i..] == [] && jmps + [] == jmps && insts + [] == insts;
      AltCodeSize(branches, base, 0);
      SlotsAreJumps(branches, base);
      PatchJumps(jmps, |insts|, before, AltCode(branches, base, 0));
      PatchedAltCode(branches, base, base + AltSize(branches));
    }

    /** One branch: unless it is the last, a split whose low-priority arm skips past the jump after it. */
    method EmitBranch(branch: Node, isLast: bool)
      modifies this
      ensures insts == old(insts) + BranchCode(branch, isLast, |old(insts)|)
      decreases branch, 2
    {
      hide Code, Size;
      ghost var before := insts;
      var sidx := |insts|;
      if isLast {
        Emit(branch);
      } else {
        CodeSize(branch, sidx + 1);
        Push(Split(0, 0));
        SetFirst(sidx, |insts|);
        Emit(branch);
        Push(Jmp(0));
        SetSecond(sidx, |insts|);
        assert insts == before + BranchCode(branch, isLast, |before|);
      }
    }

    method PatchJumps(jmps: seq<nat>, end: nat, ghost before: seq<Inst>, ghost code: seq<Inst>)
      requires insts == before + code
      requires AreJumps(code, |before|, jmps)
      modifies this
      ensures insts == before + Patched(code, |before|, jmps, end)
    {
      var j := 0;
      while j < |jmps|
        invariant j <= |jmps|
        invariant insts == before + Patched(code, |before|, jmps[..j], end)
      {
        PatchedAt(code, |before|, jmps, j, end);
        if insts[jmps[j]].Jmp? {
          insts := insts[jmps[j] := Jmp(end)];
        }
        assert jmps[..j + 1] == jmps[..j] + [jmps[j]];
        j := j + 1;
      }
      assert jmps[..j] == jmps;
    }
  }

  /** What one branch emits at `base`, its jump still unpatched. */
  ghost function BranchCode(branch: Node, isLast: bool, base: nat): seq<Inst> {
    if isLast then Code(branch, base)
    else Bracketed(base, Size(branch), Code(branch, base + 1), 0)
  }

  lemma NoBranchesCode()
    ensures forall base: nat, end: nat :: AltCode([], base, end) == []
    ensures forall base: nat :: JmpSlots([], base) == []
  {
  }

  lemma AltCodeStep(before: seq<Inst>, branches: seq<Node>, i: nat)
    requires i < |branches|
    ensures var after := before + BranchCode(branches[i], i + 1 == |branches|, |before|);
            before + AltCode(branches[i..], |before|, 0) == after + AltCode(branches[i + 1..], |after|, 0)
  {
    BranchSize(branches[i], i + 1 == |branches|, |before|);
    hide Code, Size;
    assert branches[i..][1..] == branches[i + 1..];
    if i + 1 < |branches| {
      assert AltCode(branches[i..], |before|, 0)
          == BranchCode(branches[i], i + 1 == |branches|, |before|)
             + AltCode(branches[i + 1..], |before| + Size(branches[i]) + 2, 0);
    }
  }

  lemma JmpSlotsStep(branches: seq<Node>, i: nat, base: nat)
    requires i < |branches|
    ensures var after := base + |BranchCode(branches[i], i + 1 == |branches|, base)|;
            JmpSlots(branches[i..], base)
            == (if i + 1 == |branches| then [] else [after - 1]) + JmpSlots(branches[i + 1..], after)
    ensures i + 1 < |branches| ==> |BranchCode(branches[i], false, base)| > 0
  {
    hide Code, Size, BranchCode;
    BranchSize(branches[i], i + 1 == |branches|, base);
    var rest := branches[i..];
    assert rest[0] == branches[i] && rest[1..] == branches[i + 1..];
    if i + 1 < |branches| {
      assert JmpSlots(rest, base) == [base + 1 + Size(rest[0])] + JmpSlots(rest[1..], base + Size(rest[0]) + 2);
    }
  }

  lemma BranchSize(branch: Node, isLast: bool, base: nat)
    ensures |BranchCode(branch, isLast, base)| == Size(branch) + if isLast then 0 else 2
  {
    CodeSize(branch, base);
    CodeSize(branch, base + 1);
  }

  /** Where the jumps of an alternation placed at `base` stand. */
  ghost function JmpSlots(branches: seq<Node>, base: nat): seq<nat>
    decreases branches
  {
    if |branches| <= 1 then []
    else [base + 1 + Size(branches[0])] + JmpSlots(branches[1..], base + Size(branches[0]) + 2)
  }

  /** `code`, placed at `base`, with the instructions at `slots` replaced by `Jmp(end)`. */
  ghost function Patched(code: seq<Inst>, base: nat, slots: seq<nat>, end: nat): seq<Inst> {
    seq(|code|, k requires 0 <= k < |code| => if base + k in slots then Jmp(end) else code[k])
  }

  /** Each slot is that of a jump in the code, which stands at `base`. */
  ghost predicate AreJumps(code: seq<Inst>, base: nat, slots: seq<nat>) {
    forall k :: 0 <= k < |slots| ==> base <= slots[k] < base + |code| && code[slots[k] - base].Jmp?
  }

  lemma SlotsAreJumps(branches: seq<Node>, base: nat)
    ensures AreJumps(AltCode(branches, base, 0), base, JmpSlots(branches, base))
  {
    JmpSlotsAreJumps(branches, base, 0);
  }

  lemma {:induction false} JmpSlotsAreJumps(branches: seq<Node>, base: nat, end: nat)
    ensures forall k :: 0 <= k < |JmpSlots(branches, base)| ==>
      var s := JmpSlots(branches, base)[k];
      base <= s < base + |AltCode(branches, base, end)| && AltCode(branches, base, end)[s - base] == Jmp(end)
    decreases branches
  {
    if |branches| > 1 {
      CodeSize(branches[0], base + 1);
      JmpSlotsAreJumps(branches[1..], base + Size(branches[0]) + 2, end);
    }
  }

  lemma PatchedAt(code: seq<Inst>, base: nat, slots: seq<nat>, j: nat, end: nat)
    requires j < |slots| && base <= slots[j] < base + |code| && code[slots[j] - base].Jmp?
    ensures Patched(code, base, slots[..j], end)[slots[j] - base].Jmp?
    ensures Patched(code, base, slots[..j], end)[slots[j] - base := Jmp(end)]
         == Patched(code, base, slots[..j] + [slots[j]], end)
  {
  }

  lemma SeqCodeStep(before: seq<Inst>, parts: seq<Node>, i: nat)
    requires i < |parts|
    ensures var after := before + Code(parts[i], |before|);
            before + SeqCode(parts[i..], |before|) == after + SeqCode(parts[i + 1..], |after|)
  {
    CodeSize(parts[i], |before|);
    assert parts[i..][1..] == parts[i + 1..];
    assert SeqCode(parts[i..], |before|)
        == Code(parts[i], |before|) + SeqCode(parts[i + 1..], |before| + Size(parts[i]));
  }

  lemma PatchedConcat(a: seq<Inst>, b: seq<Inst>, base: nat, sa: seq<nat>, sb: seq<nat>, end: nat)
    requires forall k :: 0 <= k < |sa| ==> sa[k] < base + |a|
    requires forall k :: 0 <= k < |sb| ==> base + |a| <= sb[k]
    ensures Patched(a + b, base, sa + sb, end) == Patched(a, base, sa, end) + Patched(b, base + |a|, sb, end)
  {
  }

  /** Patching the jumps of an alternation compiled with a placeholder gives its final code. */
  lemma {:induction false} PatchedAltCode(branches: seq<Node>, base: nat, end: nat)
    ensures Patched(AltCode(branches, base, 0), base, JmpSlots(branches, base), end) == AltCode(branches, base, end)
    decreases branches
  {
    hide Code, Size, Patched;
    if |branches| > 1 {
      var next, slot := base + Size(branches[0]) + 2, base + 1 + Size(branches[0]);
      var head := [Split(base + 1, next)] + Code(branches[0], base + 1);
      var rest := AltCode(branches[1..], next, 0);
      CodeSize(branches[0], base + 1);
      PatchedAltCode(branches[1..], next, end);
      JmpSlotsAreJumps(branches[1..], next, 0);
      PatchedConcat(head + [Jmp(0)], rest, base, [slot], JmpSlots(branches[1..], next), end);
      PatchedLast(head, base, end);
      assert AltCode(branches, base, 0) == head + [Jmp(0)] + rest;
    } else {
      PatchedNone(AltCode(branches, base, 0), base, end);
    }
  }

  lemma PatchedLast(head: seq<Inst>, base: nat, end: nat)
    ensures Patched(head + [Jmp(0)], base, [base + |head|], end) == head + [Jmp(end)]
  {
  }

  lemma PatchedNone(code: seq<Inst>, base: nat, end: nat)
    ensures Patched(code, base, [], end) == code
  {
  }

  method NewProgram(ast: Node) returns (prog: seq<Inst>)
    ensures prog == Compile(ast)
  {
    var emitter := new Emitter();
    emitter.Emit(ast);
    emitter.Push(Match);
    prog := emitter.insts;
  }
}

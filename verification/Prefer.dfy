/**
 The machine started at the beginning of a fragment does what trying a list of ends in
 order and going on behind the fragment does.

 How this composes over sequences, arms and rounds of a repetition.
 */
module Prefer {
  import opened Wrappers
  import opened Ast
  import opened Semantics
  import opened Naive
  import opened Program
  import opened Paths
  import opened Closure
  import opened Threads
  import opened Epsilon
  import opened Blocked
  import opened Tail

  /** The end preferred by the machine started at `pc`, as a continuation. */
  ghost function After(prog: seq<Inst>, input: seq<Byte>, pc: nat): nat -> Option<nat>
    requires WellFormedProgram(prog) && pc < |prog|
  {
    (p: nat) => if p <= |input| then WorthFrom(prog, input, pc, p) else None
  }

  /** The machine at `base` does what trying the ends in order and going on at `end` does. */
  ghost predicate Prefers(prog: seq<Inst>, input: seq<Byte>, base: nat, end: nat, ends: seq<nat>, pos: nat)
    requires WellFormedProgram(prog) && base < |prog| && end < |prog| && pos <= |input|
  {
    WorthFrom(prog, input, base, pos) == FirstAccepted(After(prog, input, end), ends)
  }

  // ----- instructions that consume or assert -----

  lemma BytePrefers(prog: seq<Inst>, input: seq<Byte>, c: ByteClass, base: nat, pos: nat)
    requires WellFormedProgram(prog) && base + 1 < |prog| && prog[base] == Byte(c) && pos <= |input|
    ensures Prefers(prog, input, base, base + 1, Ends(Class(c), input, pos), pos)
  {
    hide Visit;
    VisitOne(prog, ModeAt(input, pos), base, {});
    assert Close(prog, ModeAt(input, pos), base) == [base];
    assert Worth(prog, input, [base], pos) == WorthOf(prog, input, base, pos);
    AcceptedOne(After(prog, input, base + 1), pos + 1);
  }

  // ----- putting fragments together -----

  /** A fragment whose ends are tried by a second one. */
  lemma SeqPrefers(prog: seq<Inst>, input: seq<Byte>, rest: seq<Node>, base: nat, mid: nat, end: nat, mids: seq<nat>, pos: nat)
    requires WellFormedProgram(prog) && base < |prog| && mid < |prog| && end < |prog| && pos <= |input|
    requires Within(mids, pos, |input|)
    requires Prefers(prog, input, base, mid, mids, pos)
    requires forall p: nat :: pos <= p <= |input| ==> Prefers(prog, input, mid, end, SeqEnds(rest, input, p), p)
    ensures Prefers(prog, input, base, end, SeqFrom(rest, input, pos, mids), pos)
  {
    hide SeqEnds, SeqFrom, WorthFrom;
    forall p: nat | pos <= p <= |input|
      ensures After(prog, input, mid)(p) == FirstAccepted(After(prog, input, end), SeqEnds(rest, input, p))
    {
      assert Prefers(prog, input, mid, end, SeqEnds(rest, input, p), p);
    }
    SeqAccepted(rest, input, pos, After(prog, input, end), After(prog, input, mid), mids);
  }

  /** Two arms that go on at the same place. */
  lemma ArmsPrefer(prog: seq<Inst>, input: seq<Byte>, base: nat, x: nat, y: nat, end: nat,
                   first: seq<nat>, second: seq<nat>, pos: nat)
    requires WellFormedProgram(prog) && base < |prog| && x < |prog| && y < |prog| && end < |prog| && pos <= |input|
    requires WorthFrom(prog, input, base, pos) == WorthFrom(prog, input, x, pos).OrElse(WorthFrom(prog, input, y, pos))
    requires Prefers(prog, input, x, end, first, pos) && Prefers(prog, input, y, end, second, pos)
    ensures Prefers(prog, input, base, end, first + second, pos)
  {
    hide WorthFrom;
    FirstAcceptedConcat(After(prog, input, end), first, second);
  }

  /** Going on at a jump is going on at its target. */
  lemma JmpPrefers(prog: seq<Inst>, input: seq<Byte>, base: nat, jump: nat, end: nat, ends: seq<nat>, pos: nat)
    requires WellFormedProgram(prog) && base < |prog| && jump < |prog| && end < |prog| && pos <= |input|
    requires prog[jump] == Jmp(end) && Prefers(prog, input, base, jump, ends, pos)
    ensures Prefers(prog, input, base, end, ends, pos)
  {
    hide WorthFrom;
    forall p: nat ensures After(prog, input, jump)(p) == After(prog, input, end)(p) {
      if p <= |input| {
        JmpWorth(prog, input, jump, end, p);
      }
    }
    AcceptedSame(After(prog, input, jump), After(prog, input, end), ends);
  }

  lemma NothingPrefers(prog: seq<Inst>, input: seq<Byte>, pc: nat, pos: nat)
    requires WellFormedProgram(prog) && pc < |prog| && pos <= |input|
    ensures Prefers(prog, input, pc, pc, [pos], pos)
  {
    hide WorthFrom;
    AcceptedOne(After(prog, input, pc), pos);
  }

  /** One turn of a greedy loop: a body that moves on, then the loop again, or else out. */
  lemma RoundPrefers(prog: seq<Inst>, input: seq<Byte>, inner: Node, loop: nat, body: nat, back: nat, end: nat, pos: nat)
    requires WellFormedProgram(prog) && loop < |prog| && body < |prog| && back < |prog| && end < |prog| && pos <= |input|
    requires WorthFrom(prog, input, loop, pos)
          == FirstAccepted(Beyond(After(prog, input, back), pos), Ends(inner, input, pos))
             .OrElse(WorthFrom(prog, input, end, pos))
    requires forall p: nat :: pos < p <= |input| ==>
      WorthFrom(prog, input, back, p) == FirstAccepted(After(prog, input, end), StarEnds(inner, input, p))
    ensures Prefers(prog, input, loop, end, StarEnds(inner, input, pos), pos)
  {
    hide Ends, StarFrom, WorthFrom;
    var k, more := After(prog, input, end), Beyond(After(prog, input, back), pos);
    var mids := Ends(inner, input, pos);
    StarAccepted(inner, input, pos, k, more, mids);
    FirstAcceptedConcat(k, StarFrom(inner, input, pos, mids), [pos]);
  }

  /** A first round, then a greedy loop. */
  lemma PlusRoundsPrefer(prog: seq<Inst>, input: seq<Byte>, inner: Node, base: nat, back: nat, end: nat, pos: nat)
    requires WellFormedProgram(prog) && base < |prog| && back < |prog| && end < |prog| && pos <= |input|
    requires Prefers(prog, input, base, back, Ends(inner, input, pos), pos)
    requires forall p: nat :: pos <= p <= |input| ==> Prefers(prog, input, back, end, StarEnds(inner, input, p), p)
    ensures Prefers(prog, input, base, end, PlusFrom(inner, input, pos, Ends(inner, input, pos)), pos)
  {
    hide Ends, StarEnds, WorthFrom;
    var k, more := After(prog, input, end), After(prog, input, back);
    forall p: nat | pos <= p <= |input| ensures more(p) == FirstAccepted(k, StarEnds(inner, input, p)) {
      assert Prefers(prog, input, back, end, StarEnds(inner, input, p), p);
    }
    PlusAccepted(inner, input, pos, k, more, Ends(inner, input, pos));
  }

  // ----- with some instructions already on the way -----

  /** As `After`, except that at `pos` the instructions of `avoid` are left out. */
  ghost function AfterAvoiding(prog: seq<Inst>, input: seq<Byte>, pc: nat, pos: nat, avoid: set<nat>): nat -> Option<nat>
    requires WellFormedProgram(prog) && pc < |prog| && pos <= |input|
  {
    (p: nat) => if p == pos then WorthAvoiding(prog, input, pc, pos, avoid) else After(prog, input, pc)(p)
  }

  /** As `Prefers`, with the instructions of `avoid` left out at `pos`. */
  ghost predicate PrefersAvoiding(prog: seq<Inst>, input: seq<Byte>, base: nat, end: nat, ends: seq<nat>, pos: nat, avoid: set<nat>)
    requires WellFormedProgram(prog) && base < |prog| && end < |prog| && pos <= |input|
  {
    WorthAvoiding(prog, input, base, pos, avoid) == FirstAccepted(AfterAvoiding(prog, input, end, pos, avoid), ends)
  }

  /** Leaving nothing out is preferring. */
  lemma AvoidingNothing(prog: seq<Inst>, input: seq<Byte>, base: nat, end: nat, ends: seq<nat>, pos: nat)
    requires WellFormedProgram(prog) && base < |prog| && end < |prog| && pos <= |input|
    ensures PrefersAvoiding(prog, input, base, end, ends, pos, {}) <==> Prefers(prog, input, base, end, ends, pos)
  {
    hide Visit, Worth;
    AcceptedSame(AfterAvoiding(prog, input, end, pos, {}), After(prog, input, end), ends);
  }

  lemma BeyondAvoiding(prog: seq<Inst>, input: seq<Byte>, pc: nat, ends: seq<nat>, pos: nat, avoid: set<nat>)
    requires WellFormedProgram(prog) && pc < |prog| && pos <= |input|
    requires forall i :: 0 <= i < |ends| ==> ends[i] > pos
    ensures FirstAccepted(AfterAvoiding(prog, input, pc, pos, avoid), ends) == FirstAccepted(After(prog, input, pc), ends)
  {
    AcceptedSame(AfterAvoiding(prog, input, pc, pos, avoid), After(prog, input, pc), ends);
  }

  lemma NothingAvoiding(prog: seq<Inst>, input: seq<Byte>, pc: nat, pos: nat, avoid: set<nat>)
    requires WellFormedProgram(prog) && pc < |prog| && pos <= |input|
    ensures PrefersAvoiding(prog, input, pc, pc, [pos], pos, avoid)
  {
    hide WorthAvoiding;
    AcceptedOne(AfterAvoiding(prog, input, pc, pos, avoid), pos);
  }

  lemma AssertAvoiding(prog: seq<Inst>, input: seq<Byte>, base: nat, pos: nat, passes: bool, avoid: set<nat>)
    requires WellFormedProgram(prog) && base + 1 < |prog| && pos <= |input| && base !in avoid
    requires prog[base].StartAssert? || prog[base].EndAssert?
    requires passes <==> (prog[base].StartAssert? && pos == 0) || (prog[base].EndAssert? && pos == |input|)
    ensures PrefersAvoiding(prog, input, base, base + 1, if passes then [pos] else [], pos, avoid)
  {
    hide Visit;
    VisitOne(prog, ModeAt(input, pos), base, avoid);
    AcceptedOne(AfterAvoiding(prog, input, base + 1, pos, avoid), pos);
    if passes {
      OneSuccessorAvoiding(prog, input, base, base + 1, pos, avoid);
    } else {
      VisitNone(prog, ModeAt(input, pos), avoid + {base});
    }
  }

  lemma SeqAvoiding(prog: seq<Inst>, input: seq<Byte>, rest: seq<Node>, base: nat, mid: nat, end: nat, mids: seq<nat>, pos: nat,
                    avoid: set<nat>)
    requires WellFormedProgram(prog) && base < |prog| && mid < |prog| && end < |prog| && pos <= |input|
    requires Within(mids, pos, |input|)
    requires PrefersAvoiding(prog, input, base, mid, mids, pos, avoid)
    requires PrefersAvoiding(prog, input, mid, end, SeqEnds(rest, input, pos), pos, avoid)
    requires forall i :: 0 <= i < |mids| && mids[i] > pos ==> Prefers(prog, input, mid, end, SeqEnds(rest, input, mids[i]), mids[i])
    ensures PrefersAvoiding(prog, input, base, end, SeqFrom(rest, input, pos, mids), pos, avoid)
  {
    hide SeqEnds, SeqFrom, WorthFrom, WorthAvoiding, WellFormedProgram;
    var k, more := AfterAvoiding(prog, input, end, pos, avoid), AfterAvoiding(prog, input, mid, pos, avoid);
    var then' := ThenSeq(rest, input, pos, k);
    SeqAccepted(rest, input, pos, k, then', mids);
    hide FirstAccepted;
    forall i | 0 <= i < |mids| ensures more(mids[i]) == then'(mids[i]) {
      SeqMidAvoiding(prog, input, rest, mid, end, mids[i], pos, avoid);
    }
    AcceptedSame(more, then', mids);
  }

  lemma SeqMidAvoiding(prog: seq<Inst>, input: seq<Byte>, rest: seq<Node>, mid: nat, end: nat, m: nat, pos: nat, avoid: set<nat>)
    requires WellFormedProgram(prog) && mid < |prog| && end < |prog| && pos <= m <= |input|
    requires m == pos ==> PrefersAvoiding(prog, input, mid, end, SeqEnds(rest, input, pos), pos, avoid)
    requires m > pos ==> Prefers(prog, input, mid, end, SeqEnds(rest, input, m), m)
    ensures AfterAvoiding(prog, input, mid, pos, avoid)(m)
         == ThenSeq(rest, input, pos, AfterAvoiding(prog, input, end, pos, avoid))(m)
  {
    hide SeqEnds, Visit, Worth, FirstAccepted;
    if m > pos {
      BeyondAvoiding(prog, input, end, SeqEnds(rest, input, m), pos, avoid);
      LaterAvoiding(prog, input, mid, pos, m, avoid);
    }
  }

  lemma LaterAvoiding(prog: seq<Inst>, input: seq<Byte>, pc: nat, pos: nat, p: nat, avoid: set<nat>)
    requires WellFormedProgram(prog) && pc < |prog| && pos < p <= |input|
    ensures AfterAvoiding(prog, input, pc, pos, avoid)(p) == WorthFrom(prog, input, pc, p)
  {
    hide Visit, Worth;
    assert After(prog, input, pc)(p) == WorthFrom(prog, input, pc, p);
  }

  lemma ArmsAvoiding(prog: seq<Inst>, input: seq<Byte>, base: nat, x: nat, y: nat, end: nat,
                     first: seq<nat>, second: seq<nat>, pos: nat, avoid: set<nat>)
    requires WellFormedProgram(prog) && base < |prog| && x < |prog| && y < |prog| && end < |prog| && pos <= |input|
    requires WorthAvoiding(prog, input, base, pos, avoid)
          == WorthAvoiding(prog, input, x, pos, avoid).OrElse(WorthAvoiding(prog, input, y, pos, avoid))
    requires PrefersAvoiding(prog, input, x, end, first, pos, avoid) && PrefersAvoiding(prog, input, y, end, second, pos, avoid)
    ensures PrefersAvoiding(prog, input, base, end, first + second, pos, avoid)
  {
    hide WorthAvoiding;
    FirstAcceptedConcat(AfterAvoiding(prog, input, end, pos, avoid), first, second);
  }

  lemma JmpAvoiding(prog: seq<Inst>, input: seq<Byte>, base: nat, jump: nat, end: nat, ends: seq<nat>, pos: nat, avoid: set<nat>)
    requires WellFormedProgram(prog) && base < |prog| && jump < |prog| && end < |prog| && pos <= |input| && jump !in avoid
    requires prog[jump] == Jmp(end) && PrefersAvoiding(prog, input, base, jump, ends, pos, avoid)
    ensures PrefersAvoiding(prog, input, base, end, ends, pos, avoid)
  {
    hide Visit, Worth;
    OneSuccessorAvoiding(prog, input, jump, end, pos, avoid);
    var f, g := AfterAvoiding(prog, input, jump, pos, avoid), AfterAvoiding(prog, input, end, pos, avoid);
    forall i | 0 <= i < |ends| ensures f(ends[i]) == g(ends[i]) {
      assert After(prog, input, jump)(ends[i]) == After(prog, input, end)(ends[i]) by {
        if ends[i] <= |input| {
          JmpWorth(prog, input, jump, end, ends[i]);
        }
      }
    }
    AcceptedSame(f, g, ends);
  }

  /** The body of a loop whose split is on the way: only rounds that move on are worth something. */
  lemma BodyAvoiding(prog: seq<Inst>, input: seq<Byte>, loop: nat, body: nat, back: nat, ends: seq<nat>, pos: nat, avoid: set<nat>)
    requires WellFormedProgram(prog) && loop < |prog| && body < |prog| && back < |prog| && pos <= |input|
    requires prog[back] == Jmp(loop) && loop in avoid && back !in avoid
    requires PrefersAvoiding(prog, input, body, back, ends, pos, avoid)
    requires Within(ends, pos, |input|)
    ensures WorthAvoiding(prog, input, body, pos, avoid) == FirstAccepted(Beyond(After(prog, input, back), pos), ends)
  {
    hide Visit, Worth, WellFormedProgram;
    VisitOne(prog, ModeAt(input, pos), back, avoid);
    VisitOne(prog, ModeAt(input, pos), loop, avoid + {back});
    hide WorthFrom;
    assert WorthAvoiding(prog, input, back, pos, avoid).None? by { WorthNone(prog, input, [], pos); }
    AcceptedSame(AfterAvoiding(prog, input, back, pos, avoid), Beyond(After(prog, input, back), pos), ends);
  }

  lemma RoundAvoiding(prog: seq<Inst>, input: seq<Byte>, inner: Node, loop: nat, back: nat, end: nat, pos: nat, avoid: set<nat>)
    requires WellFormedProgram(prog) && loop < |prog| && back < |prog| && end < |prog| && pos <= |input|
    requires WorthAvoiding(prog, input, loop, pos, avoid)
          == FirstAccepted(Beyond(After(prog, input, back), pos), Ends(inner, input, pos))
             .OrElse(WorthAvoiding(prog, input, end, pos, avoid))
    requires forall p: nat :: pos < p <= |input| ==>
      WorthFrom(prog, input, back, p) == FirstAccepted(After(prog, input, end), StarEnds(inner, input, p))
    ensures PrefersAvoiding(prog, input, loop, end, StarEnds(inner, input, pos), pos, avoid)
  {
    hide Ends, StarFrom, WorthFrom, WorthAvoiding;
    var k, more := AfterAvoiding(prog, input, end, pos, avoid), Beyond(After(prog, input, back), pos);
    var mids := Ends(inner, input, pos);
    forall p: nat | pos < p <= |input| ensures more(p) == FirstAccepted(k, StarEnds(inner, input, p)) {
      BeyondAvoiding(prog, input, end, StarEnds(inner, input, p), pos, avoid);
    }
    StarAccepted(inner, input, pos, k, more, mids);
    FirstAcceptedConcat(k, StarFrom(inner, input, pos, mids), [pos]);
    AcceptedOne(k, pos);
  }
}

/**
 The closure of a fragment that tries the empty match last: first the ready instructions
 of the fragment itself, then, if it can match empty here, what lies behind it.

 How this shape is put together from the shapes of the parts, and what the machine prefers
 from a fragment of that shape, also when some instructions are already on the way.
 */
module TailVisits {
  import opened Wrappers
  import opened Ast
  import opened Semantics
  import opened Naive
  import opened Program
  import opened Paths
  import opened Closure
  import opened Threads
  import opened PikeCorrectness
  import opened Epsilon
  import opened Sealed
  import opened Blocked
  import opened Tail
  import opened Prefer

  /** What comes behind `own`. */
  ghost function Through(own: seq<nat>, behind: Visited): Visited {
    Visited(own + behind.list, behind.seen)
  }

  /** None of `avoid` lies in `[base, end)`. */
  ghost predicate Apart(avoid: set<nat>, base: nat, end: nat) {
    forall q: nat :: q in avoid ==> !(base <= q < end)
  }

  /**
   The visit of `base`, which has `ends` from `pos`, lists its `own` ready instructions,
   worth what the ends beyond `pos` are worth, and then goes on at `end` if `pos` is an end.
   */
  ghost predicate TailShape(prog: seq<Inst>, input: seq<Byte>, base: nat, end: nat, ends: seq<nat>, pos: nat,
                            avoid: set<nat>, own: seq<nat>, seen: set<nat>)
    requires WellFormedProgram(prog) && base < |prog| && end < |prog| && pos <= |input|
  {
    var mode := ModeAt(input, pos);
    && InProg(prog, own)
    && avoid <= seen
    && (forall q: nat :: q in seen && q !in avoid ==> base <= q < end)
    && (base < end ==> base in seen)
    && (pos in ends ==> ClosedOver(prog, mode, seen - avoid, avoid + {end}))
    && (forall q: nat :: q in seen && q !in avoid && q < |prog| && Ready(prog, mode, q) ==> q in own)
    && Visit(prog, mode, [base], avoid)
       == (if pos in ends then Through(own, Visit(prog, mode, [end], seen)) else Visited(own, seen))
    && Worth(prog, input, own, pos) == FirstAccepted(Beyond(After(prog, input, end), pos), ends)
  }

  /** A shaped fragment prefers its ends, whatever else is left out. */
  lemma ShapeAvoiding(prog: seq<Inst>, input: seq<Byte>, base: nat, end: nat, ends: seq<nat>, pos: nat,
                      avoid: set<nat>, own: seq<nat>, seen: set<nat>)
    requires WellFormedProgram(prog) && base < |prog| && end < |prog| && pos <= |input|
    requires TailShape(prog, input, base, end, ends, pos, avoid, own, seen)
    requires SplitsAt(AfterAvoiding(prog, input, end, pos, avoid), ends, pos) && Within(ends, pos, |input|)
    ensures PrefersAvoiding(prog, input, base, end, ends, pos, avoid)
  {
    hide Visit, Worth, WorthOf, WellFormedProgram, FirstAccepted, ModeAt;
    var f, g := AfterAvoiding(prog, input, end, pos, avoid), After(prog, input, end);
    forall i | 0 <= i < |ends| ensures Beyond(f, pos)(ends[i]) == Beyond(g, pos)(ends[i]) {
      if ends[i] > pos {
        LaterAvoiding(prog, input, end, pos, ends[i], avoid);
      }
    }
    AcceptedSame(Beyond(f, pos), Beyond(g, pos), ends);
    hide Beyond;
    if pos in ends {
      var behind := Visit(prog, ModeAt(input, pos), [end], seen);
      VisitFacts(prog, ModeAt(input, pos), [end], seen);
      WorthConcat(prog, input, own, behind.list, pos);
      if Worth(prog, input, own, pos).None? {
        ListFails(prog, input, own, seen - avoid, pos);
        assert avoid + (seen - avoid) == seen;
        FailuresIgnored(prog, input, end, pos, avoid, seen - avoid);
      }
    }
  }

  /** A shaped fragment, entered afresh, prefers its ends. */
  lemma ShapePrefers(prog: seq<Inst>, input: seq<Byte>, base: nat, end: nat, ends: seq<nat>, pos: nat,
                     own: seq<nat>, seen: set<nat>)
    requires WellFormedProgram(prog) && base < |prog| && end < |prog| && pos <= |input|
    requires TailShape(prog, input, base, end, ends, pos, {}, own, seen)
    requires SplitsAt(AfterAvoiding(prog, input, end, pos, {}), ends, pos) && Within(ends, pos, |input|)
    ensures Prefers(prog, input, base, end, ends, pos)
  {
    hide TailShape, SplitsAt, PrefersAvoiding, Prefers;
    ShapeAvoiding(prog, input, base, end, ends, pos, {}, own, seen);
    AvoidingNothing(prog, input, base, end, ends, pos);
  }

  // ----- visits of jumps and splits -----

  lemma SplitVisit(prog: seq<Inst>, mode: Mode, pc: nat, x: nat, y: nat, avoid: set<nat>)
    requires WellFormedProgram(prog) && pc < |prog| && prog[pc] == Split(x, y) && pc !in avoid
    ensures x < |prog| && y < |prog| && !Ready(prog, mode, pc)
    ensures var a := Visit(prog, mode, [x], avoid + {pc});
            var b := Visit(prog, mode, [y], a.seen);
            Visit(prog, mode, [pc], avoid) == Visited(a.list + b.list, b.seen)
    ensures forall q: nat :: Leads(prog, mode, pc, q) ==> q == x || q == y
  {
    VisitOne(prog, mode, pc, avoid);
    VisitPair(prog, mode, x, y, avoid + {pc});
  }

  lemma JmpVisit(prog: seq<Inst>, mode: Mode, pc: nat, target: nat, avoid: set<nat>)
    requires WellFormedProgram(prog) && pc < |prog| && prog[pc] == Jmp(target) && pc !in avoid
    ensures target < |prog| && !Ready(prog, mode, pc)
    ensures Visit(prog, mode, [pc], avoid) == Visit(prog, mode, [target], avoid + {pc})
  {
    VisitOne(prog, mode, pc, avoid);
  }

  lemma SeenVisit(prog: seq<Inst>, mode: Mode, pc: nat, avoid: set<nat>)
    requires WellFormedProgram(prog) && pc < |prog| && pc in avoid
    ensures Visit(prog, mode, [pc], avoid) == Visited([], avoid)
  {
    VisitOne(prog, mode, pc, avoid);
  }

  /** What a visit sees holds its root, and leads nowhere else. */
  lemma VisitCloses(prog: seq<Inst>, mode: Mode, pc: nat, avoid: set<nat>)
    requires WellFormedProgram(prog) && pc < |prog|
    ensures var seen := Visit(prog, mode, [pc], avoid).seen;
            avoid <= seen && pc in seen && ClosedOver(prog, mode, seen - avoid, avoid)
  {
    VisitFacts(prog, mode, [pc], avoid);
    assert [pc][0] in Visit(prog, mode, [pc], avoid).seen;
  }

  /** A split at `pc`, a closed stretch behind it and one that may also lead to `end`. */
  lemma ClosedChain(prog: seq<Inst>, mode: Mode, pc: nat, avoid: set<nat>, seen0: set<nat>, seen1: set<nat>, end: nat)
    requires WellFormedProgram(prog) && avoid + {pc} <= seen0 <= seen1
    requires ClosedOver(prog, mode, seen0 - (avoid + {pc}), avoid + {pc} + {end})
    requires ClosedOver(prog, mode, seen1 - seen0, seen0 + {end})
    requires forall q: nat :: Leads(prog, mode, pc, q) ==> q in seen1 || q == end
    ensures ClosedOver(prog, mode, seen1 - avoid, avoid + {end})
  {
  }

  lemma NothingClosed(prog: seq<Inst>, mode: Mode, base: set<nat>)
    requires WellFormedProgram(prog)
    ensures ClosedOver(prog, mode, {}, base)
  {
  }

  lemma ClosedWeaker(prog: seq<Inst>, mode: Mode, more: set<nat>, base: set<nat>, wider: set<nat>)
    requires WellFormedProgram(prog) && ClosedOver(prog, mode, more, base) && base <= wider
    ensures ClosedOver(prog, mode, more, wider)
  {
  }

  // ----- single instructions -----

  lemma EmptyShape(prog: seq<Inst>, input: seq<Byte>, base: nat, pos: nat, avoid: set<nat>)
    requires WellFormedProgram(prog) && base < |prog| && pos <= |input|
    ensures TailShape(prog, input, base, base, [pos], pos, avoid, [], avoid)
  {
    hide Visit;
    var behind := Visit(prog, ModeAt(input, pos), [base], avoid);
    assert [] + behind.list == behind.list;
    AcceptedOne(Beyond(After(prog, input, base), pos), pos);
  }

  lemma AssertShape(prog: seq<Inst>, input: seq<Byte>, base: nat, pos: nat, passes: bool, avoid: set<nat>)
    requires WellFormedProgram(prog) && base + 1 < |prog| && pos <= |input| && base !in avoid
    requires prog[base].StartAssert? || prog[base].EndAssert?
    requires passes <==> (prog[base].StartAssert? && pos == 0) || (prog[base].EndAssert? && pos == |input|)
    ensures TailShape(prog, input, base, base + 1, if passes then [pos] else [], pos, avoid, [], avoid + {base})
  {
    hide Visit, Worth, FirstAccepted, After, TailShape;
    AssertVisit(prog, ModeAt(input, pos), base, avoid);
    AssertTail(prog, input, base, pos, passes, avoid);
  }

  lemma AssertVisit(prog: seq<Inst>, mode: Mode, base: nat, avoid: set<nat>)
    requires WellFormedProgram(prog) && base + 1 < |prog| && base !in avoid && mode.At?
    requires prog[base].StartAssert? || prog[base].EndAssert?
    ensures !Ready(prog, mode, base)
    ensures Visit(prog, mode, [base], avoid)
         == if (prog[base].StartAssert? && mode.atStart) || (prog[base].EndAssert? && mode.atEnd)
            then Through([], Visit(prog, mode, [base + 1], avoid + {base})) else Visited([], avoid + {base})
  {
    hide Visit;
    VisitOne(prog, mode, base, avoid);
    var behind := Visit(prog, mode, [base + 1], avoid + {base});
    assert [] + behind.list == behind.list;
    VisitNone(prog, mode, avoid + {base});
  }

  lemma AssertTail(prog: seq<Inst>, input: seq<Byte>, base: nat, pos: nat, passes: bool, avoid: set<nat>)
    requires WellFormedProgram(prog) && base + 1 < |prog| && pos <= |input| && base !in avoid
    requires prog[base].StartAssert? || prog[base].EndAssert?
    requires var mode := ModeAt(input, pos);
             && !Ready(prog, mode, base)
             && Visit(prog, mode, [base], avoid)
                == if passes then Through([], Visit(prog, mode, [base + 1], avoid + {base})) else Visited([], avoid + {base})
    ensures TailShape(prog, input, base, base + 1, if passes then [pos] else [], pos, avoid, [], avoid + {base})
  {
    hide Visit, Worth, FirstAccepted, After, Through;
    AcceptedOne(Beyond(After(prog, input, base + 1), pos), pos);
    WorthNone(prog, input, [], pos);
  }

  // ----- fragments that do not match empty -----

  /** A fragment that cannot match empty sees only itself, whatever else is left out. */
  lemma OwnVisit(prog: seq<Inst>, mode: Mode, n: Node, base: nat, avoid: set<nat>)
    requires WellFormedProgram(prog) && Placed(prog, n, base) && base + Size(n) < |prog| && WellFormed(n)
    requires !Nullable(n) && mode.At? && Apart(avoid, base, base + Size(n))
    ensures var v := Visit(prog, mode, [base], {});
            && (forall q: nat :: q in v.seen ==> base <= q < base + Size(n))
            && Visit(prog, mode, [base], avoid) == Visited(v.list, v.seen + avoid)
  {
    hide Visit, Placed, WellFormed, WellFormedProgram, Reach;
    var v := Visit(prog, mode, [base], {});
    NodeEscapes(prog, n, base);
    forall q: nat | q in v.seen ensures base <= q < base + Size(n) {
      if !Reach(prog, base, q) {
        NotReachedNotSeen(prog, mode, base, q);
      }
    }
    assert {} + avoid == avoid;
    VisitUnaffected(prog, mode, [base], {}, avoid);
  }

  lemma OwnShape(prog: seq<Inst>, input: seq<Byte>, n: Node, base: nat, pos: nat, avoid: set<nat>)
    returns (own: seq<nat>, seen: set<nat>)
    requires WellFormedProgram(prog) && Placed(prog, n, base) && base + Size(n) < |prog| && WellFormed(n) && pos <= |input|
    requires !Nullable(n) && Apart(avoid, base, base + Size(n))
    requires Prefers(prog, input, base, base + Size(n), Ends(n, input, pos), pos)
    ensures TailShape(prog, input, base, base + Size(n), Ends(n, input, pos), pos, avoid, own, seen)
  {
    hide Visit, Worth, WorthOf, Placed, WellFormed, WellFormedProgram, Reach, Ends, FirstAccepted, ClosedOver, Ready;
    var mode, end := ModeAt(input, pos), base + Size(n);
    OwnVisit(prog, mode, n, base, avoid);
    VisitFacts(prog, mode, [base], {});
    VisitCloses(prog, mode, base, {});
    var v := Visit(prog, mode, [base], {});
    own, seen := v.list, v.seen + avoid;
    ReadyListed(prog, mode, base, {});
    NotNullableBeyond(n, input, pos);
    AllBeyond(After(prog, input, end), pos, Ends(n, input, pos));
  }

  lemma OwnAvoiding(prog: seq<Inst>, input: seq<Byte>, n: Node, base: nat, pos: nat, avoid: set<nat>)
    requires WellFormedProgram(prog) && Placed(prog, n, base) && base + Size(n) < |prog| && WellFormed(n) && pos <= |input|
    requires !Nullable(n) && Apart(avoid, base, base + Size(n))
    requires Prefers(prog, input, base, base + Size(n), Ends(n, input, pos), pos)
    ensures PrefersAvoiding(prog, input, base, base + Size(n), Ends(n, input, pos), pos, avoid)
  {
    hide Visit, Worth, Placed, WellFormed, WellFormedProgram, Reach, Ends, FirstAccepted;
    OwnVisit(prog, ModeAt(input, pos), n, base, avoid);
    NotNullableBeyond(n, input, pos);
    BeyondAvoiding(prog, input, base + Size(n), Ends(n, input, pos), pos, avoid);
  }

  // ----- sequence -----

  lemma SeqShape(prog: seq<Inst>, input: seq<Byte>, rest: seq<Node>, base: nat, mid: nat, end: nat, mids: seq<nat>, pos: nat,
                 avoid: set<nat>, own0: seq<nat>, seen0: set<nat>, own1: seq<nat>, seen1: set<nat>)
    requires WellFormedProgram(prog) && base <= mid <= end < |prog| && pos <= |input| && Within(mids, pos, |input|)
    requires TailShape(prog, input, base, mid, mids, pos, avoid, own0, seen0)
    requires pos in mids ==> TailShape(prog, input, mid, end, SeqEnds(rest, input, pos), pos, seen0, own1, seen1)
    requires pos !in mids ==> own1 == [] && seen1 == seen0
    requires SplitsAt(ThenSeq(rest, input, pos, Beyond(After(prog, input, end), pos)), mids, pos)
    requires forall p: nat :: pos < p <= |input| ==> Prefers(prog, input, mid, end, SeqEnds(rest, input, p), p)
    ensures TailShape(prog, input, base, end, SeqFrom(rest, input, pos, mids), pos, avoid, own0 + own1, seen1)
  {
    hide Visit, Worth, WorthOf, WorthFrom, WellFormedProgram, FirstAccepted, SeqEnds, SeqFrom, ModeAt, Ready, Next;
    var mode := ModeAt(input, pos);
    PosInSeqFrom(rest, input, pos, mids);
    SeqOwnWorth(prog, input, rest, mid, end, mids, pos, own0, own1);
    if pos in mids {
      assert seen1 - avoid == (seen0 - avoid) + (seen1 - seen0);
      if pos in SeqEnds(rest, input, pos) {
        var behind := Visit(prog, mode, [end], seen1);
        assert own0 + (own1 + behind.list) == (own0 + own1) + behind.list;
      }
    } else {
      assert own0 + own1 == own0;
    }
    VisitCloses(prog, mode, base, avoid);
  }

  lemma SeqOwnWorth(prog: seq<Inst>, input: seq<Byte>, rest: seq<Node>, mid: nat, end: nat, mids: seq<nat>, pos: nat,
                    own0: seq<nat>, own1: seq<nat>)
    requires WellFormedProgram(prog) && mid < |prog| && end < |prog| && pos <= |input| && Within(mids, pos, |input|)
    requires InProg(prog, own0) && InProg(prog, own1)
    requires Worth(prog, input, own0, pos) == FirstAccepted(Beyond(After(prog, input, mid), pos), mids)
    requires if pos in mids
             then Worth(prog, input, own1, pos)
                  == FirstAccepted(Beyond(After(prog, input, end), pos), SeqEnds(rest, input, pos))
             else own1 == []
    requires SplitsAt(ThenSeq(rest, input, pos, Beyond(After(prog, input, end), pos)), mids, pos)
    requires forall p: nat :: pos < p <= |input| ==> Prefers(prog, input, mid, end, SeqEnds(rest, input, p), p)
    ensures InProg(prog, own0 + own1)
    ensures Worth(prog, input, own0 + own1, pos)
         == FirstAccepted(Beyond(After(prog, input, end), pos), SeqFrom(rest, input, pos, mids))
  {
    hide WorthOf, WorthFrom, WellFormedProgram, FirstAccepted, SeqEnds, SeqFrom;
    var f := After(prog, input, end);
    var h := ThenSeq(rest, input, pos, Beyond(f, pos));
    WorthConcat(prog, input, own0, own1, pos);
    SeqAccepted(rest, input, pos, Beyond(f, pos), h, mids);
    forall i | 0 <= i < |mids| ensures Beyond(h, pos)(mids[i]) == Beyond(After(prog, input, mid), pos)(mids[i]) {
      if mids[i] > pos {
        AllBeyond(f, pos, SeqEnds(rest, input, mids[i]));
        assert Prefers(prog, input, mid, end, SeqEnds(rest, input, mids[i]), mids[i]);
      }
    }
    AcceptedSame(Beyond(h, pos), Beyond(After(prog, input, mid), pos), mids);
  }

  // ----- alternation -----

  lemma AltShape(prog: seq<Inst>, input: seq<Byte>, base: nat, next: nat, end: nat, ends0: seq<nat>, ends1: seq<nat>, pos: nat,
                 avoid: set<nat>, own0: seq<nat>, seen0: set<nat>, own1: seq<nat>, seen1: set<nat>)
    requires WellFormedProgram(prog) && base + 2 <= next <= end < |prog| && pos <= |input| && base !in avoid
    requires prog[base] == Split(base + 1, next) && prog[next - 1] == Jmp(end)
    requires pos !in ends0
    requires TailShape(prog, input, base + 1, next - 1, ends0, pos, avoid + {base}, own0, seen0)
    requires TailShape(prog, input, next, end, ends1, pos, seen0, own1, seen1)
    ensures TailShape(prog, input, base, end, ends0 + ends1, pos, avoid, own0 + own1, seen1)
  {
    hide Visit, Worth, WorthOf, WorthFrom, WellFormedProgram, FirstAccepted, ModeAt, ClosedOver, Leads, Ready, Next, Beyond, After, SplitsAt;
    var mode := ModeAt(input, pos);
    SplitVisit(prog, mode, base, base + 1, next, avoid);
    VisitCloses(prog, mode, base + 1, avoid + {base});
    AltOwnWorth(prog, input, next - 1, end, ends0, ends1, pos, own0, own1);
    if pos in ends1 {
      var behind := Visit(prog, mode, [end], seen1);
      assert own0 + (own1 + behind.list) == (own0 + own1) + behind.list;
      ClosedWeaker(prog, mode, seen0 - (avoid + {base}), avoid + {base}, avoid + {base} + {end});
      ClosedChain(prog, mode, base, avoid, seen0, seen1, end);
    }
  }

  lemma AltOwnWorth(prog: seq<Inst>, input: seq<Byte>, jump: nat, end: nat, ends0: seq<nat>, ends1: seq<nat>, pos: nat,
                    own0: seq<nat>, own1: seq<nat>)
    requires WellFormedProgram(prog) && jump < |prog| && end < |prog| && prog[jump] == Jmp(end) && pos <= |input|
    requires InProg(prog, own0) && InProg(prog, own1)
    requires Worth(prog, input, own0, pos) == FirstAccepted(Beyond(After(prog, input, jump), pos), ends0)
    requires Worth(prog, input, own1, pos) == FirstAccepted(Beyond(After(prog, input, end), pos), ends1)
    ensures InProg(prog, own0 + own1)
    ensures Worth(prog, input, own0 + own1, pos)
         == FirstAccepted(Beyond(After(prog, input, end), pos), ends0 + ends1)
  {
    hide WorthOf, WorthFrom, FirstAccepted;
    var f, g := After(prog, input, jump), After(prog, input, end);
    WorthConcat(prog, input, own0, own1, pos);
    FirstAcceptedConcat(Beyond(g, pos), ends0, ends1);
    forall p: nat ensures f(p) == g(p) {
      if p <= |input| {
        JmpWorth(prog, input, jump, end, p);
      }
    }
    AcceptedSame(Beyond(f, pos), Beyond(g, pos), ends0);
  }

  /** No instruction of the stretch is ready at a place in the input. */
  ghost predicate Dull(prog: seq<Inst>, base: nat, end: nat) {
    forall pc: nat :: base <= pc < end && pc < |prog| ==> !prog[pc].Byte? && !prog[pc].Match?
  }

  /** A first branch that matches empty here, before branches that hold no byte: they add nothing. */
  lemma AltEarlyShape(prog: seq<Inst>, input: seq<Byte>, base: nat, next: nat, end: nat, ends0: seq<nat>, ends1: seq<nat>, pos: nat,
                      avoid: set<nat>, own: seq<nat>, seen0: set<nat>) returns (seen: set<nat>)
    requires WellFormedProgram(prog) && base + 2 <= next <= end < |prog| && pos <= |input| && Apart(avoid, base, end)
    requires prog[base] == Split(base + 1, next) && prog[next - 1] == Jmp(end)
    requires Entered(prog, base, end) && Stays(prog, base + 1, next - 1) && Stays(prog, next, end) && Dull(prog, next, end)
    requires pos in ends0 && forall k :: 0 <= k < |ends1| ==> ends1[k] == pos
    requires TailShape(prog, input, base + 1, next - 1, ends0, pos, avoid + {base}, own, seen0)
    ensures TailShape(prog, input, base, end, ends0 + ends1, pos, avoid, own, seen)
  {
    hide Visit, Worth, WorthOf, WorthFrom, WellFormedProgram, FirstAccepted, ClosedOver, Ready, Next, Beyond, After, SplitsAt, Leads, Stays, Entered, Dull;
    var mode := ModeAt(input, pos);
    var t := seen0 + {next - 1};
    var behind := Visit(prog, mode, [end], t);
    SplitVisit(prog, mode, base, base + 1, next, avoid);
    JmpVisit(prog, mode, next - 1, end, seen0);
    var late := LateVisit(prog, mode, base, next, end, t);
    seen := t + late;
    assert own + behind.list + [] == own + behind.list;
    AltEarlyWorth(prog, input, next - 1, end, ends0, ends1, pos, own);
    AltEarlyClosed(prog, mode, base, next, end, avoid, seen0, late);
    AltEarlyReady(prog, mode, next, end, late);
    ReadyNot(prog, mode, base, next - 1);
  }

  lemma ReadyNot(prog: seq<Inst>, mode: Mode, split: nat, jump: nat)
    requires WellFormedProgram(prog) && split < |prog| && jump < |prog| && prog[split].Split? && prog[jump].Jmp?
    ensures !Ready(prog, mode, split) && !Ready(prog, mode, jump)
  {
  }

  lemma AltEarlyReady(prog: seq<Inst>, mode: Mode, next: nat, end: nat, late: set<nat>)
    requires WellFormedProgram(prog) && mode.At? && Dull(prog, next, end)
    requires forall q: nat :: q in late ==> next <= q < end
    ensures forall q: nat :: q in late && q < |prog| ==> !Ready(prog, mode, q)
  {
  }

  /** Once the end is seen, the dull branches behind the split list nothing, and the end never led to them. */
  lemma LateVisit(prog: seq<Inst>, mode: Mode, base: nat, next: nat, end: nat, seen: set<nat>) returns (late: set<nat>)
    requires WellFormedProgram(prog) && mode.At? && base + 2 <= next <= end < |prog| && base in seen && Apart(seen, next, end)
    requires prog[base] == Split(base + 1, next) && prog[next - 1] == Jmp(end)
    requires Entered(prog, base, end) && Stays(prog, base + 1, next - 1) && Stays(prog, next, end) && Dull(prog, next, end)
    ensures var behind := Visit(prog, mode, [end], seen);
            && Visit(prog, mode, [next], behind.seen) == Visited([], behind.seen + late)
            && Visit(prog, mode, [end], seen + late) == Visited(behind.list, behind.seen + late)
            && ClosedOver(prog, mode, late, {end}) && (next < end ==> next in late)
    ensures forall q: nat :: q in late ==> next <= q < end
  {
    hide Visit, Entered, Stays, Dull, WellFormedProgram;
    var behind := Visit(prog, mode, [end], seen);
    EndStaysOut(prog, mode, base, next, end, seen);
    VisitCloses(prog, mode, end, seen);
    LateStays(prog, mode, next, end, behind.seen);
    var v := Visit(prog, mode, [next], behind.seen);
    VisitCloses(prog, mode, next, behind.seen);
    VisitFacts(prog, mode, [next], behind.seen);
    late := v.seen - behind.seen;
    LateLists(prog, mode, next, end, v.list, late);
    assert behind.seen + late == v.seen;
    assert late !! behind.seen;
    VisitUnaffected(prog, mode, [end], seen, late);
    LateClosed(prog, mode, next, end, late, behind.seen);
  }

  lemma LateLists(prog: seq<Inst>, mode: Mode, next: nat, end: nat, list: seq<nat>, late: set<nat>)
    requires WellFormedProgram(prog) && mode.At? && Dull(prog, next, end) && ListsReady(prog, mode, list, late)
    requires forall q: nat :: q in late ==> next <= q < end
    ensures list == []
  {
    NothingListed(list);
  }

  lemma NothingListed(list: seq<nat>)
    ensures (forall p: nat :: p !in list) ==> list == []
  {
    if list != [] {
      assert list[0] in list;
    }
  }

  lemma LateClosed(prog: seq<Inst>, mode: Mode, next: nat, end: nat, late: set<nat>, seen: set<nat>)
    requires WellFormedProgram(prog) && mode.At? && Stays(prog, next, end) && Apart(seen, next, end)
    requires ClosedOver(prog, mode, late, seen) && forall q: nat :: q in late ==> next <= q < end
    ensures ClosedOver(prog, mode, late, {end})
  {
    forall pc: nat, q: nat {:trigger Leads(prog, mode, pc, q)} | pc in late && Leads(prog, mode, pc, q)
      ensures q in {end} + late
    {
      AnywhereLeads(prog, mode, pc, q);
    }
  }

  lemma LateStays(prog: seq<Inst>, mode: Mode, next: nat, end: nat, seen: set<nat>)
    requires WellFormedProgram(prog) && mode.At? && next <= end < |prog| && Stays(prog, next, end) && end in seen
    ensures forall q: nat :: q in Visit(prog, mode, [next], seen).seen ==> q in seen || next <= q < end
  {
    hide Visit;
    var stretch := set q | q in AllPcs(prog) && next <= q < end;
    forall pc: nat, q: nat {:trigger Leads(prog, mode, pc, q)} | pc in stretch && Leads(prog, mode, pc, q)
      ensures q in seen + stretch
    {
      AnywhereLeads(prog, mode, pc, q);
    }
    VisitStaysInside(prog, mode, [next], seen, stretch);
  }

  /** With its split on the way, an alternation's later branches are not entered from its end. */
  lemma EndStaysOut(prog: seq<Inst>, mode: Mode, base: nat, next: nat, end: nat, seen: set<nat>)
    requires WellFormedProgram(prog) && mode.At? && base + 2 <= next <= end < |prog| && base in seen && Apart(seen, next, end)
    requires prog[next - 1] == Jmp(end) && Entered(prog, base, end) && Stays(prog, base + 1, next - 1)
    ensures Apart(Visit(prog, mode, [end], seen).seen, next, end)
  {
    hide Visit;
    var out := set q | q in AllPcs(prog) && !(next <= q < end) && q != base;
    forall pc: nat, q: nat {:trigger Leads(prog, mode, pc, q)} | pc in out && Leads(prog, mode, pc, q)
      ensures q in seen + out
    {
      AnywhereLeads(prog, mode, pc, q);
      JmpLeads(prog, ANYWHERE, next - 1, end, q);
      LeadsInside(prog, mode, pc, q);
    }
    VisitStaysInside(prog, mode, [end], seen, out);
  }

  lemma LeadsInside(prog: seq<Inst>, mode: Mode, pc: nat, q: nat)
    requires WellFormedProgram(prog) && Leads(prog, mode, pc, q)
    ensures q < |prog|
  {
  }

  lemma AltEarlyWorth(prog: seq<Inst>, input: seq<Byte>, jump: nat, end: nat, ends0: seq<nat>, ends1: seq<nat>, pos: nat, own: seq<nat>)
    requires WellFormedProgram(prog) && jump < |prog| && end < |prog| && prog[jump] == Jmp(end) && pos <= |input|
    requires InProg(prog, own) && forall k :: 0 <= k < |ends1| ==> ends1[k] == pos
    requires Worth(prog, input, own, pos) == FirstAccepted(Beyond(After(prog, input, jump), pos), ends0)
    ensures Worth(prog, input, own, pos) == FirstAccepted(Beyond(After(prog, input, end), pos), ends0 + ends1)
  {
    hide Worth, WorthOf, WorthFrom, FirstAccepted;
    var f, g := After(prog, input, jump), After(prog, input, end);
    FirstAcceptedConcat(Beyond(g, pos), ends0, ends1);
    OnlyHere(g, ends1, pos);
    forall p: nat ensures f(p) == g(p) {
      if p <= |input| {
        JmpWorth(prog, input, jump, end, p);
      }
    }
    AcceptedSame(Beyond(f, pos), Beyond(g, pos), ends0);
  }

  lemma AltEarlyClosed(prog: seq<Inst>, mode: Mode, base: nat, next: nat, end: nat, avoid: set<nat>, seen0: set<nat>, late: set<nat>)
    requires WellFormedProgram(prog) && base + 2 <= next <= end < |prog| && avoid + {base} <= seen0
    requires prog[base] == Split(base + 1, next) && prog[next - 1] == Jmp(end)
    requires ClosedOver(prog, mode, seen0 - (avoid + {base}), avoid + {base} + {next - 1})
    requires ClosedOver(prog, mode, late, {end}) && (next < end ==> next in late)
    requires base + 1 in seen0 || base + 1 == next - 1
    ensures ClosedOver(prog, mode, seen0 + {next - 1} + late - avoid, avoid + {end})
  {
    var all := seen0 + {next - 1} + late;
    forall pc: nat, q: nat {:trigger Leads(prog, mode, pc, q)} | pc in all - avoid && Leads(prog, mode, pc, q)
      ensures q in avoid + {end} + (all - avoid)
    {
      SplitLeads(prog, mode, base, base + 1, next, q);
      JmpLeads(prog, mode, next - 1, end, q);
    }
  }

  // ----- option -----

  lemma QuestShape(prog: seq<Inst>, input: seq<Byte>, base: nat, end: nat, ends: seq<nat>, pos: nat,
                   avoid: set<nat>, own: seq<nat>, seen: set<nat>)
    requires WellFormedProgram(prog) && base + 1 <= end < |prog| && pos <= |input| && base !in avoid
    requires prog[base] == Split(base + 1, end)
    requires TailShape(prog, input, base + 1, end, ends, pos, avoid + {base}, own, seen)
    ensures TailShape(prog, input, base, end, ends + [pos], pos, avoid, own, seen)
  {
    hide Visit, Worth, WorthOf, WorthFrom, WellFormedProgram, FirstAccepted, ModeAt, ClosedOver, Leads, Ready, Next, Beyond, After, SplitsAt;
    var mode := ModeAt(input, pos);
    SplitVisit(prog, mode, base, base + 1, end, avoid);
    VisitCloses(prog, mode, base + 1, avoid + {base});
    VisitCloses(prog, mode, end, seen);
    var behind := Visit(prog, mode, [end], seen);
    SeenVisit(prog, mode, end, behind.seen);
    assert own + behind.list + [] == own + behind.list;
    FirstAcceptedConcat(Beyond(After(prog, input, end), pos), ends, [pos]);
    BeyondNotHere(After(prog, input, end), pos);
    if pos !in ends {
      ClosedWeaker(prog, mode, seen - (avoid + {base}), avoid + {base}, avoid + {base} + {end});
    }
    assert seen - seen == {};
    NothingClosed(prog, mode, seen + {end});
    ClosedChain(prog, mode, base, avoid, seen, seen, end);
  }

  // ----- loops -----

  /** What the rounds beyond `pos` are worth, when each is followed by the loop again. */
  lemma RoundsWorth(prog: seq<Inst>, input: seq<Byte>, inner: Node, back: nat, end: nat, pos: nat)
    requires WellFormedProgram(prog) && back < |prog| && end < |prog| && pos <= |input|
    requires forall p: nat :: pos < p <= |input| ==>
      WorthFrom(prog, input, back, p) == FirstAccepted(After(prog, input, end), StarEnds(inner, input, p))
    ensures FirstAccepted(Beyond(After(prog, input, end), pos), StarEnds(inner, input, pos))
         == FirstAccepted(Beyond(After(prog, input, back), pos), Ends(inner, input, pos))
    ensures FirstAccepted(Beyond(ThenStar(inner, input, pos, Beyond(After(prog, input, end), pos)), pos),
                          Ends(inner, input, pos))
         == FirstAccepted(Beyond(After(prog, input, back), pos), Ends(inner, input, pos))
  {
    hide WorthOf, WorthFrom, WellFormedProgram, Ends, StarFrom, FirstAccepted;
    var k := Beyond(After(prog, input, end), pos);
    var more := Beyond(ThenStar(inner, input, pos, k), pos);
    var mids := Ends(inner, input, pos);
    forall p: nat | pos < p <= |input| ensures more(p) == After(prog, input, back)(p) {
      AllBeyond(After(prog, input, end), pos, StarEnds(inner, input, p));
    }
    AcceptedSame(more, Beyond(After(prog, input, back), pos), mids);
    StarAccepted(inner, input, pos, k, more, mids);
    FirstAcceptedConcat(k, StarFrom(inner, input, pos, mids), [pos]);
    AcceptedOne(k, pos);
  }

  lemma StarShape(prog: seq<Inst>, input: seq<Byte>, inner: Node, base: nat, back: nat, pos: nat, avoid: set<nat>)
    returns (own: seq<nat>, seen: set<nat>)
    requires WellFormedProgram(prog) && base + 1 <= back && back + 1 < |prog| && pos <= |input| && Apart(avoid, base, back + 1)
    requires prog[base] == Split(base + 1, back + 1) && prog[back] == Jmp(base) && Stays(prog, base + 1, back)
    requires WorthAvoiding(prog, input, base + 1, pos, avoid + {base})
          == FirstAccepted(Beyond(After(prog, input, back), pos), Ends(inner, input, pos))
    requires forall p: nat :: pos < p <= |input| ==>
      WorthFrom(prog, input, back, p) == FirstAccepted(After(prog, input, back + 1), StarEnds(inner, input, p))
    ensures TailShape(prog, input, base, back + 1, StarEnds(inner, input, pos), pos, avoid, own, seen)
  {
    hide Visit, Worth, WorthOf, WorthFrom, WellFormedProgram, FirstAccepted, ClosedOver, Leads, Ready, Next, Beyond, After, SplitsAt, Ends, StarFrom, Stays;
    var mode := ModeAt(input, pos);
    RoundsWorth(prog, input, inner, back, back + 1, pos);
    SplitVisit(prog, mode, base, base + 1, back + 1, avoid);
    var a := Visit(prog, mode, [base + 1], avoid + {base});
    own, seen := a.list, a.seen;
    BodyStays(prog, mode, base, back, avoid);
    ReadyListed(prog, mode, base + 1, avoid + {base});
    StarClosed(prog, mode, base, back, avoid);
  }

  lemma VisitInside(prog: seq<Inst>, mode: Mode, pc: nat, avoid: set<nat>)
    requires WellFormedProgram(prog) && pc < |prog|
    ensures InProg(prog, Visit(prog, mode, [pc], avoid).list)
  {
    VisitFacts(prog, mode, [pc], avoid);
  }

  lemma StarClosed(prog: seq<Inst>, mode: Mode, base: nat, back: nat, avoid: set<nat>)
    requires WellFormedProgram(prog) && base + 1 <= back < |prog| && prog[base] == Split(base + 1, back + 1)
    ensures var seen := Visit(prog, mode, [base + 1], avoid + {base}).seen;
            && avoid + {base} <= seen && ClosedOver(prog, mode, seen - avoid, avoid + {back + 1})
    ensures InProg(prog, Visit(prog, mode, [base + 1], avoid + {base}).list)
  {
    hide Visit, Leads, WellFormedProgram;
    var seen := Visit(prog, mode, [base + 1], avoid + {base}).seen;
    VisitInside(prog, mode, base + 1, avoid + {base});
    VisitCloses(prog, mode, base + 1, avoid + {base});
    forall pc: nat, q: nat {:trigger Leads(prog, mode, pc, q)} | pc in seen - avoid && Leads(prog, mode, pc, q)
      ensures q in avoid + {back + 1} + (seen - avoid)
    {
      SplitLeads(prog, mode, base, base + 1, back + 1, q);
    }
  }

  /** With its split on the way, the body of a `*` sees only itself. */
  lemma BodyStays(prog: seq<Inst>, mode: Mode, base: nat, back: nat, avoid: set<nat>)
    requires WellFormedProgram(prog) && mode.At? && base + 1 <= back < |prog| && prog[back] == Jmp(base)
    requires Stays(prog, base + 1, back)
    ensures forall q: nat :: q in Visit(prog, mode, [base + 1], avoid + {base}).seen ==> q in avoid || base <= q <= back
  {
    hide Visit;
    var body := set q | q in AllPcs(prog) && base + 1 <= q <= back;
    forall pc: nat, q: nat {:trigger Leads(prog, mode, pc, q)} | pc in body && Leads(prog, mode, pc, q)
      ensures q in avoid + {base} + body
    {
      AnywhereLeads(prog, mode, pc, q);
      JmpLeads(prog, ANYWHERE, back, base, q);
    }
    VisitStaysInside(prog, mode, [base + 1], avoid + {base}, body);
  }

  /** The ready instructions a visit is the first to see are the ones it lists. */
  lemma ReadyListed(prog: seq<Inst>, mode: Mode, pc: nat, avoid: set<nat>)
    requires WellFormedProgram(prog) && pc < |prog|
    ensures var v := Visit(prog, mode, [pc], avoid);
            forall q: nat :: q in v.seen && q !in avoid && q < |prog| && Ready(prog, mode, q) ==> q in v.list
  {
    VisitFacts(prog, mode, [pc], avoid);
  }

  lemma PlusShape(prog: seq<Inst>, input: seq<Byte>, inner: Node, base: nat, back: nat, pos: nat,
                  avoid: set<nat>, own: seq<nat>, seen: set<nat>)
    requires WellFormedProgram(prog) && base <= back && back + 1 < |prog| && pos <= |input| && Apart(avoid, base, back + 1)
    requires prog[back] == Split(base, back + 1)
    requires TailShape(prog, input, base, back, Ends(inner, input, pos), pos, avoid, own, seen)
    requires SplitsAt(ThenStar(inner, input, pos, Beyond(After(prog, input, back + 1), pos)), Ends(inner, input, pos), pos)
    requires forall p: nat :: pos < p <= |input| ==>
      WorthFrom(prog, input, back, p) == FirstAccepted(After(prog, input, back + 1), StarEnds(inner, input, p))
    ensures TailShape(prog, input, base, back + 1, PlusFrom(inner, input, pos, Ends(inner, input, pos)), pos, avoid, own,
                      if pos in Ends(inner, input, pos) then seen + {back} else seen)
  {
    hide Visit, Worth, WorthOf, WorthFrom, WellFormedProgram, FirstAccepted, ModeAt, ClosedOver, Leads, Ready, Next, Beyond, After, Ends, StarEnds, PlusFrom;
    var mode, mids := ModeAt(input, pos), Ends(inner, input, pos);
    PlusOwnWorth(prog, input, inner, back, pos);
    PosInPlusFrom(inner, input, pos, mids);
    VisitCloses(prog, mode, base, avoid);
    if pos in mids {
      SplitVisit(prog, mode, back, base, back + 1, seen);
      SeenVisit(prog, mode, base, seen + {back});
      var behind := Visit(prog, mode, [back + 1], seen + {back});
      assert [] + behind.list == behind.list;
      LoopClosed(prog, mode, back, avoid, seen, base);
    }
  }

  /** What the own instructions of a `+` must be worth is what those of its body are worth. */
  lemma PlusOwnWorth(prog: seq<Inst>, input: seq<Byte>, inner: Node, back: nat, pos: nat)
    requires WellFormedProgram(prog) && back + 1 < |prog| && pos <= |input|
    requires SplitsAt(ThenStar(inner, input, pos, Beyond(After(prog, input, back + 1), pos)), Ends(inner, input, pos), pos)
    requires forall p: nat :: pos < p <= |input| ==>
      WorthFrom(prog, input, back, p) == FirstAccepted(After(prog, input, back + 1), StarEnds(inner, input, p))
    ensures FirstAccepted(Beyond(After(prog, input, back + 1), pos), PlusFrom(inner, input, pos, Ends(inner, input, pos)))
         == FirstAccepted(Beyond(After(prog, input, back), pos), Ends(inner, input, pos))
  {
    hide WorthFrom, WellFormedProgram, FirstAccepted, Ends, StarEnds, PlusFrom;
    var k := Beyond(After(prog, input, back + 1), pos);
    RoundsWorth(prog, input, inner, back, back + 1, pos);
    PlusAccepted(inner, input, pos, k, ThenStar(inner, input, pos, k), Ends(inner, input, pos));
  }

  lemma LoopClosed(prog: seq<Inst>, mode: Mode, back: nat, avoid: set<nat>, seen: set<nat>, base: nat)
    requires WellFormedProgram(prog) && avoid <= seen && back !in avoid
    requires ClosedOver(prog, mode, seen - avoid, avoid + {back})
    requires base in seen || base == back
    requires forall q: nat :: Leads(prog, mode, back, q) ==> q == base || q == back + 1
    ensures ClosedOver(prog, mode, seen + {back} - avoid, avoid + {back + 1})
  {
  }

  /** Met again with its split on the way, the body of a `+` is worth its progressing ends. */
  lemma BodyAgainWorth(prog: seq<Inst>, input: seq<Byte>, inner: Node, base: nat, back: nat, pos: nat,
                       own: seq<nat>, seen: set<nat>)
    requires WellFormedProgram(prog) && base < |prog| && back < |prog| && pos <= |input|
    requires TailShape(prog, input, base, back, Ends(inner, input, pos), pos, {back}, own, seen)
    ensures WorthAvoiding(prog, input, base, pos, {back})
         == FirstAccepted(Beyond(After(prog, input, back), pos), Ends(inner, input, pos))
  {
    hide Visit, Worth, WorthOf, WorthFrom, FirstAccepted, ModeAt, Ends;
    VisitOne(prog, ModeAt(input, pos), back, seen);
    assert own + [] == own;
  }

  // ----- code without bytes -----

  lemma {:induction false} DullFragment(prog: seq<Inst>, n: Node, base: nat)
    requires Placed(prog, n, base) && !HasByte(n)
    ensures Dull(prog, base, base + Size(n))
    decreases n, 0
  {
    hide Dull;
    match n
    case Empty => DullNone(prog, base);
    case StartAnchor | EndAnchor => DullOne(prog, base);
    case Concat(parts) => DullSeq(prog, parts, base);
    case Alt(branches) => DullAlt(prog, branches, base, base + AltSize(branches));
    case Star(inner) =>
      var back := base + Size(inner) + 1;
      DullOne(prog, base);
      DullFragment(prog, inner, base + 1);
      DullOne(prog, back);
      DullJoin(prog, base, base + 1, back);
      DullJoin(prog, base, back, back + 1);
    case Plus(inner) =>
      var back := base + Size(inner);
      DullFragment(prog, inner, base);
      DullOne(prog, back);
      DullJoin(prog, base, back, back + 1);
    case Quest(inner) =>
      DullOne(prog, base);
      DullFragment(prog, inner, base + 1);
      DullJoin(prog, base, base + 1, base + 1 + Size(inner));
    case Class(_) =>
  }

  lemma DullNone(prog: seq<Inst>, base: nat)
    ensures Dull(prog, base, base)
  {
  }

  lemma DullOne(prog: seq<Inst>, pc: nat)
    requires pc < |prog| && !prog[pc].Byte? && !prog[pc].Match?
    ensures Dull(prog, pc, pc + 1)
  {
  }

  lemma DullJoin(prog: seq<Inst>, base: nat, mid: nat, end: nat)
    requires Dull(prog, base, mid) && Dull(prog, mid, end)
    ensures Dull(prog, base, end)
  {
  }

  lemma {:induction false} DullSeq(prog: seq<Inst>, parts: seq<Node>, base: nat)
    requires SeqPlaced(prog, parts, base) && !AnyHasByte(parts)
    ensures Dull(prog, base, base + SeqSize(parts))
    decreases parts, 0
  {
    if parts != [] {
      DullFragment(prog, parts[0], base);
      DullSeq(prog, parts[1..], base + Size(parts[0]));
    }
  }

  lemma {:induction false} DullAlt(prog: seq<Inst>, branches: seq<Node>, base: nat, end: nat)
    requires AltPlaced(prog, branches, base, end) && !AnyHasByte(branches)
    ensures Dull(prog, base, base + AltSize(branches))
    decreases branches, 0
  {
    if |branches| == 1 {
      DullFragment(prog, branches[0], base);
    } else if |branches| > 1 {
      DullFragment(prog, branches[0], base + 1);
      DullAlt(prog, branches[1..], base + Size(branches[0]) + 2, end);
    }
  }
}

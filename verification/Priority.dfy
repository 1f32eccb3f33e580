/** In an orderly fragment the Pike machine prefers the ends the backtracker tries, in the same order. */
module Priority {
  import opened Wrappers
  import opened Ast
  import opened Semantics
  import opened Naive
  import opened Program
  import opened Paths
  import opened Closure
  import opened Threads
  import opened Epsilon
  import opened Sealed
  import opened Blocked
  import opened Tail
  import opened Prefer
  import opened TailVisits
  import opened PikeCorrectness

  // ----- fragments that are entered straight -----

  /**
   The machine started at the beginning of an orderly fragment, in a place its end does not
   come back to (or where the empty match is tried last), prefers the backtracker's ends.
   */
  lemma {:induction false} NodePrefers(prog: seq<Inst>, input: seq<Byte>, n: Node, base: nat, pos: nat)
    requires WellFormedProgram(prog) && Placed(prog, n, base) && IsSealed(prog, n, base)
    requires base + Size(n) < |prog| && pos <= |input|
    requires WellFormed(n) && Orderly(n)
    requires (Nullable(n) && Last(n)) || Contained(prog, base, base + Size(n), Nullable(n))
    ensures Prefers(prog, input, base, base + Size(n), Ends(n, input, pos), pos)
    decreases n, if Nullable(n) then 3 else 1, |input| - pos, 0
  {
    hide WorthFrom, Reach, Contained, WellFormedProgram, Prefers, StarEnds, PlusFrom, Visit, Entered;
    if Nullable(n) && Last(n) {
      TailPrefers(prog, input, n, base, pos);
    } else {
      match n
      case Class(c) => BytePrefers(prog, input, c, base, pos);
      case Concat(parts) => PartsPrefer(prog, input, parts, base, pos);
      case Alt(branches) => BranchesPrefer(prog, input, branches, base, base + AltSize(branches), pos);
      case Plus(inner) => PlusPrefers(prog, input, inner, base, pos);
      case Quest(inner) => QuestPrefers(prog, input, inner, base, pos);
      case _ =>
    }
  }

  lemma {:induction false} PartsPrefer(prog: seq<Inst>, input: seq<Byte>, parts: seq<Node>, base: nat, pos: nat)
    requires WellFormedProgram(prog) && SeqPlaced(prog, parts, base) && SeqSealed(prog, parts, base)
    requires base + SeqSize(parts) < |prog| && pos <= |input|
    requires AllWellFormed(parts) && AllOrderly(parts)
    requires Contained(prog, base, base + SeqSize(parts), AllNullable(parts))
    ensures Prefers(prog, input, base, base + SeqSize(parts), SeqEnds(parts, input, pos), pos)
    decreases parts, 5, |input| - pos, 0
  {
    hide WorthFrom, Reach, Contained, Escapes, WellFormedProgram, Prefers, Entered;
    if parts == [] {
      NothingPrefers(prog, input, base, pos);
    } else {
      var mid, end := base + Size(parts[0]), base + SeqSize(parts);
      NodeEscapes(prog, parts[0], base);
      SeqEscapes(prog, parts[1..], mid);
      ContainedSeq(prog, base, mid, end, Nullable(parts[0]), AllNullable(parts[1..]));
      NodePrefers(prog, input, parts[0], base, pos);
      forall p: nat | pos <= p <= |input| ensures Prefers(prog, input, mid, end, SeqEnds(parts[1..], input, p), p) {
        PartsPrefer(prog, input, parts[1..], mid, p);
      }
      SeqPrefers(prog, input, parts[1..], base, mid, end, Ends(parts[0], input, pos), pos);
    }
  }

  lemma {:induction false} BranchesPrefer(prog: seq<Inst>, input: seq<Byte>, branches: seq<Node>, base: nat, end: nat, pos: nat)
    requires WellFormedProgram(prog) && AltPlaced(prog, branches, base, end) && AltSealed(prog, branches, base, end)
    requires branches != [] && pos <= |input| && end == base + AltSize(branches) < |prog|
    requires AllWellFormed(branches) && AllOrderly(branches)
    requires Contained(prog, base, end, AnyNullable(branches))
    ensures Prefers(prog, input, base, end, AltEnds(branches, input, pos), pos)
    decreases branches, 5, |input| - pos, 0
  {
    hide WorthFrom, Reach, Contained, Escapes, WellFormedProgram, Prefers, Entered;
    if |branches| == 1 {
      NodePrefers(prog, input, branches[0], base, pos);
      assert AltEnds(branches, input, pos) == Ends(branches[0], input, pos);
    } else {
      var next := base + Size(branches[0]) + 2;
      NodeEscapes(prog, branches[0], base + 1);
      AltEscapes(prog, branches[1..], next, end);
      ContainedAlt(prog, base, next, end, Nullable(branches[0]), AnyNullable(branches[1..]));
      StraightSplitWorth(prog, input, base, base + 1, next, pos);
      NodePrefers(prog, input, branches[0], base + 1, pos);
      JmpPrefers(prog, input, base + 1, next - 1, end, Ends(branches[0], input, pos), pos);
      BranchesPrefer(prog, input, branches[1..], next, end, pos);
      ArmsPrefer(prog, input, base, base + 1, next, end,
                 Ends(branches[0], input, pos), AltEnds(branches[1..], input, pos), pos);
    }
  }

  lemma {:induction false} QuestPrefers(prog: seq<Inst>, input: seq<Byte>, inner: Node, base: nat, pos: nat)
    requires WellFormedProgram(prog) && base + 1 + Size(inner) < |prog| && pos <= |input|
    requires prog[base] == Split(base + 1, base + 1 + Size(inner))
    requires Placed(prog, inner, base + 1) && IsSealed(prog, inner, base + 1)
    requires WellFormed(inner) && Orderly(inner)
    requires Contained(prog, base, base + 1 + Size(inner), true)
    ensures Prefers(prog, input, base, base + 1 + Size(inner), Ends(inner, input, pos) + [pos], pos)
    decreases inner, 6, |input| - pos, 0
  {
    hide WorthFrom, Reach, Contained, Escapes, WellFormedProgram, Prefers, Size, Placed, IsSealed, Ends, Nullable;
    var end := base + 1 + Size(inner);
    NodeEscapes(prog, inner, base + 1);
    ContainedQuest(prog, base, end, Nullable(inner));
    StraightSplitWorth(prog, input, base, base + 1, end, pos);
    NodePrefers(prog, input, inner, base + 1, pos);
    NothingPrefers(prog, input, end, pos);
    ArmsPrefer(prog, input, base, base + 1, end, end, Ends(inner, input, pos), [pos], pos);
  }

  /** The body of a loop that cannot match empty moves on: its ends lie beyond the position. */
  lemma BodyPrefersBeyond(prog: seq<Inst>, input: seq<Byte>, inner: Node, body: nat, back: nat, pos: nat)
    requires WellFormedProgram(prog) && body < |prog| && back < |prog| && pos <= |input| && !Nullable(inner)
    requires Prefers(prog, input, body, back, Ends(inner, input, pos), pos)
    ensures WorthFrom(prog, input, body, pos)
         == FirstAccepted(Beyond(After(prog, input, back), pos), Ends(inner, input, pos))
  {
    NotNullableBeyond(inner, input, pos);
    AllBeyond(After(prog, input, back), pos, Ends(inner, input, pos));
  }

  /** The split of a `+`, met after a round, behaves as a greedy loop. */
  lemma {:induction false} PlusAgain(prog: seq<Inst>, input: seq<Byte>, inner: Node, base: nat, pos: nat)
    requires WellFormedProgram(prog) && PlusBehind(prog, inner, base) && Placed(prog, inner, base) && IsSealed(prog, inner, base)
    requires base + Size(inner) + 1 < |prog| && pos <= |input|
    requires WellFormed(inner) && Orderly(inner) && !Nullable(inner)
    requires Contained(prog, base, base + Size(inner), false) && !Reach(prog, base, base + Size(inner))
    ensures Prefers(prog, input, base + Size(inner), base + Size(inner) + 1, StarEnds(inner, input, pos), pos)
    decreases inner, 6, |input| - pos, 0
  {
    hide WorthFrom, Reach, Contained, Escapes, WellFormedProgram, Size, Placed, IsSealed, Ends, StarEnds, Nullable;
    var back := base + Size(inner);
    StraightSplitWorth(prog, input, back, base, back + 1, pos);
    NodePrefers(prog, input, inner, base, pos);
    BodyPrefersBeyond(prog, input, inner, base, back, pos);
    forall p: nat | pos < p <= |input|
      ensures WorthFrom(prog, input, back, p) == FirstAccepted(After(prog, input, back + 1), StarEnds(inner, input, p))
    {
      PlusAgain(prog, input, inner, base, p);
    }
    RoundPrefers(prog, input, inner, back, base, back, back + 1, pos);
  }

  lemma {:induction false} PlusPrefers(prog: seq<Inst>, input: seq<Byte>, inner: Node, base: nat, pos: nat)
    requires WellFormedProgram(prog) && PlusBehind(prog, inner, base) && Placed(prog, inner, base) && IsSealed(prog, inner, base)
    requires base + Size(inner) + 1 < |prog| && pos <= |input|
    requires WellFormed(inner) && Orderly(inner) && !Nullable(inner)
    requires Contained(prog, base, base + Size(inner) + 1, false)
    ensures Prefers(prog, input, base, base + Size(inner) + 1, PlusFrom(inner, input, pos, Ends(inner, input, pos)), pos)
    decreases inner, 6, |input| - pos, 1
  {
    hide WorthFrom, Reach, Contained, Escapes, WellFormedProgram, Size, Placed, IsSealed, Ends, StarEnds, Nullable;
    var back := base + Size(inner);
    NodeEscapes(prog, inner, base);
    ContainedPlus(prog, base, back);
    NodePrefers(prog, input, inner, base, pos);
    forall p: nat | pos <= p <= |input|
      ensures Prefers(prog, input, back, back + 1, StarEnds(inner, input, p), p)
    {
      PlusAgain(prog, input, inner, base, p);
    }
    PlusRoundsPrefer(prog, input, inner, base, back, back + 1, pos);
  }

  /** A fragment that cannot match empty prefers its ends wherever it stands. */
  lemma {:induction false} OwnPrefers(prog: seq<Inst>, input: seq<Byte>, n: Node, base: nat, pos: nat)
    requires WellFormedProgram(prog) && Placed(prog, n, base) && IsSealed(prog, n, base)
    requires base + Size(n) < |prog| && pos <= |input|
    requires WellFormed(n) && Orderly(n) && !Nullable(n)
    ensures Prefers(prog, input, base, base + Size(n), Ends(n, input, pos), pos)
    decreases n, 1, |input| - pos, 1
  {
    hide Prefers, Contained, Entered, Ends, Size, Placed, WellFormed, WellFormedProgram;
    EnteredContained(prog, base, base + Size(n));
    NodePrefers(prog, input, n, base, pos);
  }

  // ----- fragments that try the empty match last, wherever they stand -----

  lemma {:induction false} TailVisit(prog: seq<Inst>, input: seq<Byte>, n: Node, base: nat, pos: nat, avoid: set<nat>)
    returns (own: seq<nat>, seen: set<nat>)
    requires WellFormedProgram(prog) && Placed(prog, n, base) && IsSealed(prog, n, base)
    requires base + Size(n) < |prog| && pos <= |input|
    requires WellFormed(n) && Orderly(n) && Last(n) && Apart(avoid, base, base + Size(n))
    ensures TailShape(prog, input, base, base + Size(n), Ends(n, input, pos), pos, avoid, own, seen)
    decreases n, 2, |input| - pos, 0
  {
    hide TailShape, WellFormedProgram, StarEnds, PlusFrom, Entered, Prefers, SeqPlaced, AltPlaced, SeqSealed, AltSealed, AllLast,
         LastBranches, AllOrderly, AllWellFormed, SeqEnds, AltEnds, SeqSize, AltSize;
    if !Nullable(n) {
      OwnPrefers(prog, input, n, base, pos);
      own, seen := OwnShape(prog, input, n, base, pos, avoid);
    } else {
      match n
      case Empty =>
        own, seen := [], avoid;
        EmptyShape(prog, input, base, pos, avoid);
      case StartAnchor =>
        own, seen := [], avoid + {base};
        AssertShape(prog, input, base, pos, pos == 0, avoid);
      case EndAnchor =>
        own, seen := [], avoid + {base};
        AssertShape(prog, input, base, pos, pos == |input|, avoid);
      case Concat(parts) => own, seen := TailVisitSeq(prog, input, parts, base, pos, avoid);
      case Alt(branches) => own, seen := TailVisitAlt(prog, input, branches, base, base + AltSize(branches), pos, avoid);
      case Star(inner) => own, seen := TailVisitStar(prog, input, inner, base, pos, avoid);
      case Plus(inner) => own, seen := TailVisitPlus(prog, input, inner, base, pos, avoid);
      case Quest(inner) =>
        own, seen := TailVisit(prog, input, inner, base + 1, pos, avoid + {base});
        QuestShape(prog, input, base, base + Size(n), Ends(inner, input, pos), pos, avoid, own, seen);
    }
  }

  lemma {:induction false} TailVisitSeq(prog: seq<Inst>, input: seq<Byte>, parts: seq<Node>, base: nat, pos: nat, avoid: set<nat>)
    returns (own: seq<nat>, seen: set<nat>)
    requires WellFormedProgram(prog) && SeqPlaced(prog, parts, base) && SeqSealed(prog, parts, base)
    requires base + SeqSize(parts) < |prog| && pos <= |input|
    requires AllWellFormed(parts) && AllOrderly(parts) && AllLast(parts) && Apart(avoid, base, base + SeqSize(parts))
    ensures TailShape(prog, input, base, base + SeqSize(parts), SeqEnds(parts, input, pos), pos, avoid, own, seen)
    decreases parts, 2, |input| - pos, 0
  {
    hide WellFormedProgram, Ends, Visit, Worth, FirstAccepted, Entered;
    if parts == [] {
      own, seen := [], avoid;
      EmptyShape(prog, input, base, pos, avoid);
    } else {
      var rest, mid, end := parts[1..], base + Size(parts[0]), base + SeqSize(parts);
      var mids := Ends(parts[0], input, pos);
      var own0, seen0 := TailVisit(prog, input, parts[0], base, pos, avoid);
      var own1: seq<nat>;
      own1, seen := [], seen0;
      if pos in mids {
        own1, seen := TailVisitSeq(prog, input, rest, mid, pos, seen0);
      }
      EndsSplit(parts[0], input, pos, ThenSeq(rest, input, pos, Beyond(After(prog, input, end), pos)));
      forall p: nat | pos < p <= |input| ensures Prefers(prog, input, mid, end, SeqEnds(rest, input, p), p) {
        TailPrefersSeq(prog, input, rest, mid, p);
      }
      SeqShape(prog, input, rest, base, mid, end, mids, pos, avoid, own0, seen0, own1, seen);
      own := own0 + own1;
    }
  }

  /** Behind a branch that ends where it began, no branch consumes. */
  lemma NothingBehind(prog: seq<Inst>, input: seq<Byte>, branches: seq<Node>, base: nat, end: nat, pos: nat)
    requires WellFormedProgram(prog) && AltPlaced(prog, branches, base, end) && end == base + AltSize(branches) && pos <= |input|
    requires |branches| > 1 && LastBranches(branches) && pos in Ends(branches[0], input, pos)
    ensures var next := base + Size(branches[0]) + 2;
            Stays(prog, base + 1, next - 1) && Stays(prog, next, end) && Dull(prog, next, end)
    ensures forall k :: 0 <= k < |AltEnds(branches[1..], input, pos)| ==> AltEnds(branches[1..], input, pos)[k] == pos
  {
    hide WellFormedProgram, Ends, Stays, Dull, Placed;
    if !Nullable(branches[0]) {
      NotNullableBeyond(branches[0], input, pos);
    }
    var next := base + Size(branches[0]) + 2;
    NoByteAllInert(branches[1..]);
    InertAltEnds(branches[1..], input, pos);
    FragmentStays(prog, branches[0], base + 1);
    AltStays(prog, branches[1..], next, end);
    DullAlt(prog, branches[1..], next, end);
  }

  lemma {:induction false} TailVisitAlt(prog: seq<Inst>, input: seq<Byte>, branches: seq<Node>, base: nat, end: nat, pos: nat,
                                        avoid: set<nat>)
    returns (own: seq<nat>, seen: set<nat>)
    requires WellFormedProgram(prog) && AltPlaced(prog, branches, base, end) && AltSealed(prog, branches, base, end)
    requires branches != [] && pos <= |input| && end == base + AltSize(branches) < |prog|
    requires AllWellFormed(branches) && AllOrderly(branches) && LastBranches(branches) && Apart(avoid, base, end)
    ensures TailShape(prog, input, base, end, AltEnds(branches, input, pos), pos, avoid, own, seen)
    decreases branches, 2, |input| - pos, 1
  {
    hide WellFormedProgram, TailShape, Ends, Entered, Placed, IsSealed, WellFormed, Orderly, Size;
    if |branches| == 1 {
      own, seen := TailVisit(prog, input, branches[0], base, pos, avoid);
      assert AltEnds(branches, input, pos) == Ends(branches[0], input, pos);
    } else {
      own, seen := TailVisit(prog, input, branches[0], base + 1, pos, avoid + {base});
      if pos in Ends(branches[0], input, pos) {
        seen := TailVisitEarly(prog, input, branches, base, end, pos, avoid, own, seen);
      } else {
        own, seen := TailVisitRest(prog, input, branches, base, end, pos, avoid, own, seen);
      }
    }
  }

  /** The first branch may end where it began: nothing behind it matters. */
  lemma TailVisitEarly(prog: seq<Inst>, input: seq<Byte>, branches: seq<Node>, base: nat, end: nat, pos: nat,
                       avoid: set<nat>, own: seq<nat>, seen0: set<nat>)
    returns (seen: set<nat>)
    requires WellFormedProgram(prog) && AltPlaced(prog, branches, base, end) && AltSealed(prog, branches, base, end)
    requires |branches| > 1 && pos <= |input| && end == base + AltSize(branches) < |prog|
    requires LastBranches(branches) && Apart(avoid, base, end) && pos in Ends(branches[0], input, pos)
    requires TailShape(prog, input, base + 1, base + Size(branches[0]) + 1, Ends(branches[0], input, pos), pos, avoid + {base}, own, seen0)
    ensures TailShape(prog, input, base, end, AltEnds(branches, input, pos), pos, avoid, own, seen)
  {
    hide WellFormedProgram, TailShape, Ends, Entered, Stays, Dull, Placed, IsSealed, Size;
    NothingBehind(prog, input, branches, base, end, pos);
    seen := AltEarlyShape(prog, input, base, base + Size(branches[0]) + 2, end, Ends(branches[0], input, pos),
                          AltEnds(branches[1..], input, pos), pos, avoid, own, seen0);
  }

  /** The first branch does not: the others follow. */
  lemma {:induction false} TailVisitRest(prog: seq<Inst>, input: seq<Byte>, branches: seq<Node>, base: nat, end: nat, pos: nat,
                                         avoid: set<nat>, own0: seq<nat>, seen0: set<nat>)
    returns (own: seq<nat>, seen: set<nat>)
    requires WellFormedProgram(prog) && AltPlaced(prog, branches, base, end) && AltSealed(prog, branches, base, end)
    requires |branches| > 1 && pos <= |input| && end == base + AltSize(branches) < |prog|
    requires AllWellFormed(branches) && AllOrderly(branches) && LastBranches(branches) && Apart(avoid, base, end)
    requires pos !in Ends(branches[0], input, pos)
    requires TailShape(prog, input, base + 1, base + Size(branches[0]) + 1, Ends(branches[0], input, pos), pos, avoid + {base}, own0, seen0)
    ensures TailShape(prog, input, base, end, AltEnds(branches, input, pos), pos, avoid, own, seen)
    decreases branches, 2, |input| - pos, 0
  {
    hide WellFormedProgram, Visit, Worth, FirstAccepted, Ends, Entered, Placed, IsSealed, WellFormed, Orderly, Size;
    var next := base + Size(branches[0]) + 2;
    var own1;
    own1, seen := TailVisitAlt(prog, input, branches[1..], next, end, pos, seen0);
    AltShape(prog, input, base, next, end, Ends(branches[0], input, pos), AltEnds(branches[1..], input, pos), pos,
             avoid, own0, seen0, own1, seen);
    own := own0 + own1;
  }

  lemma {:induction false} TailVisitStar(prog: seq<Inst>, input: seq<Byte>, inner: Node, base: nat, pos: nat, avoid: set<nat>)
    returns (own: seq<nat>, seen: set<nat>)
    requires WellFormedProgram(prog) && StarAround(prog, inner, base) && Placed(prog, inner, base + 1) && IsSealed(prog, inner, base + 1)
    requires base + Size(inner) + 2 < |prog| && pos <= |input|
    requires WellFormed(inner) && Orderly(inner) && Front(inner) && Apart(avoid, base, base + Size(inner) + 2)
    ensures TailShape(prog, input, base, base + Size(inner) + 2, StarEnds(inner, input, pos), pos, avoid, own, seen)
    decreases inner, 6, |input| - pos, 0
  {
    hide WellFormedProgram, TailShape, Placed, IsSealed, Size, Ends, StarEnds, Orderly, Front, WellFormed, WorthFrom, Stays, WorthAvoiding;
    var back := base + Size(inner) + 1;
    FragmentStays(prog, inner, base + 1);
    LoopBodyPrefers(prog, input, inner, base, pos, avoid);
    forall p: nat | pos < p <= |input|
      ensures WorthFrom(prog, input, back, p) == FirstAccepted(After(prog, input, back + 1), StarEnds(inner, input, p))
    {
      JmpWorth(prog, input, back, base, p);
      TailPrefersStar(prog, input, inner, base, p);
    }
    own, seen := StarShape(prog, input, inner, base, back, pos, avoid);
  }

  lemma {:induction false} TailVisitPlus(prog: seq<Inst>, input: seq<Byte>, inner: Node, base: nat, pos: nat, avoid: set<nat>)
    returns (own: seq<nat>, seen: set<nat>)
    requires WellFormedProgram(prog) && PlusBehind(prog, inner, base) && Placed(prog, inner, base) && IsSealed(prog, inner, base)
    requires base + Size(inner) + 1 < |prog| && pos <= |input|
    requires WellFormed(inner) && Orderly(inner) && Last(inner) && Apart(avoid, base, base + Size(inner) + 1)
    ensures TailShape(prog, input, base, base + Size(inner) + 1,
                      PlusFrom(inner, input, pos, Ends(inner, input, pos)), pos, avoid, own, seen)
    decreases inner, 6, |input| - pos, 0
  {
    hide WellFormedProgram, TailShape, Placed, IsSealed, Size, Ends, StarEnds, PlusFrom, Orderly, Last, WellFormed, WorthFrom;
    var back := base + Size(inner);
    own, seen := TailVisit(prog, input, inner, base, pos, avoid);
    EndsSplit(inner, input, pos, ThenStar(inner, input, pos, Beyond(After(prog, input, back + 1), pos)));
    forall p: nat | pos < p <= |input|
      ensures WorthFrom(prog, input, back, p) == FirstAccepted(After(prog, input, back + 1), StarEnds(inner, input, p))
    {
      TailPlusAgain(prog, input, inner, base, p);
    }
    PlusShape(prog, input, inner, base, back, pos, avoid, own, seen);
    if pos in Ends(inner, input, pos) {
      seen := seen + {back};
    }
  }

  lemma {:induction false} TailPlusAgain(prog: seq<Inst>, input: seq<Byte>, inner: Node, base: nat, pos: nat)
    requires WellFormedProgram(prog) && PlusBehind(prog, inner, base) && Placed(prog, inner, base) && IsSealed(prog, inner, base)
    requires base + Size(inner) + 1 < |prog| && pos <= |input|
    requires WellFormed(inner) && Orderly(inner) && Last(inner)
    ensures WorthFrom(prog, input, base + Size(inner), pos)
         == FirstAccepted(After(prog, input, base + Size(inner) + 1), StarEnds(inner, input, pos))
    decreases inner, 6, |input| - pos, 0
  {
    hide WellFormedProgram, TailShape, Placed, IsSealed, Size, Ends, StarEnds, Orderly, Last, WellFormed, WorthFrom, WorthAvoiding;
    var back := base + Size(inner);
    SplitWorth(prog, input, back, base, back + 1, pos);
    var own, seen := TailVisit(prog, input, inner, base, pos, {back});
    BodyAgainWorth(prog, input, inner, base, back, pos, own, seen);
    forall p: nat | pos < p <= |input|
      ensures WorthFrom(prog, input, back, p) == FirstAccepted(After(prog, input, back + 1), StarEnds(inner, input, p))
    {
      TailPlusAgain(prog, input, inner, base, p);
    }
    RoundPrefers(prog, input, inner, back, base, back, back + 1, pos);
  }

  lemma {:induction false} TailPrefersSeq(prog: seq<Inst>, input: seq<Byte>, parts: seq<Node>, base: nat, pos: nat)
    requires WellFormedProgram(prog) && SeqPlaced(prog, parts, base) && SeqSealed(prog, parts, base)
    requires base + SeqSize(parts) < |prog| && pos <= |input|
    requires AllWellFormed(parts) && AllOrderly(parts) && AllLast(parts)
    ensures Prefers(prog, input, base, base + SeqSize(parts), SeqEnds(parts, input, pos), pos)
    decreases parts, 2, |input| - pos, 1
  {
    hide WellFormedProgram, TailShape, SeqPlaced, SeqSealed, SeqSize, SeqEnds, AllOrderly, AllLast, AllWellFormed, Prefers;
    var own, seen := TailVisitSeq(prog, input, parts, base, pos, {});
    SeqEndsSplit(parts, input, pos, AfterAvoiding(prog, input, base + SeqSize(parts), pos, {}));
    ShapePrefers(prog, input, base, base + SeqSize(parts), SeqEnds(parts, input, pos), pos, own, seen);
  }

  lemma {:induction false} TailPrefersStar(prog: seq<Inst>, input: seq<Byte>, inner: Node, base: nat, pos: nat)
    requires WellFormedProgram(prog) && StarAround(prog, inner, base) && Placed(prog, inner, base + 1) && IsSealed(prog, inner, base + 1)
    requires base + Size(inner) + 2 < |prog| && pos <= |input|
    requires WellFormed(inner) && Orderly(inner) && Front(inner)
    ensures WorthFrom(prog, input, base, pos)
         == FirstAccepted(After(prog, input, base + Size(inner) + 2), StarEnds(inner, input, pos))
    decreases inner, 6, |input| - pos, 1
  {
    hide WellFormedProgram, TailShape, Placed, IsSealed, Size, StarEnds, Orderly, Front, WellFormed, WorthFrom;
    var end := base + Size(inner) + 2;
    var own, seen := TailVisitStar(prog, input, inner, base, pos, {});
    StarEndsSplit(inner, input, pos, AfterAvoiding(prog, input, end, pos, {}));
    ShapePrefers(prog, input, base, end, StarEnds(inner, input, pos), pos, own, seen);
  }

  /** An orderly fragment that tries the empty match last prefers its ends wherever it stands. */
  lemma {:induction false} TailPrefers(prog: seq<Inst>, input: seq<Byte>, n: Node, base: nat, pos: nat)
    requires WellFormedProgram(prog) && Placed(prog, n, base) && IsSealed(prog, n, base)
    requires base + Size(n) < |prog| && pos <= |input|
    requires WellFormed(n) && Orderly(n) && Last(n)
    ensures Prefers(prog, input, base, base + Size(n), Ends(n, input, pos), pos)
    decreases n, 2, |input| - pos, 1
  {
    hide WellFormedProgram, TailShape, Placed, IsSealed, Size, Ends, Orderly, Last, WellFormed, Prefers;
    var own, seen := TailVisit(prog, input, n, base, pos, {});
    EndsSplit(n, input, pos, AfterAvoiding(prog, input, base + Size(n), pos, {}));
    ShapePrefers(prog, input, base, base + Size(n), Ends(n, input, pos), pos, own, seen);
  }

  // ----- fragments entered with the split of their loop on the way -----

  /** Leaving `avoid` out, the end of the stretch does not lead back into it. */
  ghost predicate Clear(prog: seq<Inst>, mode: Mode, base: nat, end: nat, avoid: set<nat>)
    requires WellFormedProgram(prog) && end < |prog|
  {
    Apart(Visit(prog, mode, [end], avoid).seen, base, end)
  }

  /** From a stretch whose edges lead into it or to `end`, a visit sees no more than the two. */
  lemma SeesThenEnd(prog: seq<Inst>, mode: Mode, root: nat, lo: nat, hi: nat, end: nat, avoid: set<nat>)
    requires WellFormedProgram(prog) && mode.At? && lo <= root < hi <= |prog| && end < |prog|
    requires forall pc: nat, q: nat {:trigger Leads(prog, mode, pc, q)} ::
      lo <= pc < hi && Leads(prog, mode, pc, q) ==> lo <= q < hi || q == end
    ensures forall q: nat :: q in Visit(prog, mode, [root], avoid).seen ==>
      lo <= q < hi || q in Visit(prog, mode, [end], avoid).seen
  {
    hide Visit;
    var behind := Visit(prog, mode, [end], avoid).seen;
    VisitCloses(prog, mode, end, avoid);
    var more := (set q | q in AllPcs(prog) && lo <= q < hi) + behind - avoid;
    assert ClosedOver(prog, mode, more, avoid);
    VisitStaysInside(prog, mode, [root], avoid, more);
  }

  lemma ClearInside(prog: seq<Inst>, mode: Mode, base: nat, root: nat, end: nat, avoid: set<nat>)
    requires WellFormedProgram(prog) && mode.At? && base <= root <= end < |prog|
    requires Stays(prog, root, end) && Clear(prog, mode, base, end, avoid)
    ensures Clear(prog, mode, base, root, avoid)
  {
    hide Visit;
    if root < end {
      forall pc: nat, q: nat {:trigger Leads(prog, mode, pc, q)} | root <= pc < end && Leads(prog, mode, pc, q)
        ensures root <= q < end || q == end
      {
        AnywhereLeads(prog, mode, pc, q);
      }
      SeesThenEnd(prog, mode, root, root, end, end, avoid);
    }
  }

  /** A branch of an alternation: neither its code nor its end comes back to the split. */
  lemma ClearBranch(prog: seq<Inst>, mode: Mode, base: nat, next: nat, end: nat, avoid: set<nat>)
    requires WellFormedProgram(prog) && mode.At? && base + 2 <= next <= end < |prog| && Apart(avoid, base, end)
    requires prog[next - 1] == Jmp(end) && Stays(prog, base + 1, next - 1) && Clear(prog, mode, base, end, avoid)
    ensures base !in Visit(prog, mode, [base + 1], avoid).seen
    ensures Clear(prog, mode, base + 1, next - 1, avoid) && Clear(prog, mode, next, end, avoid)
  {
    hide Visit;
    forall pc: nat, q: nat {:trigger Leads(prog, mode, pc, q)} | base + 1 <= pc < next && Leads(prog, mode, pc, q)
      ensures base + 1 <= q < next || q == end
    {
      AnywhereLeads(prog, mode, pc, q);
      JmpLeads(prog, ANYWHERE, next - 1, end, q);
    }
    SeesThenEnd(prog, mode, base + 1, base + 1, next, end, avoid);
    forall pc: nat, q: nat {:trigger Leads(prog, mode, pc, q)} | next - 1 <= pc < next && Leads(prog, mode, pc, q)
      ensures next - 1 <= q < next || q == end
    {
      JmpLeads(prog, mode, next - 1, end, q);
    }
    SeesThenEnd(prog, mode, next - 1, next - 1, next, end, avoid);
  }

  lemma ClearLoop(prog: seq<Inst>, mode: Mode, base: nat, back: nat, avoid: set<nat>)
    requires WellFormedProgram(prog) && base + 1 <= back < |prog| && prog[back] == Jmp(base) && Apart(avoid, base, back + 1)
    ensures Clear(prog, mode, base + 1, back, avoid + {base})
  {
    hide Visit;
    JmpVisit(prog, mode, back, base, avoid + {base});
    SeenVisit(prog, mode, base, avoid + {base} + {back});
  }

  /**
   An orderly fragment whose end, with `avoid` left out, does not come back to it, and which
   tries the empty match last once it has consumed something.
   */
  lemma {:induction false} FrontPrefers(prog: seq<Inst>, input: seq<Byte>, n: Node, base: nat, pos: nat, avoid: set<nat>)
    requires WellFormedProgram(prog) && Placed(prog, n, base) && IsSealed(prog, n, base)
    requires base + Size(n) < |prog| && pos <= |input|
    requires WellFormed(n) && Orderly(n) && Front(n)
    requires Apart(avoid, base, base + Size(n)) && Clear(prog, ModeAt(input, pos), base, base + Size(n), avoid)
    ensures PrefersAvoiding(prog, input, base, base + Size(n), Ends(n, input, pos), pos, avoid)
    decreases n, 4, |input| - pos, 0
  {
    hide WellFormedProgram, StarEnds, PlusFrom, Entered, Prefers, PrefersAvoiding, Clear, WorthFrom, WorthAvoiding, SeqPlaced, AltPlaced,
         SeqSealed, AltSealed, FrontParts, AllFront, AllOrderly, AllWellFormed, SeqEnds, AltEnds, SeqSize, AltSize;
    if !Nullable(n) {
      OwnPrefers(prog, input, n, base, pos);
      OwnAvoiding(prog, input, n, base, pos, avoid);
    } else {
      match n
      case Empty => NothingAvoiding(prog, input, base, pos, avoid);
      case StartAnchor => AssertAvoiding(prog, input, base, pos, pos == 0, avoid);
      case EndAnchor => AssertAvoiding(prog, input, base, pos, pos == |input|, avoid);
      case Concat(parts) => FrontSeq(prog, input, parts, base, pos, avoid);
      case Alt(branches) => FrontAlt(prog, input, branches, base, base + AltSize(branches), pos, avoid);
      case Star(inner) => FrontStar(prog, input, inner, base, pos, avoid);
      case Plus(inner) => FrontPlus(prog, input, n, base, pos, avoid);
      case Quest(inner) => FrontQuest(prog, input, inner, base, pos, avoid);
    }
  }

  lemma {:induction false} FrontSeq(prog: seq<Inst>, input: seq<Byte>, parts: seq<Node>, base: nat, pos: nat, avoid: set<nat>)
    requires WellFormedProgram(prog) && SeqPlaced(prog, parts, base) && SeqSealed(prog, parts, base)
    requires base + SeqSize(parts) < |prog| && pos <= |input|
    requires AllWellFormed(parts) && AllOrderly(parts) && FrontParts(parts)
    requires Apart(avoid, base, base + SeqSize(parts)) && Clear(prog, ModeAt(input, pos), base, base + SeqSize(parts), avoid)
    ensures PrefersAvoiding(prog, input, base, base + SeqSize(parts), SeqEnds(parts, input, pos), pos, avoid)
    decreases parts, 4, |input| - pos, 0
  {
    hide WellFormedProgram, Entered, Prefers, PrefersAvoiding, WorthFrom, WorthAvoiding, Visit, Stays;
    if parts == [] {
      NothingAvoiding(prog, input, base, pos, avoid);
    } else {
      var rest, mid, end := parts[1..], base + Size(parts[0]), base + SeqSize(parts);
      var mids := Ends(parts[0], input, pos);
      SeqStays(prog, rest, mid);
      ClearInside(prog, ModeAt(input, pos), base, mid, end, avoid);
      FrontPrefers(prog, input, parts[0], base, pos, avoid);
      if HasByte(parts[0]) {
        AllLastIsFront(rest);
      } else {
        NoByteInert(parts[0]);
        InertEnds(parts[0], input, pos);
      }
      FrontSeq(prog, input, rest, mid, pos, avoid);
      forall i | 0 <= i < |mids| && mids[i] > pos
        ensures Prefers(prog, input, mid, end, SeqEnds(rest, input, mids[i]), mids[i])
      {
        TailPrefersSeq(prog, input, rest, mid, mids[i]);
      }
      SeqAvoiding(prog, input, rest, base, mid, end, mids, pos, avoid);
    }
  }

  lemma {:induction false} FrontAlt(prog: seq<Inst>, input: seq<Byte>, branches: seq<Node>, base: nat, end: nat, pos: nat, avoid: set<nat>)
    requires WellFormedProgram(prog) && AltPlaced(prog, branches, base, end) && AltSealed(prog, branches, base, end)
    requires branches != [] && pos <= |input| && end == base + AltSize(branches) < |prog|
    requires AllWellFormed(branches) && AllOrderly(branches) && AllFront(branches)
    requires Apart(avoid, base, end) && Clear(prog, ModeAt(input, pos), base, end, avoid)
    ensures PrefersAvoiding(prog, input, base, end, AltEnds(branches, input, pos), pos, avoid)
    decreases branches, 4, |input| - pos, 0
  {
    hide WellFormedProgram, Entered, Prefers, PrefersAvoiding, WorthFrom, WorthAvoiding, Visit, Stays, Clear;
    if |branches| == 1 {
      FrontPrefers(prog, input, branches[0], base, pos, avoid);
      assert AltEnds(branches, input, pos) == Ends(branches[0], input, pos);
    } else {
      var next := base + Size(branches[0]) + 2;
      FragmentStays(prog, branches[0], base + 1);
      ClearBranch(prog, ModeAt(input, pos), base, next, end, avoid);
      StraightAvoiding(prog, input, base, base + 1, next, pos, avoid);
      FrontPrefers(prog, input, branches[0], base + 1, pos, avoid);
      JmpAvoiding(prog, input, base + 1, next - 1, end, Ends(branches[0], input, pos), pos, avoid);
      FrontAlt(prog, input, branches[1..], next, end, pos, avoid);
      ArmsAvoiding(prog, input, base, base + 1, next, end,
                   Ends(branches[0], input, pos), AltEnds(branches[1..], input, pos), pos, avoid);
    }
  }

  lemma {:induction false} FrontQuest(prog: seq<Inst>, input: seq<Byte>, inner: Node, base: nat, pos: nat, avoid: set<nat>)
    requires WellFormedProgram(prog) && base + 1 + Size(inner) < |prog| && pos <= |input|
    requires prog[base] == Split(base + 1, base + 1 + Size(inner))
    requires Placed(prog, inner, base + 1) && IsSealed(prog, inner, base + 1)
    requires WellFormed(inner) && Orderly(inner) && Front(inner)
    requires Apart(avoid, base, base + 1 + Size(inner)) && Clear(prog, ModeAt(input, pos), base, base + 1 + Size(inner), avoid)
    ensures PrefersAvoiding(prog, input, base, base + 1 + Size(inner), Ends(inner, input, pos) + [pos], pos, avoid)
    decreases inner, 6, |input| - pos, 0
  {
    hide WellFormedProgram, PrefersAvoiding, WorthFrom, WorthAvoiding, Visit, Stays, Size, Placed, IsSealed, Ends, Orderly, Front, WellFormed;
    var end := base + 1 + Size(inner);
    FragmentStays(prog, inner, base + 1);
    ClearInside(prog, ModeAt(input, pos), base, base + 1, end, avoid);
    StraightAvoiding(prog, input, base, base + 1, end, pos, avoid);
    FrontPrefers(prog, input, inner, base + 1, pos, avoid);
    NothingAvoiding(prog, input, end, pos, avoid);
    ArmsAvoiding(prog, input, base, base + 1, end, end, Ends(inner, input, pos), [pos], pos, avoid);
  }

  /** The body of a `*`, with its split on the way, is worth the rounds that move on. */
  lemma {:induction false} LoopBodyPrefers(prog: seq<Inst>, input: seq<Byte>, inner: Node, base: nat, pos: nat, avoid: set<nat>)
    requires WellFormedProgram(prog) && StarAround(prog, inner, base) && Placed(prog, inner, base + 1) && IsSealed(prog, inner, base + 1)
    requires base + Size(inner) + 2 < |prog| && pos <= |input|
    requires WellFormed(inner) && Orderly(inner) && Front(inner) && Apart(avoid, base, base + Size(inner) + 2)
    ensures WorthAvoiding(prog, input, base + 1, pos, avoid + {base})
         == FirstAccepted(Beyond(After(prog, input, base + Size(inner) + 1), pos), Ends(inner, input, pos))
    decreases inner, 5, |input| - pos, 0
  {
    hide WellFormedProgram, PrefersAvoiding, WorthFrom, WorthAvoiding, Visit, Clear, Size, Placed, IsSealed, Ends, Orderly, Front, WellFormed;
    var back := base + Size(inner) + 1;
    ClearLoop(prog, ModeAt(input, pos), base, back, avoid);
    FrontPrefers(prog, input, inner, base + 1, pos, avoid + {base});
    BodyAvoiding(prog, input, base, base + 1, back, Ends(inner, input, pos), pos, avoid + {base});
  }

  lemma {:induction false} FrontStar(prog: seq<Inst>, input: seq<Byte>, inner: Node, base: nat, pos: nat, avoid: set<nat>)
    requires WellFormedProgram(prog) && StarAround(prog, inner, base) && Placed(prog, inner, base + 1) && IsSealed(prog, inner, base + 1)
    requires base + Size(inner) + 2 < |prog| && pos <= |input|
    requires WellFormed(inner) && Orderly(inner) && Front(inner) && Apart(avoid, base, base + Size(inner) + 2)
    ensures PrefersAvoiding(prog, input, base, base + Size(inner) + 2, StarEnds(inner, input, pos), pos, avoid)
    decreases inner, 6, |input| - pos, 2
  {
    hide WellFormedProgram, PrefersAvoiding, WorthFrom, WorthAvoiding, Size, Placed, IsSealed, Ends, StarEnds, Orderly, Front, WellFormed;
    var back := base + Size(inner) + 1;
    SplitAvoiding(prog, input, base, base + 1, back + 1, pos, avoid);
    LoopBodyPrefers(prog, input, inner, base, pos, avoid);
    forall p: nat | pos < p <= |input|
      ensures WorthFrom(prog, input, back, p) == FirstAccepted(After(prog, input, back + 1), StarEnds(inner, input, p))
    {
      JmpWorth(prog, input, back, base, p);
      TailPrefersStar(prog, input, inner, base, p);
    }
    RoundAvoiding(prog, input, inner, base, back, back + 1, pos, avoid);
  }

  lemma {:induction false} FrontPlus(prog: seq<Inst>, input: seq<Byte>, n: Node, base: nat, pos: nat, avoid: set<nat>)
    requires WellFormedProgram(prog) && Placed(prog, n, base) && IsSealed(prog, n, base)
    requires base + Size(n) < |prog| && pos <= |input|
    requires WellFormed(n) && Orderly(n) && n.Plus? && Apart(avoid, base, base + Size(n))
    ensures PrefersAvoiding(prog, input, base, base + Size(n), Ends(n, input, pos), pos, avoid)
    decreases n, 3, |input| - pos, 0
  {
    hide WellFormedProgram, TailShape, Placed, IsSealed, Size, Ends, Orderly, WellFormed, PrefersAvoiding;
    var own, seen := TailVisit(prog, input, n, base, pos, avoid);
    EndsSplit(n, input, pos, AfterAvoiding(prog, input, base + Size(n), pos, avoid));
    ShapeAvoiding(prog, input, base, base + Size(n), Ends(n, input, pos), pos, avoid, own, seen);
  }

  // ----- whole patterns -----

  /** Started at the beginning of an orderly pattern, the machine ends where the backtracker does. */
  lemma OrderlyEnd(ast: Node, input: seq<Byte>, start: nat)
    requires WellFormed(ast) && Orderly(ast) && start <= |input|
    ensures WellFormedProgram(Compile(ast))
    ensures WorthFrom(Compile(ast), input, 0, start) == PreferredEnd(ast, input, start)
  {
    hide Visit, Worth, WorthOf, Placed, IsSealed, Contained, Ends, Orderly, Size;
    var prog, end := Compile(ast), Size(ast);
    CompileWellFormed(ast);
    CompilePlaced(ast);
    CompileSealed(ast);
    ContainedWhole(ast);
    NodePrefers(prog, input, ast, 0, start);
    forall p: nat | p <= |input| ensures After(prog, input, end)(p) == Some(p) {
      MatchWorth(prog, input, end, p);
    }
    AcceptAnyIsFirst(After(prog, input, end), Ends(ast, input, start));
  }

  lemma MatchWorth(prog: seq<Inst>, input: seq<Byte>, pc: nat, pos: nat)
    requires WellFormedProgram(prog) && pc < |prog| && prog[pc].Match? && pos <= |input|
    ensures WorthFrom(prog, input, pc, pos) == Some(pos)
  {
    hide Visit;
    VisitOne(prog, ModeAt(input, pos), pc, {});
    assert Worth(prog, input, [pc], pos) == Some(pos);
  }

  /** On orderly patterns the Pike machine and the backtracker find the same span from every position. */
  lemma {:induction false} OrderlyAgree(ast: Node, input: seq<Byte>, scan: nat)
    requires WellFormed(ast) && Orderly(ast)
    ensures WellFormedProgram(Compile(ast))
    ensures Leftmost(Compile(ast), input, scan) == LeftmostEnd(ast, input, scan)
    decreases |input| + 1 - scan
  {
    hide Orderly, WorthFrom, PreferredEnd, Compile, WellFormedProgram, WellFormed;
    CompileWellFormed(ast);
    if scan <= |input| {
      OrderlyEnd(ast, input, scan);
      OrderlyAgree(ast, input, scan + 1);
    }
  }

  /**
   On every pattern, orderly or not, the two find a match or not alike, and at the same
   start; only the end may differ, and each end is an actual one.
   */
  lemma StartsAgree(ast: Node, input: seq<Byte>, scan: nat)
    requires WellFormed(ast)
    ensures WellFormedProgram(Compile(ast))
    ensures match (Leftmost(Compile(ast), input, scan), LeftmostEnd(ast, input, scan))
            case (Some(p), Some(q)) => p.0 == q.0 && Matches(ast, input, p.0, p.1) && Matches(ast, input, q.0, q.1)
            case (None, None) => true
            case _ => false
  {
    hide Matches, Leftmost, LeftmostEnd, WellFormed;
    PikeCorrect(ast, input, scan);
    LeftmostEndCorrect(ast, input, scan);
  }
}

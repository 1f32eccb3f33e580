/** The lazily built DFA, whose search answers as the Pike machine or, past its state cap, gives up. */
module LazyDfa {
  import opened Wrappers
  import opened Widths
  import opened Ast
  import opened Program
  import opened Closure
  import opened Threads
  import opened PikeVm
  import opened DfaSpec
  import opened DfaTables

  // ----- closures, computed once -----

  function Marked(flags: seq<bool>): set<nat> {
    set i: nat | i < |flags| && flags[i]
  }

  /** Epsilon-close `pc` into `out`, taking any assertion as ready. */
  method BuildClosure(prog: seq<Inst>, pc: nat, out: seq<nat>, seen: array<bool>) returns (out': seq<nat>)
    requires WellFormedProgram(prog) && pc < |prog| == seen.Length
    modifies seen
    ensures var v := Visit(prog, Blind, [pc], Marked(old(seen[..])));
            out' == out + v.list && Marked(seen[..]) == v.seen
    decreases AllPcs(prog) - Marked(seen[..])
  {
    hide Visit, VisitFresh, AllPcs, VisitCalls;
    ghost var before := Marked(seen[..]);
    VisitOne(prog, Blind, pc, before);
    FewerLeft(prog, pc, before);
    if seen[pc] {
      return out;
    }
    seen[pc] := true;
    assert Marked(seen[..]) == before + {pc};
    match prog[pc] {
      case Jmp(t) =>
        out' := BuildClosure(prog, t, out, seen);
      case Split(x, y) =>
        VisitPair(prog, Blind, x, y, before + {pc});
        ghost var vx := Visit(prog, Blind, [x], before + {pc});
        ghost var vy := Visit(prog, Blind, [y], vx.seen);
        assert AllPcs(prog) - vx.seen <= AllPcs(prog) - (before + {pc});
        out' := BuildClosure(prog, x, out, seen);
        out' := BuildClosure(prog, y, out', seen);
        assert out + vx.list + vy.list == out + (vx.list + vy.list);
      case _ =>
        out' := out + [pc];
    }
  }

  ghost predicate ClosuresOk(prog: seq<Inst>, closures: seq<seq<nat>>)
    requires WellFormedProgram(prog)
  {
    |closures| == |prog| && forall pc :: 0 <= pc < |prog| ==> closures[pc] == Close(prog, Blind, pc)
  }

  /** The closure of every instruction. */
  method BuildClosures(prog: seq<Inst>) returns (closures: seq<seq<nat>>)
    requires WellFormedProgram(prog)
    ensures ClosuresOk(prog, closures)
  {
    hide Visit;
    closures := [];
    var seen := new bool[|prog|](_ => false);
    for pc := 0 to |prog|
      invariant |closures| == pc && forall k :: 0 <= k < pc ==> closures[k] == Close(prog, Blind, k)
      invariant forall k :: 0 <= k < seen.Length ==> !seen[k]
    {
      assert Marked(seen[..]) == {};
      var out := BuildClosure(prog, pc, [], seen);
      for k := 0 to seen.Length
        invariant forall k' :: 0 <= k' < k ==> !seen[k']
      {
        seen[k] := false;
      }
      closures := closures + [out];
    }
  }

  /** The first position of a `Match` in the list. */
  method FindMatch(prog: seq<Inst>, pcs: seq<nat>) returns (first: Option<nat>)
    requires InProg(prog, pcs)
    ensures IsFirstMatch(prog, pcs, first)
  {
    for i := 0 to |pcs|
      invariant forall k :: 0 <= k < i ==> !prog[pcs[k]].Match?
    {
      if prog[pcs[i]].Match? {
        return Some(i);
      }
    }
    return None;
  }

  // ----- the automaton -----

  /** `present` flags exactly the instructions of the list. */
  ghost predicate Flags(present: seq<bool>, n: nat, list: seq<nat>) {
    |present| == n && forall p: nat :: p < n ==> (present[p] <==> p in list)
  }

  class Dfa {
    const prog: seq<Inst>
    const startPcs: seq<nat>
    const closureCache: seq<seq<nat>>
    var startState: nat
    var states: seq<State>
    var key: map<seq<nat>, nat>
    /** `trans[Slot(id, b)]` is the state `id` leads to on `b`, or `UNCOMPUTED`. */
    var trans: seq<nat>
    /** Positions, in the source state, of the instructions that threads came from. */
    var prov: seq<nat>
    var provOff: seq<nat>
    var seedMerged: seq<nat>
    var seedAppended: seq<nat>
    var present: seq<bool>
    /** Set when the state cap is hit; answers are then to be discarded. */
    var overflowed: bool
    var literalPrefix: Option<seq<Byte>>
    var anchored: bool
    var scratchCurr: seq<nat>
    var scratchNext: seq<nat>

    /** So far, positions in a state and offsets into the provenance table fit their types. */
    ghost predicate Fits()
      reads this
    {
      |prog| < U16 && |prov| < U32
    }

    /** The tables agree with the machine, whatever calls have been made; the provenance does while it fits. */
    ghost predicate TablesOk()
      reads this
    {
      && WellFormedProgram(prog)
      && ClosuresOk(prog, closureCache)
      && startPcs == Close(prog, Blind, 0)
      && StatesOk(prog, states) && KeyOk(states, key)
      && TransOk(prog, states, trans, prov, provOff, Fits())
      && |prov| <= Computed(trans) * |prog|
      && |seedMerged| == |seedAppended| == |states|
      && (!overflowed ==> SeedsOk(prog, states, seedMerged, seedAppended))
      && Flags(present, |prog|, [])
      && (overflowed ==> |states| == STATE_CAP)
    }

    ghost predicate Valid()
      reads this
    {
      TablesOk() && startState < |states| && states[startState].pcs == startPcs
    }

    constructor (prog: seq<Inst>)
      requires WellFormedProgram(prog)
      ensures Valid() && this.prog == prog && !overflowed
    {
      hide Visit, StepFrom;
      var closures := BuildClosures(prog);
      this.prog, closureCache, startPcs := prog, closures, closures[0];
      startState, states, key := 0, [State([], None, 0)], map[[] := 0];
      trans, prov, provOff := ROW, [], ROW;
      seedMerged, seedAppended := [UNCOMPUTED], [0];
      present := seq(|prog|, _ => false);
      overflowed, literalPrefix, anchored := false, None, false;
      scratchCurr, scratchNext := [], [];
      new;
      VisitFacts(prog, Blind, [0], {});
      startState := Intern(startPcs);
    }

    /** The state of a list, made on first sight; past the cap the DFA gives up instead. */
    method Intern(pcs: seq<nat>) returns (id: nat)
      requires TablesOk() && InProg(prog, pcs) && NoDuplicates(pcs)
      modifies this`states, this`key, this`trans, this`provOff, this`seedMerged, this`seedAppended, this`overflowed
      ensures TablesOk() && id < |states|
      ensures overflowed <==> old(overflowed) || (pcs !in old(key) && |old(states)| >= STATE_CAP)
      ensures pcs in old(key) || |old(states)| < STATE_CAP ==> states[id].pcs == pcs
      ensures old(states) <= states && old(trans) <= trans && old(seedMerged) <= seedMerged
      ensures Computed(trans) == Computed(old(trans))
    {
      hide Visit, StepFrom, StatesOk, KeyOk, TransOk, SeedsOk, ClosuresOk, Flags, Computed;
      KeyFacts(prog, states, key, pcs);
      if pcs in key {
        return key[pcs];
      }
      if |states| >= STATE_CAP {
        overflowed := true;
        return 0;
      }
      var first := FindMatch(prog, pcs);
      var state := State(pcs, first, AsU32(|pcs|));
      StatesGrow(prog, states, key, state);
      TransGrows(prog, states, state, trans, prov, provOff, Fits());
      if !overflowed {
        SeedsGrow(prog, states, state, seedMerged, seedAppended);
      }
      ComputedRow(trans, ROW);
      id := AsU32(|states|);
      states := states + [state];
      key := key[pcs := id];
      trans, provOff := trans + ROW, provOff + ROW;
      seedMerged, seedAppended := seedMerged + [UNCOMPUTED], seedAppended + [0];
    }

    /** Append what is not present yet; the flags follow the list. */
    method AppendAbsent(list: seq<nat>, more: seq<nat>) returns (longer: seq<nat>)
      requires Flags(present, |prog|, list) && InProg(prog, more) && NoDuplicates(more)
      modifies this`present
      ensures longer == list + Without(more, Members(list)) && Flags(present, |prog|, longer)
    {
      longer := list;
      var k := 0;
      while k < |more|
        invariant k <= |more| && Flags(present, |prog|, longer)
        invariant longer + Without(more[k..], Members(list)) == list + Without(more, Members(list))
        invariant forall j :: k <= j < |more| ==> (more[j] in longer <==> more[j] in Members(list))
      {
        assert more[k..][1..] == more[k + 1..];
        ghost var rest := Without(more[k + 1..], Members(list));
        if !present[more[k]] {
          present := present[more[k] := true];
          assert longer + ([more[k]] + rest) == longer + [more[k]] + rest;
          longer := longer + [more[k]];
        } else {
          assert [] + rest == rest;
        }
        k := k + 1;
      }
    }

    /** Clear the flags of a list. */
    method ClearFlags(pcs: seq<nat>, list: seq<nat>)
      requires Flags(present, |prog|, list) && InProg(prog, pcs)
      requires forall k :: 0 <= k < |list| ==> list[k] in pcs
      modifies this`present
      ensures Flags(present, |prog|, [])
    {
      for i := 0 to |pcs|
        invariant |present| == |prog|
        invariant forall p: nat :: p < |prog| && present[p] ==> p in pcs && p !in pcs[..i]
      {
        present := present[pcs[i] := false];
      }
    }

    /** Walk the source instructions in priority order, up to the first `Match`; `marks` are the positions before the cast. */
    method Walk(pcs: seq<nat>, b: Byte) returns (next: seq<nat>, src: seq<nat>, ghost marks: seq<nat>)
      requires WellFormedProgram(prog) && ClosuresOk(prog, closureCache)
      requires InProg(prog, pcs) && NoDuplicates(pcs) && Flags(present, |prog|, [])
      modifies this`present
      ensures Flags(present, |prog|, next)
      ensures |next| == |marks| && StepFrom(prog, pcs, b).threads == Zip(next, marks)
      ensures Narrowed(src, marks)
    {
      hide Visit, AllPcs, Covers, Flags, WellFormedProgram, Zip, Without, NoDuplicates;
      next, src, marks := [], [], [];
      ghost var seen := {};
      WalkStart(prog);
      var i := 0;
      assert Indexed(pcs)[0..] == Indexed(pcs);
      while i < |pcs|
        invariant i <= |pcs| && |next| == |marks| && Flags(present, |prog|, next) && Narrowed(src, marks)
        invariant Covers(prog, Blind, Zip(next, marks), seen)
        invariant StepOn(prog, Blind, Indexed(pcs)[i..], b, Generation(Zip(next, marks), seen)) == StepFrom(prog, pcs, b)
      {
        var pc := pcs[i];
        assert Indexed(pcs)[i..][0] == Thread(pc, i) && Indexed(pcs)[i..][1..] == Indexed(pcs)[i + 1..];
        match prog[pc] {
          case Byte(c) =>
            if c[b] {
              var closure := ClosureAfter(pc);
              ghost var v := Visit(prog, Blind, [pc + 1], seen);
              var longer := AppendAbsent(next, closure);
              WalkByte(prog, next, marks, seen, pc, i);
              src := src + seq(|longer| - |next|, _ => AsU16(i));
              marks := marks + seq(|longer| - |next|, _ => i);
              next, seen := longer, v.seen;
            }
          case Match => break;
          case _ =>
        }
        i := i + 1;
      }
    }

    /** The stored closure of what follows a `Byte`. */
    method ClosureAfter(pc: nat) returns (closure: seq<nat>)
      requires WellFormedProgram(prog) && ClosuresOk(prog, closureCache) && pc < |prog| && prog[pc].Byte?
      ensures pc + 1 < |prog| && closure == Close(prog, Blind, pc + 1)
      ensures InProg(prog, closure) && NoDuplicates(closure)
    {
      closure := closureCache[pc + 1];
      VisitFacts(prog, Blind, [pc + 1], {});
    }

    /** Compute and store the transition of `id` on `b`; on overflow nothing is stored. */
    method ComputeStep(id: nat, b: Byte)
      requires TablesOk() && id < |states| && Slot(id, b) < |trans| && trans[Slot(id, b)] == UNCOMPUTED
      modifies this`states, this`key, this`trans, this`prov, this`provOff, this`seedMerged, this`seedAppended,
               this`present, this`overflowed
      ensures TablesOk() && old(states) <= states && (old(overflowed) ==> overflowed) && |old(prov)| <= |prov|
      ensures !overflowed ==> Slot(id, b) < |trans| && trans[Slot(id, b)] != UNCOMPUTED
    {
      hide Visit, StepFrom, StatesOk, KeyOk, TransOk, SeedsOk, ClosuresOk, Flags, Computed, WellFormedProgram, SlotOk, Covers;
      StateFacts(prog, states, id);
      var pcs := states[id].pcs;
      ClearFlags(pcs, []);
      var next, src; ghost var marks;
      next, src, marks := Walk(pcs, b);
      WalkFacts(prog, pcs, b, next, marks);
      ClearFlags(next, next);
      var nextId := Intern(next);
      if overflowed {
        return;
      }
      KeyFacts(prog, states, key, next);
      TransSize(prog, states, trans, prov, provOff, Fits(), id, b);
      var off := AsU32(|prov|);
      ghost var stillFits := |prog| < U16 && |prov + src| < U32;
      assert SlotOk(prog, states, id, b, nextId, prov + src, off, stillFits) by {
        WalkedSlot(prog, states, id, b, nextId, prov, next, src, marks, off, stillFits);
      }
      TransFilled(prog, states, trans, prov, provOff, Fits(), id, b, nextId, src, off, stillFits);
      ComputedFill(trans, Slot(id, b), nextId);
      OneMore(Computed(trans), |prog|);
      prov := prov + src;
      trans := trans[Slot(id, b) := nextId];
      provOff := provOff[Slot(id, b) := off];
    }

    /** Take each start from where its provenance points. */
    method CarryStarts(currStarts: seq<nat>, off: nat, len: nat) returns (nextStarts: seq<nat>)
      requires off + len <= |prov|
      ensures |nextStarts| == len
      ensures forall k :: 0 <= k < len ==> nextStarts[k] == if prov[off + k] < |currStarts| then currStarts[prov[off + k]] else 0
    {
      nextStarts := [];
      for k := 0 to len
        invariant |nextStarts| == k
        invariant forall j :: 0 <= j < k ==> nextStarts[j] == if prov[off + j] < |currStarts| then currStarts[prov[off + j]] else 0
      {
        var s := prov[off + k];
        nextStarts := nextStarts + [if s < |currStarts| then currStarts[s] else 0];
      }
    }

    /**
     Carry the starts over the transition on `b`, which is computed on first use. The
     position a start is taken from is one of the source state as long as the tables fit.
     */
    method TransitionInto(currId: nat, currStarts: seq<nat>, b: Byte) returns (nextId: nat, nextStarts: seq<nat>)
      requires Valid() && currId < |states| && (Fits() ==> |currStarts| == |states[currId].pcs|)
      modifies this`states, this`key, this`trans, this`prov, this`provOff, this`seedMerged, this`seedAppended,
               this`present, this`overflowed
      ensures Valid() && old(states) <= states && (old(overflowed) ==> overflowed) && |old(prov)| <= |prov|
      ensures !overflowed ==> nextId < |states|
      ensures !overflowed && Fits() ==>
        && |nextStarts| == |states[nextId].pcs|
        && InProg(prog, states[currId].pcs)
        && ReadFrom(Zip(states[nextId].pcs, nextStarts), StepFrom(prog, states[currId].pcs, b).threads, currStarts)
    {
      hide Visit, StepFrom, StatesOk, KeyOk, TransOk, SeedsOk, ClosuresOk, Flags, Computed, SlotOk, Zip, ReadFrom, Pcs;
      TransSize(prog, states, trans, prov, provOff, Fits(), currId, b);
      if trans[Slot(currId, b)] == UNCOMPUTED {
        ComputeStep(currId, b);
      }
      nextId, nextStarts := 0, [];
      if overflowed {
        return;
      }
      TransSize(prog, states, trans, prov, provOff, Fits(), currId, b);
      SlotFacts(prog, states, trans, prov, provOff, Fits(), currId, b);
      nextId := trans[Slot(currId, b)];
      var off := provOff[Slot(currId, b)];
      nextStarts := CarryStarts(currStarts, off, states[nextId].len);
      if Fits() {
        StateFacts(prog, states, nextId);
        PcsBound(prog, states[nextId].pcs);
        ghost var m := StepFrom(prog, states[currId].pcs, b).threads;
        PcsSize(m);
        ReadBack(states[nextId].pcs, nextStarts, m, currStarts);
      }
    }

    /** The list with the start closure appended, without what is present already. */
    method Combine(pcs: seq<nat>) returns (combined: seq<nat>, appended: nat)
      requires WellFormedProgram(prog) && startPcs == Close(prog, Blind, 0)
      requires InProg(prog, pcs) && NoDuplicates(pcs) && Flags(present, |prog|, [])
      modifies this`present
      ensures combined == pcs + SeedsFor(prog, pcs) && appended == AsU16(|SeedsFor(prog, pcs)|)
      ensures InProg(prog, combined) && NoDuplicates(combined) && Flags(present, |prog|, [])
    {
      hide Close, Flags, Visit, WellFormedProgram;
      ClearFlags(pcs, []);
      NothingGone(pcs);
      combined := AppendAbsent([], pcs);
      StartFacts(prog);
      combined := AppendAbsent(combined, startPcs);
      CombinedFacts(prog, pcs, combined);
      appended := AsU16(|combined| - |pcs|);
      ClearFlags(combined, combined);
    }

    /** Seed a fresh, lowest-priority start; the state this leads to is computed on first use. */
    method MergeSeedInto(nextId: nat, nextStarts: seq<nat>, pos: nat) returns (mergedId: nat, outStarts: seq<nat>)
      requires Valid() && !overflowed && nextId < |states|
      modifies this`states, this`key, this`trans, this`provOff, this`seedMerged, this`seedAppended,
               this`present, this`overflowed
      ensures Valid() && old(states) <= states
      ensures !overflowed ==>
        var seeds := SeedsFor(prog, old(states)[nextId].pcs);
        && mergedId < |states|
        && states[mergedId].pcs == old(states)[nextId].pcs + seeds
        && (Fits() ==> outStarts == nextStarts + seq(|seeds|, _ => pos))
    {
      hide Visit, StepFrom, StatesOk, KeyOk, TransOk, SeedsOk, ClosuresOk, Flags, Computed, SeedsFor, SeedOk;
      StateFacts(prog, states, nextId);
      ghost var pcs := states[nextId].pcs;
      if seedMerged[nextId] == UNCOMPUTED {
        var combined, appended := Combine(states[nextId].pcs);
        var id := Intern(combined);
        KeyFacts(prog, states, key, combined);
        if !overflowed {
          SeedFilled(prog, states, seedMerged, seedAppended, nextId, id, appended);
        }
        seedMerged := seedMerged[nextId := id];
        seedAppended := seedAppended[nextId := appended];
      }
      mergedId := seedMerged[nextId];
      var appended := seedAppended[nextId];
      outStarts := nextStarts + seq(appended, _ => pos);
      if !overflowed {
        SeedFacts(prog, states, seedMerged, seedAppended, nextId);
        SeedsBound(prog, pcs);
        assert appended == AsU16(|SeedsFor(prog, pcs)|);
      }
    }

    /** `starts` belong to the instructions of state `id`. */
    ghost predicate Holds(id: nat, starts: seq<nat>)
      reads this
    {
      id < |states| && |starts| == |states[id].pcs| && InProg(prog, states[id].pcs)
    }

    /** What the machine answers from the threads of state `id`. */
    ghost function AnswerFrom(input: seq<Byte>, id: nat, starts: seq<nat>, pos: nat, best: Option<(nat, nat)>): Option<(nat, nat)>
      requires WellFormedProgram(prog) && Holds(id, starts) && pos <= |input|
      reads this
    {
      Answer(prog, input, Zip(states[id].pcs, starts), pos, best, true)
    }

    /**
     One turn of the search at `pos`: record a match, follow the transition, and while
     there is no match seed a fresh start. `spare` is the other start list.
     */
    method Turn(input: seq<Byte>, currId: nat, currStarts: seq<nat>, pos: nat, best: Option<(nat, nat)>)
      returns (more: bool, nextId: nat, nextStarts: seq<nat>, spare: seq<nat>, best': Option<(nat, nat)>)
      requires Valid() && NoAsserts(prog) && pos <= |input| && currId < |states| && (Fits() ==> Holds(currId, currStarts))
      modifies this`states, this`key, this`trans, this`prov, this`provOff, this`seedMerged, this`seedAppended,
               this`present, this`overflowed
      ensures Valid() && (old(overflowed) ==> overflowed) && |old(prov)| <= |prov|
      ensures more ==> pos < |input| && nextId < |states|
      ensures more && Fits() ==>
        && Holds(nextId, nextStarts)
        && AnswerFrom(input, nextId, nextStarts, pos + 1, best') == old(AnswerFrom(input, currId, currStarts, pos, best))
      ensures !more && Fits() ==>
        best' == old(AnswerFrom(input, currId, currStarts, pos, best)) || (overflowed && best'.None?)
    {
      hide Visit, StepFrom, StatesOk, KeyOk, TransOk, SeedsOk, ClosuresOk, Flags, Computed, SeedsFor, Zip, ReadFrom,
           WellFormedProgram, Close, Answer, NoAsserts, IsFirstMatch, FirstMatchStart, NoDuplicates;
      more, nextId, nextStarts, spare, best' := false, currId, currStarts, [], best;
      StateFacts(prog, states, currId);
      ghost var pcs := states[currId].pcs;
      if Fits() {
        FirstMatchIs(prog, pcs, currStarts, states[currId].firstMatch);
      }
      if states[currId].firstMatch.Some? {
        var idx := states[currId].firstMatch.value;
        if idx < |currStarts| {
          best' := Some((currStarts[idx], pos));
        }
      }
      if pos == |input| {
        if Fits() {
          AnswerAtEnd(prog, input, Zip(pcs, currStarts), best, true);
        }
        return;
      }
      nextId, spare := TransitionInto(currId, currStarts, input[pos]);
      if overflowed {
        best' := None;
        return;
      }
      StateFacts(prog, states, nextId);
      if Fits() {
        DfaTurn(prog, input, pcs, currStarts, pos, best, states[nextId].pcs, spare);
      }
      if best'.Some? && states[nextId].pcs == [] {
        if Fits() {
          DfaSettled(prog, input, pos + 1, best', states[nextId].pcs, spare);
        }
        return;
      }
      if best'.None? {
        nextId, nextStarts := MergeSeedInto(nextId, spare, pos + 1);
        if overflowed {
          return;
        }
        StateFacts(prog, states, nextId);
      } else {
        nextStarts, spare := spare, currStarts;
      }
      more := true;
    }

    /**
     The leftmost-first greedy match at or after `scan`: the Pike machine's answer, or
     nothing when the cap is hit on the way. So it is while the tables fit their types.
     */
    method CachedFind(input: seq<Byte>, scan: nat) returns (best: Option<(nat, nat)>)
      requires Valid() && NoAsserts(prog)
      modifies this`states, this`key, this`trans, this`prov, this`provOff, this`seedMerged, this`seedAppended,
               this`present, this`overflowed, this`scratchCurr, this`scratchNext
      ensures Valid() && (old(overflowed) ==> overflowed) && |old(prov)| <= |prov|
      ensures Fits() ==> best == Leftmost(prog, input, scan) || (overflowed && best.None?)
    {
      hide Visit, StatesOk, KeyOk, TransOk, SeedsOk, ClosuresOk, Flags, Computed, WellFormedProgram, Close,
           Answer, Leftmost, NoAsserts, Zip;
      best := None;
      if scan > |input| {
        LeftmostBeyond(prog, input, scan);
        return;
      }
      var currStarts: seq<nat>, nextStarts: seq<nat> := scratchCurr, scratchNext;
      scratchCurr, scratchNext := [], [];
      currStarts, nextStarts := seq(|startPcs|, _ => scan), [];
      var currId: nat, pos: nat := startState, scan;
      StateFacts(prog, states, currId);
      DfaBegins(prog, input, scan);
      while true
        invariant Valid() && (old(overflowed) ==> overflowed) && |old(prov)| <= |prov|
        invariant pos <= |input| && currId < |states|
        invariant Fits() ==>
          Holds(currId, currStarts) && AnswerFrom(input, currId, currStarts, pos, best) == Leftmost(prog, input, scan)
        decreases |input| - pos
      {
        var more;
        more, currId, currStarts, nextStarts, best := Turn(input, currId, currStarts, pos, best);
        if !more {
          break;
        }
        pos := pos + 1;
      }
      scratchCurr, scratchNext := currStarts, nextStarts;
    }
  }

  lemma LeftmostBeyond(prog: seq<Inst>, input: seq<Byte>, scan: nat)
    requires WellFormedProgram(prog) && scan > |input|
    ensures Leftmost(prog, input, scan) == None
  {
  }

  lemma {:induction false} FirstMatchIs(prog: seq<Inst>, pcs: seq<nat>, starts: seq<nat>, first: Option<nat>)
    requires InProg(prog, pcs) && |pcs| == |starts| && IsFirstMatch(prog, pcs, first)
    ensures ThreadsInProg(prog, Zip(pcs, starts))
    ensures first.Some? ==> first.value < |starts|
    ensures FirstMatchStart(prog, Zip(pcs, starts)) == if first.Some? then Some(starts[first.value]) else None
  {
    if pcs != [] {
      assert Zip(pcs, starts)[1..] == Zip(pcs[1..], starts[1..]);
      if !prog[pcs[0]].Match? {
        FirstMatchIs(prog, pcs[1..], starts[1..], if first.Some? then Some(first.value - 1) else None);
      }
    }
  }

  /** The stored start list, begun at `scan`, is the machine's first generation. */
  lemma DfaBegins(prog: seq<Inst>, input: seq<Byte>, scan: nat)
    requires WellFormedProgram(prog) && NoAsserts(prog) && scan <= |input|
    ensures var pcs := Close(prog, Blind, 0);
            var threads := Zip(pcs, seq(|pcs|, _ => scan));
            && ThreadsInProg(prog, threads)
            && Answer(prog, input, threads, scan, None, true) == Leftmost(prog, input, scan)
  {
    hide Visit;
    VisitModeFree(prog, ModeAt(input, scan), Blind, [0], {});
    FirstGeneration(prog, input, scan, true);
    var pcs := Close(prog, Blind, 0);
    assert Zip(pcs, seq(|pcs|, _ => scan)) == Tag(pcs, scan);
  }

  lemma ReadFromUnique(a: seq<Thread>, b: seq<Thread>, m: seq<Thread>, starts: seq<nat>)
    requires ReadFrom(a, m, starts) && ReadFrom(b, m, starts)
    ensures a == b
  {
  }

  /** One transition, with its seeding, keeps the answer as one turn of the machine does. */
  lemma DfaTurn(prog: seq<Inst>, input: seq<Byte>, pcs: seq<nat>, starts: seq<nat>, pos: nat, best: Option<(nat, nat)>,
                next: seq<nat>, nextStarts: seq<nat>)
    requires WellFormedProgram(prog) && NoAsserts(prog) && pos < |input|
    requires InProg(prog, pcs) && |pcs| == |starts| && |next| == |nextStarts|
    requires ReadFrom(Zip(next, nextStarts), StepFrom(prog, pcs, input[pos]).threads, starts)
    ensures ThreadsInProg(prog, Zip(pcs, starts)) && ThreadsInProg(prog, Zip(next, nextStarts))
    ensures var best' := MatchedAt(FirstMatchStart(prog, Zip(pcs, starts)), pos).OrElse(best);
            var answer := Answer(prog, input, Zip(pcs, starts), pos, best, true);
            var seeds := SeedsFor(prog, next);
            var seeded := Zip(next + seeds, nextStarts + seq(|seeds|, _ => pos + 1));
            && ThreadsInProg(prog, seeded)
            && answer == Answer(prog, input, if best'.None? then seeded else Zip(next, nextStarts), pos + 1, best', true)
  {
    hide Visit, StepFrom, Advance, Answer, Leftmost, FirstMatchStart, Covers;
    var threads, mode := Zip(pcs, starts), ModeAt(input, pos + 1);
    StepFromReads(prog, input, pcs, starts, pos);
    TurnKeepsAnswer(prog, input, threads, pos, best, true);
    var g := Advance(prog, input, threads, pos, NOTHING);
    ReadFromUnique(g.threads, Zip(next, nextStarts), StepFrom(prog, pcs, input[pos]).threads, starts);
    VisitIsFilteredClosure(prog, mode, g.threads, g.seen, 0);
    VisitModeFree(prog, mode, Blind, [0], {});
    assert Pcs(g.threads) == next;
    var seeds := SeedsFor(prog, next);
    assert Zip(next + seeds, nextStarts + seq(|seeds|, _ => pos + 1)) == Zip(next, nextStarts) + Tag(seeds, pos + 1);
  }

  lemma DfaSettled(prog: seq<Inst>, input: seq<Byte>, pos: nat, best: Option<(nat, nat)>, pcs: seq<nat>, starts: seq<nat>)
    requires WellFormedProgram(prog) && pos <= |input| && best.Some? && pcs == [] && |starts| == 0
    ensures ThreadsInProg(prog, Zip(pcs, starts)) && Answer(prog, input, Zip(pcs, starts), pos, best, true) == best
  {
    AnswerSettled(prog, input, pos, best, true);
    assert Zip(pcs, starts) == [];
  }

  lemma StateFacts(prog: seq<Inst>, states: seq<State>, id: nat)
    requires StatesOk(prog, states) && id < |states|
    ensures StateOk(prog, states[id])
  {
  }

  /** The walk's list is a list of instructions, once each. */
  lemma WalkFacts(prog: seq<Inst>, pcs: seq<nat>, b: Byte, next: seq<nat>, src: seq<nat>)
    requires WellFormedProgram(prog) && InProg(prog, pcs) && |next| == |src|
    requires StepFrom(prog, pcs, b).threads == Zip(next, src)
    ensures InProg(prog, next) && NoDuplicates(next) && |src| <= |prog|
  {
    assert Covers(prog, Blind, [], {});
    StepOnCovers(prog, Blind, Indexed(pcs), b, NOTHING);
    var g := StepFrom(prog, pcs, b);
    assert Pcs(g.threads) == next;
    PcsBound(prog, next);
  }

  /** What a small program computes fits its types: each slot is computed at most once. */
  lemma ProvBound(prog: seq<Inst>, states: seq<State>, trans: seq<nat>, size: nat)
    requires |prog| <= MAX_INSTS && |states| <= STATE_CAP && |trans| == 256 * |states|
    requires size <= Computed(trans) * |prog|
    ensures size < U32 && |prog| < U16
  {
    ComputedBound(trans);
    Products(Computed(trans), |prog|, 256 * STATE_CAP, MAX_INSTS);
  }

  lemma Products(a: nat, b: nat, c: nat, d: nat)
    requires a <= c && b <= d
    ensures a * b <= c * d
  {
    assert a * b <= c * b <= c * d;
  }

  lemma OneMore(count: nat, size: nat)
    ensures (count + 1) * size == count * size + size
  {
  }

  /** The DFA of a small program is never asked more than its tables can hold. */
  lemma SmallFits(dfa: Dfa)
    requires dfa.Valid() && |dfa.prog| <= MAX_INSTS
    ensures dfa.Fits()
  {
    hide Visit, StepFrom, KeyOk, SeedsOk, ClosuresOk, Flags, Computed, SlotOk;
    ProvBound(dfa.prog, dfa.states, dfa.trans, |dfa.prov|);
  }

  /** `src` is what is left of `marks` when they are cast. */
  ghost predicate Narrowed(src: seq<nat>, marks: seq<nat>) {
    |src| == |marks| && forall k :: 0 <= k < |src| ==> src[k] == AsU16(marks[k])
  }

  lemma WalkedSlot(prog: seq<Inst>, states: seq<State>, id: nat, b: Byte, nextId: nat, prov: seq<nat>,
                   next: seq<nat>, src: seq<nat>, marks: seq<nat>, off: nat, fits: bool)
    requires WellFormedProgram(prog) && id < |states| && InProg(prog, states[id].pcs) && NoDuplicates(states[id].pcs)
    requires |next| == |marks| && StepFrom(prog, states[id].pcs, b).threads == Zip(next, marks) && Narrowed(src, marks)
    requires nextId < |states| && states[nextId].pcs == next
    requires off == AsU32(|prov|) && (fits ==> |prog| < U16 && |prov + src| < U32)
    ensures SlotOk(prog, states, id, b, nextId, prov + src, off, fits)
  {
    MarksInside(prog, states[id].pcs, b);
    PcsBound(prog, states[id].pcs);
    hide StepFrom;
    var m := StepFrom(prog, states[id].pcs, b).threads;
    assert Pcs(Zip(next, marks)) == next && Starts(Zip(next, marks)) == marks;
    assert |m| == |src|;
    if fits {
      forall k | 0 <= k < |marks| ensures src[k] == marks[k] {
        assert m[k].start == marks[k];
      }
      assert src == marks;
    }
  }

  lemma TransSize(prog: seq<Inst>, states: seq<State>, trans: seq<nat>, prov: seq<nat>, provOff: seq<nat>, fits: bool,
                  id: nat, b: Byte)
    requires WellFormedProgram(prog) && StatesOk(prog, states) && TransOk(prog, states, trans, prov, provOff, fits) && id < |states|
    ensures Slot(id, b) < |trans| == |provOff| == 256 * |states|
  {
  }

  /** Every mark of a step is a position in the source list. */
  lemma MarksInside(prog: seq<Inst>, pcs: seq<nat>, b: Byte)
    requires WellFormedProgram(prog) && InProg(prog, pcs)
    ensures forall k :: 0 <= k < |StepFrom(prog, pcs, b).threads| ==> StepFrom(prog, pcs, b).threads[k].start < |pcs|
  {
    var same := seq(|pcs|, k => k);
    StepOnReads(prog, Blind, Indexed(pcs), Indexed(pcs), same, b, NOTHING, NOTHING);
  }

  /** A computed slot leads to a state, and its provenance, if it fits, points into the source state. */
  lemma SlotFacts(prog: seq<Inst>, states: seq<State>, trans: seq<nat>, prov: seq<nat>, provOff: seq<nat>, fits: bool,
                  id: nat, b: Byte)
    requires WellFormedProgram(prog) && StatesOk(prog, states) && TransOk(prog, states, trans, prov, provOff, fits) && id < |states|
    requires trans[Slot(id, b)] != UNCOMPUTED
    ensures InProg(prog, states[id].pcs) && trans[Slot(id, b)] < |states|
    ensures var m, next, off := StepFrom(prog, states[id].pcs, b).threads, states[trans[Slot(id, b)]], provOff[Slot(id, b)];
            && next.pcs == Pcs(m) && next.len == AsU32(|m|) && off + next.len <= |prov|
            && (fits ==> off + |m| <= |prov|)
            && (fits ==> forall k :: 0 <= k < |m| ==> m[k].start < |states[id].pcs| && prov[off + k] == m[k].start)
  {
    MarksInside(prog, states[id].pcs, b);
    hide StepFrom;
    var m, off := StepFrom(prog, states[id].pcs, b).threads, provOff[Slot(id, b)];
    assert SlotOk(prog, states, id, b, trans[Slot(id, b)], prov, off, fits);
    StateFacts(prog, states, trans[Slot(id, b)]);
    if fits {
      forall k | 0 <= k < |m| ensures prov[off + k] == m[k].start {
        assert prov[off..off + |m|][k] == Starts(m)[k];
      }
    }
  }

  lemma PcsSize(m: seq<Thread>)
    ensures |Pcs(m)| == |m|
  {
  }

  lemma ReadBack(pcs: seq<nat>, nextStarts: seq<nat>, m: seq<Thread>, starts: seq<nat>)
    requires pcs == Pcs(m) && |nextStarts| == |m|
    requires forall k :: 0 <= k < |m| ==> m[k].start < |starts| && nextStarts[k] == starts[m[k].start]
    ensures ReadFrom(Zip(pcs, nextStarts), m, starts)
  {
  }

  lemma NothingGone(list: seq<nat>)
    ensures [] + Without(list, Members([])) == list
  {
    KeepsAll(list);
  }

  lemma {:induction false} KeepsAll(list: seq<nat>)
    ensures Without(list, Members([])) == list
  {
    if list != [] {
      KeepsAll(list[1..]);
    }
  }

  lemma StartFacts(prog: seq<Inst>)
    requires WellFormedProgram(prog)
    ensures InProg(prog, Close(prog, Blind, 0)) && NoDuplicates(Close(prog, Blind, 0))
  {
    VisitFacts(prog, Blind, [0], {});
  }

  /** What is appended was absent, so the combined list holds each instruction once. */
  lemma CombinedFacts(prog: seq<Inst>, pcs: seq<nat>, combined: seq<nat>)
    requires WellFormedProgram(prog) && InProg(prog, pcs) && NoDuplicates(pcs)
    requires combined == pcs + SeedsFor(prog, pcs)
    ensures InProg(prog, combined) && NoDuplicates(combined) && |combined| <= |prog|
  {
    StartFacts(prog);
    WithoutFacts(prog, Close(prog, Blind, 0), Members(pcs));
    PcsBound(prog, combined);
  }

  lemma {:induction false} WithoutMember(list: seq<nat>, gone: set<nat>, p: nat)
    ensures p in Without(list, gone) <==> p in list && p !in gone
  {
    if list != [] {
      assert p in list <==> p == list[0] || p in list[1..];
      WithoutMember(list[1..], gone, p);
    }
  }

  lemma {:induction false} WithoutOnce(list: seq<nat>, gone: set<nat>)
    requires NoDuplicates(list)
    ensures NoDuplicates(Without(list, gone))
  {
    if list != [] {
      WithoutOnce(list[1..], gone);
      WithoutMember(list[1..], gone, list[0]);
      OnceMore(list[0], Without(list[1..], gone));
    }
  }

  lemma OnceMore(p: nat, list: seq<nat>)
    requires NoDuplicates(list)
    ensures p !in list ==> NoDuplicates([p] + list)
  {
  }

  lemma WithoutFacts(prog: seq<Inst>, list: seq<nat>, gone: set<nat>)
    requires InProg(prog, list) && NoDuplicates(list)
    ensures var kept := Without(list, gone);
            InProg(prog, kept) && NoDuplicates(kept) && forall k :: 0 <= k < |kept| ==> kept[k] in list && kept[k] !in gone
  {
    WithoutOnce(list, gone);
    var kept := Without(list, gone);
    forall k | 0 <= k < |kept| ensures kept[k] in list && kept[k] !in gone {
      WithoutMember(list, gone, kept[k]);
    }
  }

  lemma SeedFilled(prog: seq<Inst>, states: seq<State>, seedMerged: seq<nat>, seedAppended: seq<nat>, id: nat, merged: nat, appended: nat)
    requires WellFormedProgram(prog) && id < |states| && SeedsOk(prog, states, seedMerged, seedAppended)
    requires merged < |states| && states[merged].pcs == states[id].pcs + SeedsFor(prog, states[id].pcs)
    requires appended == AsU16(|SeedsFor(prog, states[id].pcs)|)
    ensures SeedsOk(prog, states, seedMerged[id := merged], seedAppended[id := appended])
  {
  }

  lemma SeedFacts(prog: seq<Inst>, states: seq<State>, seedMerged: seq<nat>, seedAppended: seq<nat>, id: nat)
    requires WellFormedProgram(prog) && id < |states| && SeedsOk(prog, states, seedMerged, seedAppended)
    requires seedMerged[id] != UNCOMPUTED
    ensures SeedOk(prog, states, id, seedMerged[id], seedAppended[id])
  {
  }

  /** There are no more seeds than instructions. */
  lemma SeedsBound(prog: seq<Inst>, pcs: seq<nat>)
    requires WellFormedProgram(prog)
    ensures |SeedsFor(prog, pcs)| <= |prog|
  {
    StartFacts(prog);
    WithoutFacts(prog, Close(prog, Blind, 0), Members(pcs));
    PcsBound(prog, SeedsFor(prog, pcs));
  }

  lemma WalkStart(prog: seq<Inst>)
    requires WellFormedProgram(prog)
    ensures Covers(prog, Blind, [], {}) && Zip([], []) == []
  {
  }

  /** A matching `Byte` adds its closure, without what is there, marked with its own position. */
  lemma WalkByte(prog: seq<Inst>, next: seq<nat>, src: seq<nat>, seen: set<nat>, pc: nat, i: nat)
    requires WellFormedProgram(prog) && pc + 1 < |prog| && |next| == |src| && Covers(prog, Blind, Zip(next, src), seen)
    ensures var v := Visit(prog, Blind, [pc + 1], seen);
            var more := Without(Close(prog, Blind, pc + 1), Members(next));
            var marks := seq(|more|, _ => i);
            && Zip(next + more, src + marks) == Zip(next, src) + Tag(v.list, i)
            && Covers(prog, Blind, Zip(next + more, src + marks), v.seen)
  {
    hide Visit, Covers;
    VisitIsFilteredClosure(prog, Blind, Zip(next, src), seen, pc + 1);
    AddRootCovers(prog, Blind, Zip(next, src), seen, pc + 1, i);
    assert Pcs(Zip(next, src)) == next;
    var more := Without(Close(prog, Blind, pc + 1), Members(next));
    assert Zip(next + more, src + seq(|more|, _ => i)) == Zip(next, src) + Tag(more, i);
  }

  lemma KeyFacts(prog: seq<Inst>, states: seq<State>, key: map<seq<nat>, nat>, pcs: seq<nat>)
    requires StatesOk(prog, states) && KeyOk(states, key)
    ensures 1 <= |states| <= STATE_CAP
    ensures pcs in key ==> key[pcs] < |states| && states[key[pcs]].pcs == pcs
  {
  }

  lemma StatesGrow(prog: seq<Inst>, states: seq<State>, key: map<seq<nat>, nat>, state: State)
    requires StatesOk(prog, states) && KeyOk(states, key) && |states| < STATE_CAP
    requires StateOk(prog, state) && state.pcs !in key
    ensures StatesOk(prog, states + [state])
    ensures KeyOk(states + [state], key[state.pcs := |states|])
  {
    hide StateOk;
  }

  lemma PcsBound(prog: seq<Inst>, pcs: seq<nat>)
    requires InProg(prog, pcs) && NoDuplicates(pcs)
    ensures |pcs| <= |prog|
  {
    NoDuplicatesSize(pcs, AllPcs(prog));
  }
}

/**
 What the tables of the lazy DFA must hold: which state each byte leads to, where each
 thread of the next state came from, and what seeding a fresh start adds. The tables stay
 right when a state is added and when a slot is filled.
 */
module DfaTables {
  import opened Wrappers
  import opened Widths
  import opened Ast
  import opened Program
  import opened Closure
  import opened Threads
  import opened DfaSpec

  /** The entry of a table slot that was not computed yet. */
  const UNCOMPUTED: nat := U32 - 1

  /** At most so many states are kept; past that the DFA gives up. */
  const STATE_CAP: nat := 10_000

  /** For programs up to this size every table offset fits its type, however many states are made. */
  const MAX_INSTS: nat := 1_677

  function AsU32(n: nat): nat { n % U32 }

  function AsU16(n: nat): nat { n % U16 }

  datatype State = State(pcs: seq<nat>, firstMatch: Option<nat>, len: nat)

  /** The first position of a `Match` in the list. */
  ghost predicate IsFirstMatch(prog: seq<Inst>, pcs: seq<nat>, first: Option<nat>)
    requires InProg(prog, pcs)
  {
    match first
    case Some(i) => i < |pcs| && prog[pcs[i]].Match? && forall k :: 0 <= k < i ==> !prog[pcs[k]].Match?
    case None => forall k :: 0 <= k < |pcs| ==> !prog[pcs[k]].Match?
  }

  ghost predicate StateOk(prog: seq<Inst>, state: State) {
    && InProg(prog, state.pcs)
    && NoDuplicates(state.pcs)
    && IsFirstMatch(prog, state.pcs, state.firstMatch)
    && state.len == AsU32(|state.pcs|)
  }

  ghost predicate StatesOk(prog: seq<Inst>, states: seq<State>) {
    && 1 <= |states| <= STATE_CAP
    && states[0].pcs == []
    && forall i :: 0 <= i < |states| ==> StateOk(prog, states[i])
  }

  /** The key map and the state list are inverse to each other. */
  ghost predicate KeyOk(states: seq<State>, key: map<seq<nat>, nat>) {
    && (forall pcs :: pcs in key ==> key[pcs] < |states| && states[key[pcs]].pcs == pcs)
    && (forall i :: 0 <= i < |states| ==> states[i].pcs in key && key[states[i].pcs] == i)
  }

  function Slot(id: nat, b: Byte): nat {
    id * 256 + b
  }

  /**
   The transition of `id` on `b` leads to the state of the step. Its provenance lies in the
   table, and, if the offsets fit their type, where the offset says.
   */
  ghost predicate SlotOk(prog: seq<Inst>, states: seq<State>, id: nat, b: Byte, next: nat, prov: seq<nat>, off: nat, fits: bool)
    requires WellFormedProgram(prog) && id < |states| && InProg(prog, states[id].pcs)
  {
    var m := StepFrom(prog, states[id].pcs, b).threads;
    && next < |states|
    && states[next].pcs == Pcs(m)
    && off + AsU32(|m|) <= |prov|
    && (fits ==> off + |m| <= |prov| && prov[off..off + |m|] == Starts(m))
  }

  ghost predicate TransOk(prog: seq<Inst>, states: seq<State>, trans: seq<nat>, prov: seq<nat>, provOff: seq<nat>, fits: bool)
    requires WellFormedProgram(prog) && StatesOk(prog, states)
  {
    && |trans| == |provOff| == 256 * |states|
    && forall id: nat, b: Byte {:trigger Slot(id, b)} :: id < |states| && trans[Slot(id, b)] != UNCOMPUTED ==>
         SlotOk(prog, states, id, b, trans[Slot(id, b)], prov, provOff[Slot(id, b)], fits)
  }

  /** What seeding adds to a state: the start closure without what is there already. */
  ghost function SeedsFor(prog: seq<Inst>, pcs: seq<nat>): seq<nat>
    requires WellFormedProgram(prog)
  {
    Without(Close(prog, Blind, 0), Members(pcs))
  }

  ghost predicate SeedOk(prog: seq<Inst>, states: seq<State>, id: nat, merged: nat, appended: nat)
    requires WellFormedProgram(prog) && id < |states|
  {
    && merged < |states|
    && states[merged].pcs == states[id].pcs + SeedsFor(prog, states[id].pcs)
    && appended == AsU16(|SeedsFor(prog, states[id].pcs)|)
  }

  ghost predicate SeedsOk(prog: seq<Inst>, states: seq<State>, seedMerged: seq<nat>, seedAppended: seq<nat>)
    requires WellFormedProgram(prog)
  {
    && |seedMerged| == |seedAppended| == |states|
    && forall id :: 0 <= id < |states| && seedMerged[id] != UNCOMPUTED ==>
         SeedOk(prog, states, id, seedMerged[id], seedAppended[id])
  }

  /** How many slots hold a computed entry. */
  ghost function Computed(trans: seq<nat>): nat {
    if trans == [] then 0
    else Computed(trans[..|trans| - 1]) + if trans[|trans| - 1] == UNCOMPUTED then 0 else 1
  }

  lemma {:induction false} ComputedBound(trans: seq<nat>)
    ensures Computed(trans) <= |trans|
  {
    if trans != [] {
      ComputedBound(trans[..|trans| - 1]);
    }
  }

  lemma {:induction false} ComputedRow(trans: seq<nat>, row: seq<nat>)
    requires forall k :: 0 <= k < |row| ==> row[k] == UNCOMPUTED
    ensures Computed(trans + row) == Computed(trans)
    decreases |row|
  {
    if row == [] {
      assert trans + row == trans;
    } else {
      assert (trans + row)[..|trans + row| - 1] == trans + row[..|row| - 1];
      ComputedRow(trans, row[..|row| - 1]);
    }
  }

  /** Filling an empty slot counts one more. */
  lemma {:induction false} ComputedFill(trans: seq<nat>, slot: nat, entry: nat)
    requires slot < |trans| && trans[slot] == UNCOMPUTED && entry != UNCOMPUTED
    ensures Computed(trans[slot := entry]) == Computed(trans) + 1
    decreases |trans|
  {
    var n := |trans| - 1;
    var filled := trans[slot := entry];
    if slot == n {
      assert filled[..n] == trans[..n];
    } else {
      assert filled[..n] == trans[..n][slot := entry];
      ComputedFill(trans[..n], slot, entry);
    }
  }

  // ----- the tables grow -----

  const ROW: seq<nat> := seq(256, _ => UNCOMPUTED)

  /** A fresh state and its empty row leave every computed slot as it was. */
  lemma TransGrows(prog: seq<Inst>, states: seq<State>, state: State, trans: seq<nat>, prov: seq<nat>, provOff: seq<nat>, fits: bool)
    requires WellFormedProgram(prog) && StatesOk(prog, states) && StatesOk(prog, states + [state])
    requires TransOk(prog, states, trans, prov, provOff, fits)
    ensures TransOk(prog, states + [state], trans + ROW, prov, provOff + ROW, fits)
  {
    forall id: nat, b: Byte {:trigger Slot(id, b)} |
      id < |states + [state]| && (trans + ROW)[Slot(id, b)] != UNCOMPUTED
      ensures SlotOk(prog, states + [state], id, b, (trans + ROW)[Slot(id, b)], prov, (provOff + ROW)[Slot(id, b)], fits)
    {
      assert Slot(id, b) < |trans|;
    }
  }

  lemma SlotInjective(id: nat, b: Byte, id': nat, b': Byte)
    ensures Slot(id, b) == Slot(id', b') ==> id == id' && b == b'
  {
  }

  /** Filling one slot with a correct entry keeps the table correct. */
  lemma TransFilled(prog: seq<Inst>, states: seq<State>, trans: seq<nat>, prov: seq<nat>, provOff: seq<nat>, fits: bool,
                    id: nat, b: Byte, next: nat, src: seq<nat>, off: nat, stillFits: bool)
    requires WellFormedProgram(prog) && StatesOk(prog, states) && id < |states| && (stillFits ==> fits)
    requires TransOk(prog, states, trans, prov, provOff, fits)
    requires SlotOk(prog, states, id, b, next, prov + src, off, stillFits)
    ensures Slot(id, b) < |trans|
    ensures TransOk(prog, states, trans[Slot(id, b) := next], prov + src, provOff[Slot(id, b) := off], stillFits)
  {
    var slot := Slot(id, b);
    forall id': nat, b': Byte {:trigger Slot(id', b')} |
      id' < |states| && trans[slot := next][Slot(id', b')] != UNCOMPUTED
      ensures SlotOk(prog, states, id', b', trans[slot := next][Slot(id', b')], prov + src, provOff[slot := off][Slot(id', b')], stillFits)
    {
      SlotInjective(id, b, id', b');
      if Slot(id', b') != slot {
        SlotStill(prog, states, id', b', trans[Slot(id', b')], prov, src, provOff[Slot(id', b')], fits, stillFits);
      }
    }
  }

  lemma SlotStill(prog: seq<Inst>, states: seq<State>, id: nat, b: Byte, next: nat, prov: seq<nat>, src: seq<nat>, off: nat,
                  fits: bool, stillFits: bool)
    requires WellFormedProgram(prog) && id < |states| && InProg(prog, states[id].pcs) && (stillFits ==> fits)
    requires SlotOk(prog, states, id, b, next, prov, off, fits)
    ensures SlotOk(prog, states, id, b, next, prov + src, off, stillFits)
  {
    hide StepFrom;
    var m := StepFrom(prog, states[id].pcs, b).threads;
    if stillFits {
      assert (prov + src)[off..off + |m|] == prov[off..off + |m|];
    }
  }

  lemma SeedsGrow(prog: seq<Inst>, states: seq<State>, state: State, seedMerged: seq<nat>, seedAppended: seq<nat>)
    requires WellFormedProgram(prog) && SeedsOk(prog, states, seedMerged, seedAppended)
    ensures SeedsOk(prog, states + [state], seedMerged + [UNCOMPUTED], seedAppended + [0])
  {
  }
}

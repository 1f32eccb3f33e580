/** The backtracking matcher: a node tries its ends in priority order until its continuation accepts one. */
module Naive {
  import opened Wrappers
  import opened Ast
  import opened Semantics

  /** What the continuation `k` returns on the first position of `ps` that it accepts. */
  function FirstAccepted(k: nat --> Option<nat>, ps: seq<nat>): Option<nat>
    requires forall i :: 0 <= i < |ps| ==> k.requires(ps[i])
  {
    if ps == [] then None
    else if k(ps[0]).Some? then k(ps[0])
    else FirstAccepted(k, ps[1..])
  }

  lemma {:induction false} FirstAcceptedConcat(k: nat --> Option<nat>, ps: seq<nat>, qs: seq<nat>)
    requires forall i :: 0 <= i < |ps| ==> k.requires(ps[i])
    requires forall i :: 0 <= i < |qs| ==> k.requires(qs[i])
    ensures forall i :: 0 <= i < |ps + qs| ==> k.requires((ps + qs)[i])
    ensures FirstAccepted(k, ps + qs) == FirstAccepted(k, ps).OrElse(FirstAccepted(k, qs))
  {
    if ps == [] {
      assert ps + qs == qs;
    } else {
      FirstAcceptedConcat(k, ps[1..], qs);
      assert (ps + qs)[1..] == ps[1..] + qs;
    }
  }

  /** `k` can be called on every position from `lo` to the end of the input. */
  ghost predicate Callable(k: nat --> Option<nat>, input: seq<Byte>, lo: nat) {
    forall p: nat :: lo <= p <= |input| ==> k.requires(p)
  }

  function MatchNode(n: Node, input: seq<Byte>, pos: nat, k: nat --> Option<nat>): (end: Option<nat>)
    requires pos <= |input| && Callable(k, input, pos)
    ensures end == FirstAccepted(k, Ends(n, input, pos))
    decreases n, 0, 0, 0
  {
    match n
    case Empty => k(pos)
    case Class(c) => if pos < |input| && c[input[pos]] then k(pos + 1) else None
    case StartAnchor => if pos == 0 then k(pos) else None
    case EndAnchor => if pos == |input| then k(pos) else None
    case Concat(parts) => MatchSeq(parts, input, pos, k)
    case Alt(branches) => MatchBranches(branches, input, pos, k)
    case Star(inner) => MatchStar(inner, input, pos, k)
    case Plus(inner) => MatchPlus(inner, input, pos, k)
    case Quest(inner) => MatchQuest(inner, input, pos, k)
  }

  /** One mandatory round, then zero or more. */
  function MatchPlus(inner: Node, input: seq<Byte>, pos: nat, k: nat --> Option<nat>): (end: Option<nat>)
    requires pos <= |input| && Callable(k, input, pos)
    ensures end == FirstAccepted(k, PlusFrom(inner, input, pos, Ends(inner, input, pos)))
    decreases inner, 2 + |input|, 0, 0
  {
    var more := (p: nat) requires pos <= p <= |input| => MatchStar(inner, input, p, k);
    var end := MatchNode(inner, input, pos, more);
    PlusAccepted(inner, input, pos, k, more, Ends(inner, input, pos));
    end
  }

  /** Prefer matching the optional part. */
  function MatchQuest(inner: Node, input: seq<Byte>, pos: nat, k: nat --> Option<nat>): (end: Option<nat>)
    requires pos <= |input| && Callable(k, input, pos)
    ensures end == FirstAccepted(k, Ends(inner, input, pos) + [pos])
    decreases inner, 1, 0, 0
  {
    FirstAcceptedConcat(k, Ends(inner, input, pos), [pos]);
    MatchNode(inner, input, pos, k).OrElse(k(pos))
  }

  function MatchSeq(parts: seq<Node>, input: seq<Byte>, pos: nat, k: nat --> Option<nat>): (end: Option<nat>)
    requires pos <= |input| && Callable(k, input, pos)
    ensures end == FirstAccepted(k, SeqEnds(parts, input, pos))
    decreases parts, 0, 0, 0
  {
    if parts == [] then k(pos)
    else
      var rest := (p: nat) requires pos <= p <= |input| => MatchSeq(parts[1..], input, p, k);
      var end := MatchNode(parts[0], input, pos, rest);
      SeqAccepted(parts[1..], input, pos, k, rest, Ends(parts[0], input, pos));
      end
  }

  function MatchBranches(branches: seq<Node>, input: seq<Byte>, pos: nat, k: nat --> Option<nat>): (end: Option<nat>)
    requires pos <= |input| && Callable(k, input, pos)
    ensures end == FirstAccepted(k, AltEnds(branches, input, pos))
    decreases branches, 0, 0, 0
  {
    if branches == [] then None
    else
      FirstAcceptedConcat(k, Ends(branches[0], input, pos), AltEnds(branches[1..], input, pos));
      MatchNode(branches[0], input, pos, k).OrElse(MatchBranches(branches[1..], input, pos, k))
  }

  /** Greedy `*`: one more round that makes progress, or stop here. */
  function MatchStar(inner: Node, input: seq<Byte>, pos: nat, k: nat --> Option<nat>): (end: Option<nat>)
    requires pos <= |input| && Callable(k, input, pos)
    ensures end == FirstAccepted(k, StarEnds(inner, input, pos))
    decreases inner, 1 + |input| - pos, 1, 0
  {
    hide StarFrom, Ends;
    var more := (p: nat) requires pos <= p <= |input| =>
      if p > pos then MatchStar(inner, input, p, k) else None;
    var end := MatchNode(inner, input, pos, more);
    var mids := Ends(inner, input, pos);
    StarAccepted(inner, input, pos, k, more, mids);
    FirstAcceptedConcat(k, StarFrom(inner, input, pos, mids), [pos]);
    end.OrElse(k(pos))
  }

  // ----- running a continuation over a flattened list of ends -----

  lemma {:induction false} SeqAccepted(rest: seq<Node>, input: seq<Byte>, pos: nat, k: nat --> Option<nat>,
                                       more: nat --> Option<nat>, mids: seq<nat>)
    requires Callable(k, input, pos) && Within(mids, pos, |input|)
    requires forall p: nat :: pos <= p <= |input| ==>
      more.requires(p) && more(p) == FirstAccepted(k, SeqEnds(rest, input, p))
    ensures FirstAccepted(more, mids) == FirstAccepted(k, SeqFrom(rest, input, pos, mids))
  {
    if mids != [] {
      SeqAccepted(rest, input, pos, k, more, mids[1..]);
      FirstAcceptedConcat(k, SeqEnds(rest, input, mids[0]), SeqFrom(rest, input, pos, mids[1..]));
    }
  }

  lemma {:induction false} PlusAccepted(inner: Node, input: seq<Byte>, pos: nat, k: nat --> Option<nat>,
                                        more: nat --> Option<nat>, mids: seq<nat>)
    requires pos <= |input| && Callable(k, input, pos) && Within(mids, pos, |input|)
    requires forall p: nat :: pos <= p <= |input| ==>
      more.requires(p) && more(p) == FirstAccepted(k, StarEnds(inner, input, p))
    ensures FirstAccepted(more, mids) == FirstAccepted(k, PlusFrom(inner, input, pos, mids))
  {
    if mids != [] {
      PlusAccepted(inner, input, pos, k, more, mids[1..]);
      FirstAcceptedConcat(k, StarEnds(inner, input, mids[0]), PlusFrom(inner, input, pos, mids[1..]));
    }
  }

  lemma {:induction false} StarAccepted(inner: Node, input: seq<Byte>, pos: nat, k: nat --> Option<nat>,
                                        more: nat --> Option<nat>, mids: seq<nat>)
    requires pos <= |input| && Callable(k, input, pos) && Within(mids, pos, |input|)
    requires forall p: nat :: pos <= p <= |input| ==>
      more.requires(p) &&
      more(p) == if p > pos then FirstAccepted(k, StarEnds(inner, input, p)) else None
    ensures FirstAccepted(more, mids) == FirstAccepted(k, StarFrom(inner, input, pos, mids))
  {
    hide StarEnds;
    if mids != [] {
      StarAccepted(inner, input, pos, k, more, mids[1..]);
      var here := if mids[0] > pos then StarEnds(inner, input, mids[0]) else [];
      FirstAcceptedConcat(k, here, StarFrom(inner, input, pos, mids[1..]));
    }
  }

  // ----- the search -----

  /** The preferred end of an anchored match at `start`. */
  function PreferredEnd(n: Node, input: seq<Byte>, start: nat): Option<nat>
    requires start <= |input|
  {
    var ends := Ends(n, input, start);
    if ends == [] then None else Some(ends[0])
  }

  lemma {:induction false} AcceptAnyIsFirst(k: nat --> Option<nat>, ps: seq<nat>)
    requires forall i :: 0 <= i < |ps| ==> k.requires(ps[i]) && k(ps[i]) == Some(ps[i])
    ensures FirstAccepted(k, ps) == if ps == [] then None else Some(ps[0])
  {
  }

  /** The anchored match at `start`: accept the first end the matcher comes up with. */
  function MatchAt(n: Node, input: seq<Byte>, start: nat): (end: Option<nat>)
    requires start <= |input|
    ensures end == PreferredEnd(n, input, start)
  {
    var accept := (p: nat) => Some(p);
    AcceptAnyIsFirst(accept, Ends(n, input, start));
    MatchNode(n, input, start, accept)
  }

  /** The least start from `scan` on that has a match, with its preferred end. */
  function LeftmostEnd(n: Node, input: seq<Byte>, scan: nat): (found: Option<(nat, nat)>)
    decreases |input| + 1 - scan
  {
    if scan > |input| then None
    else if PreferredEnd(n, input, scan).Some? then Some((scan, PreferredEnd(n, input, scan).value))
    else LeftmostEnd(n, input, scan + 1)
  }

  method FindFrom(n: Node, input: seq<Byte>, scan: nat) returns (found: Option<(nat, nat)>)
    ensures found == LeftmostEnd(n, input, scan)
  {
    var start := scan;
    while start <= |input|
      invariant LeftmostEnd(n, input, start) == LeftmostEnd(n, input, scan)
      decreases |input| + 1 - start
    {
      var end := MatchAt(n, input, start);
      if end.Some? {
        return Some((start, end.value));
      }
      start := start + 1;
    }
    return None;
  }

  /** The search is right: least start with a match, an actual match, and none when there is none. */
  lemma {:induction false} LeftmostEndCorrect(n: Node, input: seq<Byte>, scan: nat)
    ensures match LeftmostEnd(n, input, scan)
            case Some((s, e)) =>
              scan <= s <= e <= |input| && Matches(n, input, s, e) &&
              forall s': nat, e': nat :: scan <= s' < s ==> !Matches(n, input, s', e')
            case None => forall s': nat, e': nat :: scan <= s' <= |input| ==> !Matches(n, input, s', e')
    decreases |input| + 1 - scan
  {
    if scan <= |input| {
      forall e: nat ensures e in Ends(n, input, scan) <==> Matches(n, input, scan, e) {
        EndsExact(n, input, scan, e);
      }
      if PreferredEnd(n, input, scan).None? {
        LeftmostEndCorrect(n, input, scan + 1);
      }
    }
  }
}

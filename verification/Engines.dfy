/** The matchers: each drives its own single-match search across the input. */
module Engines {
  import opened Wrappers
  import opened Ast
  import opened Semantics
  import opened Naive
  import opened Program
  import opened Emit
  import opened Threads
  import opened PikeVm
  import opened PikeCorrectness
  import opened Tail
  import opened Priority
  import opened Scan
  import opened Prefilter
  import opened DfaTables
  import opened LazyDfa

  // ----- the two searches there are -----

  ghost function PikeSearch(prog: seq<Inst>, input: seq<Byte>): (find: nat -> Option<(nat, nat)>)
    requires WellFormedProgram(prog)
    ensures Forward(find, |input|)
  {
    (s: nat) => Leftmost(prog, input, s)
  }

  ghost function NaiveSearch(ast: Node, input: seq<Byte>): (find: nat -> Option<(nat, nat)>)
    ensures Forward(find, |input|)
  {
    hide Matches, LeftmostEnd;
    var find := (s: nat) => LeftmostEnd(ast, input, s);
    assert Forward(find, |input|) by {
      forall s: nat | s <= |input| && find(s).Some? ensures s <= find(s).value.0 <= find(s).value.1 <= |input| {
        LeftmostEndCorrect(ast, input, s);
      }
    }
    find
  }

  /** The spans of the Pike machine: what every matcher but the naive one promises. */
  ghost function PikeSpans(ast: Node, input: seq<Byte>): seq<Span> {
    CompileWellFormed(ast);
    AllSpans(PikeSearch(Compile(ast), input), |input|)
  }

  /** The spans of the backtracking matcher. */
  ghost function NaiveSpans(ast: Node, input: seq<Byte>): seq<Span> {
    AllSpans(NaiveSearch(ast, input), |input|)
  }

  // ----- a search that can be asked again and again -----

  datatype Finder =
    | NaiveFinder(ast: Node)
    | PikeFinder(prog: seq<Inst>)
    | PrefixFinder(prog: seq<Inst>, prefix: seq<Byte>)
    | DfaFinder(dfa: Dfa)

  ghost predicate Usable(f: Finder, input: seq<Byte>)
    reads if f.DfaFinder? then {f.dfa} else {}
  {
    match f
    case NaiveFinder(_) => true
    case PikeFinder(prog) => WellFormedProgram(prog)
    case PrefixFinder(prog, prefix) => WellFormedProgram(prog) && prefix != [] && NeedsLiteral(prog, input, prefix)
    case DfaFinder(dfa) => dfa.Valid() && |dfa.prog| <= MAX_INSTS && NoAsserts(dfa.prog)
  }

  ghost function Target(f: Finder, input: seq<Byte>): (find: nat -> Option<(nat, nat)>)
    requires Usable(f, input)
    reads if f.DfaFinder? then {f.dfa} else {}
    ensures Forward(find, |input|)
  {
    match f
    case NaiveFinder(ast) => NaiveSearch(ast, input)
    case PikeFinder(prog) => PikeSearch(prog, input)
    case PrefixFinder(prog, _) => PikeSearch(prog, input)
    case DfaFinder(dfa) => PikeSearch(dfa.prog, input)
  }

  /** The finder gave up: its state cap was hit, in this call or an earlier one. */
  predicate GaveUp(f: Finder)
    reads if f.DfaFinder? then {f.dfa} else {}
  {
    f.DfaFinder? && f.dfa.overflowed
  }

  /** What a DFA remembers of its pattern. */
  function Verdicts(f: Finder): (Option<seq<Byte>>, bool)
    reads if f.DfaFinder? then {f.dfa} else {}
  {
    if f.DfaFinder? then (f.dfa.literalPrefix, f.dfa.anchored) else (None, false)
  }

  method FindAt(f: Finder, input: seq<Byte>, scan: nat) returns (found: Option<(nat, nat)>)
    requires Usable(f, input) && scan <= |input|
    modifies if f.DfaFinder? then {f.dfa} else {}
    ensures Usable(f, input) && (old(GaveUp(f)) ==> GaveUp(f)) && Verdicts(f) == old(Verdicts(f))
    ensures Target(f, input) == old(Target(f, input))
    ensures found == Target(f, input)(scan) || (GaveUp(f) && found.None?)
  {
    match f
    case NaiveFinder(ast) => found := FindFrom(ast, input, scan);
    case PikeFinder(prog) => var calls; found, calls := PikeFind(prog, input, scan, true);
    case PrefixFinder(prog, prefix) => found := FindWithPrefix(prog, input, prefix, scan);
    case DfaFinder(dfa) =>
      found := dfa.CachedFind(input, scan);
      SmallFits(dfa);
  }

  /** Drive the finder across the input: the spans of its search, unless it gives up. */
  method ScanMatches(f: Finder, input: seq<Byte>, out: seq<Span>) returns (out': seq<Span>)
    requires Usable(f, input)
    modifies if f.DfaFinder? then {f.dfa} else {}
    ensures Usable(f, input) && (old(GaveUp(f)) ==> GaveUp(f)) && Verdicts(f) == old(Verdicts(f))
    ensures GaveUp(f) || out' == out + AllSpans(old(Target(f, input)), |input|)
  {
    hide Usable, Target, Spans, GaveUp, Verdicts;
    ghost var find := Target(f, input);
    var len := |input|;
    var scan: nat, lastEnd := 0, None;
    out' := out;
    while scan <= len
      invariant Usable(f, input) && Target(f, input) == find
      invariant (old(GaveUp(f)) ==> GaveUp(f)) && Verdicts(f) == old(Verdicts(f))
      invariant GaveUp(f) || out' + Spans(find, len, scan, lastEnd) == out + AllSpans(find, len)
      decreases len + 1 - scan
    {
      SpansStep(find, len, scan, lastEnd);
      var found := FindAt(f, input, scan);
      if found.None? {
        break;
      }
      var (start, end) := found.value;
      if start == end && Some(start) == lastEnd {
        scan := start + 1;
        continue;
      }
      out' := out' + [Span(start, end)];
      lastEnd := Some(end);
      scan := if end > start then end else end + 1;
    }
    SpansStep(find, len, scan, lastEnd);
  }

  // ----- the matchers without a cache -----

  method NaiveFindAll(ast: Node, input: seq<Byte>, out: seq<Span>) returns (out': seq<Span>)
    ensures out' == out + NaiveSpans(ast, input)
  {
    out' := ScanMatches(NaiveFinder(ast), input, out);
  }

  method ThompsonFindAll(ast: Node, input: seq<Byte>, out: seq<Span>) returns (out': seq<Span>)
    requires WellFormed(ast)
    ensures out' == out + PikeSpans(ast, input)
  {
    var prog := NewProgram(ast);
    CompileWellFormed(ast);
    out' := ScanMatches(PikeFinder(prog), input, out);
  }

  /** Jumping between occurrences of the leading literal loses nothing. */
  method PrefilterFindAll(ast: Node, input: seq<Byte>, out: seq<Span>) returns (out': seq<Span>)
    requires WellFormed(ast)
    ensures out' == out + PikeSpans(ast, input)
  {
    hide LeadingLiteral, NeedsLiteral;
    var prefix := LeadingLiteralPrefix(ast);
    if prefix.Some? && |prefix.value| >= 2 {
      var prog := NewProgram(ast);
      CompiledNeedsLiteral(ast, prefix.value, input);
      out' := ScanMatches(PrefixFinder(prog, prefix.value), input, out);
    } else {
      out' := ThompsonFindAll(ast, input, out);
    }
  }

  // ----- what the spans are -----

  lemma {:induction false} LeftmostAgain(prog: seq<Inst>, input: seq<Byte>, scan: nat)
    requires WellFormedProgram(prog)
    ensures var found := Leftmost(prog, input, scan);
            found.Some? ==> Leftmost(prog, input, found.value.0) == found
    decreases |input| + 1 - scan
  {
    hide WorthFrom;
    if scan <= |input| && WorthFrom(prog, input, 0, scan).None? {
      LeftmostAgain(prog, input, scan + 1);
    }
  }

  lemma {:induction false} LeftmostBefore(prog: seq<Inst>, input: seq<Byte>, scan: nat, p: nat)
    requires WellFormedProgram(prog) && scan <= p
    requires Leftmost(prog, input, p).Some? && Leftmost(prog, input, p).value.0 == p
    ensures Leftmost(prog, input, scan).Some? && Leftmost(prog, input, scan).value.0 <= p
    decreases p - scan
  {
    hide WorthFrom;
    if scan < p {
      LeftmostBefore(prog, input, scan + 1, p);
    }
  }

  lemma PikeIsLeftmost(prog: seq<Inst>, input: seq<Byte>)
    requires WellFormedProgram(prog)
    ensures IsLeftmost(PikeSearch(prog, input), |input|)
  {
    hide Leftmost;
    var find := PikeSearch(prog, input);
    forall s: nat, p: nat {:trigger find(s), FoundAt(find, p)} | s <= p <= |input| && FoundAt(find, p)
      ensures find(s).Some? && find(s).value.0 <= p
    {
      LeftmostBefore(prog, input, s, p);
    }
    forall s: nat | s <= |input| && find(s).Some? ensures find(find(s).value.0) == find(s) {
      LeftmostAgain(prog, input, s);
    }
  }

  lemma {:induction false} LeftmostEndAgain(n: Node, input: seq<Byte>, scan: nat)
    ensures var found := LeftmostEnd(n, input, scan);
            found.Some? ==> LeftmostEnd(n, input, found.value.0) == found
    decreases |input| + 1 - scan
  {
    hide PreferredEnd;
    if scan <= |input| && PreferredEnd(n, input, scan).None? {
      LeftmostEndAgain(n, input, scan + 1);
    }
  }

  lemma {:induction false} LeftmostEndBefore(n: Node, input: seq<Byte>, scan: nat, p: nat)
    requires scan <= p <= |input|
    requires LeftmostEnd(n, input, p).Some? && LeftmostEnd(n, input, p).value.0 == p
    ensures LeftmostEnd(n, input, scan).Some? && LeftmostEnd(n, input, scan).value.0 <= p
    decreases p - scan
  {
    hide PreferredEnd;
    if scan < p {
      LeftmostEndBefore(n, input, scan + 1, p);
    }
  }

  lemma NaiveIsLeftmost(n: Node, input: seq<Byte>)
    ensures IsLeftmost(NaiveSearch(n, input), |input|)
  {
    hide LeftmostEnd;
    var find := NaiveSearch(n, input);
    forall s: nat, p: nat {:trigger find(s), FoundAt(find, p)} | s <= p <= |input| && FoundAt(find, p)
      ensures find(s).Some? && find(s).value.0 <= p
    {
      LeftmostEndBefore(n, input, s, p);
    }
    forall s: nat | s <= |input| && find(s).Some? ensures find(find(s).value.0) == find(s) {
      LeftmostEndAgain(n, input, s);
    }
  }

  /** The search finds a match of the pattern at the least start there is one. */
  ghost predicate Finds(find: nat -> Option<(nat, nat)>, ast: Node, input: seq<Byte>) {
    forall s: nat {:trigger find(s)} :: s <= |input| ==>
      match find(s)
      case Some((p, e)) =>
        s <= p <= e <= |input| && Matches(ast, input, p, e) &&
        forall p': nat, e': nat :: s <= p' < p ==> !Matches(ast, input, p', e')
      case None => forall p': nat, e': nat :: s <= p' <= |input| ==> !Matches(ast, input, p', e')
  }

  /** A match of the pattern begins at `p`. */
  ghost predicate MatchesFrom(ast: Node, input: seq<Byte>, p: nat) {
    exists e: nat :: Matches(ast, input, p, e)
  }

  /**
   The spans are matches of the pattern, in order, apart, and never empty where the one
   before ended; and wherever a match begins there is a span that begins there, holds that
   place, or ends there with nothing but an empty match to add.
   */
  ghost predicate AreTheSpans(find: nat -> Option<(nat, nat)>, ast: Node, input: seq<Byte>, spans: seq<Span>) {
    && (forall i :: 0 <= i < |spans| ==>
          spans[i].start <= spans[i].end <= |input| && Matches(ast, input, spans[i].start, spans[i].end))
    && (forall i, j :: 0 <= i < j < |spans| ==> spans[i].start < spans[j].start && spans[i].end <= spans[j].start)
    && (forall i, j :: 0 <= i && j == i + 1 < |spans| && spans[j].start == spans[j].end ==> spans[i].end != spans[j].start)
    && (forall p: nat :: p <= |input| && MatchesFrom(ast, input, p) ==>
          exists i :: 0 <= i < |spans| && Accounts(find, spans[i], p))
  }

  lemma OrderedAreMatches(find: nat -> Option<(nat, nat)>, ast: Node, input: seq<Byte>, spans: seq<Span>)
    requires Finds(find, ast, input) && Ordered(find, |input|, 0, None, spans)
    ensures forall i :: 0 <= i < |spans| ==>
      spans[i].start <= spans[i].end <= |input| && Matches(ast, input, spans[i].start, spans[i].end)
  {
    hide Matches;
    forall i | 0 <= i < |spans|
      ensures spans[i].start <= spans[i].end <= |input| && Matches(ast, input, spans[i].start, spans[i].end)
    {
      assert find(spans[i].start) == Some((spans[i].start, spans[i].end));
    }
  }

  lemma CompleteAccounts(find: nat -> Option<(nat, nat)>, ast: Node, input: seq<Byte>, spans: seq<Span>, p: nat)
    requires Finds(find, ast, input) && Complete(find, |input|, 0, None, spans)
    requires p <= |input| && MatchesFrom(ast, input, p)
    ensures exists i :: 0 <= i < |spans| && Accounts(find, spans[i], p)
  {
    hide Matches, Accounts;
    var e: nat :| Matches(ast, input, p, e);
    assert find(p).Some? && find(p).value.0 == p;
    assert FoundAt(find, p);
  }

  lemma SpansAreTheSpans(find: nat -> Option<(nat, nat)>, ast: Node, input: seq<Byte>)
    requires Forward(find, |input|) && IsLeftmost(find, |input|) && Finds(find, ast, input)
    ensures AreTheSpans(find, ast, input, AllSpans(find, |input|))
  {
    hide Spans, Matches, Accounts, IsLeftmost, Finds, MatchesFrom, Complete, Forward;
    SpansCorrect(find, |input|, 0, None);
    var spans := AllSpans(find, |input|);
    OrderedAreMatches(find, ast, input, spans);
    forall p: nat | p <= |input| && MatchesFrom(ast, input, p)
      ensures exists i :: 0 <= i < |spans| && Accounts(find, spans[i], p)
    {
      CompleteAccounts(find, ast, input, spans, p);
    }
  }

  lemma PikeSpansCorrect(ast: Node, input: seq<Byte>)
    requires WellFormed(ast)
    ensures WellFormedProgram(Compile(ast))
    ensures AreTheSpans(PikeSearch(Compile(ast), input), ast, input, PikeSpans(ast, input))
  {
    hide AreTheSpans, Leftmost, Matches, AllSpans, IsLeftmost, Compile, WellFormedProgram, WellFormed;
    CompileWellFormed(ast);
    var find := PikeSearch(Compile(ast), input);
    forall s: nat | s <= |input|
      ensures match find(s)
              case Some((p, e)) =>
                s <= p <= e <= |input| && Matches(ast, input, p, e) &&
                forall p': nat, e': nat :: s <= p' < p ==> !Matches(ast, input, p', e')
              case None => forall p': nat, e': nat :: s <= p' <= |input| ==> !Matches(ast, input, p', e')
    {
      PikeCorrect(ast, input, s);
    }
    PikeIsLeftmost(Compile(ast), input);
    SpansAreTheSpans(find, ast, input);
  }

  lemma NaiveSpansCorrect(ast: Node, input: seq<Byte>)
    ensures AreTheSpans(NaiveSearch(ast, input), ast, input, NaiveSpans(ast, input))
  {
    hide AreTheSpans, LeftmostEnd, Matches, AllSpans, IsLeftmost;
    var find := NaiveSearch(ast, input);
    forall s: nat | s <= |input|
      ensures match find(s)
              case Some((p, e)) =>
                s <= p <= e <= |input| && Matches(ast, input, p, e) &&
                forall p': nat, e': nat :: s <= p' < p ==> !Matches(ast, input, p', e')
              case None => forall p': nat, e': nat :: s <= p' <= |input| ==> !Matches(ast, input, p', e')
    {
      LeftmostEndCorrect(ast, input, s);
    }
    NaiveIsLeftmost(ast, input);
    SpansAreTheSpans(find, ast, input);
  }

  /** Searches that agree from every position give the same spans. */
  lemma SameSearchSameSpans(ast: Node, input: seq<Byte>)
    requires WellFormedProgram(Compile(ast))
    requires forall s: nat :: s <= |input| ==> Leftmost(Compile(ast), input, s) == LeftmostEnd(ast, input, s)
    ensures NaiveSpans(ast, input) == PikeSpans(ast, input)
  {
    hide Leftmost, LeftmostEnd, Compile, WellFormedProgram;
    SpansSame(PikeSearch(Compile(ast), input), NaiveSearch(ast, input), |input|, 0, None);
  }

  /** Searches that differ from the first position give different spans. */
  lemma DifferenceShows(ast: Node, input: seq<Byte>)
    requires WellFormedProgram(Compile(ast)) && Leftmost(Compile(ast), input, 0) != LeftmostEnd(ast, input, 0)
    ensures NaiveSpans(ast, input) != PikeSpans(ast, input)
  {
    hide Leftmost, LeftmostEnd, Compile, WellFormedProgram, Spans;
    FirstOf(PikeSearch(Compile(ast), input), |input|);
    FirstOf(NaiveSearch(ast, input), |input|);
  }

  /** The first span is what is found from the first position. */
  lemma FirstOf(find: nat -> Option<(nat, nat)>, len: nat)
    requires Forward(find, len)
    ensures var spans := AllSpans(find, len);
            if find(0).None? then spans == []
            else spans != [] && spans[0] == Span(find(0).value.0, find(0).value.1)
  {
    SpansStep(find, len, 0, None);
  }

  /** The backtracker and the machine give the same spans for every orderly pattern. */
  lemma OrderlySpansAgree(ast: Node, input: seq<Byte>)
    requires WellFormed(ast) && Orderly(ast)
    ensures NaiveSpans(ast, input) == PikeSpans(ast, input)
  {
    hide Leftmost, LeftmostEnd, Compile, Orderly, WellFormed, WellFormedProgram;
    CompileWellFormed(ast);
    forall s: nat | s <= |input| ensures Leftmost(Compile(ast), input, s) == LeftmostEnd(ast, input, s) {
      OrderlyAgree(ast, input, s);
    }
    SameSearchSameSpans(ast, input);
  }

  /** Whatever the pattern, the two find something in the same inputs, and first at the same place. */
  lemma FirstSpansAgree(ast: Node, input: seq<Byte>)
    requires WellFormed(ast)
    ensures NaiveSpans(ast, input) == [] <==> PikeSpans(ast, input) == []
    ensures NaiveSpans(ast, input) != [] ==> NaiveSpans(ast, input)[0].start == PikeSpans(ast, input)[0].start
  {
    hide Leftmost, LeftmostEnd, Compile, WellFormed, WellFormedProgram;
    StartsAgree(ast, input, 0);
    SpansStep(PikeSearch(Compile(ast), input), |input|, 0, None);
    SpansStep(NaiveSearch(ast, input), |input|, 0, None);
  }
}

/**
 The two DFA matchers: one DFA per pattern text, kept across calls in whatever state the
 calls left it.

 One finds the verdicts that route a pattern anew in every call, the other keeps them.
 */
module Caches {
  import opened Wrappers
  import opened Ast
  import opened Syntax
  import opened Parser
  import opened Program
  import opened Scan
  import opened Prefilter
  import opened DfaTables
  import opened LazyDfa
  import opened Engines

  /** The pattern has a leading literal worth searching for. */
  ghost predicate HasLongLiteral(ast: Node) {
    exists prefix :: LeadingLiteral(ast, Some(prefix)) && |prefix| >= 2
  }

  /** The pattern is left to the DFA: no literal to jump between, no anchor. */
  ghost predicate IsForDfa(ast: Node) {
    !HasLongLiteral(ast) && !HasAnchors(ast)
  }

  lemma LongLiteral(ast: Node, prefix: Option<seq<Byte>>)
    requires LeadingLiteral(ast, prefix)
    ensures HasLongLiteral(ast) <==> prefix.Some? && |prefix.value| >= 2
  {
    hide LeadingLiteral;
    if p :| LeadingLiteral(ast, Some(p)) && |p| >= 2 {
      LeadingLiteralUnique(ast, Some(p), prefix);
    }
  }

  /** The DFA is one of the pattern with this text, in whatever state earlier calls left it. */
  ghost predicate IsDfaOf(dfa: Dfa, source: seq<Byte>)
    reads dfa
  {
    dfa.Valid() && Parse(source).Ok? && dfa.prog == Compile(Parse(source).value)
  }

  /** Run the DFA; when it gives up, start over with the Pike machine. */
  method RunDfa(dfa: Dfa, re: Regex, input: seq<Byte>, out: seq<Span>) returns (out': seq<Span>)
    requires IsRegex(re) && WellFormed(re.ast) && !HasAnchors(re.ast) && IsDfaOf(dfa, re.source)
    requires |Compile(re.ast)| <= MAX_INSTS
    modifies dfa
    ensures IsDfaOf(dfa, re.source) && (old(dfa.overflowed) ==> dfa.overflowed)
    ensures out' == (if dfa.overflowed then [] else out) + PikeSpans(re.ast, input)
    ensures dfa.literalPrefix == old(dfa.literalPrefix) && dfa.anchored == old(dfa.anchored)
  {
    hide Compile, AllSpans, NoAsserts, Parse, WellFormed, HasAnchors;
    CompileNoAsserts(re.ast);
    ghost var f := DfaFinder(dfa);
    assert Verdicts(f) == (dfa.literalPrefix, dfa.anchored);
    out' := ScanMatches(DfaFinder(dfa), input, out);
    assert Verdicts(f) == (dfa.literalPrefix, dfa.anchored);
    if dfa.overflowed {
      out' := ThompsonFindAll(re.ast, input, []);
    }
  }

  /** A new DFA for the pattern. */
  method BuildDfa(re: Regex) returns (dfa: Dfa)
    requires IsRegex(re)
    ensures fresh(dfa) && IsDfaOf(dfa, re.source) && !dfa.overflowed
  {
    var prog := Emit.NewProgram(re.ast);
    CompileWellFormed(re.ast);
    dfa := new Dfa(prog);
  }

  /** A new DFA for the pattern, with the verdicts that route the pattern. */
  method BuildNotedDfa(re: Regex) returns (dfa: Dfa)
    requires IsRegex(re)
    ensures fresh(dfa) && IsDfaOf(dfa, re.source) && !dfa.overflowed
    ensures LeadingLiteral(re.ast, dfa.literalPrefix) && dfa.anchored == HasAnchors(re.ast)
  {
    hide LeadingLiteral, Compile, HasAnchors, Parse;
    dfa := BuildDfa(re);
    var prefix := LeadingLiteralPrefix(re.ast);
    dfa.literalPrefix, dfa.anchored := prefix, HasAnchors(re.ast);
  }

  class LazyCache {
    var dfas: map<seq<Byte>, Dfa>

    ghost predicate Valid()
      reads this, dfas.Values
    {
      && (forall s :: s in dfas ==> IsDfaOf(dfas[s], s))
      && (forall s, t :: s in dfas && t in dfas && dfas[s] == dfas[t] ==> s == t)
    }

    constructor ()
      ensures Valid() && dfas == map[]
    {
      dfas := map[];
    }

    /** The verdicts on the pattern are found anew in every call. */
    method FindAll(re: Regex, input: seq<Byte>, out: seq<Span>) returns (out': seq<Span>)
      requires Valid() && IsRegex(re) && (IsForDfa(re.ast) ==> |Compile(re.ast)| <= MAX_INSTS)
      modifies this, dfas.Values
      ensures Valid() && fresh(dfas.Values - old(dfas.Values))
      ensures IsForDfa(re.ast) ==> re.source in dfas
      ensures out' == (if IsForDfa(re.ast) && dfas[re.source].overflowed then [] else out) + PikeSpans(re.ast, input)
    {
      hide LeadingLiteral, HasLongLiteral, IsDfaOf, Compile, PikeSpans, HasAnchors;
      ProperWellFormed(re.ast);
      var prefix := LeadingLiteralPrefix(re.ast);
      LongLiteral(re.ast, prefix);
      if prefix.Some? && |prefix.value| >= 2 {
        out' := PrefilterFindAll(re.ast, input, out);
        return;
      }
      if HasAnchors(re.ast) {
        out' := ThompsonFindAll(re.ast, input, out);
        return;
      }
      if re.source !in dfas {
        var built := BuildDfa(re);
        dfas := dfas[re.source := built];
      }
      out' := RunDfa(dfas[re.source], re, input, out);
    }
  }

  class FlatCache {
    var dfas: map<seq<Byte>, Dfa>

    ghost predicate Valid()
      reads this, dfas.Values
    {
      && (forall s :: s in dfas ==> IsDfaOf(dfas[s], s))
      && (forall s, t :: s in dfas && t in dfas && dfas[s] == dfas[t] ==> s == t)
      && (forall s :: s in dfas ==>
            LeadingLiteral(Parse(s).value, dfas[s].literalPrefix) && dfas[s].anchored == HasAnchors(Parse(s).value))
    }

    constructor ()
      ensures Valid() && dfas == map[]
    {
      dfas := map[];
    }

    /** The verdicts on the pattern are found once and kept with its DFA. */
    method FindAll(re: Regex, input: seq<Byte>, out: seq<Span>) returns (out': seq<Span>)
      requires Valid() && IsRegex(re) && (IsForDfa(re.ast) ==> |Compile(re.ast)| <= MAX_INSTS)
      modifies this, dfas.Values
      ensures Valid() && fresh(dfas.Values - old(dfas.Values))
      ensures re.source in dfas
      ensures out' == (if IsForDfa(re.ast) && dfas[re.source].overflowed then [] else out) + PikeSpans(re.ast, input)
    {
      hide LeadingLiteral, HasLongLiteral, IsDfaOf, Compile, PikeSpans, HasAnchors;
      var dfa := Known(re);
      ProperWellFormed(re.ast);
      LongLiteral(re.ast, dfa.literalPrefix);
      if dfa.literalPrefix.Some? && |dfa.literalPrefix.value| >= 2 {
        out' := PrefilterFindAll(re.ast, input, out);
      } else if dfa.anchored {
        out' := ThompsonFindAll(re.ast, input, out);
      } else {
        out' := RunDfa(dfa, re, input, out);
      }
    }

    /** The DFA of the pattern, made on first sight. */
    method Known(re: Regex) returns (dfa: Dfa)
      requires Valid() && IsRegex(re)
      modifies this
      ensures Valid() && fresh(dfas.Values - old(dfas.Values))
      ensures re.source in dfas && dfa == dfas[re.source]
      ensures dfas == old(dfas)[re.source := dfa] && (re.source in old(dfas) ==> dfas == old(dfas))
      ensures LeadingLiteral(re.ast, dfa.literalPrefix) && dfa.anchored == HasAnchors(re.ast)
    {
      hide LeadingLiteral, HasLongLiteral, IsDfaOf, Compile, HasAnchors;
      if re.source !in dfas {
        var built := BuildNotedDfa(re);
        dfas := dfas[re.source := built];
      }
      dfa := dfas[re.source];
    }
  }
}

/** The table of matchers, and any run of calls that share the two caches. */
module Dispatch {
  import opened Wrappers
  import opened Ast
  import opened Syntax
  import opened Parser
  import opened Program
  import opened Tail
  import opened DfaTables
  import opened LazyDfa
  import opened Engines
  import opened Caches

  datatype Impl = UseNaive | UseThompson | UsePrefilter | UseLazyDfa | UseFlatDfa

  datatype Call = Call(impl: Impl, re: Regex, input: seq<Byte>)

  /** A parsed pattern, of a size whose table offsets fit where a DFA is run. */
  ghost predicate IsCall(c: Call) {
    && IsRegex(c.re)
    && ((c.impl == UseFlatDfa || c.impl == UseLazyDfa) && IsForDfa(c.re.ast) ==> |Compile(c.re.ast)| <= MAX_INSTS)
  }

  ghost function Promised(c: Call): seq<Span> {
    if c.impl == UseNaive then NaiveSpans(c.re.ast, c.input) else PikeSpans(c.re.ast, c.input)
  }

  class Matchers {
    const lazy: LazyCache
    const flat: FlatCache

    ghost predicate Valid()
      reads lazy, lazy.dfas.Values, flat, flat.dfas.Values
    {
      lazy.Valid() && flat.Valid() && lazy.dfas.Values !! flat.dfas.Values
    }

    constructor ()
      ensures Valid() && fresh(lazy) && fresh(flat) && lazy.dfas == map[] && flat.dfas == map[]
    {
      lazy := new LazyCache();
      flat := new FlatCache();
    }

    method FindAll(c: Call) returns (spans: seq<Span>)
      requires Valid() && IsCall(c)
      modifies lazy, lazy.dfas.Values, flat, flat.dfas.Values
      ensures Valid() && fresh(lazy.dfas.Values - old(lazy.dfas.Values)) && fresh(flat.dfas.Values - old(flat.dfas.Values))
      ensures spans == Promised(c)
    {
      hide IsDfaOf, Compile, PikeSpans, NaiveSpans, HasAnchors, HasLongLiteral, Proper;
      var ast := c.re.ast;
      ProperWellFormed(ast);
      match c.impl
      case UseNaive => spans := NaiveFindAll(ast, c.input, []);
      case UseThompson => spans := ThompsonFindAll(ast, c.input, []);
      case UsePrefilter => spans := PrefilterFindAll(ast, c.input, []);
      case UseLazyDfa => spans := lazy.FindAll(c.re, c.input, []);
      case UseFlatDfa => spans := flat.FindAll(c.re, c.input, []);
    }
  }

  /** Every answer in every run is the promised one, whatever was asked before it. */
  method RunCalls(calls: seq<Call>) returns (answers: seq<seq<Span>>)
    requires forall i :: 0 <= i < |calls| ==> IsCall(calls[i])
    ensures |answers| == |calls| && forall i :: 0 <= i < |calls| ==> answers[i] == Promised(calls[i])
  {
    hide *;
    var matchers := new Matchers();
    answers := [];
    for i := 0 to |calls|
      invariant matchers.Valid() && fresh(matchers)
      invariant fresh(matchers.lazy) && fresh(matchers.flat)
      invariant fresh(matchers.lazy.dfas.Values) && fresh(matchers.flat.dfas.Values)
      invariant |answers| == i && forall k :: 0 <= k < i ==> answers[k] == Promised(calls[k])
    {
      var spans := matchers.FindAll(calls[i]);
      answers := answers + [spans];
    }
  }

  /** All five matchers promise the same for an orderly pattern; all but the naive one always do. */
  lemma AllAgree(re: Regex, input: seq<Byte>, a: Impl, b: Impl)
    requires IsRegex(re)
    requires Orderly(re.ast) || (a != UseNaive && b != UseNaive)
    ensures Promised(Call(a, re, input)) == Promised(Call(b, re, input))
  {
    ProperWellFormed(re.ast);
    if Orderly(re.ast) {
      OrderlySpansAgree(re.ast, input);
    }
  }
}

/** The literal-prefix prefilter: jump between occurrences of a literal every match must begin with. */
module Prefilter {
  import opened Wrappers
  import opened Ast
  import opened Semantics
  import opened Program
  import opened Closure
  import opened Threads
  import opened PikeVm
  import opened PikeCorrectness

  // ----- the leading literal of a pattern -----

  /** The class accepts `b` and nothing else. */
  ghost predicate IsOnly(c: ByteClass, b: Byte) {
    forall x: Byte :: c[x] <==> x == b
  }

  lemma TwoNotOnly(c: ByteClass, a: Byte, b: Byte)
    requires c[a] && c[b] && a != b
    ensures forall x: Byte :: !IsOnly(c, x)
  {
    forall x: Byte ensures !IsOnly(c, x) {
      assert (c[a] <==> a == x) && (c[b] <==> b == x) ==> !IsOnly(c, x);
    }
  }

  lemma NoneNotOnly(c: ByteClass)
    requires forall x: Byte :: !c[x]
    ensures forall x: Byte :: !IsOnly(c, x)
  {
    forall x: Byte ensures !IsOnly(c, x) {
      assert !c[x];
    }
  }

  method SingleByte(c: ByteClass) returns (found: Option<Byte>)
    ensures found.Some? ==> IsOnly(c, found.value)
    ensures found.None? ==> forall b: Byte :: !IsOnly(c, b)
  {
    found := None;
    for i := 0 to 256
      invariant found.None? ==> forall x: Byte :: x < i ==> !c[x]
      invariant found.Some? ==> forall x: Byte :: x < i ==> (c[x] <==> x == found.value)
      invariant found.Some? ==> found.value < i && c[found.value]
    {
      if c[i] {
        if found.Some? {
          TwoNotOnly(c, found.value, i);
          return None;
        }
        found := Some(i);
      }
    }
    if found.None? {
      NoneNotOnly(c);
    }
  }

  /** The node accepts exactly the byte `b`. */
  ghost predicate IsLiteral(n: Node, b: Byte) {
    n.Class? && IsOnly(n.bits, b)
  }

  /** `prefix` is the longest run of single literal bytes the parts begin with. */
  ghost predicate LiteralRun(parts: seq<Node>, prefix: seq<Byte>) {
    && |prefix| <= |parts|
    && (forall k :: 0 <= k < |prefix| ==> IsLiteral(parts[k], prefix[k]))
    && (|prefix| < |parts| ==> forall b: Byte :: !IsLiteral(parts[|prefix|], b))
  }

  /** `prefix` is the leading literal of the pattern, if it has one. */
  ghost predicate LeadingLiteral(ast: Node, prefix: Option<seq<Byte>>) {
    match ast
    case Concat(parts) => LiteralRun(parts, if prefix.Some? then prefix.value else []) && prefix != Some([])
    case Class(_) =>
      if prefix.Some? then |prefix.value| == 1 && IsLiteral(ast, prefix.value[0])
      else forall b: Byte :: !IsLiteral(ast, b)
    case _ => prefix.None?
  }

  method LeadingLiteralPrefix(ast: Node) returns (prefix: Option<seq<Byte>>)
    ensures LeadingLiteral(ast, prefix)
  {
    match ast {
      case Concat(parts) =>
        var run: seq<Byte> := [];
        var i := 0;
        while i < |parts|
          invariant i == |run| <= |parts|
          invariant forall k :: 0 <= k < i ==> IsLiteral(parts[k], run[k])
        {
          if !parts[i].Class? {
            break;
          }
          var single := SingleByte(parts[i].bits);
          if single.None? {
            break;
          }
          run := run + [single.value];
          i := i + 1;
        }
        prefix := if run == [] then None else Some(run);
      case Class(c) =>
        var single := SingleByte(c);
        prefix := if single.Some? then Some([single.value]) else None;
      case _ =>
        prefix := None;
    }
  }

  /** A pattern has one leading literal. */
  lemma LeadingLiteralUnique(ast: Node, p: Option<seq<Byte>>, q: Option<seq<Byte>>)
    requires LeadingLiteral(ast, p) && LeadingLiteral(ast, q)
    ensures p == q
  {
    match ast
    case Concat(parts) =>
      RunUnique(parts, if p.Some? then p.value else [], if q.Some? then q.value else []);
    case Class(c) =>
      if p.Some? {
        assert IsLiteral(ast, p.value[0]);
        if q.Some? {
          assert IsLiteral(ast, q.value[0]);
          OnlyUnique(c, p.value[0], q.value[0]);
          assert p.value == [p.value[0]] && q.value == [q.value[0]];
        }
      }
    case _ =>
  }

  lemma OnlyUnique(c: ByteClass, a: Byte, b: Byte)
    requires IsOnly(c, a) && IsOnly(c, b)
    ensures a == b
  {
    assert c[a];
  }

  lemma EndOfRun(parts: seq<Node>, p: seq<Byte>, b: Byte)
    requires LiteralRun(parts, p)
    ensures |p| < |parts| ==> !IsLiteral(parts[|p|], b)
  {
  }

  lemma RunUnique(parts: seq<Node>, p: seq<Byte>, q: seq<Byte>)
    requires LiteralRun(parts, p) && LiteralRun(parts, q)
    ensures p == q
  {
    if |p| < |q| {
      EndOfRun(parts, p, q[|p|]);
    } else if |q| < |p| {
      EndOfRun(parts, q, p[|q|]);
    }
    forall k | 0 <= k < |p| && k < |q| ensures p[k] == q[k] {
      assert IsLiteral(parts[k], p[k]) && IsLiteral(parts[k], q[k]);
      OnlyUnique(parts[k].bits, p[k], q[k]);
    }
  }

  /** Every match begins with the leading literal. */
  lemma MatchBeginsWithLiteral(ast: Node, prefix: seq<Byte>, input: seq<Byte>, i: nat, j: nat)
    requires LeadingLiteral(ast, Some(prefix)) && i <= |input| && Matches(ast, input, i, j)
    ensures StandsAt(input, i, prefix)
  {
    match ast
    case Concat(parts) => SeqBeginsWithRun(parts, prefix, input, i, j);
    case Class(c) => assert input[i..i + 1] == [input[i]];
    case _ =>
  }

  lemma {:induction false} SeqBeginsWithRun(parts: seq<Node>, prefix: seq<Byte>, input: seq<Byte>, i: nat, j: nat)
    requires |prefix| <= |parts| && forall k :: 0 <= k < |prefix| ==> IsLiteral(parts[k], prefix[k])
    requires i <= |input| && MatchesSeq(parts, input, i, j)
    ensures StandsAt(input, i, prefix)
    decreases |prefix|
  {
    if prefix != [] {
      var m: nat :| Matches(parts[0], input, i, m) && MatchesSeq(parts[1..], input, m, j);
      assert IsLiteral(parts[0], prefix[0]);
      assert forall k :: 0 <= k < |prefix[1..]| ==> parts[1..][k] == parts[k + 1] && prefix[1..][k] == prefix[k + 1];
      SeqBeginsWithRun(parts[1..], prefix[1..], input, i + 1, j);
      assert input[i..i + |prefix|] == [input[i]] + input[i + 1..i + |prefix|];
    }
  }

  // ----- the search -----

  /** Substring search, by contract: the least offset of the needle, or none. */
  method MemmemFind(hay: seq<Byte>, needle: seq<Byte>) returns (offset: Option<nat>)
    ensures match offset
            case Some(k) => StandsAt(hay, k, needle) && forall k' :: 0 <= k' < k ==> !StandsAt(hay, k', needle)
            case None => forall k': nat :: !StandsAt(hay, k', needle)
  {
    var k := 0;
    while k + |needle| <= |hay|
      invariant forall k' :: 0 <= k' < k ==> !StandsAt(hay, k', needle)
    {
      if hay[k..k + |needle|] == needle {
        return Some(k);
      }
      k := k + 1;
    }
    return None;
  }

  /** The machine finds a match from a start only where the literal stands. */
  ghost predicate NeedsLiteral(prog: seq<Inst>, input: seq<Byte>, prefix: seq<Byte>)
    requires WellFormedProgram(prog)
  {
    forall s: nat :: s <= |input| && WorthFrom(prog, input, 0, s).Some? ==> StandsAt(input, s, prefix)
  }

  lemma CompiledNeedsLiteral(ast: Node, prefix: seq<Byte>, input: seq<Byte>)
    requires WellFormed(ast) && LeadingLiteral(ast, Some(prefix))
    ensures WellFormedProgram(Compile(ast)) && NeedsLiteral(Compile(ast), input, prefix)
  {
    hide LeadingLiteral, Matches, WorthFrom, Compile, WellFormed;
    CompileWellFormed(ast);
    forall s: nat | s <= |input| && WorthFrom(Compile(ast), input, 0, s).Some? ensures StandsAt(input, s, prefix) {
      AnchoredCorrect(ast, input, s);
      MatchBeginsWithLiteral(ast, prefix, input, s, WorthFrom(Compile(ast), input, 0, s).value);
    }
  }

  lemma {:induction false} LeftmostSkips(prog: seq<Inst>, input: seq<Byte>, pos: nat, start: nat)
    requires WellFormedProgram(prog) && pos <= start <= |input| + 1
    requires forall s: nat :: pos <= s < start ==> WorthFrom(prog, input, 0, s).None?
    ensures Leftmost(prog, input, pos) == Leftmost(prog, input, start)
    decreases start - pos
  {
    hide WorthFrom, WellFormedProgram;
    if pos < start {
      LeftmostSkips(prog, input, pos + 1, start);
    }
  }

  /** Jump between literal hits and verify each anchored: nothing is lost. */
  method FindWithPrefix(prog: seq<Inst>, input: seq<Byte>, prefix: seq<Byte>, scan: nat)
    returns (found: Option<(nat, nat)>)
    requires WellFormedProgram(prog) && scan <= |input| && prefix != []
    requires NeedsLiteral(prog, input, prefix)
    ensures found == Leftmost(prog, input, scan)
  {
    hide WorthFrom, WellFormedProgram;
    var pos := scan;
    while true
      invariant scan <= pos <= |input|
      invariant Leftmost(prog, input, pos) == Leftmost(prog, input, scan)
      decreases |input| - pos
    {
      var rel := MemmemFind(input[pos..], prefix);
      NothingBetween(prog, input, prefix, pos, rel);
      if rel.None? {
        LeftmostSkips(prog, input, pos, |input| + 1);
        return None;
      }
      var start := pos + rel.value;
      LeftmostSkips(prog, input, pos, start);
      var verified, _ := PikeFind(prog, input, start, false);
      if verified.Some? {
        return verified;
      }
      pos := start + 1;
    }
  }

  /** No match begins before the next hit. */
  lemma NothingBetween(prog: seq<Inst>, input: seq<Byte>, prefix: seq<Byte>, pos: nat, rel: Option<nat>)
    requires WellFormedProgram(prog) && pos <= |input| && NeedsLiteral(prog, input, prefix)
    requires forall k: nat :: (rel.Some? ==> k < rel.value) ==> !StandsAt(input[pos..], k, prefix)
    ensures forall s: nat :: pos <= s <= |input| && (rel.Some? ==> s < pos + rel.value) ==> WorthFrom(prog, input, 0, s).None?
  {
    forall s: nat | pos <= s <= |input| && (rel.Some? ==> s < pos + rel.value)
      ensures WorthFrom(prog, input, 0, s).None?
    {
      var k := s - pos;
      assert !StandsAt(input[pos..], k, prefix);
      assert k + |prefix| <= |input| - pos ==> input[pos..][k..k + |prefix|] == input[s..s + |prefix|];
    }
  }
}

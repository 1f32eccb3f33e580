/** Compilation of a pattern to a flat program with absolute jump targets. */
module Program {
  import opened Ast

  datatype Inst =
    | Byte(bits: ByteClass)
    /** Fork; the `first` thread has the higher priority. */
    | Split(first: nat, second: nat)
    | Jmp(target: nat)
    | Match
    | StartAssert
    | EndAssert

  // ----- the code of a pattern, as a function of its address -----

  function Code(n: Node, base: nat): seq<Inst>
    decreases n, 0
  {
    match n
    case Empty => []
    case Class(c) => [Byte(c)]
    case StartAnchor => [StartAssert]
    case EndAnchor => [EndAssert]
    case Concat(parts) => SeqCode(parts, base)
    case Alt(branches) => AltCode(branches, base, base + AltSize(branches))
    case Star(inner) => Bracketed(base, Size(inner), Code(inner, base + 1), base)
    case Plus(inner) => Looped(base, Size(inner), Code(inner, base))
    case Quest(inner) => Skippable(base, Size(inner), Code(inner, base + 1))
  }

  /** `body`, of length `size`, behind a split that enters it first or skips it, with a final jump to `target`. */
  function Bracketed(base: nat, size: nat, body: seq<Inst>, target: nat): seq<Inst> {
    [Split(base + 1, base + size + 2)] + body + [Jmp(target)]
  }

  /** `body`, of length `size`, followed by a split that repeats it first or goes on. */
  function Looped(base: nat, size: nat, body: seq<Inst>): seq<Inst> {
    body + [Split(base, base + size + 1)]
  }

  /** `body`, of length `size`, behind a split that enters it first or skips it. */
  function Skippable(base: nat, size: nat, body: seq<Inst>): seq<Inst> {
    [Split(base + 1, base + 1 + size)] + body
  }

  function SeqCode(parts: seq<Node>, base: nat): seq<Inst>
    decreases parts, 0
  {
    if parts == [] then []
    else Code(parts[0], base) + SeqCode(parts[1..], base + Size(parts[0]))
  }

  /** The code of an alternation whose every branch but the last ends by jumping to `end`. */
  function AltCode(branches: seq<Node>, base: nat, end: nat): seq<Inst>
    decreases branches, 0
  {
    if branches == [] then []
    else if |branches| == 1 then Code(branches[0], base)
    else
      Bracketed(base, Size(branches[0]), Code(branches[0], base + 1), end)
      + AltCode(branches[1..], base + Size(branches[0]) + 2, end)
  }

  function Size(n: Node): nat
    decreases n
  {
    match n
    case Empty => 0
    case Class(_) | StartAnchor | EndAnchor => 1
    case Concat(parts) => SeqSize(parts)
    case Alt(branches) => AltSize(branches)
    case Star(inner) => Size(inner) + 2
    case Plus(inner) => Size(inner) + 1
    case Quest(inner) => Size(inner) + 1
  }

  function SeqSize(parts: seq<Node>): nat
    decreases parts
  {
    if parts == [] then 0 else Size(parts[0]) + SeqSize(parts[1..])
  }

  function AltSize(branches: seq<Node>): nat
    decreases branches
  {
    if branches == [] then 0
    else if |branches| == 1 then Size(branches[0])
    else Size(branches[0]) + 2 + AltSize(branches[1..])
  }

  function Compile(ast: Node): seq<Inst> {
    Code(ast, 0) + [Match]
  }

  lemma {:induction false} CodeSize(n: Node, base: nat)
    ensures |Code(n, base)| == Size(n)
    decreases n, 0
  {
    match n
    case Empty | Class(_) | StartAnchor | EndAnchor =>
    case Concat(parts) => SeqCodeSize(parts, base);
    case Alt(branches) => AltCodeSize(branches, base, base + AltSize(branches));
    case Star(inner) => CodeSize(inner, base + 1);
    case Plus(inner) => CodeSize(inner, base);
    case Quest(inner) => CodeSize(inner, base + 1);
  }

  lemma {:induction false} SeqCodeSize(parts: seq<Node>, base: nat)
    ensures |SeqCode(parts, base)| == SeqSize(parts)
    decreases parts, 0
  {
    if parts != [] {
      CodeSize(parts[0], base);
      SeqCodeSize(parts[1..], base + Size(parts[0]));
    }
  }

  lemma {:induction false} AltCodeSize(branches: seq<Node>, base: nat, end: nat)
    ensures |AltCode(branches, base, end)| == AltSize(branches)
    decreases branches, 0
  {
    if |branches| == 1 {
      CodeSize(branches[0], base);
    } else if |branches| > 1 {
      CodeSize(branches[0], base + 1);
      AltCodeSize(branches[1..], base + Size(branches[0]) + 2, end);
    }
  }

  // ----- well-formed programs -----

  /** Jump targets are instructions, and `Match` is the last instruction and the only accept. */
  predicate WellFormedProgram(prog: seq<Inst>) {
    && prog != []
    && (forall pc :: 0 <= pc < |prog| ==> (prog[pc].Match? <==> pc == |prog| - 1))
    && (forall pc :: 0 <= pc < |prog| && prog[pc].Jmp? ==> prog[pc].target < |prog|)
    && (forall pc :: 0 <= pc < |prog| && prog[pc].Split? ==> prog[pc].first < |prog| && prog[pc].second < |prog|)
  }

  /** Every jump of `code` lands in `[lo, hi]`, and `code` does not accept. */
  predicate JumpsWithin(code: seq<Inst>, lo: nat, hi: nat) {
    forall k :: 0 <= k < |code| ==>
      match code[k]
      case Jmp(t) => lo <= t <= hi
      case Split(x, y) => lo <= x <= hi && lo <= y <= hi
      case Match => false
      case _ => true
  }

  lemma {:induction false} CodeJumpsWithin(n: Node, base: nat)
    ensures JumpsWithin(Code(n, base), base, base + Size(n))
    decreases n, 0
  {
    hide JumpsWithin, SeqCode, AltCode, Bracketed, Looped, Skippable;
    match n
    case Empty | Class(_) | StartAnchor | EndAnchor => LeafJumpsWithin(n, base);
    case Concat(parts) => SeqJumpsWithin(parts, base);
    case Alt(branches) => AltJumpsWithin(branches, base, base + AltSize(branches));
    case Star(inner) =>
      CodeJumpsWithin(inner, base + 1);
      CodeSize(inner, base + 1);
      LoopJumpsWithin(base, Code(inner, base + 1));
    case Plus(inner) =>
      CodeJumpsWithin(inner, base);
      CodeSize(inner, base);
      RepeatJumpsWithin(base, Code(inner, base));
    case Quest(inner) =>
      CodeJumpsWithin(inner, base + 1);
      CodeSize(inner, base + 1);
      SkipJumpsWithin(base, Code(inner, base + 1));
  }

  lemma LeafJumpsWithin(n: Node, base: nat)
    requires n.Empty? || n.Class? || n.StartAnchor? || n.EndAnchor?
    ensures JumpsWithin(Code(n, base), base, base + Size(n))
  {
  }

  lemma LoopJumpsWithin(base: nat, body: seq<Inst>)
    requires JumpsWithin(body, base + 1, base + 1 + |body|)
    ensures JumpsWithin(Bracketed(base, |body|, body, base), base, base + |body| + 2)
  {
  }

  lemma RepeatJumpsWithin(base: nat, body: seq<Inst>)
    requires JumpsWithin(body, base, base + |body|)
    ensures JumpsWithin(Looped(base, |body|, body), base, base + |body| + 1)
  {
  }

  lemma SkipJumpsWithin(base: nat, body: seq<Inst>)
    requires JumpsWithin(body, base + 1, base + 1 + |body|)
    ensures JumpsWithin(Skippable(base, |body|, body), base, base + |body| + 1)
  {
  }

  lemma {:induction false} SeqJumpsWithin(parts: seq<Node>, base: nat)
    ensures JumpsWithin(SeqCode(parts, base), base, base + SeqSize(parts))
    decreases parts, 0
  {
    if parts != [] {
      CodeJumpsWithin(parts[0], base);
      SeqJumpsWithin(parts[1..], base + Size(parts[0]));
    }
  }

  lemma {:induction false} AltJumpsWithin(branches: seq<Node>, base: nat, end: nat)
    requires base + AltSize(branches) <= end
    ensures JumpsWithin(AltCode(branches, base, end), base, end)
    decreases branches, 0
  {
    if |branches| == 1 {
      CodeJumpsWithin(branches[0], base);
    } else if |branches| > 1 {
      CodeJumpsWithin(branches[0], base + 1);
      AltJumpsWithin(branches[1..], base + Size(branches[0]) + 2, end);
    }
  }

  /** Every split and jump of a compiled pattern is patched in range; only the last instruction accepts. */
  lemma CompileWellFormed(ast: Node)
    ensures WellFormedProgram(Compile(ast)) && |Compile(ast)| == Size(ast) + 1
  {
    CodeJumpsWithin(ast, 0);
    CodeSize(ast, 0);
  }

  // ----- anchors -----

  predicate NoAsserts(prog: seq<Inst>) {
    forall pc :: 0 <= pc < |prog| ==> !prog[pc].StartAssert? && !prog[pc].EndAssert?
  }

  lemma {:induction false} CodeNoAsserts(n: Node, base: nat)
    ensures NoAsserts(Code(n, base)) <==> !HasAnchors(n)
    decreases n, 0
  {
    hide NoAsserts, SeqCode, AltCode, Bracketed, Looped, Skippable;
    match n
    case Empty | Class(_) | StartAnchor | EndAnchor => LeafNoAsserts(n, base);
    case Concat(parts) => SeqNoAsserts(parts, base);
    case Alt(branches) => AltNoAsserts(branches, base, base + AltSize(branches));
    case Star(inner) =>
      CodeNoAsserts(inner, base + 1);
      LoopNoAsserts(base, Size(inner), Code(inner, base + 1));
    case Plus(inner) =>
      CodeNoAsserts(inner, base);
      RepeatNoAsserts(base, Size(inner), Code(inner, base));
    case Quest(inner) =>
      CodeNoAsserts(inner, base + 1);
      SkipNoAsserts(base, Size(inner), Code(inner, base + 1));
  }

  lemma LeafNoAsserts(n: Node, base: nat)
    requires n.Empty? || n.Class? || n.StartAnchor? || n.EndAnchor?
    ensures NoAsserts(Code(n, base)) <==> !HasAnchors(n)
  {
    if n.StartAnchor? || n.EndAnchor? {
      assert Code(n, base)[0].StartAssert? || Code(n, base)[0].EndAssert?;
    }
  }

  lemma LoopNoAsserts(base: nat, size: nat, body: seq<Inst>)
    ensures NoAsserts(Bracketed(base, size, body, base)) <==> NoAsserts(body)
  {
    NoAssertsConcat([Split(base + 1, base + size + 2)], body);
    NoAssertsConcat([Split(base + 1, base + size + 2)] + body, [Jmp(base)]);
  }

  lemma RepeatNoAsserts(base: nat, size: nat, body: seq<Inst>)
    ensures NoAsserts(Looped(base, size, body)) <==> NoAsserts(body)
  {
    NoAssertsConcat(body, [Split(base, base + size + 1)]);
  }

  lemma SkipNoAsserts(base: nat, size: nat, body: seq<Inst>)
    ensures NoAsserts(Skippable(base, size, body)) <==> NoAsserts(body)
  {
    NoAssertsConcat([Split(base + 1, base + 1 + size)], body);
  }

  lemma NoAssertsConcat(a: seq<Inst>, b: seq<Inst>)
    ensures NoAsserts(a + b) <==> NoAsserts(a) && NoAsserts(b)
  {
    if NoAsserts(a + b) {
      forall pc | 0 <= pc < |a| ensures !a[pc].StartAssert? && !a[pc].EndAssert? { assert (a + b)[pc] == a[pc]; }
      forall pc | 0 <= pc < |b| ensures !b[pc].StartAssert? && !b[pc].EndAssert? { assert (a + b)[|a| + pc] == b[pc]; }
    }
  }

  lemma {:induction false} SeqNoAsserts(parts: seq<Node>, base: nat)
    ensures NoAsserts(SeqCode(parts, base)) <==> !AnyHasAnchors(parts)
    decreases parts, 0
  {
    if parts != [] {
      CodeNoAsserts(parts[0], base);
      SeqNoAsserts(parts[1..], base + Size(parts[0]));
      NoAssertsConcat(Code(parts[0], base), SeqCode(parts[1..], base + Size(parts[0])));
    }
  }

  lemma {:induction false} AltNoAsserts(branches: seq<Node>, base: nat, end: nat)
    ensures NoAsserts(AltCode(branches, base, end)) <==> !AnyHasAnchors(branches)
    decreases branches, 0
  {
    if |branches| == 1 {
      CodeNoAsserts(branches[0], base);
      assert !AnyHasAnchors(branches[1..]);
    } else if |branches| > 1 {
      var first := Code(branches[0], base + 1);
      var rest := AltCode(branches[1..], base + Size(branches[0]) + 2, end);
      var split := [Split(base + 1, base + Size(branches[0]) + 2)];
      CodeNoAsserts(branches[0], base + 1);
      AltNoAsserts(branches[1..], base + Size(branches[0]) + 2, end);
      NoAssertsConcat(split, first);
      NoAssertsConcat(split + first, [Jmp(end)]);
      NoAssertsConcat(split + first + [Jmp(end)], rest);
    }
  }

  /** The routing test on the pattern is exact for the program. */
  lemma CompileNoAsserts(ast: Node)
    ensures NoAsserts(Compile(ast)) <==> !HasAnchors(ast)
  {
    CodeNoAsserts(ast, 0);
    NoAssertsConcat(Code(ast, 0), [Match]);
  }
}

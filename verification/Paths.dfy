/** Executions of a program, and the compiler theorem: a program accepts just where its pattern matches. */
module Paths {
  import opened Ast
  import opened Semantics
  import opened Program

  /** One step of an execution. */
  predicate CanStep(prog: seq<Inst>, input: seq<Byte>, pc: nat, pos: nat, pc': nat, pos': nat) {
    pc < |prog| &&
    match prog[pc]
    case Byte(c) => pos < |input| && c[input[pos]] && pc' == pc + 1 && pos' == pos + 1
    case Split(x, y) => (pc' == x || pc' == y) && pos' == pos
    case Jmp(t) => pc' == t && pos' == pos
    case Match => false
    case StartAssert => pos == 0 && pc' == pc + 1 && pos' == pos
    case EndAssert => pos == |input| && pc' == pc + 1 && pos' == pos
  }

  /** Some execution from `(pc, pos)` takes `steps` steps to a `Match` at position `end`. */
  ghost predicate Runs(prog: seq<Inst>, input: seq<Byte>, pc: nat, pos: nat, end: nat, steps: nat)
    decreases steps
  {
    if steps == 0 then pc < |prog| && prog[pc].Match? && pos == end
    else exists pc': nat, pos': nat ::
           CanStep(prog, input, pc, pos, pc', pos') && Runs(prog, input, pc', pos', end, steps - 1)
  }

  lemma StepRuns(prog: seq<Inst>, input: seq<Byte>, pc: nat, pos: nat, pc': nat, pos': nat, end: nat, steps: nat)
    requires CanStep(prog, input, pc, pos, pc', pos') && Runs(prog, input, pc', pos', end, steps)
    ensures Runs(prog, input, pc, pos, end, steps + 1)
  {
  }

  lemma FirstStep(prog: seq<Inst>, input: seq<Byte>, pc: nat, pos: nat, end: nat, steps: nat)
    returns (pc': nat, pos': nat)
    requires Runs(prog, input, pc, pos, end, steps) && pc < |prog| && !prog[pc].Match?
    ensures CanStep(prog, input, pc, pos, pc', pos')
    ensures steps > 0 && Runs(prog, input, pc', pos', end, steps - 1)
  {
    pc', pos' :| CanStep(prog, input, pc, pos, pc', pos') && Runs(prog, input, pc', pos', end, steps - 1);
  }

  ghost predicate Accepts(prog: seq<Inst>, input: seq<Byte>, start: nat, end: nat) {
    exists steps: nat :: Runs(prog, input, 0, start, end, steps)
  }

  // ----- where the code of a pattern stands in a program -----

  /** The code of `n` stands in the program at `base`. */
  predicate Placed(prog: seq<Inst>, n: Node, base: nat)
    decreases n, 0
  {
    match n
    case Empty => true
    case Class(c) => base < |prog| && prog[base] == Byte(c)
    case StartAnchor => base < |prog| && prog[base] == StartAssert
    case EndAnchor => base < |prog| && prog[base] == EndAssert
    case Concat(parts) => SeqPlaced(prog, parts, base)
    case Alt(branches) => AltPlaced(prog, branches, base, base + AltSize(branches))
    case Star(inner) =>
      StarAround(prog, inner, base) && Placed(prog, inner, base + 1)
    case Plus(inner) =>
      PlusBehind(prog, inner, base) && Placed(prog, inner, base)
    case Quest(inner) =>
      && base < |prog|
      && prog[base] == Split(base + 1, base + 1 + Size(inner))
      && Placed(prog, inner, base + 1)
  }

  /** The instructions of a `*` around the code of its body. */
  predicate StarAround(prog: seq<Inst>, inner: Node, base: nat) {
    && base + Size(inner) + 1 < |prog|
    && prog[base] == Split(base + 1, base + Size(inner) + 2)
    && prog[base + Size(inner) + 1] == Jmp(base)
  }

  /** The instruction of a `+` behind the code of its body. */
  predicate PlusBehind(prog: seq<Inst>, inner: Node, base: nat) {
    && base + Size(inner) < |prog|
    && prog[base + Size(inner)] == Split(base, base + Size(inner) + 1)
  }

  predicate SeqPlaced(prog: seq<Inst>, parts: seq<Node>, base: nat)
    decreases parts, 0
  {
    parts == [] || (Placed(prog, parts[0], base) && SeqPlaced(prog, parts[1..], base + Size(parts[0])))
  }

  predicate AltPlaced(prog: seq<Inst>, branches: seq<Node>, base: nat, end: nat)
    decreases branches, 0
  {
    if branches == [] then true
    else if |branches| == 1 then Placed(prog, branches[0], base)
    else
      && base + Size(branches[0]) + 1 < |prog|
      && prog[base] == Split(base + 1, base + Size(branches[0]) + 2)
      && Placed(prog, branches[0], base + 1)
      && prog[base + Size(branches[0]) + 1] == Jmp(end)
      && AltPlaced(prog, branches[1..], base + Size(branches[0]) + 2, end)
  }

  predicate CodeAt(prog: seq<Inst>, base: nat, code: seq<Inst>) {
    base + |code| <= |prog| && forall k {:trigger code[k]} :: 0 <= k < |code| ==> prog[base + k] == code[k]
  }

  lemma CodeAtSplit(prog: seq<Inst>, base: nat, a: seq<Inst>, b: seq<Inst>)
    requires CodeAt(prog, base, a + b)
    ensures CodeAt(prog, base, a) && CodeAt(prog, base + |a|, b)
  {
    forall k | 0 <= k < |a| ensures prog[base + k] == a[k] {
      assert (a + b)[k] == a[k];
    }
    forall k | 0 <= k < |b| ensures prog[base + |a| + k] == b[k] {
      assert (a + b)[|a| + k] == b[k];
    }
  }

  lemma CodeAtOne(prog: seq<Inst>, base: nat, inst: Inst)
    requires CodeAt(prog, base, [inst])
    ensures base < |prog| && prog[base] == inst
  {
    assert [inst][0] == inst;
  }

  lemma BracketedAt(prog: seq<Inst>, base: nat, size: nat, body: seq<Inst>, target: nat)
    requires CodeAt(prog, base, Bracketed(base, size, body, target)) && |body| == size
    ensures base + size + 1 < |prog|
    ensures prog[base] == Split(base + 1, base + size + 2)
    ensures CodeAt(prog, base + 1, body)
    ensures prog[base + size + 1] == Jmp(target)
  {
    var head := [Split(base + 1, base + size + 2)];
    CodeAtSplit(prog, base, head + body, [Jmp(target)]);
    CodeAtSplit(prog, base, head, body);
    CodeAtOne(prog, base, head[0]);
    CodeAtOne(prog, base + size + 1, Jmp(target));
  }

  lemma LoopedAt(prog: seq<Inst>, base: nat, size: nat, body: seq<Inst>)
    requires CodeAt(prog, base, Looped(base, size, body)) && |body| == size
    ensures base + size < |prog|
    ensures CodeAt(prog, base, body)
    ensures prog[base + size] == Split(base, base + size + 1)
  {
    CodeAtSplit(prog, base, body, [Split(base, base + size + 1)]);
    CodeAtOne(prog, base + size, Split(base, base + size + 1));
  }

  lemma SkippableAt(prog: seq<Inst>, base: nat, size: nat, body: seq<Inst>)
    requires CodeAt(prog, base, Skippable(base, size, body)) && |body| == size
    ensures base < |prog|
    ensures prog[base] == Split(base + 1, base + 1 + size)
    ensures CodeAt(prog, base + 1, body)
  {
    CodeAtSplit(prog, base, [Split(base + 1, base + 1 + size)], body);
    CodeAtOne(prog, base, Split(base + 1, base + 1 + size));
  }

  lemma {:induction false} CodePlaced(prog: seq<Inst>, n: Node, base: nat)
    requires CodeAt(prog, base, Code(n, base))
    ensures Placed(prog, n, base)
    decreases n, 0
  {
    match n
    case Empty =>
    case Class(c) => CodeAtOne(prog, base, Byte(c));
    case StartAnchor => CodeAtOne(prog, base, StartAssert);
    case EndAnchor => CodeAtOne(prog, base, EndAssert);
    case Concat(parts) => SeqCodePlaced(prog, parts, base);
    case Alt(branches) => AltCodePlaced(prog, branches, base, base + AltSize(branches));
    case Star(inner) =>
      CodeSize(inner, base + 1);
      BracketedAt(prog, base, Size(inner), Code(inner, base + 1), base);
      CodePlaced(prog, inner, base + 1);
    case Plus(inner) =>
      CodeSize(inner, base);
      LoopedAt(prog, base, Size(inner), Code(inner, base));
      CodePlaced(prog, inner, base);
    case Quest(inner) =>
      CodeSize(inner, base + 1);
      SkippableAt(prog, base, Size(inner), Code(inner, base + 1));
      CodePlaced(prog, inner, base + 1);
  }

  lemma {:induction false} SeqCodePlaced(prog: seq<Inst>, parts: seq<Node>, base: nat)
    requires CodeAt(prog, base, SeqCode(parts, base))
    ensures SeqPlaced(prog, parts, base)
    decreases parts, 0
  {
    if parts != [] {
      CodeSize(parts[0], base);
      CodeAtSplit(prog, base, Code(parts[0], base), SeqCode(parts[1..], base + Size(parts[0])));
      CodePlaced(prog, parts[0], base);
      SeqCodePlaced(prog, parts[1..], base + Size(parts[0]));
    }
  }

  lemma {:induction false} AltCodePlaced(prog: seq<Inst>, branches: seq<Node>, base: nat, end: nat)
    requires CodeAt(prog, base, AltCode(branches, base, end))
    ensures AltPlaced(prog, branches, base, end)
    decreases branches, 0
  {
    if |branches| == 1 {
      CodePlaced(prog, branches[0], base);
    } else if |branches| > 1 {
      var next := base + Size(branches[0]) + 2;
      var body := Code(branches[0], base + 1);
      CodeSize(branches[0], base + 1);
      CodeAtSplit(prog, base, Bracketed(base, Size(branches[0]), body, end), AltCode(branches[1..], next, end));
      BracketedAt(prog, base, Size(branches[0]), body, end);
      CodePlaced(prog, branches[0], base + 1);
      AltCodePlaced(prog, branches[1..], next, end);
    }
  }

  lemma CompilePlaced(ast: Node)
    ensures Placed(Compile(ast), ast, 0) && |Compile(ast)| == Size(ast) + 1
  {
    CodeSize(ast, 0);
    CodePlaced(Compile(ast), ast, 0);
  }

  // ----- every match has a path -----

  /** A match of the fragment extends any run from its end to a run from its beginning. */
  lemma {:induction false} MatchRuns(prog: seq<Inst>, input: seq<Byte>, n: Node, base: nat,
                                     i: nat, j: nat, end: nat, steps: nat) returns (total: nat)
    requires Placed(prog, n, base) && WellFormed(n)
    requires Matches(n, input, i, j) && Runs(prog, input, base + Size(n), j, end, steps)
    ensures Runs(prog, input, base, i, end, total)
    decreases n, 0, 0
  {
    hide Runs;
    match n
    case Empty => total := steps;
    case Class(_) | StartAnchor | EndAnchor =>
      StepRuns(prog, input, base, i, base + 1, j, end, steps);
      total := steps + 1;
    case Concat(parts) => total := MatchSeqRuns(prog, input, parts, base, i, j, end, steps);
    case Alt(branches) =>
      total := MatchAnyRuns(prog, input, branches, base, base + AltSize(branches), i, j, end, steps);
    case Star(inner) =>
      assert RepeatsAny(inner, input, i, j);
      var count: nat :| Repeats(inner, input, i, j, count);
      StepRuns(prog, input, base, j, base + Size(inner) + 2, j, end, steps);
      total := RepeatsRun(prog, input, inner, base, i, j, end, steps + 1, count);
    case Plus(inner) =>
      var count: nat :| count > 0 && Repeats(inner, input, i, j, count);
      total := RepeatsRunPlus(prog, input, inner, base, i, j, end, steps, count);
    case Quest(inner) =>
      if i == j {
        StepRuns(prog, input, base, i, base + 1 + Size(inner), i, end, steps);
        total := steps + 1;
      } else {
        total := MatchRuns(prog, input, inner, base + 1, i, j, end, steps);
        StepRuns(prog, input, base, i, base + 1, i, end, total);
        total := total + 1;
      }
  }

  lemma {:induction false} MatchSeqRuns(prog: seq<Inst>, input: seq<Byte>, parts: seq<Node>, base: nat,
                                        i: nat, j: nat, end: nat, steps: nat) returns (total: nat)
    requires SeqPlaced(prog, parts, base) && AllWellFormed(parts)
    requires MatchesSeq(parts, input, i, j) && Runs(prog, input, base + SeqSize(parts), j, end, steps)
    ensures Runs(prog, input, base, i, end, total)
    decreases parts, 0, 0
  {
    hide Runs;
    if parts == [] {
      total := steps;
    } else {
      var m: nat :| Matches(parts[0], input, i, m) && MatchesSeq(parts[1..], input, m, j);
      total := MatchSeqRuns(prog, input, parts[1..], base + Size(parts[0]), m, j, end, steps);
      total := MatchRuns(prog, input, parts[0], base, i, m, end, total);
    }
  }

  lemma {:induction false} MatchAnyRuns(prog: seq<Inst>, input: seq<Byte>, branches: seq<Node>, base: nat, altEnd: nat,
                                        i: nat, j: nat, end: nat, steps: nat) returns (total: nat)
    requires altEnd == base + AltSize(branches)
    requires AltPlaced(prog, branches, base, altEnd) && AllWellFormed(branches)
    requires MatchesAny(branches, input, i, j) && Runs(prog, input, altEnd, j, end, steps)
    ensures Runs(prog, input, base, i, end, total)
    decreases branches, 0, 0
  {
    hide Runs;
    if |branches| == 1 {
      total := MatchRuns(prog, input, branches[0], base, i, j, end, steps);
    } else {
      var next := base + Size(branches[0]) + 2;
      if Matches(branches[0], input, i, j) {
        StepRuns(prog, input, next - 1, j, altEnd, j, end, steps);
        total := MatchRuns(prog, input, branches[0], base + 1, i, j, end, steps + 1);
        StepRuns(prog, input, base, i, base + 1, i, end, total);
      } else {
        total := MatchAnyRuns(prog, input, branches[1..], next, altEnd, i, j, end, steps);
        StepRuns(prog, input, base, i, next, i, end, total);
      }
      total := total + 1;
    }
  }

  lemma {:induction false} RepeatsRun(prog: seq<Inst>, input: seq<Byte>, inner: Node, base: nat,
                                      i: nat, j: nat, end: nat, steps: nat, count: nat) returns (total: nat)
    requires StarAround(prog, inner, base) && Placed(prog, inner, base + 1) && WellFormed(inner)
    requires Repeats(inner, input, i, j, count) && Runs(prog, input, base, j, end, steps)
    ensures Runs(prog, input, base, i, end, total)
    decreases inner, 1, count
  {
    hide Runs, Matches, Placed, Size, WellFormed, Repeats;
    if count == 0 {
      NoRounds(inner, input, i);
      total := steps;
    } else {
      var back := base + Size(inner) + 1;
      var m := FirstRound(inner, input, i, j, count);
      total := RepeatsRun(prog, input, inner, base, m, j, end, steps, count - 1);
      StepRuns(prog, input, back, m, base, m, end, total);
      total := MatchRuns(prog, input, inner, base + 1, i, m, end, total + 1);
      StepRuns(prog, input, base, i, base + 1, i, end, total);
      total := total + 1;
    }
  }

  lemma {:induction false} RepeatsRunPlus(prog: seq<Inst>, input: seq<Byte>, inner: Node, base: nat,
                                          i: nat, j: nat, end: nat, steps: nat, count: nat) returns (total: nat)
    requires PlusBehind(prog, inner, base) && Placed(prog, inner, base) && WellFormed(inner) && count > 0
    requires Repeats(inner, input, i, j, count) && Runs(prog, input, base + Size(inner) + 1, j, end, steps)
    ensures Runs(prog, input, base, i, end, total)
    decreases inner, 1, count
  {
    hide Runs, Matches, Placed, Size, WellFormed, Repeats;
    var back := base + Size(inner);
    var m := FirstRound(inner, input, i, j, count);
    if count == 1 {
      NoRounds(inner, input, m);
      total := steps;
      StepRuns(prog, input, back, m, back + 1, m, end, total);
    } else {
      total := RepeatsRunPlus(prog, input, inner, base, m, j, end, steps, count - 1);
      StepRuns(prog, input, back, m, base, m, end, total);
    }
    total := MatchRuns(prog, input, inner, base, i, m, end, total + 1);
  }

  // ----- every path is a match -----

  /** A run from the beginning of a fragment crosses it along a match and goes on from its end. */
  lemma {:induction false} RunMatches(prog: seq<Inst>, input: seq<Byte>, n: Node, base: nat,
                                      i: nat, end: nat, steps: nat) returns (j: nat, rest: nat)
    requires Placed(prog, n, base) && WellFormed(n)
    requires Runs(prog, input, base, i, end, steps)
    ensures Matches(n, input, i, j) && rest <= steps && Runs(prog, input, base + Size(n), j, end, rest)
    decreases n, 0, steps
  {
    hide Runs;
    match n
    case Empty => j, rest := i, steps;
    case Class(_) | StartAnchor | EndAnchor =>
      var pc;
      pc, j := FirstStep(prog, input, base, i, end, steps);
      rest := steps - 1;
    case Concat(parts) => j, rest := RunMatchesSeq(prog, input, parts, base, i, end, steps);
    case Alt(branches) =>
      j, rest := RunMatchesAny(prog, input, branches, base, base + AltSize(branches), i, end, steps);
    case Star(inner) =>
      var count;
      j, rest, count := RunRepeats(prog, input, inner, base, i, end, steps);
      assert RepeatsAny(inner, input, i, j);
    case Plus(inner) =>
      var count;
      j, rest, count := RunRepeatsPlus(prog, input, inner, base, i, end, steps);
    case Quest(inner) =>
      var pc;
      pc, j := FirstStep(prog, input, base, i, end, steps);
      rest := steps - 1;
      if pc == base + 1 {
        j, rest := RunMatches(prog, input, inner, base + 1, i, end, steps - 1);
      }
  }

  lemma {:induction false} RunMatchesSeq(prog: seq<Inst>, input: seq<Byte>, parts: seq<Node>, base: nat,
                                         i: nat, end: nat, steps: nat) returns (j: nat, rest: nat)
    requires SeqPlaced(prog, parts, base) && AllWellFormed(parts)
    requires Runs(prog, input, base, i, end, steps)
    ensures MatchesSeq(parts, input, i, j) && rest <= steps && Runs(prog, input, base + SeqSize(parts), j, end, rest)
    decreases parts, 0, steps
  {
    hide Runs;
    if parts == [] {
      j, rest := i, steps;
    } else {
      var m, left := RunMatches(prog, input, parts[0], base, i, end, steps);
      j, rest := RunMatchesSeq(prog, input, parts[1..], base + Size(parts[0]), m, end, left);
    }
  }

  lemma {:induction false} RunMatchesAny(prog: seq<Inst>, input: seq<Byte>, branches: seq<Node>, base: nat, altEnd: nat,
                                         i: nat, end: nat, steps: nat) returns (j: nat, rest: nat)
    requires altEnd == base + AltSize(branches) && branches != []
    requires AltPlaced(prog, branches, base, altEnd) && AllWellFormed(branches)
    requires Runs(prog, input, base, i, end, steps)
    ensures MatchesAny(branches, input, i, j) && rest <= steps && Runs(prog, input, altEnd, j, end, rest)
    decreases branches, 0, steps
  {
    hide Runs;
    if |branches| == 1 {
      j, rest := RunMatches(prog, input, branches[0], base, i, end, steps);
    } else {
      var next := base + Size(branches[0]) + 2;
      var pc, pos := FirstStep(prog, input, base, i, end, steps);
      if pc == base + 1 {
        var left;
        j, left := RunMatches(prog, input, branches[0], base + 1, i, end, steps - 1);
        pc, pos := FirstStep(prog, input, next - 1, j, end, left);
        rest := left - 1;
      } else {
        j, rest := RunMatchesAny(prog, input, branches[1..], next, altEnd, i, end, steps - 1);
      }
    }
  }

  lemma {:induction false} RunRepeats(prog: seq<Inst>, input: seq<Byte>, inner: Node, base: nat,
                                      i: nat, end: nat, steps: nat) returns (j: nat, rest: nat, count: nat)
    requires StarAround(prog, inner, base) && Placed(prog, inner, base + 1) && WellFormed(inner)
    requires Runs(prog, input, base, i, end, steps)
    ensures Repeats(inner, input, i, j, count) && rest <= steps
    ensures Runs(prog, input, base + Size(inner) + 2, j, end, rest)
    decreases inner, 1, steps
  {
    hide Runs, Matches, Placed, Size, WellFormed, Repeats;
    var pc, pos := FirstStep(prog, input, base, i, end, steps);
    if pc == base + 1 {
      var m, left := RunMatches(prog, input, inner, base + 1, i, end, steps - 1);
      pc, pos := FirstStep(prog, input, base + Size(inner) + 1, m, end, left);
      j, rest, count := RunRepeats(prog, input, inner, base, m, end, left - 1);
      OneMoreRound(inner, input, i, m, j, count);
      count := count + 1;
    } else {
      NoRounds(inner, input, i);
      j, rest, count := i, steps - 1, 0;
    }
  }

  lemma {:induction false} RunRepeatsPlus(prog: seq<Inst>, input: seq<Byte>, inner: Node, base: nat,
                                          i: nat, end: nat, steps: nat) returns (j: nat, rest: nat, count: nat)
    requires PlusBehind(prog, inner, base) && Placed(prog, inner, base) && WellFormed(inner)
    requires Runs(prog, input, base, i, end, steps)
    ensures count > 0 && Repeats(inner, input, i, j, count) && rest <= steps
    ensures Runs(prog, input, base + Size(inner) + 1, j, end, rest)
    decreases inner, 1, steps
  {
    hide Runs, Matches, Placed, Size, WellFormed, Repeats;
    var m, left := RunMatches(prog, input, inner, base, i, end, steps);
    var pc, pos := FirstStep(prog, input, base + Size(inner), m, end, left);
    if pc == base {
      j, rest, count := RunRepeatsPlus(prog, input, inner, base, m, end, left - 1);
      OneMoreRound(inner, input, i, m, j, count);
      count := count + 1;
    } else {
      NoRounds(inner, input, m);
      OneMoreRound(inner, input, i, m, m, 0);
      j, rest, count := m, left - 1, 1;
    }
  }

  lemma OnlyEndAtMatch(prog: seq<Inst>, input: seq<Byte>, pc: nat, pos: nat, end: nat, steps: nat)
    requires pc < |prog| && prog[pc].Match? && Runs(prog, input, pc, pos, end, steps)
    ensures pos == end
  {
  }

  /** Compilation preserves meaning: accepting paths are exactly the matches. */
  lemma CompileCorrect(ast: Node, input: seq<Byte>, i: nat, j: nat)
    requires WellFormed(ast)
    ensures Accepts(Compile(ast), input, i, j) <==> Matches(ast, input, i, j)
  {
    var prog := Compile(ast);
    CompilePlaced(ast);
    if Matches(ast, input, i, j) {
      assert Runs(prog, input, Size(ast), j, j, 0);
      var total := MatchRuns(prog, input, ast, 0, i, j, j, 0);
    }
    if steps: nat :| Runs(prog, input, 0, i, j, steps) {
      var m, rest := RunMatches(prog, input, ast, 0, i, j, steps);
      OnlyEndAtMatch(prog, input, Size(ast), m, j, rest);
    }
  }
}

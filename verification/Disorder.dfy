/**
 Two patterns, a star and a plus, whose repeated body tries the empty match before
 something else.

 On them the machine and the backtracker prefer different ends.
 */
module Disorder {
  import opened Wrappers
  import opened Ast
  import opened Syntax
  import opened Semantics
  import opened Naive
  import opened Program
  import opened Closure
  import opened Threads
  import opened Utf8
  import opened Tail
  import opened Paint
  import opened TailVisits
  import opened Engines

  lemma ByteVisit(prog: seq<Inst>, mode: Mode, pc: nat, avoid: set<nat>)
    requires WellFormedProgram(prog) && pc < |prog| && (prog[pc].Byte? || prog[pc].Match?) && pc !in avoid
    ensures Visit(prog, mode, [pc], avoid) == Visited([pc], avoid + {pc})
  {
    VisitOne(prog, mode, pc, avoid);
  }

  // ----- (a?(|b))* on "ab" -----

  const STAR_BODY := Concat([Quest(Class(Only(A))), Alt([Empty, Class(Only(B))])])
  const STAR := Star(STAR_BODY)

  /** One position of a list of round ends: skipped when it makes no progress, else followed up. */
  lemma RoundStep(inner: Node, input: seq<Byte>, i: nat, m: nat, rest: seq<nat>)
    requires i <= m <= |input| && Within(rest, i, |input|)
    ensures StarFrom(inner, input, i, [m] + rest)
         == (if m > i then StarEnds(inner, input, m) else []) + StarFrom(inner, input, i, rest)
    ensures StarFrom(inner, input, i, []) == []
  {
    hide StarEnds;
    assert ([m] + rest)[1..] == rest;
  }

  /** The backtracker takes `b` in the round that began at `a`. */
  lemma StarBacktracks()
    ensures LeftmostEnd(STAR, [A, B], 0) == Some((0, 2))
  {
    var input: seq<Byte>, body := [A, B], STAR_BODY;
    StarBodyEnds(0);
    StarBodyEnds(1);
    StarBodyEnds(2);
    StarRounds(body, input);
    assert Ends(STAR, input, 0) == StarEnds(body, input, 0);
  }

  lemma StarRounds(body: Node, input: seq<Byte>)
    requires |input| == 2
    requires Ends(body, input, 0) == [1, 2, 0] && Ends(body, input, 1) == [1, 2] && Ends(body, input, 2) == [2]
    ensures StarEnds(body, input, 0) != [] && StarEnds(body, input, 0)[0] == 2
  {
    hide Ends, StarFrom;
    RoundStep(body, input, 2, 2, []);
    assert [2] + [] == [2];
    assert StarEnds(body, input, 2) == [2];
    RoundStep(body, input, 1, 2, []);
    RoundStep(body, input, 1, 1, [2]);
    assert [1] + [2] == [1, 2];
    assert StarEnds(body, input, 1) == [2, 1];
    RoundStep(body, input, 0, 1, [2, 0]);
    assert [1] + [2, 0] == [1, 2, 0];
  }

  lemma AltBodyEnds(pos: nat)
    requires pos <= 2
    ensures Ends(Alt([Empty, Class(Only(B))]), [A, B], pos) == if pos == 1 then [1, 2] else [pos]
  {
    var input: seq<Byte>, b := [A, B], Class(Only(B));
    assert [Empty, b][1..] == [b] && [b][1..] == [];
    assert AltEnds([b], input, pos) == Ends(b, input, pos) + AltEnds([], input, pos);
    assert AltEnds([Empty, b], input, pos) == [pos] + AltEnds([b], input, pos);
  }

  lemma StarBodyEnds(pos: nat)
    requires pos <= 2
    ensures Ends(STAR_BODY, [A, B], pos) == [[1, 2, 0], [1, 2], [2]][pos]
  {
    var input: seq<Byte> := [A, B];
    var quest, alt := Quest(Class(Only(A))), Alt([Empty, Class(Only(B))]);
    var mids := if pos == 0 then [1, 0] else [pos];
    assert Ends(quest, input, pos) == mids;
    AltBodyEnds(pos);
    AltBodyEnds(1);
    assert [quest, alt][1..] == [alt];
    assert Ends(STAR_BODY, input, pos) == SeqFrom([alt], input, pos, mids);
    StarBodyRounds(alt, input, pos, mids);
  }

  lemma StarBodyRounds(alt: Node, input: seq<Byte>, pos: nat, mids: seq<nat>)
    requires |input| == 2 && pos <= 2 && mids == if pos == 0 then [1, 0] else [pos]
    requires forall p: nat :: p == pos || p == 1 ==> Ends(alt, input, p) == if p == 1 then [1, 2] else [p]
    ensures SeqFrom([alt], input, pos, mids) == [[1, 2, 0], [1, 2], [2]][pos]
  {
    hide Ends;
    LastAlone(alt, input, pos);
    LastAlone(alt, input, 1);
    hide SeqEnds;
    assert SeqFrom([alt], input, pos, mids) == SeqEnds([alt], input, mids[0]) + SeqFrom([alt], input, pos, mids[1..]);
    if pos == 0 {
      assert mids[1..] == [0] && [0][1..] == [];
      assert SeqFrom([alt], input, 0, [0]) == SeqEnds([alt], input, 0) + SeqFrom([alt], input, 0, []);
    } else {
      assert mids[1..] == [];
    }
  }

  lemma LastAlone(n: Node, input: seq<Byte>, pos: nat)
    requires pos <= |input|
    ensures SeqEnds([n], input, pos) == Ends(n, input, pos)
  {
    hide Ends;
    assert [n][1..] == [];
    assert SeqEnds([n], input, pos) == SeqFrom([], input, pos, Ends(n, input, pos));
    EachAlone(input, pos, Ends(n, input, pos));
  }

  /** Nothing after the alternation: its ends are the ends. */
  lemma {:induction false} EachAlone(input: seq<Byte>, pos: nat, ends: seq<nat>)
    requires Within(ends, pos, |input|)
    ensures SeqFrom([], input, pos, ends) == ends
  {
    if ends != [] {
      EachAlone(input, pos, ends[1..]);
    }
  }

  const STAR_CODE := [Split(1, 7), Split(2, 3), Byte(Only(A)), Split(4, 5), Jmp(6), Byte(Only(B)), Jmp(0), Match]

  lemma StarCode()
    ensures Compile(STAR) == STAR_CODE && WellFormedProgram(STAR_CODE)
  {
    var a, alt := Class(Only(A)), Alt([Empty, Class(Only(B))]);
    assert [Quest(a), alt][1..] == [alt] && [alt][1..] == [];
    assert [Empty, Class(Only(B))][1..] == [Class(Only(B))];
    assert AltSize([Class(Only(B))]) == 1 && AltSize([Empty, Class(Only(B))]) == 3;
    assert AltCode([Class(Only(B))], 5, 6) == [Byte(Only(B))];
    assert AltCode([Empty, Class(Only(B))], 3, 6) == Bracketed(3, 0, [], 6) + [Byte(Only(B))];
    assert Code(alt, 3) == [Split(4, 5), Jmp(6), Byte(Only(B))];
    assert Code(Quest(a), 1) == [Split(2, 3), Byte(Only(A))];
    assert SeqCode([alt], 3) == Code(alt, 3) + SeqCode([], 6);
    assert SeqSize([alt]) == 3;
    assert Code(STAR_BODY, 1) == Code(Quest(a), 1) + SeqCode([alt], 3);
    assert Size(STAR_BODY) == 5;
  }

  /** The machine prefers to stop after `a`: the way out of the loop was seen before `b`. */
  lemma StarStops()
    ensures WellFormed(STAR) && WellFormedProgram(Compile(STAR))
    ensures Leftmost(Compile(STAR), [A, B], 0) == Some((0, 1))
  {
    var prog, input: seq<Byte> := STAR_CODE, [A, B];
    Disorderly();
    StarCode();
    StarAfterA();
    StarBegins();
    var closure := Close(prog, ModeAt(input, 0), 0);
    assert WorthOf(prog, input, 2, 0) == Worth(prog, input, Close(prog, ModeAt(input, 1), 3), 1);
  }

  lemma StarBegins()
    ensures WellFormedProgram(STAR_CODE)
    ensures var closure := Close(STAR_CODE, ModeAt([A, B], 0), 0);
            closure != [] && closure[0] == 2
  {
    StarCode();
    hide Visit;
    var prog, mode := STAR_CODE, ModeAt([A, B], 0);
    SplitVisit(prog, mode, 0, 1, 7, {});
    SplitVisit(prog, mode, 1, 2, 3, {} + {0});
    ByteVisit(prog, mode, 2, {} + {0} + {1});
  }

  lemma StarAfterA()
    ensures WellFormedProgram(STAR_CODE)
    ensures Worth(STAR_CODE, [A, B], Close(STAR_CODE, ModeAt([A, B], 1), 3), 1) == Some(1)
  {
    StarCode();
    hide Visit;
    var prog, input: seq<Byte> := STAR_CODE, [A, B];
    var mode := ModeAt(input, 1);
    SplitVisit(prog, mode, 3, 4, 5, {});
    JmpVisit(prog, mode, 4, 6, {} + {3});
    JmpVisit(prog, mode, 6, 0, {} + {3} + {4});
    var s := {} + {3} + {4} + {6};
    SplitVisit(prog, mode, 0, 1, 7, s);
    SplitVisit(prog, mode, 1, 2, 3, s + {0});
    ByteVisit(prog, mode, 2, s + {0} + {1});
    SeenVisit(prog, mode, 3, s + {0} + {1} + {2});
    ByteVisit(prog, mode, 7, s + {0} + {1} + {2});
    var closure := Close(prog, mode, 3);
    assert closure[..2] == [2, 7];
    assert WorthOf(prog, input, 2, 1) == None && WorthOf(prog, input, 7, 1) == Some(1);
    assert closure[1..][0] == 7;
  }

  // ----- (a*|b)+ on "b" -----

  const PLUS_BODY := Alt([Star(Class(Only(A))), Class(Only(B))])
  const PLUS := Plus(PLUS_BODY)
  const PLUS_CODE := [Split(1, 5), Split(2, 4), Byte(Only(A)), Jmp(1), Jmp(6), Byte(Only(B)), Split(0, 7), Match]

  lemma PlusBodyEnds(pos: nat)
    requires pos <= 1
    ensures Ends(PLUS_BODY, [B], pos) == [[0, 1], [1]][pos]
  {
    var input: seq<Byte>, a, b := [B], Class(Only(A)), Class(Only(B));
    assert [Star(a), b][1..] == [b] && [b][1..] == [];
    assert AltEnds([b], input, pos) == Ends(b, input, pos) + AltEnds([], input, pos);
    assert Ends(a, input, pos) == [];
    assert StarEnds(a, input, pos) == StarFrom(a, input, pos, []) + [pos];
    assert Ends(Star(a), input, pos) == [pos];
  }

  /** The backtracker goes on to a second round, which takes `b`. */
  lemma PlusBacktracks()
    ensures LeftmostEnd(PLUS, [B], 0) == Some((0, 1))
  {
    var input: seq<Byte>, body := [B], PLUS_BODY;
    PlusBodyEnds(0);
    PlusBodyEnds(1);
    PlusRounds(body, input);
    assert Ends(PLUS, input, 0) == PlusFrom(body, input, 0, [0, 1]);
  }

  lemma PlusRounds(body: Node, input: seq<Byte>)
    requires |input| == 1 && Ends(body, input, 0) == [0, 1] && Ends(body, input, 1) == [1]
    ensures PlusFrom(body, input, 0, [0, 1]) != [] && PlusFrom(body, input, 0, [0, 1])[0] == 1
  {
    hide Ends, StarFrom;
    RoundStep(body, input, 1, 1, []);
    assert [1] + [] == [1];
    assert StarEnds(body, input, 1) == [1];
    RoundStep(body, input, 0, 1, []);
    RoundStep(body, input, 0, 0, [1]);
    assert [0] + [1] == [0, 1];
    assert StarEnds(body, input, 0) == [1, 0];
    hide StarEnds;
    assert PlusFrom(body, input, 0, [0, 1]) == StarEnds(body, input, 0) + PlusFrom(body, input, 0, [0, 1][1..]);
  }

  lemma PlusCode()
    ensures Compile(PLUS) == PLUS_CODE && WellFormedProgram(PLUS_CODE)
  {
    var a, b := Class(Only(A)), Class(Only(B));
    assert [Star(a), b][1..] == [b];
    assert Size(a) == 1 && Size(Star(a)) == 3;
    assert AltSize([b]) == 1 && AltSize([Star(a), b]) == 6;
    assert Code(Star(a), 1) == [Split(2, 4), Byte(Only(A)), Jmp(1)];
    assert AltCode([b], 5, 6) == [Byte(Only(B))];
    assert AltCode([Star(a), b], 0, 6) == Bracketed(0, 3, Code(Star(a), 1), 6) + AltCode([b], 5, 6);
    assert Code(PLUS_BODY, 0) == AltCode([Star(a), b], 0, 6);
    assert Size(PLUS_BODY) == 6;
  }

  /** The machine leaves as soon as the body was crossed without consuming. */
  lemma PlusStops()
    ensures WellFormed(PLUS) && WellFormedProgram(Compile(PLUS))
    ensures Leftmost(Compile(PLUS), [B], 0) == Some((0, 0))
  {
    Disorderly();
    PlusCode();
    var input: seq<Byte> := [B];
    var prog, mode := PLUS_CODE, ModeAt(input, 0);
    PlusBegins();
    var closure := Close(prog, mode, 0);
    assert closure[1..][0] == 7;
    assert WorthOf(prog, input, 2, 0) == None && WorthOf(prog, input, 7, 0) == Some(0);
    assert Worth(prog, input, closure, 0) == Worth(prog, input, closure[1..], 0) == Some(0);
  }

  lemma PlusBegins()
    ensures WellFormedProgram(PLUS_CODE)
    ensures var closure := Close(PLUS_CODE, ModeAt([B], 0), 0);
            |closure| > 1 && closure[0] == 2 && closure[1] == 7
  {
    PlusCode();
    hide Visit;
    var prog, mode := PLUS_CODE, ModeAt([B], 0);
    SplitVisit(prog, mode, 0, 1, 5, {});
    var s := {} + {0};
    SplitVisit(prog, mode, 1, 2, 4, s);
    ByteVisit(prog, mode, 2, s + {1});
    JmpVisit(prog, mode, 4, 6, s + {1} + {2});
    SplitVisit(prog, mode, 6, 0, 7, s + {1} + {2} + {4});
    SeenVisit(prog, mode, 0, s + {1} + {2} + {4} + {6});
    ByteVisit(prog, mode, 7, s + {1} + {2} + {4} + {6});
  }

  // ----- the two patterns are texts -----

  /** A text with the bytes of the string, one by one. */
  lemma Spelled(s: string, bytes: seq<Byte>)
    requires bytes == Text(s) && forall i :: 0 <= i < |s| ==> s[i] < '\U{0080}'
    ensures |bytes| == |s| && forall i :: 0 <= i < |s| ==> bytes[i] == s[i] as int
  {
  }

  lemma LiteralAt(bytes: seq<Byte>, pos: nat, b: Byte)
    requires pos < |bytes| && bytes[pos] == b && 97 <= b <= 98
    ensures AtomAt(bytes, pos) == Ok((Class(Only(b)), pos + 1))
  {
  }

  /** A group holds what stands between its parentheses. */
  lemma GroupAt(bytes: seq<Byte>, pos: nat, n: Node, close: nat)
    requires pos < close < |bytes| && Syntax.At(bytes, pos, '(') && Syntax.At(bytes, close, ')')
    requires AltAt(bytes, pos + 1) == Ok((n, close))
    ensures AtomAt(bytes, pos) == Ok((n, close + 1))
  {
    hide AltAt;
  }

  /** A text that is one group and its quantifier. */
  lemma LoopText(bytes: seq<Byte>, body: Node, loop: Node)
    requires |bytes| >= 2 && Syntax.At(bytes, 0, '(') && AtomAt(bytes, 0) == Ok((body, |bytes| - 1)) && Proper(body)
    requires (loop == Star(body) && Syntax.At(bytes, |bytes| - 1, '*')) || (loop == Plus(body) && Syntax.At(bytes, |bytes| - 1, '+'))
    ensures Parse(bytes) == Ok(loop)
  {
    hide AtomAt;
    assert RepeatAt(bytes, 0) == Ok((loop, |bytes|));
    assert [] + [loop] == [loop];
    assert ConcatAt(bytes, |bytes|, [loop]) == Ok((loop, |bytes|));
    assert ConcatAt(bytes, 0, []) == Ok((loop, |bytes|));
    assert AltMore(bytes, |bytes|, [loop]) == Ok((loop, |bytes|));
    assert AltAt(bytes, 0) == Ok((loop, |bytes|));
  }

  lemma StarText()
    ensures Parse(Text("(a?(|b))*")) == Ok(STAR)
  {
    var bytes := Text("(a?(|b))*");
    Spelled("(a?(|b))*", bytes);
    hide Text, Parse, Proper;
    StarSpelled(bytes);
  }

  lemma StarSpelled(bytes: seq<Byte>)
    requires |bytes| == 9 && Syntax.At(bytes, 0, '(') && bytes[1] == A && Syntax.At(bytes, 2, '?') && Syntax.At(bytes, 3, '(')
    requires Syntax.At(bytes, 4, '|') && bytes[5] == B && Syntax.At(bytes, 6, ')') && Syntax.At(bytes, 7, ')')
    requires Syntax.At(bytes, 8, '*')
    ensures Parse(bytes) == Ok(STAR)
  {
    hide AtomAt, AltAt, ConcatAt, RepeatAt, Parse, Proper;
    LiteralAt(bytes, 1, A);
    LiteralAt(bytes, 5, B);
    EmptyOrB(bytes);
    GroupAt(bytes, 3, Alt([Empty, Class(Only(B))]), 6);
    StarBody(bytes);
    GroupAt(bytes, 0, STAR_BODY, 7);
    LoopText(bytes, STAR_BODY, STAR);
  }

  lemma EmptyOrB(bytes: seq<Byte>)
    requires |bytes| == 9 && Syntax.At(bytes, 4, '|') && bytes[5] == B && Syntax.At(bytes, 6, ')')
    requires AtomAt(bytes, 5) == Ok((Class(Only(B)), 6))
    ensures AltAt(bytes, 4) == Ok((Alt([Empty, Class(Only(B))]), 6))
  {
    hide AtomAt;
    var b := Class(Only(B));
    assert ConcatAt(bytes, 4, []) == Ok((Empty, 4));
    assert RepeatAt(bytes, 5) == Ok((b, 6)) && [] + [b] == [b];
    assert ConcatAt(bytes, 6, [b]) == Ok((b, 6));
    assert ConcatAt(bytes, 5, []) == Ok((b, 6));
    assert [Empty] + [b] == [Empty, b];
    assert AltMore(bytes, 6, [Empty, b]) == Ok((Alt([Empty, b]), 6));
  }

  lemma StarBody(bytes: seq<Byte>)
    requires |bytes| == 9 && bytes[1] == A && Syntax.At(bytes, 2, '?') && Syntax.At(bytes, 3, '(') && Syntax.At(bytes, 7, ')')
    requires AtomAt(bytes, 1) == Ok((Class(Only(A)), 2)) && AtomAt(bytes, 3) == Ok((Alt([Empty, Class(Only(B))]), 7))
    ensures AltAt(bytes, 1) == Ok((STAR_BODY, 7))
  {
    hide AtomAt;
    var q, alt := Quest(Class(Only(A))), Alt([Empty, Class(Only(B))]);
    assert RepeatAt(bytes, 1) == Ok((q, 3)) && RepeatAt(bytes, 3) == Ok((alt, 7));
    assert [] + [q] == [q] && [q] + [alt] == [q, alt];
    assert ConcatAt(bytes, 7, [q, alt]) == Ok((STAR_BODY, 7));
    assert ConcatAt(bytes, 3, [q]) == Ok((STAR_BODY, 7));
    assert ConcatAt(bytes, 1, []) == Ok((STAR_BODY, 7));
  }

  lemma PlusText()
    ensures Parse(Text("(a*|b)+")) == Ok(PLUS)
  {
    var bytes := Text("(a*|b)+");
    Spelled("(a*|b)+", bytes);
    hide Text, Parse, Proper;
    PlusSpelled(bytes);
  }

  lemma PlusSpelled(bytes: seq<Byte>)
    requires |bytes| == 7 && Syntax.At(bytes, 0, '(') && bytes[1] == A && Syntax.At(bytes, 2, '*') && Syntax.At(bytes, 3, '|')
    requires bytes[4] == B && Syntax.At(bytes, 5, ')') && Syntax.At(bytes, 6, '+')
    ensures Parse(bytes) == Ok(PLUS)
  {
    hide AtomAt, AltAt, ConcatAt, RepeatAt, Parse, Proper;
    LiteralAt(bytes, 1, A);
    LiteralAt(bytes, 4, B);
    PlusBody(bytes);
    GroupAt(bytes, 0, PLUS_BODY, 5);
    LoopText(bytes, PLUS_BODY, PLUS);
  }

  lemma PlusBody(bytes: seq<Byte>)
    requires |bytes| == 7 && bytes[1] == A && Syntax.At(bytes, 2, '*') && Syntax.At(bytes, 3, '|') && bytes[4] == B && Syntax.At(bytes, 5, ')')
    requires AtomAt(bytes, 1) == Ok((Class(Only(A)), 2)) && AtomAt(bytes, 4) == Ok((Class(Only(B)), 5))
    ensures AltAt(bytes, 1) == Ok((PLUS_BODY, 5))
  {
    hide AtomAt;
    var s, b := Star(Class(Only(A))), Class(Only(B));
    assert RepeatAt(bytes, 1) == Ok((s, 3)) && RepeatAt(bytes, 4) == Ok((b, 5));
    assert [] + [s] == [s] && [] + [b] == [b] && [s] + [b] == [s, b];
    assert ConcatAt(bytes, 3, [s]) == Ok((s, 3));
    assert ConcatAt(bytes, 1, []) == Ok((s, 3));
    assert ConcatAt(bytes, 5, [b]) == Ok((b, 5));
    assert ConcatAt(bytes, 4, []) == Ok((b, 5));
    assert AltMore(bytes, 5, [s, b]) == Ok((PLUS_BODY, 5));
  }

  /** Neither pattern is orderly, both can be written, and on each the two matchers disagree. */
  lemma DisorderMatters()
    ensures !Orderly(STAR) && !Orderly(PLUS)
    ensures Parse(Text("(a?(|b))*")) == Ok(STAR) && Parse(Text("(a*|b)+")) == Ok(PLUS)
    ensures WellFormedProgram(Compile(STAR)) && Leftmost(Compile(STAR), [A, B], 0) != LeftmostEnd(STAR, [A, B], 0)
    ensures WellFormedProgram(Compile(PLUS)) && Leftmost(Compile(PLUS), [B], 0) != LeftmostEnd(PLUS, [B], 0)
    ensures NaiveSpans(STAR, [A, B]) != PikeSpans(STAR, [A, B]) && NaiveSpans(PLUS, [B]) != PikeSpans(PLUS, [B])
  {
    StarText();
    PlusText();
    StarBacktracks();
    StarStops();
    PlusBacktracks();
    PlusStops();
    Disorderly();
    hide Leftmost, LeftmostEnd, Compile, WellFormedProgram, NaiveSpans, PikeSpans, Orderly, Parse;
    DifferenceShows(STAR, [A, B]);
    DifferenceShows(PLUS, [B]);
  }

  lemma Disorderly()
    ensures !Orderly(STAR) && !Orderly(PLUS) && WellFormed(STAR) && WellFormed(PLUS)
  {
    var a, b := Class(Only(A)), Class(Only(B));
    var alt := Alt([Empty, b]);
    assert [Quest(a), alt][1..] == [alt] && [alt][1..] == [] && [Empty, b][1..] == [b] && [b][1..] == [];
    assert HasByte(b) && AnyHasByte([b]) && AnyNullable([Empty, b]) && Nullable(alt);
    assert AllNullable([]) && AllNullable([alt]);
    assert Nullable(alt) && !LastBranches([Empty, b]) && !Last(alt) && !AllLast([alt]);
    assert WellFormed(a) && WellFormed(b) && WellFormed(Empty) && AllWellFormed([]);
    assert AllWellFormed([b]);
    assert AllWellFormed([Empty, b]);
    assert WellFormed(alt);
    assert AllWellFormed([alt]);
    assert AllWellFormed([Quest(a), alt]);
    assert [Star(a), b][1..] == [b];
    var branches := [Star(a), b];
    assert Nullable(branches[0]) && branches[1..] == [b] && !LastBranches(branches);
    assert PLUS_BODY == Alt(branches) && AnyNullable(branches);
    assert !Last(Alt(branches));
    assert WellFormed(Star(a));
    assert AllWellFormed([Star(a), b]);
    assert WellFormed(PLUS_BODY) && WellFormed(STAR_BODY);
    assert AllNullable([Quest(a), alt]);
    var parts := [Quest(a), alt];
    assert HasByte(parts[0]) && parts[1..] == [alt];
    assert !FrontParts(parts);
    assert AllNullable(parts);
    assert Nullable(STAR_BODY) && !Front(STAR_BODY);
  }
}

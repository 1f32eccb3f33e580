/** A fully parenthesised text for every pattern, in ASCII where there is one, and that the parser reads it back. */
module Printer {
  import opened Wrappers
  import opened Ast
  import opened Syntax
  import opened Utf8

  // ----- texts -----

  ghost function Print(n: Node): seq<Byte>
    decreases n, 0
  {
    match n
    case Empty => []
    case Class(c) => ClassText(c)
    case StartAnchor => [Ascii('^')]
    case EndAnchor => [Ascii('$')]
    case Concat(parts) => Groups(parts)
    case Alt(branches) => if branches == [] then [] else Group(branches[0]) + Bars(branches[1..])
    case Star(inner) => Group(inner) + [Ascii('*')]
    case Plus(inner) => Group(inner) + [Ascii('+')]
    case Quest(inner) => Group(inner) + [Ascii('?')]
  }

  ghost function Group(n: Node): seq<Byte>
    decreases n, 1
  {
    [Ascii('(')] + Print(n) + [Ascii(')')]
  }

  ghost function Groups(parts: seq<Node>): seq<Byte>
    decreases parts
  {
    if parts == [] then [] else Group(parts[0]) + Groups(parts[1..])
  }

  /** Each branch behind a bar. */
  ghost function Bars(branches: seq<Node>): seq<Byte>
    decreases branches
  {
    if branches == [] then [] else [Ascii('|')] + Group(branches[0]) + Bars(branches[1..])
  }

  predicate IsMeta(b: Byte) {
    || b == Ascii('(') || b == Ascii(')') || b == Ascii('[') || b == Ascii('.') || b == Ascii('$') || b == Ascii('\\')
    || b == Ascii('|') || b == Ascii('*') || b == Ascii('+') || b == Ascii('?')
  }

  /** The class has all the bytes from `limit` on, or none of them. */
  predicate UniformFrom(c: ByteClass, limit: nat) {
    forall b: Byte :: b >= limit ==> c[b] == c[255]
  }

  const ANY_BYTE := Negate(NoByte())

  /**
   A dot, a literal byte, or the members listed one by one between brackets. Where all of
   the upper half are members, and where there is no member, the others are listed behind a `^`.
   */
  ghost function ClassText(c: ByteClass): seq<Byte> {
    if c == AnyButNewline() then [Ascii('.')]
    else if exists b: Byte :: b != Ascii('^') && c == Only(b) then
      var b: Byte :| b != Ascii('^') && c == Only(b);
      if IsMeta(b) then [Ascii('\\'), b] else [b]
    else if ByExclusion(c) then [Ascii('['), Ascii('^')] + Listed(Negate(c)) + [Ascii(']')]
    else [Ascii('[')] + Listed(c) + [Ascii(']')]
  }

  predicate ByExclusion(c: ByteClass) {
    c == NoByte() || (UniformFrom(c, 128) && c[255] && c != ANY_BYTE)
  }

  /** The members between brackets; every byte is a digit or none. */
  function Listed(c: ByteClass): seq<Byte> {
    if c == ANY_BYTE then DIGIT_OR_NOT else Items(c, 0)
  }

  const DIGIT_OR_NOT: seq<Byte> := [Ascii('\\'), Ascii('\\'), Ascii('d'), Ascii('\\'), Ascii('\\'), Ascii('D')]

  /** The members of `c` from `from` on. */
  function Items(c: ByteClass, from: nat): seq<Byte>
    requires from <= 256
    decreases 256 - from
  {
    if from == 256 then []
    else (if c[from] then Item(from) else []) + Items(c, from + 1)
  }

  /** A byte whose escape is a shorthand is a range of one; any other is escaped, behind the byte an escape drops. */
  function Item(b: Byte): seq<Byte> {
    if Escaped(b) == Only(b) then [Ascii('\\'), Ascii('\\'), b] else [b, Ascii('-'), b]
  }

  // ----- reading texts back -----

  lemma StandsOne(bytes: seq<Byte>, pos: nat, b: Byte)
    requires StandsAt(bytes, pos, [b])
    ensures pos < |bytes| && bytes[pos] == b
  {
    assert bytes[pos..pos + 1][0] == bytes[pos];
  }

  lemma StandsTwo(bytes: seq<Byte>, pos: nat, a: Byte, b: Byte)
    requires StandsAt(bytes, pos, [a, b])
    ensures pos + 1 < |bytes| && bytes[pos] == a && bytes[pos + 1] == b
  {
    assert bytes[pos..pos + 2][0] == bytes[pos] && bytes[pos..pos + 2][1] == bytes[pos + 1];
  }

  /** The pattern, or the group it is in, ends at `pos`. */
  predicate Closes(bytes: seq<Byte>, pos: nat) {
    pos == |bytes| || At(bytes, pos, ')')
  }

  lemma GroupStands(bytes: seq<Byte>, pos: nat, n: Node)
    requires StandsAt(bytes, pos, Group(n))
    ensures At(bytes, pos, '(') && StandsAt(bytes, pos + 1, Print(n))
    ensures At(bytes, pos + 1 + |Print(n)|, ')') && |Group(n)| == |Print(n)| + 2
  {
    hide Print, StandsAt;
    StandsBoth(bytes, pos, [Ascii('(')] + Print(n), [Ascii(')')]);
    StandsBoth(bytes, pos, [Ascii('(')], Print(n));
    StandsOne(bytes, pos, Ascii('('));
    StandsOne(bytes, pos + 1 + |Print(n)|, Ascii(')'));
  }

  lemma {:induction false} GroupParses(n: Node, bytes: seq<Byte>, pos: nat)
    requires Proper(n) && StandsAt(bytes, pos, Group(n))
    ensures AtomAt(bytes, pos) == Ok((n, pos + |Group(n)|))
    decreases n, 1
  {
    hide Print, Group, StandsAt, AltAt, ClassAt, EscapeAt, Proper;
    GroupStands(bytes, pos, n);
    PrintParses(n, bytes, pos + 1);
  }

  /** The text of a pattern parses to the pattern wherever it stands as a whole pattern or group. */
  lemma {:induction false} PrintParses(n: Node, bytes: seq<Byte>, pos: nat)
    requires Proper(n) && StandsAt(bytes, pos, Print(n)) && Closes(bytes, pos + |Print(n)|)
    ensures AltAt(bytes, pos) == Ok((n, pos + |Print(n)|))
    decreases n, 0
  {
    hide ClassText, Group, Bars, Groups, StandsAt, AltAt, AltMore, ConcatAt, RepeatAt, AtomAt;
    var end := pos + |Print(n)|;
    match n
    case Empty => EmptyParses(bytes, pos);
    case Class(c) =>
      ClassParses(c, bytes, pos);
      OnePiece(bytes, pos, n, end);
    case StartAnchor | EndAnchor =>
      AnchorParses(n, bytes, pos);
      OnePiece(bytes, pos, n, end);
    case Concat(parts) =>
      GroupsParse(n, parts, bytes, pos, []);
      assert [] + parts == parts;
      OneConcat(bytes, pos, n, end);
    case Alt(branches) =>
      StandsBoth(bytes, pos, Group(branches[0]), Bars(branches[1..]));
      var mid := pos + |Group(branches[0])|;
      GroupStands(bytes, pos, branches[0]);
      BarsStart(branches[1..], bytes, mid);
      GroupParses(branches[0], bytes, pos);
      OneBranch(bytes, pos, branches[0], mid);
      BarsParse(n, branches[1..], bytes, mid, [branches[0]]);
      assert [branches[0]] + branches[1..] == branches;
      FirstBranch(bytes, pos, branches[0], mid);
    case Star(inner) =>
      QuantifiedStands(bytes, pos, inner, '*');
      GroupParses(inner, bytes, pos);
      QuantifierParses(bytes, pos, inner, n);
      OnePiece(bytes, pos, n, end);
    case Plus(inner) =>
      QuantifiedStands(bytes, pos, inner, '+');
      GroupParses(inner, bytes, pos);
      QuantifierParses(bytes, pos, inner, n);
      OnePiece(bytes, pos, n, end);
    case Quest(inner) =>
      QuantifiedStands(bytes, pos, inner, '?');
      GroupParses(inner, bytes, pos);
      QuantifierParses(bytes, pos, inner, n);
      OnePiece(bytes, pos, n, end);
  }

  lemma EmptyParses(bytes: seq<Byte>, pos: nat)
    requires pos <= |bytes| && Closes(bytes, pos)
    ensures AltAt(bytes, pos) == Ok((Empty, pos))
  {
  }

  lemma AnchorParses(n: Node, bytes: seq<Byte>, pos: nat)
    requires (n.StartAnchor? || n.EndAnchor?) && StandsAt(bytes, pos, Print(n)) && Closes(bytes, pos + 1)
    ensures RepeatAt(bytes, pos) == Ok((n, pos + 1)) && !At(bytes, pos, '|') && !At(bytes, pos, ')')
  {
    StandsOne(bytes, pos, Ascii(if n.StartAnchor? then '^' else '$'));
  }

  lemma OneConcat(bytes: seq<Byte>, pos: nat, n: Node, end: nat)
    requires pos <= |bytes| && ConcatAt(bytes, pos, []) == Ok((n, end)) && Closes(bytes, end)
    ensures AltAt(bytes, pos) == Ok((n, end))
  {
    hide ConcatAt;
  }

  lemma FirstBranch(bytes: seq<Byte>, pos: nat, n: Node, end: nat)
    requires pos <= |bytes| && ConcatAt(bytes, pos, []) == Ok((n, end))
    ensures end <= |bytes| && Proper(n) && AltAt(bytes, pos) == AltMore(bytes, end, [n])
  {
    hide ConcatAt, AltMore;
    assert Sound(bytes, pos, 0, ConcatAt(bytes, pos, []));
  }

  /** A quantifier applies to the atom before it. */
  lemma QuantifierParses(bytes: seq<Byte>, pos: nat, inner: Node, n: Node)
    requires pos <= |bytes| && AtomAt(bytes, pos).Ok? && AtomAt(bytes, pos).value.0 == inner && At(bytes, pos, '(')
    requires var next := AtomAt(bytes, pos).value.1;
             || (n == Star(inner) && At(bytes, next, '*'))
             || (n == Plus(inner) && At(bytes, next, '+'))
             || (n == Quest(inner) && At(bytes, next, '?'))
    ensures RepeatAt(bytes, pos) == Ok((n, AtomAt(bytes, pos).value.1 + 1)) && !At(bytes, pos, '|') && !At(bytes, pos, ')')
  {
    hide AtomAt;
  }

  lemma QuantifiedStands(bytes: seq<Byte>, pos: nat, inner: Node, c: char)
    requires c < '\U{0100}' && StandsAt(bytes, pos, Group(inner) + [Ascii(c)])
    ensures StandsAt(bytes, pos, Group(inner)) && At(bytes, pos + |Group(inner)|, c) && At(bytes, pos, '(')
  {
    hide Group;
    StandsBoth(bytes, pos, Group(inner), [Ascii(c)]);
    StandsOne(bytes, pos + |Group(inner)|, Ascii(c));
    GroupStands(bytes, pos, inner);
  }

  /** A single piece up to the end of its group is the whole pattern. */
  lemma OnePiece(bytes: seq<Byte>, pos: nat, n: Node, end: nat)
    requires pos < end <= |bytes| && Closes(bytes, end) && RepeatAt(bytes, pos) == Ok((n, end)) && Proper(n)
    requires !At(bytes, pos, '|') && !At(bytes, pos, ')')
    ensures AltAt(bytes, pos) == Ok((n, end))
  {
    assert [] + [n] == [n];
    assert ConcatAt(bytes, end, [n]) == Ok((n, end));
  }

  /** A single group up to a bar is a branch. */
  lemma OneBranch(bytes: seq<Byte>, pos: nat, n: Node, end: nat)
    requires pos < end <= |bytes| && (Closes(bytes, end) || At(bytes, end, '|'))
    requires AtomAt(bytes, pos) == Ok((n, end)) && Proper(n) && At(bytes, pos, '(')
    ensures ConcatAt(bytes, pos, []) == Ok((n, end))
  {
    assert [] + [n] == [n];
    assert RepeatAt(bytes, pos) == Ok((n, end));
    assert ConcatAt(bytes, end, [n]) == Ok((n, end));
  }

  lemma GroupsStart(parts: seq<Node>, bytes: seq<Byte>, pos: nat)
    requires StandsAt(bytes, pos, Groups(parts)) && Closes(bytes, pos + |Groups(parts)|)
    ensures Closes(bytes, pos) || At(bytes, pos, '(')
  {
    if parts != [] {
      StandsBoth(bytes, pos, Group(parts[0]), Groups(parts[1..]));
      GroupStands(bytes, pos, parts[0]);
    }
  }

  lemma {:induction false} GroupsParse(n: Node, parts: seq<Node>, bytes: seq<Byte>, pos: nat, done: seq<Node>)
    requires forall k :: 0 <= k < |parts| ==> parts[k] < n && Proper(parts[k])
    requires forall k :: 0 <= k < |done| ==> Proper(done[k])
    requires StandsAt(bytes, pos, Groups(parts)) && Closes(bytes, pos + |Groups(parts)|) && |done + parts| >= 2
    ensures ConcatAt(bytes, pos, done) == Ok((Concat(done + parts), pos + |Groups(parts)|))
    decreases n, 0, |parts|
  {
    hide Group, Groups, StandsAt, AtomAt, AltAt, ClassAt, EscapeAt;
    GroupsNone();
    if parts == [] {
      assert done + parts == done;
    } else {
      var mid := pos + |Group(parts[0])|;
      GroupsSplit(parts, bytes, pos);
      GroupStands(bytes, pos, parts[0]);
      GroupsStart(parts[1..], bytes, mid);
      GroupParses(parts[0], bytes, pos);
      GroupsParse(n, parts[1..], bytes, mid, done + [parts[0]]);
      assert done + [parts[0]] + parts[1..] == done + parts;
    }
  }

  lemma GroupsSplit(parts: seq<Node>, bytes: seq<Byte>, pos: nat)
    requires parts != [] && StandsAt(bytes, pos, Groups(parts))
    ensures StandsAt(bytes, pos, Group(parts[0])) && StandsAt(bytes, pos + |Group(parts[0])|, Groups(parts[1..]))
    ensures |Groups(parts)| == |Group(parts[0])| + |Groups(parts[1..])|
  {
    hide Group;
    StandsBoth(bytes, pos, Group(parts[0]), Groups(parts[1..]));
  }

  lemma GroupsNone()
    ensures Groups([]) == []
  {
  }

  lemma BarsStart(branches: seq<Node>, bytes: seq<Byte>, pos: nat)
    requires StandsAt(bytes, pos, Bars(branches)) && Closes(bytes, pos + |Bars(branches)|)
    ensures branches != [] ==> At(bytes, pos, '|')
    ensures branches == [] ==> Closes(bytes, pos)
  {
    if branches != [] {
      assert Bars(branches) == [Ascii('|')] + (Group(branches[0]) + Bars(branches[1..]));
      StandsBoth(bytes, pos, [Ascii('|')], Group(branches[0]) + Bars(branches[1..]));
      assert bytes[pos..pos + 1][0] == Ascii('|');
    }
  }

  lemma {:induction false} BarsParse(n: Node, branches: seq<Node>, bytes: seq<Byte>, pos: nat, done: seq<Node>)
    requires forall k :: 0 <= k < |branches| ==> branches[k] < n && Proper(branches[k])
    requires done != [] && forall k :: 0 <= k < |done| ==> Proper(done[k])
    requires StandsAt(bytes, pos, Bars(branches)) && Closes(bytes, pos + |Bars(branches)|) && |done + branches| >= 2
    ensures AltMore(bytes, pos, done) == Ok((Alt(done + branches), pos + |Bars(branches)|))
    decreases n, 0, |branches|
  {
    hide Group, Bars, StandsAt, ConcatAt, AtomAt, RepeatAt, ClassAt, EscapeAt;
    BarsStart(branches, bytes, pos);
    if branches == [] {
      BarsNone();
      assert done + branches == done;
    } else {
      BarsSplit(branches, bytes, pos);
      var mid := pos + 1 + |Group(branches[0])|;
      BarsStart(branches[1..], bytes, mid);
      GroupStands(bytes, pos + 1, branches[0]);
      GroupParses(branches[0], bytes, pos + 1);
      OneBranch(bytes, pos + 1, branches[0], mid);
      BarsParse(n, branches[1..], bytes, mid, done + [branches[0]]);
      assert done + [branches[0]] + branches[1..] == done + branches;
    }
  }

  lemma BarsSplit(branches: seq<Node>, bytes: seq<Byte>, pos: nat)
    requires branches != [] && StandsAt(bytes, pos, Bars(branches))
    ensures StandsAt(bytes, pos + 1, Group(branches[0]))
    ensures StandsAt(bytes, pos + 1 + |Group(branches[0])|, Bars(branches[1..]))
    ensures |Bars(branches)| == 1 + |Group(branches[0])| + |Bars(branches[1..])|
  {
    hide Print, ClassText;
    var head, rest := Group(branches[0]), Bars(branches[1..]);
    assert Bars(branches) == [Ascii('|')] + (head + rest);
    hide Group, Bars;
    StandsBoth(bytes, pos, [Ascii('|')], head + rest);
    StandsBoth(bytes, pos + 1, head, rest);
  }

  lemma BarsNone()
    ensures Bars([]) == []
  {
  }

  // ----- classes -----

  ghost function Members(c: ByteClass, from: nat): ByteClass {
    seq(256, b requires 0 <= b < 256 => from <= b && c[b])
  }

  /** One item adds its byte. */
  lemma ItemParses(bytes: seq<Byte>, pos: nat, class': ByteClass, first: bool, b: Byte)
    requires StandsAt(bytes, pos, Item(b))
    ensures |Item(b)| == 3 && !At(bytes, pos, '^')
    ensures ClassItems(bytes, pos, class', first) == ClassItems(bytes, pos + 3, Union(class', Only(b)), false)
  {
    assert bytes[pos..pos + 3] == Item(b);
    assert bytes[pos] == Item(b)[0] && bytes[pos + 1] == Item(b)[1] && bytes[pos + 2] == b;
    if Escaped(b) == Only(b) {
      assert EscapeAt(bytes, pos + 1, true) == Ok((Only(b), pos + 3));
    } else {
      assert Range(b, b) == Only(b);
    }
  }

  lemma {:induction false} ItemsParse(c: ByteClass, from: nat, bytes: seq<Byte>, pos: nat, class': ByteClass, first: bool)
    requires from <= 256 && StandsAt(bytes, pos, Items(c, from) + [Ascii(']')])
    requires first ==> exists b: Byte :: from <= b && c[b]
    ensures ClassItems(bytes, pos, class', first) == Ok((Union(class', Members(c, from)), pos + |Items(c, from)| + 1))
    ensures first ==> !At(bytes, pos, '^')
    decreases 256 - from
  {
    hide Item, Escaped, ClassItems, StandsAt, EscapeAt, Members;
    var text := Items(c, from) + [Ascii(']')];
    if from == 256 {
      assert text == [Ascii(']')];
      CloseParses(c, bytes, pos, class');
    } else if c[from] {
      assert text == Item(from) + (Items(c, from + 1) + [Ascii(']')]);
      StandsBoth(bytes, pos, Item(from), Items(c, from + 1) + [Ascii(']')]);
      ItemParses(bytes, pos, class', first, from);
      ItemsParse(c, from + 1, bytes, pos + 3, Union(class', Only(from)), false);
      MembersNext(c, from, class');
    } else {
      assert Items(c, from) == Items(c, from + 1);
      ItemsParse(c, from + 1, bytes, pos, class', first);
      MembersNext(c, from, class');
    }
  }

  lemma CloseParses(c: ByteClass, bytes: seq<Byte>, pos: nat, class': ByteClass)
    requires StandsAt(bytes, pos, [Ascii(']')])
    ensures ClassItems(bytes, pos, class', false) == Ok((Union(class', Members(c, 256)), pos + 1))
  {
    StandsOne(bytes, pos, Ascii(']'));
    assert Union(class', Members(c, 256)) == class';
  }

  lemma MembersNext(c: ByteClass, from: nat, class': ByteClass)
    requires from < 256
    ensures c[from] ==> Union(Union(class', Only(from)), Members(c, from + 1)) == Union(class', Members(c, from))
    ensures !c[from] ==> Members(c, from) == Members(c, from + 1)
  {
  }

  lemma NotEmptyClass(c: ByteClass)
    requires c != NoByte()
    ensures exists b: Byte :: c[b]
  {
    var b :| 0 <= b < 256 && c[b] != NoByte()[b];
    assert c[b];
  }

  /** The list of members is read back as the class, up to its closing bracket. */
  lemma ListedParses(c: ByteClass, bytes: seq<Byte>, pos: nat)
    requires c != NoByte() && StandsAt(bytes, pos, Listed(c) + [Ascii(']')])
    ensures ClassItems(bytes, pos, NoByte(), true) == Ok((c, pos + |Listed(c)| + 1)) && !At(bytes, pos, '^')
  {
    hide Items, StandsAt;
    if c == ANY_BYTE {
      AnyByteParses(bytes, pos);
    } else {
      NotEmptyClass(c);
      hide EscapeAt, Escaped, ClassItems;
      ItemsParse(c, 0, bytes, pos, NoByte(), true);
      assert Union(NoByte(), Members(c, 0)) == c;
    }
  }

  lemma AnyByteParses(bytes: seq<Byte>, pos: nat)
    requires StandsAt(bytes, pos, DIGIT_OR_NOT + [Ascii(']')])
    ensures ClassItems(bytes, pos, NoByte(), true) == Ok((ANY_BYTE, pos + 7)) && !At(bytes, pos, '^')
  {
    var text := bytes[pos..pos + 7];
    assert text == DIGIT_OR_NOT + [Ascii(']')];
    assert forall k :: 0 <= k < 7 ==> bytes[pos + k] == text[k];
    var digit, all := Union(NoByte(), Digit()), Union(Union(NoByte(), Digit()), Negate(Digit()));
    assert all == ANY_BYTE;
    assert EscapeAt(bytes, pos + 1, true) == Ok((Digit(), pos + 3));
    assert EscapeAt(bytes, pos + 4, true) == Ok((Negate(Digit()), pos + 6));
    assert ClassItems(bytes, pos, NoByte(), true) == ClassItems(bytes, pos + 3, digit, false);
    assert ClassItems(bytes, pos + 3, digit, false) == ClassItems(bytes, pos + 6, all, false);
  }

  /** The listed members, between brackets, are the class. */
  lemma BracketParses(c: ByteClass, bytes: seq<Byte>, pos: nat)
    requires c != NoByte()
    requires StandsAt(bytes, pos, [Ascii('[')] + Listed(c) + [Ascii(']')])
    ensures AtomAt(bytes, pos) == Ok((Class(c), pos + |Listed(c)| + 2))
  {
    hide Listed;
    var rest := Listed(c) + [Ascii(']')];
    assert [Ascii('[')] + Listed(c) + [Ascii(']')] == [Ascii('[')] + rest;
    StandsBoth(bytes, pos, [Ascii('[')], rest);
    StandsOne(bytes, pos, Ascii('['));
    hide StandsAt, AltAt, EscapeAt, Escaped, ClassItems;
    ListedParses(c, bytes, pos + 1);
  }

  /** The listed bytes, behind a `^`, are what the class leaves out. */
  lemma ExclusionParses(c: ByteClass, bytes: seq<Byte>, pos: nat)
    requires c != ANY_BYTE
    requires StandsAt(bytes, pos, [Ascii('['), Ascii('^')] + Listed(Negate(c)) + [Ascii(']')])
    ensures AtomAt(bytes, pos) == Ok((Class(c), pos + |Listed(Negate(c))| + 3))
  {
    hide Listed;
    var open, rest := [Ascii('['), Ascii('^')], Listed(Negate(c)) + [Ascii(']')];
    assert open + Listed(Negate(c)) + [Ascii(']')] == open + rest;
    StandsBoth(bytes, pos, open, rest);
    StandsTwo(bytes, pos, Ascii('['), Ascii('^'));
    hide StandsAt, AltAt, EscapeAt, Escaped, ClassItems;
    NegateTwice(c);
    ListedParses(Negate(c), bytes, pos + 2);
  }

  lemma NegateTwice(c: ByteClass)
    ensures Negate(Negate(c)) == c && (c != ANY_BYTE ==> Negate(c) != NoByte())
  {
    assert Negate(Negate(c)) == c;
  }

  lemma LiteralParses(b: Byte, bytes: seq<Byte>, pos: nat)
    requires b != Ascii('^') && StandsAt(bytes, pos, if IsMeta(b) then [Ascii('\\'), b] else [b])
    ensures AtomAt(bytes, pos) == Ok((Class(Only(b)), pos + if IsMeta(b) then 2 else 1))
  {
    if IsMeta(b) {
      StandsTwo(bytes, pos, Ascii('\\'), b);
    } else {
      StandsOne(bytes, pos, b);
    }
  }

  lemma ClassParses(c: ByteClass, bytes: seq<Byte>, pos: nat)
    requires StandsAt(bytes, pos, ClassText(c)) && Closes(bytes, pos + |ClassText(c)|)
    ensures ClassText(c) != [] && RepeatAt(bytes, pos) == Ok((Class(c), pos + |ClassText(c)|))
    ensures !At(bytes, pos, '|') && !At(bytes, pos, ')')
  {
    hide Listed, ClassItems, AtomAt, StandsAt;
    ClassAtom(c, bytes, pos);
  }

  lemma ClassAtom(c: ByteClass, bytes: seq<Byte>, pos: nat)
    requires StandsAt(bytes, pos, ClassText(c))
    ensures ClassText(c) != [] && AtomAt(bytes, pos) == Ok((Class(c), pos + |ClassText(c)|))
    ensures !At(bytes, pos, '|') && !At(bytes, pos, ')')
  {
    hide Listed, ClassItems, AltAt, StandsAt, ClassAt, EscapeAt;
    if c == AnyButNewline() {
      StandsOne(bytes, pos, Ascii('.'));
    } else if exists b: Byte :: b != Ascii('^') && c == Only(b) {
      var b: Byte :| b != Ascii('^') && c == Only(b) && ClassText(c) == if IsMeta(b) then [Ascii('\\'), b] else [b];
      LiteralParses(b, bytes, pos);
    } else if ByExclusion(c) {
      ExclusionParses(c, bytes, pos);
    } else {
      BracketParses(c, bytes, pos);
    }
  }

  // ----- ASCII texts -----

  /** Every byte class of the pattern is uniform from `limit` on. */
  predicate Uniform(n: Node, limit: nat)
    decreases n
  {
    match n
    case Empty | StartAnchor | EndAnchor => true
    case Class(c) => UniformFrom(c, limit)
    case Concat(parts) => forall k :: 0 <= k < |parts| ==> Uniform(parts[k], limit)
    case Alt(branches) => forall k :: 0 <= k < |branches| ==> Uniform(branches[k], limit)
    case Star(inner) => Uniform(inner, limit)
    case Plus(inner) => Uniform(inner, limit)
    case Quest(inner) => Uniform(inner, limit)
  }

  lemma {:induction false} PrintAscii(n: Node)
    requires Uniform(n, 128)
    ensures IsAscii(Print(n))
    decreases n
  {
    match n
    case Empty | StartAnchor | EndAnchor =>
    case Class(c) => ClassAscii(c);
    case Concat(parts) => GroupsAscii(n, parts);
    case Alt(branches) =>
      if branches != [] {
        PrintAscii(branches[0]);
        BarsAscii(n, branches[1..]);
      }
    case Star(inner) => PrintAscii(inner);
    case Plus(inner) => PrintAscii(inner);
    case Quest(inner) => PrintAscii(inner);
  }

  lemma {:induction false} GroupsAscii(n: Node, parts: seq<Node>)
    requires forall k :: 0 <= k < |parts| ==> parts[k] < n && Uniform(parts[k], 128)
    ensures IsAscii(Groups(parts))
    decreases n, |parts|
  {
    hide Print;
    if parts != [] {
      PrintAscii(parts[0]);
      GroupsAscii(n, parts[1..]);
    }
  }

  lemma {:induction false} BarsAscii(n: Node, branches: seq<Node>)
    requires forall k :: 0 <= k < |branches| ==> branches[k] < n && Uniform(branches[k], 128)
    ensures IsAscii(Bars(branches))
    decreases n, |branches|
  {
    hide Print;
    if branches != [] {
      PrintAscii(branches[0]);
      BarsAscii(n, branches[1..]);
    }
  }

  lemma {:induction false} ItemsAscii(c: ByteClass, from: nat)
    requires from <= 256 && forall b: Byte :: c[b] ==> b < 128
    ensures IsAscii(Items(c, from))
    decreases 256 - from
  {
    if from < 256 {
      ItemsAscii(c, from + 1);
    }
  }

  lemma ClassAscii(c: ByteClass)
    requires UniformFrom(c, 128)
    ensures IsAscii(ClassText(c))
  {
    hide Items;
    if c == AnyButNewline() {
    } else if exists b: Byte :: b != Ascii('^') && c == Only(b) {
      forall b: Byte | c == Only(b) ensures b < 128 {
        assert c[b] && !c[if b == 255 then 254 else 255];
      }
    } else if ByExclusion(c) {
      ListedAscii(Negate(c));
    } else {
      ListedAscii(c);
    }
  }

  lemma ListedAscii(c: ByteClass)
    requires UniformFrom(c, 128) && (c[255] ==> c == ANY_BYTE)
    ensures IsAscii(Listed(c))
  {
    hide Items;
    if c != ANY_BYTE {
      ItemsAscii(c, 0);
    }
  }

  // ----- what such texts mean -----

  ghost predicate BytesBelow(bytes: seq<Byte>, limit: nat) {
    128 <= limit && forall k :: 0 <= k < |bytes| ==> bytes[k] < limit
  }

  ghost predicate UniformParse(r: Parsed, limit: nat) {
    r.Ok? ==> Uniform(r.value.0, limit)
  }

  lemma {:induction false} AltUniform(bytes: seq<Byte>, pos: nat, limit: nat)
    requires pos <= |bytes| && BytesBelow(bytes, limit)
    ensures UniformParse(AltAt(bytes, pos), limit)
    decreases |bytes| - pos, 4
  {
    hide ConcatAt, AltMore;
    ConcatUniform(bytes, pos, [], limit);
    var first := ConcatAt(bytes, pos, []);
    if first.Ok? {
      MoreUniform(bytes, first.value.1, [first.value.0], limit);
    }
  }

  lemma {:induction false} MoreUniform(bytes: seq<Byte>, pos: nat, branches: seq<Node>, limit: nat)
    requires pos <= |bytes| && branches != [] && BytesBelow(bytes, limit)
    requires forall k :: 0 <= k < |branches| ==> Proper(branches[k]) && Uniform(branches[k], limit)
    ensures UniformParse(AltMore(bytes, pos, branches), limit)
    decreases |bytes| - pos, 3
  {
    hide ConcatAt;
    if At(bytes, pos, '|') {
      ConcatUniform(bytes, pos + 1, [], limit);
      var next := ConcatAt(bytes, pos + 1, []);
      if next.Ok? {
        MoreUniform(bytes, next.value.1, branches + [next.value.0], limit);
      }
    }
  }

  lemma {:induction false} ConcatUniform(bytes: seq<Byte>, pos: nat, parts: seq<Node>, limit: nat)
    requires pos <= |bytes| && BytesBelow(bytes, limit)
    requires forall k :: 0 <= k < |parts| ==> Proper(parts[k]) && Uniform(parts[k], limit)
    ensures UniformParse(ConcatAt(bytes, pos, parts), limit)
    decreases |bytes| - pos, 2
  {
    hide RepeatAt;
    if !(pos == |bytes| || At(bytes, pos, '|') || At(bytes, pos, ')')) {
      RepeatUniform(bytes, pos, limit);
      var piece := RepeatAt(bytes, pos);
      if piece.Ok? {
        ConcatUniform(bytes, piece.value.1, parts + [piece.value.0], limit);
      }
    }
  }

  lemma {:induction false} RepeatUniform(bytes: seq<Byte>, pos: nat, limit: nat)
    requires pos <= |bytes| && BytesBelow(bytes, limit)
    ensures UniformParse(RepeatAt(bytes, pos), limit)
    decreases |bytes| - pos, 1
  {
    hide AtomAt;
    AtomUniform(bytes, pos, limit);
  }

  lemma {:induction false} AtomUniform(bytes: seq<Byte>, pos: nat, limit: nat)
    requires pos <= |bytes| && BytesBelow(bytes, limit)
    ensures UniformParse(AtomAt(bytes, pos), limit)
    decreases |bytes| - pos, 0
  {
    hide AltAt, ClassItems;
    if pos < |bytes| {
      if bytes[pos] == Ascii('(') {
        AltUniform(bytes, pos + 1, limit);
      } else if bytes[pos] == Ascii('[') {
        var negate := At(bytes, pos + 1, '^');
        var from := if negate then pos + 2 else pos + 1;
        ItemsUniform(bytes, from, NoByte(), true, limit);
        var r := ClassItems(bytes, from, NoByte(), true);
        if r.Ok? {
          NegateUniform(r.value.0, limit);
        }
      } else if bytes[pos] == Ascii('\\') {
        if EscapeAt(bytes, pos, false).Ok? {
          EscapedUniform(bytes[pos + 1], limit);
        }
      }
    }
  }

  lemma {:induction false} ItemsUniform(bytes: seq<Byte>, pos: nat, class': ByteClass, first: bool, limit: nat)
    requires pos <= |bytes| && BytesBelow(bytes, limit) && UniformFrom(class', limit)
    ensures var r := ClassItems(bytes, pos, class', first);
            r.Ok? ==> UniformFrom(r.value.0, limit)
    decreases |bytes| - pos
  {
    hide Escaped;
    if pos < |bytes| {
      var b := bytes[pos];
      if b == Ascii(']') && !first {
      } else if b == Ascii('\\') {
        var r := EscapeAt(bytes, pos + 1, true);
        if r.Ok? {
          EscapedUniform(bytes[pos + 2], limit);
          ItemsUniform(bytes, r.value.1, Union(class', r.value.0), false, limit);
        }
      } else if At(bytes, pos + 1, '-') && !At(bytes, pos + 2, ']') && pos + 2 < |bytes| {
        if b <= bytes[pos + 2] {
          ItemsUniform(bytes, pos + 3, Union(class', Range(b, bytes[pos + 2])), false, limit);
        }
      } else {
        ItemsUniform(bytes, pos + 1, Union(class', Only(b)), false, limit);
      }
    }
  }

  /** No escape but a negated one has members in the upper half, except the byte itself. */
  lemma EscapedMember(b: Byte, x: Byte)
    requires x >= 128 && x != b
    ensures Escaped(b)[x] <==> b == Ascii('D') || b == Ascii('W') || b == Ascii('S')
  {
    assert Ascii('_') == 95 && Ascii(' ') == 32;
    assert !Digit()[x];
    assert !Word()[x];
    assert !Space()[x];
    assert forall c: Byte :: x != c ==> !Only(c)[x];
  }

  lemma EscapedUniform(b: Byte, limit: nat)
    requires 128 <= limit && b < limit
    ensures UniformFrom(Escaped(b), limit)
  {
    hide Escaped;
    forall x: Byte | x >= limit ensures Escaped(b)[x] == Escaped(b)[255] {
      EscapedMember(b, x);
      EscapedMember(b, 255);
    }
  }

  lemma NegateUniform(c: ByteClass, limit: nat)
    requires UniformFrom(c, limit)
    ensures UniformFrom(Negate(c), limit)
  {
    forall x: Byte | x >= limit ensures Negate(c)[x] == Negate(c)[255] {
      assert c[x] == c[255];
    }
  }

  // ----- the parser reads every pattern it can make -----

  /** The parser inverts the printer, which needs only ASCII where no class takes the upper half of the bytes apart. */
  lemma RoundTrip(n: Node)
    requires Proper(n)
    ensures Parse(Print(n)) == Ok(n)
    ensures Uniform(n, 128) ==> IsAscii(Print(n)) && IsUtf8(Print(n))
  {
    assert Print(n)[0..0 + |Print(n)|] == Print(n);
    PrintParses(n, Print(n), 0);
    if Uniform(n, 128) {
      PrintAscii(n);
      AsciiIsUtf8(Print(n));
    }
  }

  /**
   ASCII texts make exactly the trees whose alternations and concatenations have at least
   two parts and whose classes do not take the upper half of the bytes apart.
   */
  lemma ParserMakes(n: Node)
    ensures Proper(n) && Uniform(n, 128) <==> exists bytes :: IsAscii(bytes) && Parse(bytes) == Ok(n)
  {
    if Proper(n) && Uniform(n, 128) {
      RoundTrip(n);
    }
    forall bytes | IsAscii(bytes) && Parse(bytes) == Ok(n) ensures Uniform(n, 128) {
      AltUniform(bytes, 0, 128);
    }
  }

  /** Whatever text is encoded, no class of its pattern takes the bytes apart that no encoded text holds. */
  lemma TextMakes(bytes: seq<Byte>)
    requires IsUtf8(bytes) && Parse(bytes).Ok?
    ensures Proper(Parse(bytes).value) && Uniform(Parse(bytes).value, 0xF5)
  {
    forall k | 0 <= k < |bytes| ensures bytes[k] < 0xF5 {
      Utf8Bytes(bytes, k);
    }
    AltUniform(bytes, 0, 0xF5);
  }

  // ----- an escape between brackets -----

  /**
   Between brackets one backslash and a `d` are not the digits: the `d` is dropped, the
   bracket behind it is taken for a member, and the class has no end. It takes two backslashes.
   */
  lemma EscapeInBrackets()
    ensures Parse(Text("[\\d]")) == Err(UnterminatedClass)
    ensures Parse(Text("[\\\\d]")) == Ok(Class(Digit()))
  {
    var one, two := Text("[\\d]"), Text("[\\\\d]");
    assert one == [Ascii('['), Ascii('\\'), Ascii('d'), Ascii(']')];
    assert two == [Ascii('['), Ascii('\\'), Ascii('\\'), Ascii('d'), Ascii(']')];
    OneBackslash(one);
    TwoBackslashes(two);
  }

  lemma OneBackslash(bytes: seq<Byte>)
    requires bytes == [Ascii('['), Ascii('\\'), Ascii('d'), Ascii(']')]
    ensures Parse(bytes) == Err(UnterminatedClass)
  {
    assert EscapeAt(bytes, 2, true) == Ok((Only(Ascii(']')), 4));
    assert ClassItems(bytes, 1, NoByte(), true) == Err(UnterminatedClass);
    hide ClassItems, EscapeAt;
    assert RepeatAt(bytes, 0) == Err(UnterminatedClass);
    assert ConcatAt(bytes, 0, []) == Err(UnterminatedClass);
  }

  lemma TwoBackslashes(bytes: seq<Byte>)
    requires bytes == [Ascii('['), Ascii('\\'), Ascii('\\'), Ascii('d'), Ascii(']')]
    ensures Parse(bytes) == Ok(Class(Digit()))
  {
    assert EscapeAt(bytes, 2, true) == Ok((Digit(), 4));
    assert Union(NoByte(), Digit()) == Digit();
    assert ClassItems(bytes, 4, Digit(), false) == Ok((Digit(), 5));
    assert ClassItems(bytes, 1, NoByte(), true) == Ok((Digit(), 5));
    hide ClassItems, EscapeAt;
    var n := Class(Digit());
    assert RepeatAt(bytes, 0) == Ok((n, 5));
    assert [] + [n] == [n];
    assert ConcatAt(bytes, 5, [n]) == Ok((n, 5));
    assert ConcatAt(bytes, 0, []) == Ok((n, 5));
    assert AltMore(bytes, 5, [n]) == Ok((n, 5));
  }
}

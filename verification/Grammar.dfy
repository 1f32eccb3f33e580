/** Which texts are a pattern, and the bytes each class text stands for. */
module Grammar {
  import opened Wrappers
  import opened Ast
  import opened Syntax

  // ----- classes -----

  /** The escape with this byte stands for `x`. */
  predicate Means(e: Byte, x: Byte) {
    if e == 100 then 48 <= x <= 57 // d
    else if e == 68 then !(48 <= x <= 57) // D
    else if e == 119 then 48 <= x <= 57 || 65 <= x <= 90 || 97 <= x <= 122 || x == 95 // w
    else if e == 87 then !(48 <= x <= 57 || 65 <= x <= 90 || 97 <= x <= 122 || x == 95) // W
    else if e == 115 then 9 <= x <= 13 || x == 32 // s
    else if e == 83 then !(9 <= x <= 13 || x == 32) // S
    else if e == 110 then x == 10 // n
    else if e == 116 then x == 9 // t
    else if e == 114 then x == 13 // r
    else x == e
  }

  /** The text begins with a range. */
  predicate BeginsRange(t: seq<Byte>) {
    |t| >= 3 && t[1] == Ascii('-') && t[2] != Ascii(']')
  }

  /**
   What may stand between brackets: an escape with the byte it drops, a range in its order, or
   a single byte; a closing bracket only as the first.
   */
  predicate AreItems(t: seq<Byte>, first: bool)
    decreases |t|
  {
    if t == [] then !first
    else if t[0] == Ascii('\\') then |t| >= 3 && AreItems(t[3..], false)
    else
      && (t[0] != Ascii(']') || first)
      && if BeginsRange(t) then t[0] <= t[2] && AreItems(t[3..], false) else AreItems(t[1..], false)
  }

  /** One of the items stands for `x`. */
  predicate Lists(t: seq<Byte>, x: Byte)
    decreases |t|
  {
    if t == [] then false
    else if t[0] == Ascii('\\') then |t| >= 3 && (Means(t[2], x) || Lists(t[3..], x))
    else if BeginsRange(t) then t[0] <= x <= t[2] || Lists(t[3..], x)
    else x == t[0] || Lists(t[1..], x)
  }

  /** The class that a text between brackets stands for; a caret in front turns it around. */
  predicate IsBracketed(t: seq<Byte>, c: ByteClass) {
    if t != [] && t[0] == Ascii('^') then AreItems(t[1..], true) && forall x: Byte :: c[x] <==> !Lists(t[1..], x)
    else AreItems(t, true) && forall x: Byte :: c[x] <==> Lists(t, x)
  }

  /** The byte stands for itself. */
  predicate IsLiteral(b: Byte) {
    b !in [Ascii('('), Ascii(')'), Ascii('['), Ascii('.'), Ascii('^'), Ascii('$'), Ascii('\\'),
           Ascii('|'), Ascii('*'), Ascii('+'), Ascii('?')]
  }

  predicate IsClass(bytes: seq<Byte>, lo: nat, hi: nat, c: ByteClass)
    requires lo <= hi <= |bytes|
  {
    || (hi == lo + 1 && bytes[lo] == Ascii('.') && forall x: Byte :: c[x] <==> x != 10)
    || (hi == lo + 1 && IsLiteral(bytes[lo]) && forall x: Byte :: c[x] <==> x == bytes[lo])
    || (hi == lo + 2 && bytes[lo] == Ascii('\\') && bytes[lo + 1] != Ascii('^') && forall x: Byte :: c[x] <==> Means(bytes[lo + 1], x))
    || (lo + 2 <= hi && bytes[lo] == Ascii('[') && bytes[hi - 1] == Ascii(']') && IsBracketed(bytes[lo + 1..hi - 1], c))
  }

  // ----- patterns -----

  function OneOrAlt(ns: seq<Node>): Node {
    if |ns| == 1 then ns[0] else Alt(ns)
  }

  function Sequence(ns: seq<Node>): Node {
    if ns == [] then Empty else if |ns| == 1 then ns[0] else Concat(ns)
  }

  /** Branches with a bar between each and the next. */
  ghost predicate IsAlt(bytes: seq<Byte>, lo: nat, hi: nat, n: Node)
    requires lo <= hi <= |bytes|
    decreases hi - lo, 5
  {
    exists ns :: AreBranches(bytes, lo, hi, ns) && n == OneOrAlt(ns)
  }

  ghost predicate AreBranches(bytes: seq<Byte>, lo: nat, hi: nat, ns: seq<Node>)
    requires lo <= hi <= |bytes|
    decreases hi - lo, 4
  {
    && ns != []
    && if |ns| == 1 then IsRun(bytes, lo, hi, ns[0])
       else exists m: nat :: lo <= m < hi && bytes[m] == Ascii('|') && IsRun(bytes, lo, m, ns[0]) && AreBranches(bytes, m + 1, hi, ns[1..])
  }

  /** Pieces one behind the other. */
  ghost predicate IsRun(bytes: seq<Byte>, lo: nat, hi: nat, n: Node)
    requires lo <= hi <= |bytes|
    decreases hi - lo, 3
  {
    exists ns :: ArePieces(bytes, lo, hi, ns) && n == Sequence(ns)
  }

  ghost predicate ArePieces(bytes: seq<Byte>, lo: nat, hi: nat, ns: seq<Node>)
    requires lo <= hi <= |bytes|
    decreases hi - lo, 2
  {
    if ns == [] then lo == hi
    else exists m: nat :: lo < m <= hi && IsPiece(bytes, lo, m, ns[0]) && ArePieces(bytes, m, hi, ns[1..])
  }

  /** An atom, perhaps with a quantifier behind it. */
  ghost predicate IsPiece(bytes: seq<Byte>, lo: nat, hi: nat, n: Node)
    requires lo <= hi <= |bytes|
    decreases hi - lo, 1
  {
    || IsAtom(bytes, lo, hi, n)
    || (lo < hi && n.Star? && bytes[hi - 1] == Ascii('*') && IsAtom(bytes, lo, hi - 1, n.inner))
    || (lo < hi && n.Plus? && bytes[hi - 1] == Ascii('+') && IsAtom(bytes, lo, hi - 1, n.inner))
    || (lo < hi && n.Quest? && bytes[hi - 1] == Ascii('?') && IsAtom(bytes, lo, hi - 1, n.inner))
  }

  ghost predicate IsAtom(bytes: seq<Byte>, lo: nat, hi: nat, n: Node)
    requires lo <= hi <= |bytes|
    decreases hi - lo, 0
  {
    || (lo + 2 <= hi && bytes[lo] == Ascii('(') && bytes[hi - 1] == Ascii(')') && IsAlt(bytes, lo + 1, hi - 1, n))
    || (n.Class? && IsClass(bytes, lo, hi, n.bits))
    || (hi == lo + 1 && n.StartAnchor? && bytes[lo] == Ascii('^'))
    || (hi == lo + 1 && n.EndAnchor? && bytes[lo] == Ascii('$'))
  }

  // ----- class texts -----

  lemma EscapedMeans(e: Byte, x: Byte)
    ensures Escaped(e)[x] <==> Means(e, x)
  {
    assert Ascii('d') == 100 && Ascii('D') == 68 && Ascii('w') == 119 && Ascii('W') == 87 && Ascii('s') == 115 && Ascii('S') == 83;
    assert Ascii('n') == 110 && Ascii('t') == 116 && Ascii('r') == 114 && Ascii('_') == 95 && Ascii(' ') == 32;
    assert Ascii('\n') == 10 && Ascii('\t') == 9 && Ascii('\r') == 13 && Ascii('0') == 48 && Ascii('9') == 57;
    assert Digit()[x] <==> 48 <= x <= 57;
    assert Word()[x] <==> 48 <= x <= 57 || 65 <= x <= 90 || 97 <= x <= 122 || x == 95;
    assert Space()[x] <==> 9 <= x <= 13 || x == 32;
  }

  lemma SameClass(c: ByteClass, d: ByteClass)
    requires forall x: Byte :: c[x] <==> d[x]
    ensures c == d
  {
  }

  /** Up to a closing bracket the class loop reads exactly what may stand there. */
  lemma {:induction false} ItemsExact(bytes: seq<Byte>, pos: nat, end: nat, class': ByteClass, first: bool)
    requires pos <= end < |bytes| && bytes[end] == Ascii(']')
    ensures var r := ClassItems(bytes, pos, class', first);
            && (r.Ok? && r.value.1 == end + 1 <==> AreItems(bytes[pos..end], first))
            && (r.Ok? && r.value.1 == end + 1 ==> forall x: Byte :: r.value.0[x] <==> class'[x] || Lists(bytes[pos..end], x))
    decreases |bytes| - pos
  {
    hide Escaped, Means;
    var t, b := bytes[pos..end], bytes[pos];
    if t == [] {
      if first {
        ItemsLater(bytes, pos, class', first);
      }
    } else if b == Ascii('\\') {
      if |t| >= 3 {
        assert t[3..] == bytes[pos + 3..end];
        var c := Escaped(bytes[pos + 2]);
        var escape := EscapeAt(bytes, pos + 1, true);
        assert escape.Ok? && escape.value.0 == c && escape.value.1 == pos + 3;
        ItemsExact(bytes, pos + 3, end, Union(class', c), false);
        forall x: Byte ensures c[x] <==> Means(t[2], x) {
          EscapedMeans(t[2], x);
        }
      } else {
        ItemsLater(bytes, pos, class', first);
      }
    } else if b == Ascii(']') && !first {
    } else if BeginsRange(t) {
      if b <= bytes[pos + 2] {
        assert t[3..] == bytes[pos + 3..end];
        ItemsExact(bytes, pos + 3, end, Union(class', Range(b, bytes[pos + 2])), false);
      }
    } else {
      assert t[1..] == bytes[pos + 1..end];
      ItemsExact(bytes, pos + 1, end, Union(class', Only(b)), false);
    }
  }

  /** A class whose first item reaches the bracket ends behind it. */
  lemma ItemsLater(bytes: seq<Byte>, pos: nat, class': ByteClass, first: bool)
    requires pos < |bytes|
    requires bytes[pos] == Ascii('\\') || first
    ensures var r := ClassItems(bytes, pos, class', first);
            r.Ok? ==> r.value.1 > pos + if bytes[pos] == Ascii('\\') then 3 else 1
  {
  }

  /** A class text that is read ends with a closing bracket. */
  lemma {:induction false} ItemsEnd(bytes: seq<Byte>, pos: nat, class': ByteClass, first: bool)
    requires pos <= |bytes|
    ensures var r := ClassItems(bytes, pos, class', first);
            r.Ok? ==> pos < r.value.1 <= |bytes| && bytes[r.value.1 - 1] == Ascii(']')
    decreases |bytes| - pos
  {
    if pos < |bytes| {
      var b := bytes[pos];
      if b == Ascii(']') && !first {
      } else if b == Ascii('\\') {
        var r := EscapeAt(bytes, pos + 1, true);
        if r.Ok? {
          ItemsEnd(bytes, r.value.1, Union(class', r.value.0), false);
        }
      } else if At(bytes, pos + 1, '-') && !At(bytes, pos + 2, ']') && pos + 2 < |bytes| {
        if b <= bytes[pos + 2] {
          ItemsEnd(bytes, pos + 3, Union(class', Range(b, bytes[pos + 2])), false);
        }
      } else {
        ItemsEnd(bytes, pos + 1, Union(class', Only(b)), false);
      }
    }
  }

  lemma BracketExact(bytes: seq<Byte>, lo: nat, hi: nat, c: ByteClass)
    requires lo + 2 <= hi <= |bytes| && bytes[lo] == Ascii('[')
    ensures ClassAt(bytes, lo) == Ok((Class(c), hi)) <==> bytes[hi - 1] == Ascii(']') && IsBracketed(bytes[lo + 1..hi - 1], c)
  {
    var negate := At(bytes, lo + 1, '^');
    var from := if negate then lo + 2 else lo + 1;
    hide ClassItems, AreItems, Lists;
    ItemsEnd(bytes, from, NoByte(), true);
    var t := bytes[lo + 1..hi - 1];
    if from <= hi - 1 && bytes[hi - 1] == Ascii(']') {
      ItemsExact(bytes, from, hi - 1, NoByte(), true);
      assert bytes[from..hi - 1] == if negate then t[1..] else t;
      var r := ClassItems(bytes, from, NoByte(), true);
      if r.Ok? && r.value.1 == hi {
        var d := if negate then Negate(r.value.0) else r.value.0;
        if IsBracketed(t, c) {
          SameClass(c, d);
        }
      }
    }
  }

  // ----- what the parser accepts is of the grammar -----

  lemma AtomClass(bytes: seq<Byte>, pos: nat, c: ByteClass, end: nat)
    requires pos < |bytes| && bytes[pos] != Ascii('(')
    ensures AtomAt(bytes, pos) == Ok((Class(c), end)) <==> end <= |bytes| && pos <= end && IsClass(bytes, pos, end, c)
  {
    hide ClassAt, IsBracketed, Escaped, Means;
    var b := bytes[pos];
    if b == Ascii('[') {
      BracketAtom(bytes, pos, c, end);
    } else if b == Ascii('.') {
      if pos < end <= |bytes| && IsClass(bytes, pos, end, c) {
        SameClass(c, AnyButNewline());
      }
    } else if b == Ascii('\\') {
      EscapeAtom(bytes, pos, c, end);
    } else if IsLiteral(b) {
      if pos < end <= |bytes| && IsClass(bytes, pos, end, c) {
        SameClass(c, Only(b));
      }
    }
  }

  lemma BracketAtom(bytes: seq<Byte>, pos: nat, c: ByteClass, end: nat)
    requires pos < |bytes| && bytes[pos] == Ascii('[')
    ensures AtomAt(bytes, pos) == Ok((Class(c), end)) <==> end <= |bytes| && pos <= end && IsClass(bytes, pos, end, c)
  {
    hide ClassAt, IsBracketed;
    assert AtomAt(bytes, pos) == ClassAt(bytes, pos);
    if pos + 2 <= end <= |bytes| {
      BracketExact(bytes, pos, end, c);
    } else {
      BracketLong(bytes, pos);
    }
  }

  lemma BracketLong(bytes: seq<Byte>, pos: nat)
    requires pos < |bytes| && bytes[pos] == Ascii('[')
    ensures ClassAt(bytes, pos).Ok? ==> pos + 2 <= ClassAt(bytes, pos).value.1 <= |bytes|
  {
    hide ClassItems;
  }

  lemma EscapeAtom(bytes: seq<Byte>, pos: nat, c: ByteClass, end: nat)
    requires pos < |bytes| && bytes[pos] == Ascii('\\')
    ensures AtomAt(bytes, pos) == Ok((Class(c), end)) <==> end <= |bytes| && pos <= end && IsClass(bytes, pos, end, c)
  {
    hide Escaped, Means, IsBracketed;
    if pos + 1 < |bytes| {
      var e := bytes[pos + 1];
      forall x: Byte ensures Escaped(e)[x] <==> Means(e, x) {
        EscapedMeans(e, x);
      }
      if forall x: Byte :: c[x] <==> Means(e, x) {
        SameClass(c, Escaped(e));
      }
    }
  }

  lemma {:induction false} AltSound(bytes: seq<Byte>, pos: nat, n: Node, end: nat)
    requires pos <= |bytes| && AltAt(bytes, pos) == Ok((n, end))
    ensures pos <= end <= |bytes| && IsAlt(bytes, pos, end, n)
    decreases |bytes| - pos, 4
  {
    hide ConcatAt, AltMore, IsRun, AreBranches;
    var (first, next) := ConcatAt(bytes, pos, []).value;
    var ns := ConcatSound(bytes, pos, [], first, next);
    assert [] + ns == ns;
    RunOf(bytes, pos, next, ns);
    var more := MoreSound(bytes, next, [first], n, end);
    BranchesCons(bytes, pos, next, end, first, more);
    assert n == OneOrAlt([first] + more);
  }

  lemma RunOf(bytes: seq<Byte>, lo: nat, hi: nat, ns: seq<Node>)
    requires lo <= hi <= |bytes| && ArePieces(bytes, lo, hi, ns)
    ensures IsRun(bytes, lo, hi, Sequence(ns))
  {
  }

  /** The branches behind a first one: none, or a bar and the others. */
  ghost predicate FurtherBranches(bytes: seq<Byte>, pos: nat, end: nat, more: seq<Node>)
    requires pos <= end <= |bytes|
  {
    if more == [] then pos == end else pos < end && bytes[pos] == Ascii('|') && AreBranches(bytes, pos + 1, end, more)
  }

  lemma BranchesCons(bytes: seq<Byte>, lo: nat, mid: nat, hi: nat, first: Node, more: seq<Node>)
    requires lo <= mid <= hi <= |bytes| && IsRun(bytes, lo, mid, first) && FurtherBranches(bytes, mid, hi, more)
    ensures AreBranches(bytes, lo, hi, [first] + more)
  {
    hide IsRun;
    var ns := [first] + more;
    assert ns[0] == first && ns[1..] == more;
  }

  lemma {:induction false} MoreSound(bytes: seq<Byte>, pos: nat, branches: seq<Node>, n: Node, end: nat) returns (more: seq<Node>)
    requires pos <= |bytes| && branches != [] && forall k :: 0 <= k < |branches| ==> Proper(branches[k])
    requires AltMore(bytes, pos, branches) == Ok((n, end))
    ensures pos <= end <= |bytes| && n == OneOrAlt(branches + more) && FurtherBranches(bytes, pos, end, more)
    decreases |bytes| - pos, 3
  {
    hide ConcatAt, IsRun, AreBranches;
    if At(bytes, pos, '|') {
      var (next, at) := ConcatAt(bytes, pos + 1, []).value;
      var ns := ConcatSound(bytes, pos + 1, [], next, at);
      assert [] + ns == ns;
      RunOf(bytes, pos + 1, at, ns);
      var later := MoreSound(bytes, at, branches + [next], n, end);
      BranchesCons(bytes, pos + 1, at, end, next, later);
      more := [next] + later;
      assert branches + more == branches + [next] + later;
    } else {
      more := [];
      assert branches + [] == branches;
    }
  }

  lemma PiecesCons(bytes: seq<Byte>, lo: nat, mid: nat, hi: nat, first: Node, ns: seq<Node>)
    requires lo < mid <= hi <= |bytes| && IsPiece(bytes, lo, mid, first) && ArePieces(bytes, mid, hi, ns)
    ensures ArePieces(bytes, lo, hi, [first] + ns)
  {
    hide IsPiece;
    var all := [first] + ns;
    assert all[0] == first && all[1..] == ns;
  }

  lemma {:induction false} ConcatSound(bytes: seq<Byte>, pos: nat, parts: seq<Node>, n: Node, end: nat) returns (ns: seq<Node>)
    requires pos <= |bytes| && forall k :: 0 <= k < |parts| ==> Proper(parts[k])
    requires ConcatAt(bytes, pos, parts) == Ok((n, end))
    ensures pos <= end <= |bytes| && ArePieces(bytes, pos, end, ns) && n == Sequence(parts + ns)
    decreases |bytes| - pos, 2
  {
    hide RepeatAt, IsPiece;
    if pos == |bytes| || At(bytes, pos, '|') || At(bytes, pos, ')') {
      ns := [];
      assert parts + [] == parts;
    } else {
      var (first, next) := RepeatAt(bytes, pos).value;
      RepeatSound(bytes, pos, first, next);
      var later := ConcatSound(bytes, next, parts + [first], n, end);
      ns := [first] + later;
      PiecesCons(bytes, pos, next, end, first, later);
      assert parts + ns == parts + [first] + later;
    }
  }

  lemma {:induction false} RepeatSound(bytes: seq<Byte>, pos: nat, n: Node, end: nat)
    requires pos <= |bytes| && RepeatAt(bytes, pos) == Ok((n, end))
    ensures pos < end <= |bytes| && IsPiece(bytes, pos, end, n)
    decreases |bytes| - pos, 1
  {
    hide AtomAt, IsAtom;
    var (atom, next) := AtomAt(bytes, pos).value;
    AtomSound(bytes, pos, atom, next);
  }

  lemma {:induction false} AtomSound(bytes: seq<Byte>, pos: nat, n: Node, end: nat)
    requires pos <= |bytes| && AtomAt(bytes, pos) == Ok((n, end))
    ensures pos < end <= |bytes| && IsAtom(bytes, pos, end, n)
    decreases |bytes| - pos, 0
  {
    hide IsAlt, IsClass, AltAt, ClassItems, Escaped;
    if bytes[pos] == Ascii('(') {
      AltSound(bytes, pos + 1, n, end - 1);
    } else if n.Class? {
      AtomClass(bytes, pos, n.bits, end);
    }
  }

  // ----- what is of the grammar the parser accepts -----

  /** No atom begins with a quantifier, a bar or a closing parenthesis. */
  lemma AtomStarts(bytes: seq<Byte>, lo: nat, hi: nat, n: Node)
    requires lo <= hi <= |bytes| && IsAtom(bytes, lo, hi, n)
    ensures lo < hi && bytes[lo] !in [Ascii('*'), Ascii('+'), Ascii('?'), Ascii('|'), Ascii(')')]
  {
    hide IsAlt, IsBracketed;
  }

  lemma PieceStarts(bytes: seq<Byte>, lo: nat, hi: nat, n: Node)
    requires lo <= hi <= |bytes| && IsPiece(bytes, lo, hi, n)
    ensures lo < hi && bytes[lo] !in [Ascii('*'), Ascii('+'), Ascii('?'), Ascii('|'), Ascii(')')]
  {
    hide IsAtom;
    if IsAtom(bytes, lo, hi, n) {
      AtomStarts(bytes, lo, hi, n);
    } else {
      AtomStarts(bytes, lo, hi - 1, n.inner);
    }
  }

  predicate AtQuantifier(bytes: seq<Byte>, pos: nat) {
    At(bytes, pos, '*') || At(bytes, pos, '+') || At(bytes, pos, '?')
  }

  /** A run of pieces ends here. */
  predicate AtRunEnd(bytes: seq<Byte>, pos: nat) {
    pos == |bytes| || At(bytes, pos, '|') || At(bytes, pos, ')')
  }

  lemma {:induction false} AtomBack(bytes: seq<Byte>, lo: nat, hi: nat, n: Node)
    requires lo <= hi <= |bytes| && IsAtom(bytes, lo, hi, n)
    ensures AtomAt(bytes, lo) == Ok((n, hi))
    decreases hi - lo, 0
  {
    hide IsAlt, IsClass, AltAt, ClassAt, EscapeAt;
    if lo + 2 <= hi && bytes[lo] == Ascii('(') && bytes[hi - 1] == Ascii(')') && IsAlt(bytes, lo + 1, hi - 1, n) {
      AltBack(bytes, lo + 1, hi - 1, n);
    } else if n.Class? && IsClass(bytes, lo, hi, n.bits) {
      ClassStarts(bytes, lo, hi, n.bits);
      AtomClass(bytes, lo, n.bits, hi);
    }
  }

  lemma ClassStarts(bytes: seq<Byte>, lo: nat, hi: nat, c: ByteClass)
    requires lo <= hi <= |bytes| && IsClass(bytes, lo, hi, c)
    ensures lo < hi && bytes[lo] != Ascii('(')
  {
    hide IsBracketed;
  }

  lemma {:induction false} PieceBack(bytes: seq<Byte>, lo: nat, hi: nat, n: Node)
    requires lo <= hi <= |bytes| && IsPiece(bytes, lo, hi, n) && !AtQuantifier(bytes, hi)
    ensures RepeatAt(bytes, lo) == Ok((n, hi))
    decreases hi - lo, 1
  {
    hide IsAtom, AtomAt;
    if IsAtom(bytes, lo, hi, n) {
      AtomBack(bytes, lo, hi, n);
    } else {
      AtomBack(bytes, lo, hi - 1, n.inner);
    }
  }

  lemma {:induction false} PiecesBack(bytes: seq<Byte>, lo: nat, hi: nat, ns: seq<Node>, parts: seq<Node>)
    requires lo <= hi <= |bytes| && ArePieces(bytes, lo, hi, ns) && AtRunEnd(bytes, hi)
    requires forall k :: 0 <= k < |parts| ==> Proper(parts[k])
    ensures ConcatAt(bytes, lo, parts) == Ok((Sequence(parts + ns), hi))
    decreases hi - lo, 2
  {
    hide IsPiece, RepeatAt;
    if ns == [] {
      assert parts + [] == parts;
    } else {
      var m: nat :| lo < m <= hi && IsPiece(bytes, lo, m, ns[0]) && ArePieces(bytes, m, hi, ns[1..]);
      PieceStarts(bytes, lo, m, ns[0]);
      NextStarts(bytes, m, hi, ns[1..]);
      PieceBack(bytes, lo, m, ns[0]);
      PiecesBack(bytes, m, hi, ns[1..], parts + [ns[0]]);
      assert parts + [ns[0]] + ns[1..] == parts + ns;
    }
  }

  /** Behind a piece comes no quantifier. */
  lemma NextStarts(bytes: seq<Byte>, m: nat, hi: nat, ns: seq<Node>)
    requires m <= hi <= |bytes| && ArePieces(bytes, m, hi, ns) && AtRunEnd(bytes, hi)
    ensures !AtQuantifier(bytes, m)
  {
    hide IsPiece;
    if ns != [] {
      var next: nat :| m < next <= hi && IsPiece(bytes, m, next, ns[0]) && ArePieces(bytes, next, hi, ns[1..]);
      PieceStarts(bytes, m, next, ns[0]);
    }
  }

  lemma {:induction false} RunBack(bytes: seq<Byte>, lo: nat, hi: nat, n: Node)
    requires lo <= hi <= |bytes| && IsRun(bytes, lo, hi, n) && AtRunEnd(bytes, hi)
    ensures ConcatAt(bytes, lo, []) == Ok((n, hi))
    decreases hi - lo, 3
  {
    hide ArePieces;
    var ns :| ArePieces(bytes, lo, hi, ns) && n == Sequence(ns);
    PiecesBack(bytes, lo, hi, ns, []);
    assert [] + ns == ns;
  }

  /** Branches are read one by one; `done` came before. */
  lemma {:induction false} BranchesBack(bytes: seq<Byte>, lo: nat, hi: nat, ns: seq<Node>, done: seq<Node>)
    requires lo <= hi <= |bytes| && AreBranches(bytes, lo, hi, ns) && (hi == |bytes| || At(bytes, hi, ')'))
    requires forall k :: 0 <= k < |done| ==> Proper(done[k])
    ensures ConcatAt(bytes, lo, []).Ok?
    ensures var (first, next) := ConcatAt(bytes, lo, []).value;
            Proper(first) && next <= |bytes| && AltMore(bytes, next, done + [first]) == Ok((OneOrAlt(done + ns), hi))
    decreases hi - lo, 4
  {
    hide IsRun, ConcatAt;
    if |ns| == 1 {
      RunBack(bytes, lo, hi, ns[0]);
      assert done + [ns[0]] == done + ns;
    } else {
      var m: nat :| lo <= m < hi && bytes[m] == Ascii('|') && IsRun(bytes, lo, m, ns[0]) && AreBranches(bytes, m + 1, hi, ns[1..]);
      RunBack(bytes, lo, m, ns[0]);
      BranchesBack(bytes, m + 1, hi, ns[1..], done + [ns[0]]);
      assert done + [ns[0]] + ns[1..] == done + ns;
    }
  }

  lemma {:induction false} AltBack(bytes: seq<Byte>, lo: nat, hi: nat, n: Node)
    requires lo <= hi <= |bytes| && IsAlt(bytes, lo, hi, n) && (hi == |bytes| || At(bytes, hi, ')'))
    ensures AltAt(bytes, lo) == Ok((n, hi))
    decreases hi - lo, 5
  {
    hide AreBranches, ConcatAt, AltMore;
    var ns :| AreBranches(bytes, lo, hi, ns) && n == OneOrAlt(ns);
    BranchesBack(bytes, lo, hi, ns, []);
    assert [] + ns == ns;
    var first := ConcatAt(bytes, lo, []).value.0;
    assert [] + [first] == [first];
  }

  // ----- the parser is the grammar -----

  /** A text parses to a pattern exactly when the grammar makes the text that pattern. */
  lemma ParseExact(bytes: seq<Byte>, n: Node)
    ensures Parse(bytes) == Ok(n) <==> IsAlt(bytes, 0, |bytes|, n)
  {
    hide IsAlt, AltAt;
    if Parse(bytes) == Ok(n) {
      AltSound(bytes, 0, n, |bytes|);
    }
    if IsAlt(bytes, 0, |bytes|, n) {
      AltBack(bytes, 0, |bytes|, n);
    }
  }

  /** A text that is a class text parses to that class. */
  lemma ClassParses(bytes: seq<Byte>, c: ByteClass)
    requires IsClass(bytes, 0, |bytes|, c)
    ensures Parse(bytes) == Ok(Class(c))
  {
    hide IsClass, IsAlt;
    var n := Class(c);
    assert IsAtom(bytes, 0, |bytes|, n);
    AtomStarts(bytes, 0, |bytes|, n);
    assert IsPiece(bytes, 0, |bytes|, n);
    assert ArePieces(bytes, |bytes|, |bytes|, []);
    PiecesCons(bytes, 0, |bytes|, |bytes|, n, []);
    assert [n] + [] == [n];
    RunOf(bytes, 0, |bytes|, [n]);
    assert FurtherBranches(bytes, |bytes|, |bytes|, []);
    BranchesCons(bytes, 0, |bytes|, |bytes|, n, []);
    AltOf(bytes, [n]);
    ParseExact(bytes, n);
  }

  lemma AltOf(bytes: seq<Byte>, ns: seq<Node>)
    requires AreBranches(bytes, 0, |bytes|, ns)
    ensures IsAlt(bytes, 0, |bytes|, OneOrAlt(ns))
  {
  }

  /** Between brackets a range is its bounds and what lies between them; with a caret, all the rest. Out of order it is refused. */
  lemma RangeTexts(lo: Byte, hi: Byte, within: ByteClass, without: ByteClass)
    requires lo !in [Ascii('\\'), Ascii('^')] && hi != Ascii(']')
    requires forall x: Byte :: (within[x] <==> lo <= x <= hi) && (without[x] <==> x < lo || hi < x)
    ensures lo <= hi ==> Parse([Ascii('['), lo, Ascii('-'), hi, Ascii(']')]) == Ok(Class(within))
    ensures lo <= hi ==> Parse([Ascii('['), Ascii('^'), lo, Ascii('-'), hi, Ascii(']')]) == Ok(Class(without))
    ensures lo > hi ==> Parse([Ascii('['), lo, Ascii('-'), hi, Ascii(']')]) == Err(InvalidRange)
  {
    var range := [lo, Ascii('-'), hi];
    var text, turned := [Ascii('['), lo, Ascii('-'), hi, Ascii(']')], [Ascii('['), Ascii('^'), lo, Ascii('-'), hi, Ascii(']')];
    if lo <= hi {
      assert range[3..] == [];
      assert AreItems(range[3..], false) && BeginsRange(range);
      forall x: Byte ensures Lists(range, x) <==> lo <= x <= hi {
        assert Lists(range, x) <==> lo <= x <= hi || Lists(range[3..], x);
      }
      assert text[1..4] == range;
      ClassParses(text, within);
      assert turned[1..5] == [Ascii('^')] + range && ([Ascii('^')] + range)[1..] == range;
      ClassParses(turned, without);
    } else {
      assert ClassItems(text, 1, NoByte(), true) == Err(InvalidRange);
      assert RepeatAt(text, 0) == Err(InvalidRange);
      assert ConcatAt(text, 0, []) == Err(InvalidRange);
    }
  }
}

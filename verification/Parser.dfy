/** The recursive-descent parser: a cursor over the bytes of the pattern. */
module Parser {
  import opened Wrappers
  import opened Ast
  import opened Syntax

  // ----- building byte classes -----

  method RangeClass(lo: Byte, hi: Byte) returns (c: ByteClass)
    ensures c == Range(lo, hi) && forall b: Byte :: c[b] <==> lo <= b <= hi
  {
    var bits := new bool[256](_ => false);
    var i := lo as int;
    while i <= hi
      invariant lo <= i && (i <= hi + 1 || i == lo)
      invariant forall b :: 0 <= b < 256 ==> (bits[b] <==> lo <= b < i)
    {
      bits[i] := true;
      i := i + 1;
    }
    c := bits[..];
  }

  method UnionClass(c: ByteClass, d: ByteClass) returns (u: ByteClass)
    ensures u == Union(c, d) && forall b: Byte :: u[b] <==> c[b] || d[b]
  {
    u := c;
    for i := 0 to 256
      invariant forall b :: 0 <= b < 256 ==> (u[b] <==> c[b] || (b < i && d[b]))
    {
      u := u[i := u[i] || d[i]];
    }
  }

  method NegateClass(c: ByteClass) returns (n: ByteClass)
    ensures n == Negate(c) && forall b: Byte :: n[b] <==> !c[b]
  {
    n := c;
    for i := 0 to 256
      invariant forall b :: 0 <= b < 256 ==> (n[b] <==> if b < i then !c[b] else c[b])
    {
      n := n[i := !n[i]];
    }
  }

  // ----- the parser -----

  class Parser {
    const bytes: seq<Byte>
    var pos: nat

    constructor (bytes: seq<Byte>)
      ensures this.bytes == bytes && pos == 0
    {
      this.bytes, pos := bytes, 0;
    }

    /** What was returned, with where the cursor now stands, is the parse; after an error the cursor is anywhere. */
    ghost predicate Did<T>(r: Result<T, ParseError>, parse: Result<(T, nat), ParseError>)
      reads this
    {
      && pos <= |bytes|
      && match parse
         case Ok((t, next)) => r == Ok(t) && pos == next
         case Err(e) => r == Err(e)
    }

    method Bump() returns (b: Option<Byte>)
      requires pos <= |bytes|
      modifies this`pos
      ensures b == Peek(bytes, old(pos)) && pos == if b.Some? then old(pos) + 1 else old(pos)
    {
      b := Peek(bytes, pos);
      if b.Some? {
        pos := pos + 1;
      }
    }

    method ParseRegex() returns (r: Result<Node, ParseError>)
      requires pos == 0
      modifies this`pos
      ensures r == Parse(bytes)
    {
      r := ParseAlt();
      if r.Ok? && pos != |bytes| {
        r := Err(TextAfterPattern);
      }
    }

    method ParseAlt() returns (r: Result<Node, ParseError>)
      requires pos <= |bytes|
      modifies this`pos
      ensures Did(r, AltAt(bytes, old(pos)))
      decreases |bytes| - pos, 4
    {
      r := ParseConcat();
      if r.Err? {
        return;
      }
      var branches := [r.value];
      while At(bytes, pos, '|')
        invariant old(pos) <= pos <= |bytes|
        invariant branches != [] && forall k :: 0 <= k < |branches| ==> Proper(branches[k])
        invariant AltMore(bytes, pos, branches) == AltAt(bytes, old(pos))
        decreases |bytes| - pos
      {
        var _ := Bump();
        r := ParseConcat();
        if r.Err? {
          return;
        }
        branches := branches + [r.value];
      }
      r := Ok(if |branches| == 1 then branches[0] else Alt(branches));
    }

    method ParseConcat() returns (r: Result<Node, ParseError>)
      requires pos <= |bytes|
      modifies this`pos
      ensures Did(r, ConcatAt(bytes, old(pos), []))
      decreases |bytes| - pos, 2
    {
      var parts := [];
      while pos < |bytes|
        invariant old(pos) <= pos <= |bytes|
        invariant forall k :: 0 <= k < |parts| ==> Proper(parts[k])
        invariant ConcatAt(bytes, pos, parts) == ConcatAt(bytes, old(pos), [])
        decreases |bytes| - pos
      {
        if At(bytes, pos, '|') || At(bytes, pos, ')') {
          break;
        }
        r := ParseRepeat();
        if r.Err? {
          return;
        }
        parts := parts + [r.value];
      }
      r := Ok(if parts == [] then Empty else if |parts| == 1 then parts[0] else Concat(parts));
    }

    method ParseRepeat() returns (r: Result<Node, ParseError>)
      requires pos <= |bytes|
      modifies this`pos
      ensures Did(r, RepeatAt(bytes, old(pos)))
      decreases |bytes| - pos, 1
    {
      r := ParseAtom();
      if r.Err? || pos == |bytes| {
        return;
      }
      var b := bytes[pos];
      if b == Ascii('*') {
        var _ := Bump();
        r := Ok(Star(r.value));
      } else if b == Ascii('+') {
        var _ := Bump();
        r := Ok(Plus(r.value));
      } else if b == Ascii('?') {
        var _ := Bump();
        r := Ok(Quest(r.value));
      }
    }

    method ParseAtom() returns (r: Result<Node, ParseError>)
      requires pos <= |bytes|
      modifies this`pos
      ensures Did(r, AtomAt(bytes, old(pos)))
      decreases |bytes| - pos, 0
    {
      if pos == |bytes| {
        return Err(EndOfPattern);
      }
      var b := bytes[pos];
      if b == Ascii('(') {
        var _ := Bump();
        r := ParseAlt();
        if r.Ok? {
          var close := Bump();
          if close != Some(Ascii(')')) {
            r := Err(UnbalancedGroup);
          }
        }
      } else if b == Ascii('[') {
        r := ParseClass();
      } else if b == Ascii('.') {
        var _ := Bump();
        r := Ok(Class(AnyButNewline()));
      } else if b == Ascii('^') {
        var _ := Bump();
        r := Ok(StartAnchor);
      } else if b == Ascii('$') {
        var _ := Bump();
        r := Ok(EndAnchor);
      } else if b == Ascii('\\') {
        var c := ParseEscape(false);
        r := if c.Ok? then Ok(Class(c.value)) else Err(c.error);
      } else if b == Ascii('|') || b == Ascii(')') {
        r := Err(UnexpectedMeta);
      } else if b == Ascii('*') || b == Ascii('+') || b == Ascii('?') {
        r := Err(NothingToRepeat);
      } else {
        var _ := Bump();
        r := Ok(Class(Only(b)));
      }
    }

    method ParseClass() returns (r: Result<Node, ParseError>)
      requires pos < |bytes|
      modifies this`pos
      ensures Did(r, ClassAt(bytes, old(pos)))
    {
      hide Union, Only, Range, Negate, NoByte, EscapeAt;
      var _ := Bump();
      var bits := NoByte();
      var negate := At(bytes, pos, '^');
      if negate {
        var _ := Bump();
      }
      var first := true;
      ghost var items := ClassItems(bytes, pos, bits, first);
      while true
        invariant old(pos) < pos <= |bytes|
        invariant ClassItems(bytes, pos, bits, first) == items
        decreases |bytes| - pos
      {
        var b := Bump();
        if b.None? {
          return Err(UnterminatedClass);
        }
        var byte := b.value;
        if byte == Ascii(']') && !first {
          break;
        }
        first := false;
        if byte == Ascii('\\') {
          var escaped := ParseEscape(true);
          if escaped.Err? {
            return Err(escaped.error);
          }
          bits := UnionClass(bits, escaped.value);
        } else if At(bytes, pos, '-') && !At(bytes, pos + 1, ']') && pos + 1 < |bytes| {
          var _ := Bump();
          var hi := Bump();
          if byte > hi.value {
            return Err(InvalidRange);
          }
          var range := RangeClass(byte, hi.value);
          bits := UnionClass(bits, range);
        } else {
          bits := UnionClass(bits, Only(byte));
        }
      }
      if negate {
        bits := NegateClass(bits);
      }
      r := Ok(Class(bits));
    }

    method ParseEscape(inClass: bool) returns (r: Result<ByteClass, ParseError>)
      requires pos <= |bytes|
      modifies this`pos
      ensures Did(r, EscapeAt(bytes, old(pos), inClass))
    {
      var _ := Bump();
      var b := Bump();
      if b.None? {
        return Err(TrailingBackslash);
      }
      if b.value == Ascii('^') && !inClass {
        return Err(CaretEscape);
      }
      r := Ok(Escaped(b.value));
    }
  }

  /** A compiled pattern: its text and its tree. */
  datatype Regex = Regex(ast: Node, source: seq<Byte>)

  ghost predicate IsRegex(re: Regex) {
    Parse(re.source) == Ok(re.ast)
  }

  method NewRegex(pattern: seq<Byte>) returns (r: Result<Regex, ParseError>)
    ensures match Parse(pattern)
            case Ok(ast) => r == Ok(Regex(ast, pattern)) && IsRegex(r.value) && WellFormed(ast)
            case Err(e) => r == Err(e)
  {
    var parser := new Parser(pattern);
    var ast := parser.ParseRegex();
    if ast.Err? {
      return Err(ast.error);
    }
    ProperWellFormed(ast.value);
    r := Ok(Regex(ast.value, pattern));
  }
}

/** The grammar of patterns: what a pattern's bytes mean, or why they mean nothing. */
module Syntax {
  import opened Wrappers
  import opened Ast

  datatype ParseError =
    | TextAfterPattern
    | EndOfPattern
    | UnbalancedGroup
    | UnexpectedMeta
    | NothingToRepeat
    | UnterminatedClass
    | InvalidRange
    | TrailingBackslash
    | CaretEscape

  type Parsed = Result<(Node, nat), ParseError>

  /** The byte of a character of the syntax. */
  function Ascii(c: char): Byte
    requires c < '\U{0100}'
  {
    c as int
  }

  function Peek(bytes: seq<Byte>, pos: nat): Option<Byte> {
    if pos < |bytes| then Some(bytes[pos]) else None
  }

  predicate At(bytes: seq<Byte>, pos: nat, c: char)
    requires c < '\U{0100}'
  {
    pos < |bytes| && bytes[pos] == Ascii(c)
  }

  // ----- byte classes -----

  function NoByte(): ByteClass { seq(256, _ => false) }

  function AnyButNewline(): ByteClass { seq(256, b => b != Ascii('\n')) }

  function Only(byte: Byte): ByteClass { seq(256, b => b == byte) }

  function Range(lo: Byte, hi: Byte): ByteClass { seq(256, b => lo <= b <= hi) }

  function Digit(): ByteClass { Range(Ascii('0'), Ascii('9')) }

  function Word(): ByteClass {
    seq(256, b => 48 <= b <= 57 || 65 <= b <= 90 || 97 <= b <= 122 || b == Ascii('_'))
  }

  function Space(): ByteClass {
    seq(256, b => 9 <= b <= 13 || b == Ascii(' '))
  }

  function Union(c: ByteClass, d: ByteClass): ByteClass { seq(256, b requires 0 <= b < 256 => c[b] || d[b]) }

  function Negate(c: ByteClass): ByteClass { seq(256, b requires 0 <= b < 256 => !c[b]) }

  // ----- what the parser makes -----

  /** Alternations and concatenations have at least two parts. */
  predicate Proper(n: Node)
    decreases n
  {
    match n
    case Empty | Class(_) | StartAnchor | EndAnchor => true
    case Concat(parts) => |parts| >= 2 && forall k :: 0 <= k < |parts| ==> Proper(parts[k])
    case Alt(branches) => |branches| >= 2 && forall k :: 0 <= k < |branches| ==> Proper(branches[k])
    case Star(inner) => Proper(inner)
    case Plus(inner) => Proper(inner)
    case Quest(inner) => Proper(inner)
  }

  lemma {:induction false} ProperWellFormed(n: Node)
    requires Proper(n)
    ensures WellFormed(n)
    decreases n, 0
  {
    match n
    case Empty | Class(_) | StartAnchor | EndAnchor =>
    case Concat(parts) => AllProperWellFormed(parts);
    case Alt(branches) => AllProperWellFormed(branches);
    case Star(inner) => ProperWellFormed(inner);
    case Plus(inner) => ProperWellFormed(inner);
    case Quest(inner) => ProperWellFormed(inner);
  }

  lemma {:induction false} AllProperWellFormed(ns: seq<Node>)
    requires forall k :: 0 <= k < |ns| ==> Proper(ns[k])
    ensures AllWellFormed(ns)
    decreases ns, 0
  {
    if ns != [] {
      ProperWellFormed(ns[0]);
      AllProperWellFormed(ns[1..]);
    }
  }

  /** A parse from `pos` ends inside the bytes, after at least `least` of them, with a proper node. */
  predicate Sound(bytes: seq<Byte>, pos: nat, least: nat, r: Parsed) {
    r.Ok? ==> pos + least <= r.value.1 <= |bytes| && Proper(r.value.0)
  }

  // ----- the grammar -----

  /** A whole pattern. */
  function Parse(bytes: seq<Byte>): (r: Result<Node, ParseError>)
    ensures r.Ok? ==> Proper(r.value)
  {
    match AltAt(bytes, 0)
    case Err(e) => Err(e)
    case Ok((n, pos)) => if pos != |bytes| then Err(TextAfterPattern) else Ok(n)
  }

  function AltAt(bytes: seq<Byte>, pos: nat): (r: Parsed)
    requires pos <= |bytes|
    ensures Sound(bytes, pos, 0, r)
    decreases |bytes| - pos, 4
  {
    match ConcatAt(bytes, pos, [])
    case Err(e) => Err(e)
    case Ok((n, next)) => AltMore(bytes, next, [n])
  }

  /** Further branches, each behind a `|`. */
  function AltMore(bytes: seq<Byte>, pos: nat, branches: seq<Node>): (r: Parsed)
    requires pos <= |bytes| && branches != [] && forall k :: 0 <= k < |branches| ==> Proper(branches[k])
    ensures Sound(bytes, pos, 0, r)
    decreases |bytes| - pos, 3
  {
    if !At(bytes, pos, '|') then Ok((if |branches| == 1 then branches[0] else Alt(branches), pos))
    else
      match ConcatAt(bytes, pos + 1, [])
      case Err(e) => Err(e)
      case Ok((n, next)) => AltMore(bytes, next, branches + [n])
  }

  /** The pieces that follow `parts`, up to `|`, `)` or the end. */
  function ConcatAt(bytes: seq<Byte>, pos: nat, parts: seq<Node>): (r: Parsed)
    requires pos <= |bytes| && forall k :: 0 <= k < |parts| ==> Proper(parts[k])
    ensures Sound(bytes, pos, 0, r)
    ensures r.Ok? ==> var end := r.value.1; end == |bytes| || At(bytes, end, '|') || At(bytes, end, ')')
    decreases |bytes| - pos, 2
  {
    if pos == |bytes| || At(bytes, pos, '|') || At(bytes, pos, ')') then
      Ok((if parts == [] then Empty else if |parts| == 1 then parts[0] else Concat(parts), pos))
    else
      match RepeatAt(bytes, pos)
      case Err(e) => Err(e)
      case Ok((n, next)) => ConcatAt(bytes, next, parts + [n])
  }

  /** An atom with at most one quantifier. */
  function RepeatAt(bytes: seq<Byte>, pos: nat): (r: Parsed)
    requires pos <= |bytes|
    ensures Sound(bytes, pos, 1, r)
    decreases |bytes| - pos, 1
  {
    match AtomAt(bytes, pos)
    case Err(e) => Err(e)
    case Ok((n, next)) =>
      if At(bytes, next, '*') then Ok((Star(n), next + 1))
      else if At(bytes, next, '+') then Ok((Plus(n), next + 1))
      else if At(bytes, next, '?') then Ok((Quest(n), next + 1))
      else Ok((n, next))
  }

  function AtomAt(bytes: seq<Byte>, pos: nat): (r: Parsed)
    requires pos <= |bytes|
    ensures Sound(bytes, pos, 1, r)
    decreases |bytes| - pos, 0
  {
    if pos == |bytes| then Err(EndOfPattern)
    else
      var b := bytes[pos];
      if b == Ascii('(') then
        match AltAt(bytes, pos + 1)
        case Err(e) => Err(e)
        case Ok((n, next)) => if At(bytes, next, ')') then Ok((n, next + 1)) else Err(UnbalancedGroup)
      else if b == Ascii('[') then ClassAt(bytes, pos)
      else if b == Ascii('.') then Ok((Class(AnyButNewline()), pos + 1))
      else if b == Ascii('^') then Ok((StartAnchor, pos + 1))
      else if b == Ascii('$') then Ok((EndAnchor, pos + 1))
      else if b == Ascii('\\') then
        match EscapeAt(bytes, pos, false)
        case Err(e) => Err(e)
        case Ok((c, next)) => Ok((Class(c), next))
      else if b == Ascii('|') || b == Ascii(')') then Err(UnexpectedMeta)
      else if b == Ascii('*') || b == Ascii('+') || b == Ascii('?') then Err(NothingToRepeat)
      else Ok((Class(Only(b)), pos + 1))
  }

  // ----- classes and escapes -----

  type ParsedClass = Result<(ByteClass, nat), ParseError>

  function ClassAt(bytes: seq<Byte>, pos: nat): (r: Parsed)
    requires pos < |bytes|
    ensures Sound(bytes, pos, 1, r)
  {
    var negate := At(bytes, pos + 1, '^');
    match ClassItems(bytes, if negate then pos + 2 else pos + 1, NoByte(), true)
    case Err(e) => Err(e)
    case Ok((c, next)) => Ok((Class(if negate then Negate(c) else c), next))
  }

  /** The members of a class, up to a `]` that is not the first of them. */
  function ClassItems(bytes: seq<Byte>, pos: nat, class': ByteClass, first: bool): (r: ParsedClass)
    requires pos <= |bytes|
    ensures r.Ok? ==> pos < r.value.1 <= |bytes|
    decreases |bytes| - pos
  {
    if pos == |bytes| then Err(UnterminatedClass)
    else
      var b := bytes[pos];
      if b == Ascii(']') && !first then Ok((class', pos + 1))
      else if b == Ascii('\\') then
        match EscapeAt(bytes, pos + 1, true)
        case Err(e) => Err(e)
        case Ok((c, next)) => ClassItems(bytes, next, Union(class', c), false)
      else if At(bytes, pos + 1, '-') && !At(bytes, pos + 2, ']') && pos + 2 < |bytes| then
        if b > bytes[pos + 2] then Err(InvalidRange)
        else ClassItems(bytes, pos + 3, Union(class', Range(b, bytes[pos + 2])), false)
      else ClassItems(bytes, pos + 1, Union(class', Only(b)), false)
  }

  /** An escape from `pos` on: one byte is dropped, whatever it is, and the next says what is meant. */
  function EscapeAt(bytes: seq<Byte>, pos: nat, inClass: bool): (r: ParsedClass)
    requires pos <= |bytes|
    ensures r.Ok? ==> pos + 2 <= r.value.1 <= |bytes|
  {
    if pos + 1 >= |bytes| then Err(TrailingBackslash)
    else
      var b := bytes[pos + 1];
      if b == Ascii('^') && !inClass then Err(CaretEscape)
      else Ok((Escaped(b), pos + 2))
  }

  function Escaped(b: Byte): ByteClass {
    if b == Ascii('d') then Digit()
    else if b == Ascii('D') then Negate(Digit())
    else if b == Ascii('w') then Word()
    else if b == Ascii('W') then Negate(Word())
    else if b == Ascii('s') then Space()
    else if b == Ascii('S') then Negate(Space())
    else if b == Ascii('n') then Only(Ascii('\n'))
    else if b == Ascii('t') then Only(Ascii('\t'))
    else if b == Ascii('r') then Only(Ascii('\r'))
    else Only(b)
  }
}

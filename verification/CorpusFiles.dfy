/**
 Writing and reading corpus and golden files as the source does it: an output that grows,
 and a cursor that moves over the input.

 What they do is said by the functions of the corpus module.
 */
module CorpusFiles {
  import opened Wrappers
  import opened Widths
  import opened Ast
  import opened Corpus
  import opened Utf8
  import opened Layout

  // ----- writing -----

  method WriteU32(out: seq<Byte>, value: nat) returns (out': seq<Byte>)
    ensures out' == out + U32Bytes(value)
    ensures HasQuad(out', |out|) && Quad(out', |out|) == value % U32
  {
    FourBytes();
    HighBytesDrop(value % U32, value / U32, 4);
    out' := out + U32Bytes(value % U32);
    WrittenQuad(value);
  }

  /** Only the low bytes are written. */
  lemma {:induction false} HighBytesDrop(n: nat, high: nat, size: nat)
    ensures LowBytes(n + Limit(size) * high, size) == LowBytes(n, size)
    decreases size
  {
    if size > 0 {
      var rest := Limit(size - 1) * high;
      assert Limit(size) * high == 256 * rest;
      assert (n + 256 * rest) % 256 == n % 256 && (n + 256 * rest) / 256 == n / 256 + rest;
      HighBytesDrop(n / 256, high, size - 1);
    }
  }

  method WriteBlob(out: seq<Byte>, blob: seq<Byte>) returns (out': seq<Byte>)
    ensures out' == out + BlobBytes(blob)
  {
    out' := WriteU32(out, |blob|);
    assert out + U32Bytes(|blob|) + blob == out + (U32Bytes(|blob|) + blob);
    out' := out' + blob;
  }

  method SerializeCorpus(pairs: seq<Pair>) returns (out: seq<Byte>)
    ensures out == CorpusBytes(pairs)
  {
    hide U32Bytes, BlobBytes, Text;
    out := WriteU32(CORPUS_MAGIC, |pairs|);
    for i := 0 to |pairs|
      invariant out + ManyBytes(PairBytes, pairs[i..]) == CORPUS_MAGIC + ListBytes(PairBytes, pairs)
    {
      var p := pairs[i];
      assert pairs[i..][0] == p && pairs[i..][1..] == pairs[i + 1..];
      Regroup(out, BlobBytes(p.pattern), BlobBytes(p.input), ManyBytes(PairBytes, pairs[i + 1..]));
      out := WriteBlob(out, p.pattern);
      out := WriteBlob(out, p.input);
    }
  }

  lemma Regroup(out: seq<Byte>, a: seq<Byte>, b: seq<Byte>, rest: seq<Byte>)
    ensures out + a + b + rest == out + ((a + b) + rest)
  {
  }

  method WriteSpans(out: seq<Byte>, spans: seq<Span>) returns (out': seq<Byte>)
    ensures out' == out + ListBytes(SpanBytes, spans)
  {
    hide U32Bytes;
    out' := WriteU32(out, |spans|);
    assert spans[0..] == spans;
    assert out' + ManyBytes(SpanBytes, spans) == out + ListBytes(SpanBytes, spans);
    for i := 0 to |spans|
      invariant out' + ManyBytes(SpanBytes, spans[i..]) == out + ListBytes(SpanBytes, spans)
    {
      var s := spans[i];
      assert spans[i..][0] == s && spans[i..][1..] == spans[i + 1..];
      Regroup(out', U32Bytes(s.start), U32Bytes(s.end), ManyBytes(SpanBytes, spans[i + 1..]));
      out' := WriteU32(out', s.start);
      out' := WriteU32(out', s.end);
    }
  }

  method SerializeGolden(pairs: seq<GoldenPair>) returns (out: seq<Byte>)
    ensures out == GoldenBytes(pairs)
  {
    hide U32Bytes, BlobBytes, Text, ListBytes;
    ListBytesOf(GOLDEN_MAGIC, GoldenPairBytes, pairs);
    out := WriteU32(GOLDEN_MAGIC, |pairs|);
    assert pairs[0..] == pairs;
    for i := 0 to |pairs|
      invariant out + ManyBytes(GoldenPairBytes, pairs[i..]) == GOLDEN_MAGIC + ListBytes(GoldenPairBytes, pairs)
    {
      var p := pairs[i];
      assert pairs[i..][0] == p && pairs[i..][1..] == pairs[i + 1..];
      Regroup3(out, BlobBytes(p.pattern), BlobBytes(p.input), ListBytes(SpanBytes, p.spans), ManyBytes(GoldenPairBytes, pairs[i + 1..]));
      out := WriteBlob(out, p.pattern);
      out := WriteBlob(out, p.input);
      out := WriteSpans(out, p.spans);
    }
  }

  lemma ListBytesOf<T>(out: seq<Byte>, write: T -> seq<Byte>, items: seq<T>)
    ensures out + U32Bytes(|items|) + ManyBytes(write, items) == out + ListBytes(write, items)
  {
    hide U32Bytes, ManyBytes;
  }

  lemma Regroup3(out: seq<Byte>, a: seq<Byte>, b: seq<Byte>, c: seq<Byte>, rest: seq<Byte>)
    ensures out + a + b + c + rest == out + ((a + b + c) + rest)
  {
  }

  // ----- reading -----

  /** A read of further items, with the ones before it. */
  function After<T>(items: seq<T>, r: Read<seq<T>>): Read<seq<T>> {
    match r
    case Ok((more, next)) => Ok((items + more, next))
    case Err(e) => Err(e)
  }

  /** How a read of several items goes on from the ones read so far. */
  lemma AfterRead<T>(read: (seq<Byte>, nat) -> Read<T>, bytes: seq<Byte>, pos: nat, count: nat, items: seq<T>)
    ensures count == 0 ==> After(items, ReadMany(read, bytes, pos, count)) == Ok((items, pos))
    ensures count > 0 ==>
      After(items, ReadMany(read, bytes, pos, count))
      == match read(bytes, pos)
         case Ok((item, at)) => After(items + [item], ReadMany(read, bytes, at, count - 1))
         case Err(e) => Err(e)
  {
    if count == 0 {
      assert items + [] == items;
    } else if read(bytes, pos).Ok? {
      var (item, at) := read(bytes, pos).value;
      var more := ReadMany(read, bytes, at, count - 1);
      if more.Ok? {
        assert items + ([item] + more.value.0) == items + [item] + more.value.0;
      }
    }
  }

  lemma AfterNothing<T>(r: Read<seq<T>>)
    ensures After([], r) == r
  {
    if r.Ok? {
      assert [] + r.value.0 == r.value.0;
    }
  }

  class Cursor {
    const bytes: seq<Byte>
    var pos: nat

    constructor (bytes: seq<Byte>, pos: nat)
      ensures this.bytes == bytes && this.pos == pos
    {
      this.bytes, this.pos := bytes, pos;
    }

    /** What was returned, with where the cursor now stands, is what there was to read. */
    ghost predicate Did<T>(r: Result<T, ReadError>, read: Read<T>)
      reads this
    {
      match read
      case Ok((t, next)) => r == Ok(t) && pos == next
      case Err(e) => r == Err(e)
    }

    method NextU32() returns (r: Result<nat, ReadError>)
      modifies this`pos
      ensures Did(r, ReadU32(bytes, old(pos)))
      ensures r.Ok? <==> HasQuad(bytes, old(pos))
      ensures r.Ok? ==> r.value == Quad(bytes, old(pos)) && pos == old(pos) + 4
    {
      if pos + 4 > |bytes| {
        return Err(EndOfFile);
      }
      QuadNumber(bytes, pos);
      r := Ok(Number(bytes[pos..pos + 4]));
      pos := pos + 4;
    }

    method NextBlob() returns (r: Result<seq<Byte>, ReadError>)
      modifies this`pos
      ensures Did(r, ReadBlob(bytes, old(pos)))
    {
      var len := NextU32();
      if len.Err? {
        return Err(len.error);
      }
      if pos + len.value > |bytes| {
        return Err(EndOfFile);
      }
      r := Ok(bytes[pos..pos + len.value]);
      pos := pos + len.value;
    }

    method NextPair() returns (r: Result<Pair, ReadError>)
      modifies this`pos
      ensures Did(r, ReadPair(bytes, old(pos)))
    {
      hide ReadBlob, IsUtf8;
      var pattern := NextBlob();
      if pattern.Err? {
        return Err(pattern.error);
      }
      if !IsUtf8(pattern.value) {
        return Err(NotUtf8);
      }
      var input := NextBlob();
      r := if input.Ok? then Ok(Pair(pattern.value, input.value)) else Err(input.error);
    }

    method NextSpans() returns (r: Result<seq<Span>, ReadError>)
      modifies this`pos
      ensures Did(r, ReadList(ReadSpan, bytes, old(pos)))
    {
      hide ReadU32;
      var count := NextU32();
      if count.Err? {
        return Err(count.error);
      }
      var spans: seq<Span> := [];
      AfterNothing(ReadMany(ReadSpan, bytes, pos, count.value));
      for i := 0 to count.value
        invariant ReadList(ReadSpan, bytes, old(pos)) == After(spans, ReadMany(ReadSpan, bytes, pos, count.value - i))
      {
        AfterRead(ReadSpan, bytes, pos, count.value - i, spans);
        var start := NextU32();
        if start.Err? {
          return Err(start.error);
        }
        var end := NextU32();
        if end.Err? {
          return Err(end.error);
        }
        spans := spans + [Span(start.value, end.value)];
      }
      AfterRead(ReadSpan, bytes, pos, 0, spans);
      r := Ok(spans);
    }
  }

  method DeserializeCorpus(bytes: seq<Byte>) returns (r: Result<seq<Pair>, ReadError>)
    ensures r == ReadCorpus(bytes)
  {
    hide ReadU32, ReadPair, Text;
    if |bytes| < |CORPUS_MAGIC| || bytes[..|CORPUS_MAGIC|] != CORPUS_MAGIC {
      return Err(WrongMagic);
    }
    var cursor := new Cursor(bytes, |CORPUS_MAGIC|);
    var count := cursor.NextU32();
    if count.Err? {
      return Err(count.error);
    }
    var pairs: seq<Pair> := [];
    AfterNothing(ReadMany(ReadPair, bytes, cursor.pos, count.value));
    for i := 0 to count.value
      invariant ReadList(ReadPair, bytes, |CORPUS_MAGIC|) == After(pairs, ReadMany(ReadPair, bytes, cursor.pos, count.value - i))
    {
      AfterRead(ReadPair, bytes, cursor.pos, count.value - i, pairs);
      var pair := cursor.NextPair();
      if pair.Err? {
        return Err(pair.error);
      }
      pairs := pairs + [pair.value];
    }
    AfterRead(ReadPair, bytes, cursor.pos, 0, pairs);
    r := Ok(pairs);
  }

  method DeserializeGolden(bytes: seq<Byte>) returns (r: Result<seq<GoldenPair>, ReadError>)
    ensures r == ReadGolden(bytes)
  {
    hide ReadU32, ReadPair, Text;
    if |bytes| < |GOLDEN_MAGIC| || bytes[..|GOLDEN_MAGIC|] != GOLDEN_MAGIC {
      return Err(WrongMagic);
    }
    var cursor := new Cursor(bytes, |GOLDEN_MAGIC|);
    var count := cursor.NextU32();
    if count.Err? {
      return Err(count.error);
    }
    var pairs: seq<GoldenPair> := [];
    AfterNothing(ReadMany(ReadGoldenPair, bytes, cursor.pos, count.value));
    for i := 0 to count.value
      invariant ReadList(ReadGoldenPair, bytes, |GOLDEN_MAGIC|)
             == After(pairs, ReadMany(ReadGoldenPair, bytes, cursor.pos, count.value - i))
    {
      AfterRead(ReadGoldenPair, bytes, cursor.pos, count.value - i, pairs);
      var pair := cursor.NextPair();
      if pair.Err? {
        return Err(pair.error);
      }
      var spans := cursor.NextSpans();
      if spans.Err? {
        return Err(spans.error);
      }
      pairs := pairs + [GoldenPair(pair.value.pattern, pair.value.input, spans.value)];
    }
    AfterRead(ReadGoldenPair, bytes, cursor.pos, 0, pairs);
    r := Ok(pairs);
  }
}

/** The corpus and golden files: their texts, and that a reader accepts exactly what a writer makes. */
module Corpus {
  import opened Wrappers
  import opened Widths
  import opened Ast
  import opened Utf8

  datatype Pair = Pair(pattern: seq<Byte>, input: seq<Byte>)

  datatype GoldenPair = GoldenPair(pattern: seq<Byte>, input: seq<Byte>, spans: seq<Span>)

  datatype ReadError = WrongMagic | EndOfFile | NotUtf8

  type Read<T> = Result<(T, nat), ReadError>

  const CORPUS_MAGIC: seq<Byte> := Text("optiwork-corpus-v1\n")
  const GOLDEN_MAGIC: seq<Byte> := Text("optiwork-golden-v1\n")

  // ----- what is written -----

  /** The low bytes of a number, least first. */
  function LowBytes(n: nat, size: nat): (bytes: seq<Byte>)
    ensures |bytes| == size
  {
    if size == 0 then [] else [n % 256] + LowBytes(n / 256, size - 1)
  }

  function U32Bytes(n: nat): seq<Byte> {
    LowBytes(n, 4)
  }

  function BlobBytes(blob: seq<Byte>): seq<Byte> {
    U32Bytes(|blob|) + blob
  }

  function SpanBytes(s: Span): seq<Byte> {
    U32Bytes(s.start) + U32Bytes(s.end)
  }

  function PairBytes(p: Pair): seq<Byte> {
    BlobBytes(p.pattern) + BlobBytes(p.input)
  }

  function GoldenPairBytes(p: GoldenPair): seq<Byte> {
    BlobBytes(p.pattern) + BlobBytes(p.input) + ListBytes(SpanBytes, p.spans)
  }

  /** Each item in turn. */
  function ManyBytes<T>(write: T -> seq<Byte>, items: seq<T>): seq<Byte> {
    if items == [] then [] else write(items[0]) + ManyBytes(write, items[1..])
  }

  /** A count, and so many items. */
  function ListBytes<T>(write: T -> seq<Byte>, items: seq<T>): seq<Byte> {
    U32Bytes(|items|) + ManyBytes(write, items)
  }

  // ----- what is read -----

  /** The number whose bytes these are, least first. */
  function Number(bytes: seq<Byte>): nat {
    if bytes == [] then 0 else bytes[0] + 256 * Number(bytes[1..])
  }

  function ReadU32(bytes: seq<Byte>, pos: nat): Read<nat> {
    if pos + 4 > |bytes| then Err(EndOfFile)
    else Ok((Number(bytes[pos..pos + 4]), pos + 4))
  }

  function ReadBlob(bytes: seq<Byte>, pos: nat): Read<seq<Byte>> {
    match ReadU32(bytes, pos)
    case Err(e) => Err(e)
    case Ok((len, at)) => if at + len > |bytes| then Err(EndOfFile) else Ok((bytes[at..at + len], at + len))
  }

  function ReadSpan(bytes: seq<Byte>, pos: nat): Read<Span> {
    match ReadU32(bytes, pos)
    case Err(e) => Err(e)
    case Ok((start, at)) =>
      match ReadU32(bytes, at)
      case Err(e) => Err(e)
      case Ok((end, next)) => Ok((Span(start, end), next))
  }

  function ReadPair(bytes: seq<Byte>, pos: nat): Read<Pair> {
    match ReadBlob(bytes, pos)
    case Err(e) => Err(e)
    case Ok((pattern, at)) =>
      if !IsUtf8(pattern) then Err(NotUtf8)
      else
        match ReadBlob(bytes, at)
        case Err(e) => Err(e)
        case Ok((input, next)) => Ok((Pair(pattern, input), next))
  }

  function ReadGoldenPair(bytes: seq<Byte>, pos: nat): Read<GoldenPair> {
    match ReadPair(bytes, pos)
    case Err(e) => Err(e)
    case Ok((p, at)) =>
      match ReadList(ReadSpan, bytes, at)
      case Err(e) => Err(e)
      case Ok((spans, next)) => Ok((GoldenPair(p.pattern, p.input, spans), next))
  }

  function ReadMany<T>(read: (seq<Byte>, nat) -> Read<T>, bytes: seq<Byte>, pos: nat, count: nat): Read<seq<T>>
    decreases count
  {
    if count == 0 then Ok(([], pos))
    else
      match read(bytes, pos)
      case Err(e) => Err(e)
      case Ok((item, at)) =>
        match ReadMany(read, bytes, at, count - 1)
        case Err(e) => Err(e)
        case Ok((items, next)) => Ok(([item] + items, next))
  }

  function ReadList<T>(read: (seq<Byte>, nat) -> Read<T>, bytes: seq<Byte>, pos: nat): Read<seq<T>> {
    match ReadU32(bytes, pos)
    case Err(e) => Err(e)
    case Ok((count, at)) => ReadMany(read, bytes, at, count)
  }

  /** A whole file: the magic line, then a list; what follows is ignored. */
  function ReadFile<T>(magic: seq<Byte>, read: (seq<Byte>, nat) -> Read<T>, bytes: seq<Byte>): Result<seq<T>, ReadError> {
    if !(magic <= bytes) then Err(WrongMagic)
    else
      match ReadList(read, bytes, |magic|)
      case Err(e) => Err(e)
      case Ok((items, _)) => Ok(items)
  }

  // ----- reading is the inverse of writing -----

  /** The reader gives an item exactly where the writer's text of a fitting item stands. */
  ghost predicate Inverse<T(!new)>(read: (seq<Byte>, nat) -> Read<T>, write: T -> seq<Byte>, fits: T -> bool) {
    forall bytes: seq<Byte>, pos: nat, t: T, next: nat ::
      read(bytes, pos) == Ok((t, next)) <==> fits(t) && StandsAt(bytes, pos, write(t)) && next == pos + |write(t)|
  }

  /** How many numbers so many bytes can tell apart. */
  function Limit(size: nat): nat {
    if size == 0 then 1 else 256 * Limit(size - 1)
  }

  /** Bytes make a number if and only if it fits them and they are its bytes. */
  lemma {:induction false} NumberExact(n: nat, bytes: seq<Byte>)
    ensures Number(bytes) == n <==> n < Limit(|bytes|) && LowBytes(n, |bytes|) == bytes
    decreases |bytes|
  {
    if bytes != [] {
      NumberExact(n / 256, bytes[1..]);
      assert bytes == [bytes[0]] + bytes[1..];
      assert n == n % 256 + 256 * (n / 256);
    }
  }

  lemma FourBytes()
    ensures Limit(4) == U32
  {
    assert Limit(1) == 256 && Limit(2) == 0x1_0000 && Limit(3) == 0x100_0000;
  }

  lemma U32Read(bytes: seq<Byte>, pos: nat, n: nat)
    ensures ReadU32(bytes, pos) == Ok((n, pos + 4)) <==> n < U32 && StandsAt(bytes, pos, U32Bytes(n))
  {
    hide Number, LowBytes, Limit;
    FourBytes();
    if pos + 4 <= |bytes| {
      NumberExact(n, bytes[pos..pos + 4]);
    }
  }

  function Fits32(): nat -> bool {
    (n: nat) => n < U32
  }

  lemma U32Inverse()
    ensures Inverse(ReadU32, U32Bytes, Fits32())
  {
    hide StandsAt, LowBytes;
    forall bytes: seq<Byte>, pos: nat, n: nat, next: nat
      ensures ReadU32(bytes, pos) == Ok((n, next)) <==> n < U32 && StandsAt(bytes, pos, U32Bytes(n)) && next == pos + |U32Bytes(n)|
    {
      U32Read(bytes, pos, n);
    }
  }

  lemma BlobRead(bytes: seq<Byte>, pos: nat, b: seq<Byte>, next: nat)
    ensures ReadBlob(bytes, pos) == Ok((b, next)) <==> |b| < U32 && StandsAt(bytes, pos, BlobBytes(b)) && next == pos + |BlobBytes(b)|
  {
    hide ReadU32;
    StandsBoth(bytes, pos, U32Bytes(|b|), b);
    U32Read(bytes, pos, |b|);
    if ReadU32(bytes, pos).Ok? {
      U32Inverse();
      assert ReadU32(bytes, pos) == Ok((ReadU32(bytes, pos).value.0, ReadU32(bytes, pos).value.1));
    }
  }

  function FitsSpan(): Span -> bool {
    (s: Span) => s.start < U32 && s.end < U32
  }

  lemma SpanInverse()
    ensures Inverse(ReadSpan, SpanBytes, FitsSpan())
  {
    U32Inverse();
    forall bytes: seq<Byte>, pos: nat, s: Span, next: nat
      ensures ReadSpan(bytes, pos) == Ok((s, next))
        <==> FitsSpan()(s) && StandsAt(bytes, pos, SpanBytes(s)) && next == pos + |SpanBytes(s)|
    {
      StandsBoth(bytes, pos, U32Bytes(s.start), U32Bytes(s.end));
      hide ReadU32, StandsAt;
      U32Read(bytes, pos, s.start);
      U32Read(bytes, pos + 4, s.end);
      if ReadU32(bytes, pos).Ok? {
        assert ReadU32(bytes, pos) == Ok((ReadU32(bytes, pos).value.0, ReadU32(bytes, pos).value.1));
      }
    }
  }

  /** The reader of several items is the inverse of their writer. */
  lemma {:induction false} ManyRead<T(!new)>(read: (seq<Byte>, nat) -> Read<T>, write: T -> seq<Byte>, fits: T -> bool,
                                             bytes: seq<Byte>, pos: nat, items: seq<T>, next: nat)
    requires Inverse(read, write, fits) && pos <= |bytes|
    ensures ReadMany(read, bytes, pos, |items|) == Ok((items, next))
      <==> (forall k :: 0 <= k < |items| ==> fits(items[k])) &&
           StandsAt(bytes, pos, ManyBytes(write, items)) && next == pos + |ManyBytes(write, items)|
    decreases |items|
  {
    if items != [] {
      var at := pos + |write(items[0])|;
      StandsBoth(bytes, pos, write(items[0]), ManyBytes(write, items[1..]));
      assert read(bytes, pos) == Ok((items[0], at)) <==> fits(items[0]) && StandsAt(bytes, pos, write(items[0]));
      if StandsAt(bytes, pos, write(items[0])) {
        ManyRead(read, write, fits, bytes, at, items[1..], next);
      }
      assert (forall k :: 0 <= k < |items| ==> fits(items[k]))
        <==> fits(items[0]) && forall k :: 0 <= k < |items[1..]| ==> fits(items[1..][k]) by {
        assert forall k :: 1 <= k < |items| ==> items[k] == items[1..][k - 1];
      }
      ReadManyFirst(read, bytes, pos, items, next, at);
      if read(bytes, pos).Ok? {
        var (item, after) := read(bytes, pos).value;
        assert read(bytes, pos) == Ok((item, after));
        assert after == pos + |write(item)|;
      }
    }
  }

  /** Several items are read one by one. */
  lemma ReadManyFirst<T(!new)>(read: (seq<Byte>, nat) -> Read<T>, bytes: seq<Byte>, pos: nat, items: seq<T>, next: nat, at: nat)
    requires items != []
    ensures ReadMany(read, bytes, pos, |items|) == Ok((items, next)) ==>
      read(bytes, pos).Ok? && read(bytes, pos).value.0 == items[0] &&
      ReadMany(read, bytes, read(bytes, pos).value.1, |items| - 1) == Ok((items[1..], next))
    ensures read(bytes, pos) == Ok((items[0], at)) && ReadMany(read, bytes, at, |items| - 1) == Ok((items[1..], next)) ==>
      ReadMany(read, bytes, pos, |items|) == Ok((items, next))
  {
    assert items == [items[0]] + items[1..];
  }

  lemma {:induction false} ReadManyCount<T>(read: (seq<Byte>, nat) -> Read<T>, bytes: seq<Byte>, pos: nat, count: nat)
    ensures ReadMany(read, bytes, pos, count).Ok? ==> |ReadMany(read, bytes, pos, count).value.0| == count
    decreases count
  {
    if count > 0 && read(bytes, pos).Ok? {
      ReadManyCount(read, bytes, read(bytes, pos).value.1, count - 1);
    }
  }

  /** The items, and how many there are, are such as can be written. */
  ghost predicate FitsList<T>(fits: T -> bool, items: seq<T>) {
    |items| < U32 && forall k :: 0 <= k < |items| ==> fits(items[k])
  }

  lemma ListRead<T(!new)>(read: (seq<Byte>, nat) -> Read<T>, write: T -> seq<Byte>, fits: T -> bool,
                          bytes: seq<Byte>, pos: nat, items: seq<T>, next: nat)
    requires Inverse(read, write, fits)
    ensures ReadList(read, bytes, pos) == Ok((items, next))
      <==> FitsList(fits, items) && StandsAt(bytes, pos, ListBytes(write, items)) && next == pos + |ListBytes(write, items)|
  {
    StandsBoth(bytes, pos, U32Bytes(|items|), ManyBytes(write, items));
    U32Read(bytes, pos, |items|);
    hide ReadU32, StandsAt, Inverse;
    if ReadU32(bytes, pos).Ok? {
      var (count, at) := ReadU32(bytes, pos).value;
      U32Next(bytes, pos);
      ReadManyCount(read, bytes, at, count);
      ManyRead(read, write, fits, bytes, at, items, next);
    }
  }

  lemma U32Next(bytes: seq<Byte>, pos: nat)
    requires ReadU32(bytes, pos).Ok?
    ensures ReadU32(bytes, pos).value.1 == pos + 4 <= |bytes|
  {
  }

  function FitsPair(): Pair -> bool {
    (p: Pair) => IsUtf8(p.pattern) && |p.pattern| < U32 && |p.input| < U32
  }

  lemma PairRead(bytes: seq<Byte>, pos: nat, p: Pair, next: nat)
    ensures ReadPair(bytes, pos) == Ok((p, next))
      <==> FitsPair()(p) && StandsAt(bytes, pos, PairBytes(p)) && next == pos + |PairBytes(p)|
  {
    hide ReadBlob, StandsAt, BlobBytes, IsUtf8;
    var at := pos + |BlobBytes(p.pattern)|;
    StandsBoth(bytes, pos, BlobBytes(p.pattern), BlobBytes(p.input));
    BlobRead(bytes, pos, p.pattern, at);
    BlobRead(bytes, at, p.input, next);
    if ReadBlob(bytes, pos).Ok? {
      BlobRead(bytes, pos, ReadBlob(bytes, pos).value.0, ReadBlob(bytes, pos).value.1);
    }
  }

  lemma PairInverse()
    ensures Inverse(ReadPair, PairBytes, FitsPair())
  {
    forall bytes: seq<Byte>, pos: nat, p: Pair, next: nat
      ensures ReadPair(bytes, pos) == Ok((p, next))
        <==> FitsPair()(p) && StandsAt(bytes, pos, PairBytes(p)) && next == pos + |PairBytes(p)|
    {
      PairRead(bytes, pos, p, next);
    }
  }

  ghost function FitsGoldenPair(): GoldenPair -> bool {
    (p: GoldenPair) => FitsPair()(Pair(p.pattern, p.input)) && FitsList(FitsSpan(), p.spans)
  }

  lemma GoldenPairRead(bytes: seq<Byte>, pos: nat, p: GoldenPair, next: nat)
    ensures ReadGoldenPair(bytes, pos) == Ok((p, next))
      <==> FitsGoldenPair()(p) && StandsAt(bytes, pos, GoldenPairBytes(p)) && next == pos + |GoldenPairBytes(p)|
  {
    var pair := Pair(p.pattern, p.input);
    var at := pos + |PairBytes(pair)|;
    StandsBoth(bytes, pos, PairBytes(pair), ListBytes(SpanBytes, p.spans));
    SpanInverse();
    PairRead(bytes, pos, pair, at);
    ListRead(ReadSpan, SpanBytes, FitsSpan(), bytes, at, p.spans, next);
    hide ReadPair, ReadList, StandsAt, PairBytes, ListBytes, Inverse, FitsList;
    GoldenBytesSplit(p);
    if ReadPair(bytes, pos).Ok? {
      var (read, after) := ReadPair(bytes, pos).value;
      PairRead(bytes, pos, read, after);
    }
  }

  lemma GoldenBytesSplit(p: GoldenPair)
    ensures GoldenPairBytes(p) == PairBytes(Pair(p.pattern, p.input)) + ListBytes(SpanBytes, p.spans)
  {
  }

  lemma GoldenPairInverse()
    ensures Inverse(ReadGoldenPair, GoldenPairBytes, FitsGoldenPair())
  {
    forall bytes: seq<Byte>, pos: nat, p: GoldenPair, next: nat
      ensures ReadGoldenPair(bytes, pos) == Ok((p, next))
        <==> FitsGoldenPair()(p) && StandsAt(bytes, pos, GoldenPairBytes(p)) && next == pos + |GoldenPairBytes(p)|
    {
      GoldenPairRead(bytes, pos, p, next);
    }
  }

  // ----- whole files -----

  /** A file is read as these items exactly when they fit and it begins with their text. */
  lemma FileRead<T(!new)>(magic: seq<Byte>, read: (seq<Byte>, nat) -> Read<T>, write: T -> seq<Byte>, fits: T -> bool,
                          bytes: seq<Byte>, items: seq<T>)
    requires Inverse(read, write, fits)
    ensures ReadFile(magic, read, bytes) == Ok(items) <==> FitsList(fits, items) && magic + ListBytes(write, items) <= bytes
  {
    var list := ListBytes(write, items);
    StandsBoth(bytes, 0, magic, list);
    Stands0(bytes, magic + list);
    Stands0(bytes, magic);
    ListRead(read, write, fits, bytes, |magic|, items, |magic| + |list|);
    hide ListBytes, StandsAt, Inverse, FitsList, ReadList;
    if ReadList(read, bytes, |magic|).Ok? {
      var (found, next) := ReadList(read, bytes, |magic|).value;
      ListRead(read, write, fits, bytes, |magic|, found, next);
    }
  }

  lemma Stands0(bytes: seq<Byte>, text: seq<Byte>)
    ensures StandsAt(bytes, 0, text) <==> text <= bytes
  {
  }

  function CorpusBytes(pairs: seq<Pair>): seq<Byte> {
    CORPUS_MAGIC + ListBytes(PairBytes, pairs)
  }

  function GoldenBytes(pairs: seq<GoldenPair>): seq<Byte> {
    GOLDEN_MAGIC + ListBytes(GoldenPairBytes, pairs)
  }

  function ReadCorpus(bytes: seq<Byte>): Result<seq<Pair>, ReadError> {
    ReadFile(CORPUS_MAGIC, ReadPair, bytes)
  }

  function ReadGolden(bytes: seq<Byte>): Result<seq<GoldenPair>, ReadError> {
    ReadFile(GOLDEN_MAGIC, ReadGoldenPair, bytes)
  }

  /**
   A corpus file is accepted as `pairs` exactly when `pairs` have UTF-8 patterns and sizes
   below 2^32 and the file begins with what is written for them.
   */
  lemma CorpusExact(bytes: seq<Byte>, pairs: seq<Pair>)
    ensures ReadCorpus(bytes) == Ok(pairs) <==> FitsList(FitsPair(), pairs) && CorpusBytes(pairs) <= bytes
  {
    PairInverse();
    FileRead(CORPUS_MAGIC, ReadPair, PairBytes, FitsPair(), bytes, pairs);
  }

  lemma GoldenExact(bytes: seq<Byte>, pairs: seq<GoldenPair>)
    ensures ReadGolden(bytes) == Ok(pairs) <==> FitsList(FitsGoldenPair(), pairs) && GoldenBytes(pairs) <= bytes
  {
    GoldenPairInverse();
    FileRead(GOLDEN_MAGIC, ReadGoldenPair, GoldenPairBytes, FitsGoldenPair(), bytes, pairs);
  }

  /** Writing and reading back. */
  lemma CorpusRoundTrip(pairs: seq<Pair>)
    requires FitsList(FitsPair(), pairs)
    ensures ReadCorpus(CorpusBytes(pairs)) == Ok(pairs)
  {
    CorpusExact(CorpusBytes(pairs), pairs);
  }

  lemma GoldenRoundTrip(pairs: seq<GoldenPair>)
    requires FitsList(FitsGoldenPair(), pairs)
    ensures ReadGolden(GoldenBytes(pairs)) == Ok(pairs)
  {
    GoldenExact(GoldenBytes(pairs), pairs);
  }
}

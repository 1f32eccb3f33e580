/** Where each byte of a corpus or golden file stands. */
module Layout {
  import opened Wrappers
  import opened Widths
  import opened Ast
  import opened Utf8
  import opened Corpus

  /** Four bytes from `at` on are in the file. */
  predicate HasQuad(bytes: seq<Byte>, at: nat) {
    at + 4 <= |bytes|
  }

  /** The number in four bytes. */
  function Quad(bytes: seq<Byte>, at: nat): nat
    requires HasQuad(bytes, at)
  {
    var b0: nat, b1: nat, b2: nat, b3: nat := bytes[at], bytes[at + 1], bytes[at + 2], bytes[at + 3];
    b0 + 256 * b1 + 65_536 * b2 + 16_777_216 * b3
  }

  /** The size of the blob, and behind it the blob. */
  predicate BlobAt(bytes: seq<Byte>, at: nat, blob: seq<Byte>) {
    && HasQuad(bytes, at) && Quad(bytes, at) == |blob|
    && at + 4 + |blob| <= |bytes| && bytes[at + 4..at + 4 + |blob|] == blob
  }

  /** The pattern, and behind it the input. */
  predicate PairAt(bytes: seq<Byte>, at: nat, pattern: seq<Byte>, input: seq<Byte>) {
    && BlobAt(bytes, at, pattern) && IsUtf8(pattern)
    && BlobAt(bytes, at + 4 + |pattern|, input)
  }

  /** The number of spans, and then eight bytes for each: its start and its end. */
  predicate SpansAt(bytes: seq<Byte>, at: nat, spans: seq<Span>) {
    && HasQuad(bytes, at) && Quad(bytes, at) == |spans|
    && at + 4 + 8 * |spans| <= |bytes|
    && forall k :: 0 <= k < |spans| ==> Quad(bytes, at + 4 + 8 * k) == spans[k].start && Quad(bytes, at + 8 + 8 * k) == spans[k].end
  }

  predicate PairsAt(bytes: seq<Byte>, at: nat, pairs: seq<Pair>)
    decreases |pairs|
  {
    pairs == [] ||
    (PairAt(bytes, at, pairs[0].pattern, pairs[0].input) &&
     PairsAt(bytes, at + 8 + |pairs[0].pattern| + |pairs[0].input|, pairs[1..]))
  }

  predicate GoldenPairsAt(bytes: seq<Byte>, at: nat, pairs: seq<GoldenPair>)
    decreases |pairs|
  {
    pairs == [] ||
    (PairAt(bytes, at, pairs[0].pattern, pairs[0].input) &&
     SpansAt(bytes, at + 8 + |pairs[0].pattern| + |pairs[0].input|, pairs[0].spans) &&
     GoldenPairsAt(bytes, at + 12 + |pairs[0].pattern| + |pairs[0].input| + 8 * |pairs[0].spans|, pairs[1..]))
  }

  /** The file begins with the line. */
  predicate BeginsWith(bytes: seq<Byte>, line: string) {
    |line| <= |bytes| && forall i :: 0 <= i < |line| ==> bytes[i] == line[i] as int
  }

  // ----- numbers -----

  lemma QuadStands(bytes: seq<Byte>, at: nat, n: nat)
    ensures n < U32 && StandsAt(bytes, at, U32Bytes(n)) <==> HasQuad(bytes, at) && Quad(bytes, at) == n
  {
    U32Read(bytes, at, n);
    if HasQuad(bytes, at) {
      QuadNumber(bytes, at);
    }
  }

  lemma QuadNumber(bytes: seq<Byte>, at: nat)
    requires HasQuad(bytes, at)
    ensures Number(bytes[at..at + 4]) == Quad(bytes, at)
  {
    var b := bytes[at..at + 4];
    assert b[1..][1..] == b[2..] && b[2..][1..] == b[3..] && b[3..][1..] == [];
    assert Number(b[3..]) == b[3];
    assert Number(b[2..]) == b[2] + 256 * Number(b[3..]);
    assert Number(b[1..]) == b[1] + 256 * Number(b[2..]);
  }

  /** Whatever the number, its four bytes hold it up to multiples of 2^32. */
  lemma WrittenQuad(n: nat)
    ensures |U32Bytes(n)| == 4 && Quad(U32Bytes(n), 0) == n % U32
  {
    var a, b, c := n / 256, n / 256 / 256, n / 256 / 256 / 256;
    assert LowBytes(c, 1) == [c % 256];
    assert LowBytes(b, 2) == [b % 256] + LowBytes(c, 1);
    assert LowBytes(a, 3) == [a % 256] + LowBytes(b, 2);
    assert U32Bytes(n) == [n % 256] + LowBytes(a, 3);
    FourDigits(n, a, b, c);
  }

  lemma FourDigits(n: nat, a: nat, b: nat, c: nat)
    requires a == n / 256 && b == a / 256 && c == b / 256
    ensures n % 256 + 256 * (a % 256) + 65_536 * (b % 256) + 16_777_216 * (c % 256) == n % U32
  {
    var low, high := n % 256 + 256 * (a % 256) + 65_536 * (b % 256) + 16_777_216 * (c % 256), c / 256;
    assert c == c % 256 + 256 * high;
    assert n == low + U32 * high && 0 <= low < U32;
  }

  // ----- the parts of a file -----

  predicate AllFit<T>(fits: T -> bool, items: seq<T>) {
    forall k :: 0 <= k < |items| ==> fits(items[k])
  }

  lemma FitCons<T>(fits: T -> bool, items: seq<T>)
    requires items != []
    ensures AllFit(fits, items) <==> fits(items[0]) && AllFit(fits, items[1..])
  {
    assert forall k :: 1 <= k < |items| ==> items[k] == items[1..][k - 1];
  }

  lemma BlobStands(bytes: seq<Byte>, at: nat, blob: seq<Byte>)
    ensures |blob| < U32 && StandsAt(bytes, at, BlobBytes(blob)) <==> BlobAt(bytes, at, blob)
    ensures |BlobBytes(blob)| == 4 + |blob|
  {
    StandsBoth(bytes, at, U32Bytes(|blob|), blob);
    QuadStands(bytes, at, |blob|);
  }

  lemma PairStands(bytes: seq<Byte>, at: nat, p: Pair)
    ensures FitsPair()(p) && StandsAt(bytes, at, PairBytes(p)) <==> PairAt(bytes, at, p.pattern, p.input)
    ensures |PairBytes(p)| == 8 + |p.pattern| + |p.input|
  {
    hide StandsAt, BlobAt, BlobBytes, IsUtf8;
    StandsBoth(bytes, at, BlobBytes(p.pattern), BlobBytes(p.input));
    BlobStands(bytes, at, p.pattern);
    BlobStands(bytes, at + 4 + |p.pattern|, p.input);
  }

  /** The spans alone, without their number. */
  predicate SpanListAt(bytes: seq<Byte>, at: nat, spans: seq<Span>) {
    && at + 8 * |spans| <= |bytes|
    && forall k :: 0 <= k < |spans| ==> Quad(bytes, at + 8 * k) == spans[k].start && Quad(bytes, at + 4 + 8 * k) == spans[k].end
  }

  lemma SpanListCons(bytes: seq<Byte>, at: nat, spans: seq<Span>)
    requires spans != [] && HasQuad(bytes, at + 4)
    ensures SpanListAt(bytes, at, spans) <==>
      Quad(bytes, at) == spans[0].start && Quad(bytes, at + 4) == spans[0].end && SpanListAt(bytes, at + 8, spans[1..])
  {
    var rest := spans[1..];
    if SpanListAt(bytes, at, spans) {
      forall k | 0 <= k < |rest| ensures Quad(bytes, at + 8 + 8 * k) == rest[k].start && Quad(bytes, at + 8 + 4 + 8 * k) == rest[k].end {
        assert rest[k] == spans[k + 1] && at + 8 * (k + 1) == at + 8 + 8 * k;
      }
      assert Quad(bytes, at + 8 * 0) == spans[0].start && Quad(bytes, at + 4 + 8 * 0) == spans[0].end;
    }
    if Quad(bytes, at) == spans[0].start && Quad(bytes, at + 4) == spans[0].end && SpanListAt(bytes, at + 8, rest) {
      forall k | 0 <= k < |spans| ensures Quad(bytes, at + 8 * k) == spans[k].start && Quad(bytes, at + 4 + 8 * k) == spans[k].end {
        if k > 0 {
          var j := k - 1;
          assert rest[j] == spans[k] && at + 8 + 8 * j == at + 8 * k;
          assert Quad(bytes, at + 8 + 8 * j) == rest[j].start && Quad(bytes, at + 8 + 4 + 8 * j) == rest[j].end;
        }
      }
    }
  }

  lemma {:induction false} SpanListStands(bytes: seq<Byte>, at: nat, spans: seq<Span>)
    requires at <= |bytes|
    ensures AllFit(FitsSpan(), spans) && StandsAt(bytes, at, ManyBytes(SpanBytes, spans))
      <==> SpanListAt(bytes, at, spans)
    ensures |ManyBytes(SpanBytes, spans)| == 8 * |spans|
    decreases |spans|
  {
    if spans != [] {
      var s, rest := spans[0], spans[1..];
      StandsBoth(bytes, at, SpanBytes(s), ManyBytes(SpanBytes, rest));
      StandsBoth(bytes, at, U32Bytes(s.start), U32Bytes(s.end));
      hide StandsAt, U32Bytes, SpanListAt, Quad;
      QuadStands(bytes, at, s.start);
      QuadStands(bytes, at + 4, s.end);
      FitCons(FitsSpan(), spans);
      SizeOfSpan(s);
      if HasQuad(bytes, at + 4) {
        SpanListStands(bytes, at + 8, rest);
        SpanListCons(bytes, at, spans);
      } else {
        SpanListShort(bytes, at, spans);
        SpanListSize(rest);
      }
    }
  }

  lemma SizeOfSpan(s: Span)
    ensures |SpanBytes(s)| == 8 && |U32Bytes(s.start)| == 4
  {
  }

  lemma SpanListShort(bytes: seq<Byte>, at: nat, spans: seq<Span>)
    requires spans != [] && !HasQuad(bytes, at + 4)
    ensures !SpanListAt(bytes, at, spans)
  {
  }

  lemma {:induction false} SpanListSize(spans: seq<Span>)
    ensures |ManyBytes(SpanBytes, spans)| == 8 * |spans|
  {
    if spans != [] {
      SpanListSize(spans[1..]);
    }
  }

  lemma SpansStand(bytes: seq<Byte>, at: nat, spans: seq<Span>)
    ensures FitsList(FitsSpan(), spans) && StandsAt(bytes, at, ListBytes(SpanBytes, spans)) <==> SpansAt(bytes, at, spans)
    ensures |ListBytes(SpanBytes, spans)| == 4 + 8 * |spans|
  {
    StandsBoth(bytes, at, U32Bytes(|spans|), ManyBytes(SpanBytes, spans));
    QuadStands(bytes, at, |spans|);
    SpanListSize(spans);
    if HasQuad(bytes, at) {
      SpanListStands(bytes, at + 4, spans);
    }
  }

  lemma GoldenPairStands(bytes: seq<Byte>, at: nat, p: GoldenPair)
    ensures FitsGoldenPair()(p) && StandsAt(bytes, at, GoldenPairBytes(p))
      <==> PairAt(bytes, at, p.pattern, p.input) && SpansAt(bytes, at + 8 + |p.pattern| + |p.input|, p.spans)
    ensures |GoldenPairBytes(p)| == 12 + |p.pattern| + |p.input| + 8 * |p.spans|
  {
    hide StandsAt, PairAt, SpansAt, PairBytes, ListBytes, FitsList;
    var pair := Pair(p.pattern, p.input);
    GoldenBytesSplit(p);
    StandsBoth(bytes, at, PairBytes(pair), ListBytes(SpanBytes, p.spans));
    PairStands(bytes, at, pair);
    SpansStand(bytes, at + 8 + |p.pattern| + |p.input|, p.spans);
  }

  lemma {:induction false} PairsStand(bytes: seq<Byte>, at: nat, pairs: seq<Pair>)
    requires at <= |bytes|
    ensures AllFit(FitsPair(), pairs) && StandsAt(bytes, at, ManyBytes(PairBytes, pairs))
      <==> PairsAt(bytes, at, pairs)
    decreases |pairs|
  {
    if pairs != [] {
      var p, rest := pairs[0], pairs[1..];
      StandsBoth(bytes, at, PairBytes(p), ManyBytes(PairBytes, rest));
      PairStands(bytes, at, p);
      FitCons(FitsPair(), pairs);
      if StandsAt(bytes, at, PairBytes(p)) {
        PairsStand(bytes, at + |PairBytes(p)|, rest);
      }
    }
  }

  lemma ManyStand<T>(bytes: seq<Byte>, at: nat, write: T -> seq<Byte>, items: seq<T>)
    requires items != []
    ensures StandsAt(bytes, at, ManyBytes(write, items)) <==>
      StandsAt(bytes, at, write(items[0])) && StandsAt(bytes, at + |write(items[0])|, ManyBytes(write, items[1..]))
  {
    StandsBoth(bytes, at, write(items[0]), ManyBytes(write, items[1..]));
  }

  lemma InFile(bytes: seq<Byte>, at: nat, text: seq<Byte>)
    ensures StandsAt(bytes, at, text) ==> at + |text| <= |bytes|
    ensures at <= |bytes| ==> StandsAt(bytes, at, [])
  {
  }

  lemma {:induction false} GoldenPairsStand(bytes: seq<Byte>, at: nat, pairs: seq<GoldenPair>)
    requires at <= |bytes|
    ensures AllFit(FitsGoldenPair(), pairs) && StandsAt(bytes, at, ManyBytes(GoldenPairBytes, pairs))
      <==> GoldenPairsAt(bytes, at, pairs)
    decreases |pairs|
  {
    if pairs == [] {
      InFile(bytes, at, []);
    } else {
      var p, rest := pairs[0], pairs[1..];
      hide StandsAt, PairAt, SpansAt, GoldenPairBytes, FitsGoldenPair, AllFit, ManyBytes, Quad;
      ManyStand(bytes, at, GoldenPairBytes, pairs);
      GoldenPairStands(bytes, at, p);
      FitCons(FitsGoldenPair(), pairs);
      InFile(bytes, at, GoldenPairBytes(p));
      if StandsAt(bytes, at, GoldenPairBytes(p)) {
        GoldenPairsStand(bytes, at + |GoldenPairBytes(p)|, rest);
      }
    }
  }

  // ----- whole files -----

  lemma MagicBegins(bytes: seq<Byte>, line: string)
    requires forall i :: 0 <= i < |line| ==> line[i] < '\U{0080}'
    ensures Text(line) <= bytes <==> BeginsWith(bytes, line)
  {
    if BeginsWith(bytes, line) {
      assert bytes[..|line|] == Text(line);
    }
    if Text(line) <= bytes {
      assert forall i :: 0 <= i < |line| ==> bytes[i] == Text(line)[i];
    }
  }

  lemma SizeOfQuad(n: nat)
    ensures |U32Bytes(n)| == 4
  {
  }

  lemma ListStands<T(!new)>(bytes: seq<Byte>, magic: seq<Byte>, write: T -> seq<Byte>, items: seq<T>)
    ensures magic + ListBytes(write, items) <= bytes <==>
      magic <= bytes && StandsAt(bytes, |magic|, U32Bytes(|items|)) && StandsAt(bytes, |magic| + 4, ManyBytes(write, items))
  {
    hide StandsAt, U32Bytes, ManyBytes;
    var list := ListBytes(write, items);
    SizeOfQuad(|items|);
    Stands0(bytes, magic + list);
    Stands0(bytes, magic);
    StandsBoth(bytes, 0, magic, list);
    StandsBoth(bytes, |magic|, U32Bytes(|items|), ManyBytes(write, items));
  }

  /** A corpus file, offset by offset: the line, at 19 the number of pairs, and from 23 on the pairs. */
  lemma CorpusLayout(bytes: seq<Byte>, pairs: seq<Pair>)
    ensures ReadCorpus(bytes) == Ok(pairs) <==>
      && BeginsWith(bytes, "optiwork-corpus-v1\n")
      && HasQuad(bytes, 19) && Quad(bytes, 19) == |pairs|
      && PairsAt(bytes, 23, pairs)
  {
    hide ReadCorpus, StandsAt, ListBytes, ManyBytes, U32Bytes, PairBytes, PairsAt, Quad;
    CorpusExact(bytes, pairs);
    MagicBegins(bytes, "optiwork-corpus-v1\n");
    ListStands(bytes, CORPUS_MAGIC, PairBytes, pairs);
    QuadStands(bytes, 19, |pairs|);
    if HasQuad(bytes, 19) {
      PairsStand(bytes, 23, pairs);
    }
  }

  /** A golden file likewise, with the spans of each pair behind it. */
  lemma GoldenLayout(bytes: seq<Byte>, pairs: seq<GoldenPair>)
    ensures ReadGolden(bytes) == Ok(pairs) <==>
      && BeginsWith(bytes, "optiwork-golden-v1\n")
      && HasQuad(bytes, 19) && Quad(bytes, 19) == |pairs|
      && GoldenPairsAt(bytes, 23, pairs)
  {
    hide ReadGolden, StandsAt, ListBytes, ManyBytes, U32Bytes, GoldenPairBytes, GoldenPairsAt, Quad;
    GoldenExact(bytes, pairs);
    MagicBegins(bytes, "optiwork-golden-v1\n");
    ListStands(bytes, GOLDEN_MAGIC, GoldenPairBytes, pairs);
    QuadStands(bytes, 19, |pairs|);
    if HasQuad(bytes, 19) {
      GoldenPairsStand(bytes, 23, pairs);
    }
  }

  /** What is written for pairs that fit has this layout. */
  lemma WrittenLayout(pairs: seq<Pair>, golden: seq<GoldenPair>)
    requires FitsList(FitsPair(), pairs) && FitsList(FitsGoldenPair(), golden)
    ensures BeginsWith(CorpusBytes(pairs), "optiwork-corpus-v1\n") && HasQuad(CorpusBytes(pairs), 19)
    ensures Quad(CorpusBytes(pairs), 19) == |pairs| && PairsAt(CorpusBytes(pairs), 23, pairs)
    ensures BeginsWith(GoldenBytes(golden), "optiwork-golden-v1\n") && HasQuad(GoldenBytes(golden), 19)
    ensures Quad(GoldenBytes(golden), 19) == |golden| && GoldenPairsAt(GoldenBytes(golden), 23, golden)
  {
    CorpusRoundTrip(pairs);
    GoldenRoundTrip(golden);
    CorpusLayout(CorpusBytes(pairs), pairs);
    GoldenLayout(GoldenBytes(golden), golden);
  }
}

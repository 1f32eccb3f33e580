/** The spans of a search that is driven across the input, and what they are. */
module Scan {
  import opened Wrappers
  import opened Ast

  /** A search whose matches begin at or after the position asked for, inside the input. */
  ghost predicate Forward(find: nat -> Option<(nat, nat)>, len: nat) {
    forall s: nat :: s <= len && find(s).Some? ==> s <= find(s).value.0 <= find(s).value.1 <= len
  }

  /**
   The spans from `scan` on: an empty match at the end of the previous span is dropped,
   and an empty match moves the scan on by one.
   */
  ghost function Spans(find: nat -> Option<(nat, nat)>, len: nat, scan: nat, lastEnd: Option<nat>): seq<Span>
    requires Forward(find, len)
    decreases len + 1 - scan
  {
    if scan > len || find(scan).None? then []
    else
      var (start, end) := find(scan).value;
      if start == end && Some(start) == lastEnd then Spans(find, len, start + 1, lastEnd)
      else [Span(start, end)] + Spans(find, len, if end > start then end else end + 1, Some(end))
  }

  /** All spans of the input. */
  ghost function AllSpans(find: nat -> Option<(nat, nat)>, len: nat): seq<Span>
    requires Forward(find, len)
  {
    Spans(find, len, 0, None)
  }

  // ----- leftmost searches -----

  /** The search finds a match that begins exactly at `p`. */
  ghost predicate FoundAt(find: nat -> Option<(nat, nat)>, p: nat) {
    find(p).Some? && find(p).value.0 == p
  }

  /** The search finds the match at the least start, the same from wherever it is asked. */
  ghost predicate IsLeftmost(find: nat -> Option<(nat, nat)>, len: nat) {
    && Forward(find, len)
    && (forall s: nat, p: nat {:trigger find(s), FoundAt(find, p)} :: s <= p <= len && FoundAt(find, p) ==>
          find(s).Some? && find(s).value.0 <= p)
    && (forall s: nat :: s <= len && find(s).Some? ==> find(find(s).value.0) == find(s))
  }

  /**
   Spans from `scan` on, after a span that ended at `lastEnd`: each is the match preferred
   at its start, they are in order and do not overlap, and none is empty at the end of the
   span before it.
   */
  ghost predicate Ordered(find: nat -> Option<(nat, nat)>, len: nat, scan: nat, lastEnd: Option<nat>, spans: seq<Span>) {
    && (forall i :: 0 <= i < |spans| ==>
          && scan <= spans[i].start <= spans[i].end <= len
          && find(spans[i].start) == Some((spans[i].start, spans[i].end)))
    && (forall i, j :: 0 <= i < j < |spans| ==>
          spans[i].start < spans[j].start && spans[i].end <= spans[j].start)
    && (spans != [] && spans[0].start == spans[0].end ==> lastEnd != Some(spans[0].start))
    && (forall i, j :: 0 <= i && j == i + 1 < |spans| && spans[j].start == spans[j].end ==>
          spans[i].end != spans[j].start)
  }

  /** The match at `p` is the span, begins inside it, or is an empty one at its end. */
  ghost predicate Accounts(find: nat -> Option<(nat, nat)>, span: Span, p: nat) {
    p == span.start || span.start < p < span.end || (p == span.end && find(p) == Some((p, p)))
  }

  /** Every match from `scan` on is accounted for by a span, or is an empty one at `lastEnd`. */
  ghost predicate Complete(find: nat -> Option<(nat, nat)>, len: nat, scan: nat, lastEnd: Option<nat>, spans: seq<Span>) {
    forall p: nat {:trigger FoundAt(find, p)} :: scan <= p <= len && FoundAt(find, p) ==>
      || (find(p) == Some((p, p)) && lastEnd == Some(p))
      || exists i :: 0 <= i < |spans| && Accounts(find, spans[i], p)
  }

  /** The scan of a leftmost search gives ordered spans that leave nothing out. */
  lemma {:induction false} SpansCorrect(find: nat -> Option<(nat, nat)>, len: nat, scan: nat, lastEnd: Option<nat>)
    requires Forward(find, len) && IsLeftmost(find, len) && (lastEnd.Some? ==> lastEnd.value <= scan)
    ensures Ordered(find, len, scan, lastEnd, Spans(find, len, scan, lastEnd))
    ensures Complete(find, len, scan, lastEnd, Spans(find, len, scan, lastEnd))
    decreases len + 1 - scan
  {
    hide Ordered, Complete, IsLeftmost;
    if scan > len || find(scan).None? {
      NoSpans(find, len, scan, lastEnd);
    } else {
      var (start, end) := find(scan).value;
      if start == end && Some(start) == lastEnd {
        var rest := Spans(find, len, start + 1, lastEnd);
        SpansCorrect(find, len, start + 1, lastEnd);
        SkippedOrdered(find, len, scan, start + 1, lastEnd, rest);
        SkippedComplete(find, len, scan, lastEnd, rest);
      } else {
        var next := if end > start then end else end + 1;
        var rest := Spans(find, len, next, Some(end));
        SpansCorrect(find, len, next, Some(end));
        AgainFromStart(find, len, scan);
        ConsOrdered(find, len, scan, next, lastEnd, Span(start, end), rest);
        ConsComplete(find, len, scan, next, lastEnd, Span(start, end), rest);
      }
    }
  }

  lemma AgainFromStart(find: nat -> Option<(nat, nat)>, len: nat, scan: nat)
    requires IsLeftmost(find, len) && scan <= len && find(scan).Some?
    ensures find(find(scan).value.0) == find(scan)
  {
  }

  lemma NoSpans(find: nat -> Option<(nat, nat)>, len: nat, scan: nat, lastEnd: Option<nat>)
    requires IsLeftmost(find, len) && (scan > len || find(scan).None?)
    ensures Ordered(find, len, scan, lastEnd, []) && Complete(find, len, scan, lastEnd, [])
  {
  }

  lemma SkippedOrdered(find: nat -> Option<(nat, nat)>, len: nat, scan: nat, next: nat, lastEnd: Option<nat>, rest: seq<Span>)
    requires scan <= next && Ordered(find, len, next, lastEnd, rest)
    ensures Ordered(find, len, scan, lastEnd, rest)
  {
  }

  lemma SkippedComplete(find: nat -> Option<(nat, nat)>, len: nat, scan: nat, lastEnd: Option<nat>, rest: seq<Span>)
    requires IsLeftmost(find, len) && scan <= len && find(scan).Some?
    requires find(scan).value.0 == find(scan).value.1 && Some(find(scan).value.0) == lastEnd
    requires Complete(find, len, find(scan).value.0 + 1, lastEnd, rest)
    ensures Complete(find, len, scan, lastEnd, rest)
  {
  }

  lemma ConsOrdered(find: nat -> Option<(nat, nat)>, len: nat, scan: nat, next: nat, lastEnd: Option<nat>,
                    span: Span, rest: seq<Span>)
    requires scan <= span.start <= span.end <= len && find(span.start) == Some((span.start, span.end))
    requires next == if span.end > span.start then span.end else span.end + 1
    requires lastEnd.Some? ==> lastEnd.value <= scan
    requires !(span.start == span.end && Some(span.start) == lastEnd)
    requires Ordered(find, len, next, Some(span.end), rest)
    ensures Ordered(find, len, scan, lastEnd, [span] + rest)
  {
    var spans := [span] + rest;
    forall i | 0 <= i < |spans|
      ensures scan <= spans[i].start <= spans[i].end <= len
      ensures find(spans[i].start) == Some((spans[i].start, spans[i].end))
    {
      assert i > 0 ==> spans[i] == rest[i - 1];
    }
    forall i, j | 0 <= i < j < |spans|
      ensures spans[i].start < spans[j].start && spans[i].end <= spans[j].start
      ensures j == i + 1 && spans[j].start == spans[j].end ==> spans[i].end != spans[j].start
    {
      assert spans[j] == rest[j - 1];
      assert i > 0 ==> spans[i] == rest[i - 1];
    }
  }

  lemma ConsComplete(find: nat -> Option<(nat, nat)>, len: nat, scan: nat, next: nat, lastEnd: Option<nat>,
                     span: Span, rest: seq<Span>)
    requires IsLeftmost(find, len) && scan <= len && find(scan) == Some((span.start, span.end))
    requires next == if span.end > span.start then span.end else span.end + 1
    requires Complete(find, len, next, Some(span.end), rest)
    ensures Complete(find, len, scan, lastEnd, [span] + rest)
  {
    var spans := [span] + rest;
    forall p: nat | scan <= p <= len && FoundAt(find, p)
      ensures exists i :: 0 <= i < |spans| && Accounts(find, spans[i], p)
    {
      if Accounts(find, span, p) {
        assert Accounts(find, spans[0], p);
      } else {
        assert next <= p;
        var i :| 0 <= i < |rest| && Accounts(find, rest[i], p);
        assert Accounts(find, spans[i + 1], p);
      }
    }
  }

  /**
   Only the scan's spans are ordered and complete: any other such list is the same.
   */
  lemma {:induction false} SpansUnique(find: nat -> Option<(nat, nat)>, len: nat, scan: nat, lastEnd: Option<nat>, spans: seq<Span>)
    requires Forward(find, len) && IsLeftmost(find, len) && (lastEnd.Some? ==> lastEnd.value <= scan)
    requires Ordered(find, len, scan, lastEnd, spans) && Complete(find, len, scan, lastEnd, spans)
    ensures spans == Spans(find, len, scan, lastEnd)
    decreases len + 1 - scan
  {
    hide Ordered, Complete, IsLeftmost;
    if scan > len || find(scan).None? {
      OnlyNoSpans(find, len, scan, lastEnd, spans);
    } else {
      var (start, end) := find(scan).value;
      if start == end && Some(start) == lastEnd {
        SkippedBack(find, len, scan, lastEnd, spans);
        SpansUnique(find, len, start + 1, lastEnd, spans);
      } else {
        var next := if end > start then end else end + 1;
        FirstSpan(find, len, scan, lastEnd, spans);
        TailBack(find, len, scan, next, lastEnd, spans);
        SpansUnique(find, len, next, Some(end), spans[1..]);
        assert spans == [spans[0]] + spans[1..];
      }
    }
  }

  lemma OnlyNoSpans(find: nat -> Option<(nat, nat)>, len: nat, scan: nat, lastEnd: Option<nat>, spans: seq<Span>)
    requires IsLeftmost(find, len) && (scan > len || find(scan).None?)
    requires Ordered(find, len, scan, lastEnd, spans)
    ensures spans == []
  {
    if spans != [] {
      assert FoundAt(find, spans[0].start);
    }
  }

  lemma SkippedBack(find: nat -> Option<(nat, nat)>, len: nat, scan: nat, lastEnd: Option<nat>, spans: seq<Span>)
    requires Forward(find, len) && IsLeftmost(find, len) && scan <= len && find(scan).Some?
    requires find(scan).value.0 == find(scan).value.1 && Some(find(scan).value.0) == lastEnd
    requires Ordered(find, len, scan, lastEnd, spans) && Complete(find, len, scan, lastEnd, spans)
    ensures Ordered(find, len, find(scan).value.0 + 1, lastEnd, spans)
    ensures Complete(find, len, find(scan).value.0 + 1, lastEnd, spans)
  {
    var start := find(scan).value.0;
    assert find(start) == find(scan);
    forall i | 0 <= i < |spans| ensures start < spans[i].start {
      assert FoundAt(find, spans[i].start) && FoundAt(find, spans[0].start);
      assert start <= spans[0].start;
      assert i > 0 ==> spans[0].start < spans[i].start;
    }
  }

  lemma FirstSpan(find: nat -> Option<(nat, nat)>, len: nat, scan: nat, lastEnd: Option<nat>, spans: seq<Span>)
    requires Forward(find, len) && IsLeftmost(find, len) && scan <= len && find(scan).Some?
    requires !(find(scan).value.0 == find(scan).value.1 && Some(find(scan).value.0) == lastEnd)
    requires Ordered(find, len, scan, lastEnd, spans) && Complete(find, len, scan, lastEnd, spans)
    ensures spans != [] && spans[0] == Span(find(scan).value.0, find(scan).value.1)
  {
    var start := find(scan).value.0;
    assert find(start) == find(scan);
    assert FoundAt(find, start);
    var i :| 0 <= i < |spans| && Accounts(find, spans[i], start);
    assert FoundAt(find, spans[0].start);
  }

  lemma TailBack(find: nat -> Option<(nat, nat)>, len: nat, scan: nat, next: nat, lastEnd: Option<nat>, spans: seq<Span>)
    requires Forward(find, len) && IsLeftmost(find, len) && scan <= len
    requires spans != [] && find(scan) == Some((spans[0].start, spans[0].end))
    requires next == if spans[0].end > spans[0].start then spans[0].end else spans[0].end + 1
    requires Ordered(find, len, scan, lastEnd, spans) && Complete(find, len, scan, lastEnd, spans)
    requires lastEnd.Some? ==> lastEnd.value <= scan
    ensures Ordered(find, len, next, Some(spans[0].end), spans[1..])
    ensures Complete(find, len, next, Some(spans[0].end), spans[1..])
  {
    hide Ordered, Complete, IsLeftmost, Forward;
    TailOrdered(find, len, scan, next, lastEnd, spans);
    TailComplete(find, len, scan, next, lastEnd, spans);
  }

  lemma TailOrdered(find: nat -> Option<(nat, nat)>, len: nat, scan: nat, next: nat, lastEnd: Option<nat>, spans: seq<Span>)
    requires Forward(find, len) && IsLeftmost(find, len) && scan <= len
    requires spans != [] && find(scan) == Some((spans[0].start, spans[0].end))
    requires next == if spans[0].end > spans[0].start then spans[0].end else spans[0].end + 1
    requires Ordered(find, len, scan, lastEnd, spans) && Complete(find, len, scan, lastEnd, spans)
    requires lastEnd.Some? ==> lastEnd.value <= scan
    ensures Ordered(find, len, next, Some(spans[0].end), spans[1..])
  {
    var rest := spans[1..];
    forall i | 0 <= i < |rest| ensures rest[i] == spans[i + 1] {}
  }

  lemma TailComplete(find: nat -> Option<(nat, nat)>, len: nat, scan: nat, next: nat, lastEnd: Option<nat>, spans: seq<Span>)
    requires Forward(find, len) && IsLeftmost(find, len) && scan <= len
    requires spans != [] && find(scan) == Some((spans[0].start, spans[0].end))
    requires next == if spans[0].end > spans[0].start then spans[0].end else spans[0].end + 1
    requires Ordered(find, len, scan, lastEnd, spans) && Complete(find, len, scan, lastEnd, spans)
    requires lastEnd.Some? ==> lastEnd.value <= scan
    ensures Complete(find, len, next, Some(spans[0].end), spans[1..])
  {
    hide Ordered, IsLeftmost;
    var rest := spans[1..];
    forall p: nat | next <= p <= len && FoundAt(find, p)
      ensures (find(p) == Some((p, p)) && Some(spans[0].end) == Some(p))
           || exists i :: 0 <= i < |rest| && Accounts(find, rest[i], p)
    {
      var i :| 0 <= i < |spans| && Accounts(find, spans[i], p);
      if i > 0 {
        assert Accounts(find, rest[i - 1], p);
      }
    }
  }

  lemma SpansStep(find: nat -> Option<(nat, nat)>, len: nat, scan: nat, lastEnd: Option<nat>)
    requires Forward(find, len)
    ensures Spans(find, len, scan, lastEnd)
         == if scan > len || find(scan).None? then []
            else
              var (start, end) := find(scan).value;
              if start == end && Some(start) == lastEnd then Spans(find, len, start + 1, lastEnd)
              else [Span(start, end)] + Spans(find, len, if end > start then end else end + 1, Some(end))
  {
  }

  /** Two searches that agree inside the input have the same spans. */
  lemma {:induction false} SpansSame(f: nat -> Option<(nat, nat)>, g: nat -> Option<(nat, nat)>, len: nat, scan: nat, lastEnd: Option<nat>)
    requires Forward(f, len) && Forward(g, len) && forall s: nat :: s <= len ==> f(s) == g(s)
    ensures Spans(f, len, scan, lastEnd) == Spans(g, len, scan, lastEnd)
    decreases len + 1 - scan
  {
    hide Spans;
    SpansStep(f, len, scan, lastEnd);
    SpansStep(g, len, scan, lastEnd);
    if scan <= len && f(scan).Some? {
      var (start, end) := f(scan).value;
      if start == end && Some(start) == lastEnd {
        SpansSame(f, g, len, start + 1, lastEnd);
      } else {
        SpansSame(f, g, len, if end > start then end else end + 1, Some(end));
      }
    }
  }
}

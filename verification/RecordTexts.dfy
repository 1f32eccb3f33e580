/** Which texts denote a record: a line, its pieces between tabs, and one piece for each key. */
module RecordTexts {
  import opened Wrappers
  import opened Widths
  import opened Records
  import opened Wire

  // ----- what a text has to look like -----

  /** The text is the one line; its end may be missing, and a carriage return may stand before it. */
  predicate IsLine(text: string, line: string) {
    && '\n' !in line
    && (|| text == line + "\r\n"
        || (text == line + "\n" && !EndsInReturn(line))
        || (text == line && line != []))
  }

  predicate EndsInReturn(line: string) {
    line != [] && line[|line| - 1] == '\r'
  }

  /** The pieces, with a tab between each and the next. */
  predicate ArePieces(line: string, pieces: seq<string>)
    decreases |pieces|
  {
    && pieces != []
    && '\t' !in pieces[0]
    && if |pieces| == 1 then line == pieces[0]
       else
         && |pieces[0]| < |line| && line[..|pieces[0]|] == pieces[0] && line[|pieces[0]|] == '\t'
         && ArePieces(line[|pieces[0]| + 1..], pieces[1..])
  }

  /** Exactly one piece begins with the key and an equals sign, and what follows is the value. */
  ghost predicate OnePiece(pieces: seq<string>, key: string, value: string) {
    exists i :: 0 <= i < |pieces| && pieces[i] == key + "=" + value
      && forall j :: 0 <= j < |pieces| && key + "=" <= pieces[j] ==> j == i
  }

  function Pow10(k: nat): nat {
    if k == 0 then 1 else 10 * Pow10(k - 1)
  }

  /** The text without the plus sign it may begin with. */
  function Unsigned(s: string): string {
    if s != [] && s[0] == '+' then s[1..] else s
  }

  predicate AllDigits(s: string) {
    forall i :: 0 <= i < |s| ==> '0' <= s[i] <= '9'
  }

  /** The number that the digits denote, the most significant first. */
  function Positional(digits: string): nat
    requires AllDigits(digits)
  {
    if digits == [] then 0
    else
      assert '0' <= digits[0] <= '9';
      (digits[0] as nat - 48) * Pow10(|digits| - 1) + Positional(digits[1..])
  }

  /** One digit at least, and perhaps a plus sign in front. */
  predicate Denotes(s: string, n: nat) {
    Unsigned(s) != [] && AllDigits(Unsigned(s)) && n == Positional(Unsigned(s))
  }

  ghost predicate NumberPiece(pieces: seq<string>, key: string, n: nat, limit: nat) {
    n < limit && exists value :: OnePiece(pieces, key, value) && Denotes(value, n)
  }

  // ----- lines -----

  lemma FirstEnd(text: string, i: nat)
    requires i <= |text| && '\n' !in text[..i] && (i < |text| ==> text[i] == '\n')
    ensures IndexOf(text, '\n') == i
  {
    assert forall k :: 0 <= k < i ==> text[k] == text[..i][k];
  }

  lemma LinesAre(text: string, line: string)
    ensures Lines(text) == [line] <==> IsLine(text, line)
  {
    if Lines(text) == [line] {
      LineOf(text, line);
    }
    if IsLine(text, line) {
      LineBack(text, line);
    }
  }

  lemma LineOf(text: string, line: string)
    requires Lines(text) == [line]
    ensures IsLine(text, line)
  {
    var i := IndexOf(text, '\n');
    if i == |text| {
      assert line == text;
    } else {
      var head, rest := text[..i], text[i + 1..];
      var lines := [WithoutReturn(head)] + Lines(rest);
      assert Lines(text) == lines && lines[0] == WithoutReturn(head) && |lines| == 1 + |Lines(rest)|;
      NoLines(rest);
      assert text == head + "\n";
      assert line == WithoutReturn(head);
      if head != [] && head[|head| - 1] == '\r' {
        assert head == line + "\r";
        assert text == line + "\r\n";
      }
    }
  }

  lemma NoLines(text: string)
    ensures Lines(text) == [] <==> text == []
  {
  }

  lemma LineBack(text: string, line: string)
    requires IsLine(text, line)
    ensures Lines(text) == [line]
  {
    NoLines([]);
    if text == line && line != [] {
      FirstEnd(text, |text|);
    } else {
      var head := if text == line + "\r\n" then line + "\r" else line;
      assert text == head + "\n" && text[..|head|] == head && text[|head| + 1..] == [];
      FirstEnd(text, |head|);
      assert WithoutReturn(head) == line;
      assert Lines(text) == [WithoutReturn(head)] + Lines([]);
    }
  }

  // ----- pieces -----

  lemma {:induction false} PiecesAre(line: string, pieces: seq<string>)
    ensures Split(line, '\t') == pieces <==> ArePieces(line, pieces)
    decreases |line|
  {
    hide Split, ArePieces;
    var i := IndexOf(line, '\t');
    if i == |line| {
      LastPiece(line, pieces);
    } else if pieces == [] {
      SplitSome(line);
      NoPieces(line);
    } else {
      PiecesAre(line[i + 1..], pieces[1..]);
      NextPiece(line, pieces);
    }
  }

  lemma LastPiece(line: string, pieces: seq<string>)
    requires IndexOf(line, '\t') == |line|
    ensures Split(line, '\t') == [line] && (ArePieces(line, pieces) <==> pieces == [line])
  {
  }

  lemma NextPiece(line: string, pieces: seq<string>)
    requires IndexOf(line, '\t') < |line| && pieces != []
    ensures var i := IndexOf(line, '\t');
            && (Split(line, '\t') == pieces <==> pieces[0] == line[..i] && pieces[1..] == Split(line[i + 1..], '\t'))
            && (ArePieces(line, pieces) <==> pieces[0] == line[..i] && ArePieces(line[i + 1..], pieces[1..]))
  {
    hide IndexOf;
    var i := IndexOf(line, '\t');
    var head, rest := line[..i], line[i + 1..];
    assert Split(line, '\t') == [head] + Split(rest, '\t');
    assert pieces == [pieces[0]] + pieces[1..];
    if ArePieces(line, pieces) {
      FirstPiece(line, pieces);
    }
  }

  lemma FirstPiece(line: string, pieces: seq<string>)
    requires ArePieces(line, pieces) && IndexOf(line, '\t') < |line|
    ensures |pieces| > 1 && |pieces[0]| == IndexOf(line, '\t')
  {
    assert forall k :: 0 <= k < |pieces[0]| ==> pieces[0][k] == line[..|pieces[0]|][k];
  }

  lemma NoPieces(line: string)
    ensures !ArePieces(line, [])
  {
  }

  lemma SplitSome(line: string)
    ensures Split(line, '\t') != []
  {
  }

  // ----- fields -----

  lemma {:induction false} NoPiece(pieces: seq<string>, key: string)
    ensures Values(pieces, key) == [] <==> forall j :: 0 <= j < |pieces| ==> !(key + "=" <= pieces[j])
  {
    if pieces != [] {
      NoPiece(pieces[1..], key);
      assert forall j :: 1 <= j < |pieces| ==> pieces[j] == pieces[1..][j - 1];
    }
  }

  lemma {:induction false} ValueOfPiece(pieces: seq<string>, key: string, value: string)
    ensures Values(pieces, key) == [value] <==> OnePiece(pieces, key, value)
  {
    if pieces != [] {
      var prefix, rest := key + "=", pieces[1..];
      assert forall j :: 1 <= j < |pieces| ==> pieces[j] == rest[j - 1];
      ValueOfPiece(rest, key, value);
      NoPiece(rest, key);
      if prefix <= pieces[0] {
        var here := pieces[0][|prefix|..];
        assert Values(pieces, key) == [here] + Values(rest, key);
        assert pieces[0] == prefix + here;
        OnlyValue(here, Values(rest, key), value);
        SameTail(prefix, here, value);
        PieceHere(pieces, key, value);
      } else {
        assert Values(pieces, key) == Values(rest, key);
        PieceLater(pieces, key, value);
      }
    }
  }

  lemma OnlyValue(here: string, others: seq<string>, value: string)
    ensures [here] + others == [value] <==> here == value && others == []
  {
    var all := [here] + others;
    assert all[0] == here && |all| == 1 + |others|;
  }

  lemma SameTail(prefix: string, a: string, b: string)
    ensures prefix + a == prefix + b <==> a == b
  {
    assert (prefix + a)[|prefix|..] == a && (prefix + b)[|prefix|..] == b;
  }

  lemma PieceHere(pieces: seq<string>, key: string, value: string)
    requires pieces != [] && key + "=" <= pieces[0]
    ensures OnePiece(pieces, key, value) <==>
      pieces[0] == key + "=" + value && forall j :: 1 <= j < |pieces| ==> !(key + "=" <= pieces[j])
  {
    if OnePiece(pieces, key, value) {
      var i :| 0 <= i < |pieces| && pieces[i] == key + "=" + value
        && forall j :: 0 <= j < |pieces| && key + "=" <= pieces[j] ==> j == i;
      assert i == 0;
    }
  }

  lemma PieceLater(pieces: seq<string>, key: string, value: string)
    requires pieces != [] && !(key + "=" <= pieces[0])
    ensures OnePiece(pieces, key, value) <==> OnePiece(pieces[1..], key, value)
  {
    var rest := pieces[1..];
    if OnePiece(pieces, key, value) {
      var i :| 0 <= i < |pieces| && pieces[i] == key + "=" + value
        && forall j :: 0 <= j < |pieces| && key + "=" <= pieces[j] ==> j == i;
      assert key + "=" <= key + "=" + value;
      assert rest[i - 1] == pieces[i];
      forall j | 0 <= j < |rest| && key + "=" <= rest[j] ensures j == i - 1 {
        assert pieces[j + 1] == rest[j];
      }
    }
    if OnePiece(rest, key, value) {
      var i :| 0 <= i < |rest| && rest[i] == key + "=" + value
        && forall j :: 0 <= j < |rest| && key + "=" <= rest[j] ==> j == i;
      assert pieces[i + 1] == rest[i];
      forall j | 0 <= j < |pieces| && key + "=" <= pieces[j] ensures j == i + 1 {
        assert j > 0 && rest[j - 1] == pieces[j];
      }
    }
  }

  lemma FieldIs(pieces: seq<string>, key: string, value: string)
    ensures Field(pieces, key) == Ok(value) <==> OnePiece(pieces, key, value)
  {
    hide OnePiece;
    ValueOfPiece(pieces, key, value);
    var values := Values(pieces, key);
    if Field(pieces, key) == Ok(value) {
      assert values == [value];
    }
  }

  // ----- numbers -----

  lemma TenTimes(a: nat, p: nat)
    ensures a * (10 * p) == 10 * (a * p)
  {
  }

  lemma {:induction false} AppendDigit(s: string, d: char)
    requires AllDigits(s) && '0' <= d <= '9'
    ensures AllDigits(s + [d])
    ensures Positional(s + [d]) == 10 * Positional(s) + (d as nat - 48)
  {
    if s == [] {
      assert [d][1..] == [];
      assert Positional([d]) == (d as nat - 48) * Pow10(0) + Positional([]);
    } else {
      AppendDigit(s[1..], d);
      assert (s + [d])[1..] == s[1..] + [d] && (s + [d])[0] == s[0];
      var first := s[0] as nat - 48;
      assert Pow10(|s|) == 10 * Pow10(|s| - 1);
      TenTimes(first, Pow10(|s| - 1));
    }
  }

  lemma {:induction false} DigitsArePositional(s: string)
    requires AllDigits(s)
    ensures DigitsValue(s) == Positional(s)
    decreases |s|
  {
    if s != [] {
      var n := |s| - 1;
      DigitsArePositional(s[..n]);
      AppendDigit(s[..n], s[n]);
      assert s[..n] + [s[n]] == s;
    }
  }

  lemma NatIs(s: string, limit: nat, n: nat)
    ensures ParseNat(s, limit) == Some(n) <==> n < limit && Denotes(s, n)
  {
    var digits := Unsigned(s);
    assert AreDigits(digits) <==> AllDigits(digits);
    if AllDigits(digits) {
      DigitsArePositional(digits);
    }
  }

  lemma NatFieldIs(pieces: seq<string>, key: string, limit: nat, n: nat)
    ensures NatField(pieces, key, limit) == Ok(n) <==> NumberPiece(pieces, key, n, limit)
  {
    hide Field, OnePiece, Denotes, ParseNat;
    if NatField(pieces, key, limit) == Ok(n) {
      var value := Field(pieces, key).value;
      FieldIs(pieces, key, value);
      NatIs(value, limit, n);
    }
    if NumberPiece(pieces, key, n, limit) {
      var value :| OnePiece(pieces, key, value) && Denotes(value, n);
      FieldIs(pieces, key, value);
      NatIs(value, limit, n);
    }
  }

  // ----- records -----

  /** The text is one line, whose first piece is the version. */
  ghost predicate HasPieces(text: string, version: string, pieces: seq<string>) {
    pieces != [] && pieces[0] == version && exists line :: IsLine(text, line) && ArePieces(line, pieces)
  }

  lemma PiecesOf(text: string, version: string, pieces: seq<string>)
    ensures FieldsOf(text, version) == Ok(pieces) <==> HasPieces(text, version, pieces)
  {
    hide Lines, Split, IsLine, ArePieces;
    if FieldsOf(text, version) == Ok(pieces) {
      var line := Lines(text)[0];
      assert Lines(text) == [line];
      LinesAre(text, line);
      PiecesAre(line, pieces);
      SplitSome(line);
    }
    if HasPieces(text, version, pieces) {
      var line :| IsLine(text, line) && ArePieces(line, pieces);
      LinesAre(text, line);
      PiecesAre(line, pieces);
    }
  }

  /** What the pieces of a fixed-work record have to hold. */
  ghost predicate HoldsFixed(pieces: seq<string>, r: FixedRecord) {
    && OnePiece(pieces, "mode", r.mode)
    && NumberPiece(pieces, "seed", r.seed, U64)
    && NumberPiece(pieces, "count", r.count, U64)
    && NumberPiece(pieces, "sessions", r.sessions, U64)
    && NumberPiece(pieces, "warmup_sessions", r.warmupSessions, U64)
    && NumberPiece(pieces, "requested", r.requested, U64)
    && NumberPiece(pieces, "completed", r.completed, U64)
    && NumberPiece(pieces, "attempts", r.attempts, U64)
    && NumberPiece(pieces, "elapsed_ns", r.elapsedNs, U128)
    && NumberPiece(pieces, "output_bytes", r.outputBytes, U64)
  }

  lemma FixedIs(pieces: seq<string>, r: FixedRecord)
    ensures FixedOf(pieces) == Ok(r) <==> HoldsFixed(pieces, r)
  {
    hide Field, NatField, OnePiece, NumberPiece;
    FieldIs(pieces, "mode", r.mode);
    NatFieldIs(pieces, "seed", U64, r.seed);
    NatFieldIs(pieces, "count", U64, r.count);
    NatFieldIs(pieces, "sessions", U64, r.sessions);
    NatFieldIs(pieces, "warmup_sessions", U64, r.warmupSessions);
    NatFieldIs(pieces, "requested", U64, r.requested);
    NatFieldIs(pieces, "completed", U64, r.completed);
    NatFieldIs(pieces, "attempts", U64, r.attempts);
    NatFieldIs(pieces, "elapsed_ns", U128, r.elapsedNs);
    NatFieldIs(pieces, "output_bytes", U64, r.outputBytes);
  }

  /**
   A text is read as a fixed-work record exactly when it is one line of the version, each key
   that is read has one piece, the pieces denote the record, and time elapsed.
   */
  lemma FixedExact(text: string, r: FixedRecord)
    ensures ParseFixed(text) == Ok(r) <==>
      r.elapsedNs > 0 && exists pieces :: HasPieces(text, "optiwork-fixed-v1", pieces) && HoldsFixed(pieces, r)
  {
    hide FieldsOf, FixedOf, HasPieces, HoldsFixed;
    if ParseFixed(text) == Ok(r) {
      var pieces := FieldsOf(text, FIXED_RECORD_VERSION).value;
      PiecesOf(text, FIXED_RECORD_VERSION, pieces);
      FixedIs(pieces, r);
    }
    if pieces :| r.elapsedNs > 0 && HasPieces(text, "optiwork-fixed-v1", pieces) && HoldsFixed(pieces, r) {
      PiecesOf(text, FIXED_RECORD_VERSION, pieces);
      FixedIs(pieces, r);
    }
  }

  /** What the pieces of a gate record have to hold to be believed. */
  ghost predicate HoldsGate(pieces: seq<string>, artifact: string, workload: string, units: nat) {
    && OnePiece(pieces, "status", "equivalent")
    && OnePiece(pieces, "artifact_id", artifact)
    && OnePiece(pieces, "workload_id", workload)
    && NumberPiece(pieces, "checked_units", units, U64)
  }

  /** The same of a gate record: it is believed exactly when it says that these were found equivalent, on some units. */
  lemma GateExact(text: string, artifact: string, workload: string, units: nat)
    ensures ParseGate(text, artifact, workload) == Ok(units) <==>
      units > 0 && exists pieces :: HasPieces(text, "optiwork-gate-v1", pieces) && HoldsGate(pieces, artifact, workload, units)
  {
    hide FieldsOf, Field, NatField, HasPieces, OnePiece, NumberPiece;
    if ParseGate(text, artifact, workload) == Ok(units) {
      var pieces := FieldsOf(text, GATE_RECORD_VERSION).value;
      PiecesOf(text, GATE_RECORD_VERSION, pieces);
      GatePieces(pieces, artifact, workload, units);
    }
    if pieces :| units > 0 && HasPieces(text, "optiwork-gate-v1", pieces) && HoldsGate(pieces, artifact, workload, units) {
      PiecesOf(text, GATE_RECORD_VERSION, pieces);
      GatePieces(pieces, artifact, workload, units);
    }
  }

  lemma GatePieces(pieces: seq<string>, artifact: string, workload: string, units: nat)
    ensures HoldsGate(pieces, artifact, workload, units) <==>
      && Field(pieces, "status") == Ok("equivalent") && Field(pieces, "artifact_id") == Ok(artifact)
      && Field(pieces, "workload_id") == Ok(workload) && NatField(pieces, "checked_units", U64) == Ok(units)
  {
    hide Field, NatField, OnePiece, NumberPiece;
    FieldIs(pieces, "status", "equivalent");
    FieldIs(pieces, "artifact_id", artifact);
    FieldIs(pieces, "workload_id", workload);
    NatFieldIs(pieces, "checked_units", U64, units);
  }
}

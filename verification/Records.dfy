/**
 The one-line records a benchmark prints and the harness reads back: tab-separated fields
 behind a version, each a key with its value.

 How such lines are split into fields, and that what is printed is split back.
 */
module Records {
  import opened Wrappers
  import opened Widths

  const FIXED_RECORD_VERSION := "optiwork-fixed-v1"
  const GATE_RECORD_VERSION := "optiwork-gate-v1"

  datatype RecordError =
    | NoRecord
    | MoreThanOneLine
    | WrongVersion
    | MissingField(key: string)
    | RepeatedField(key: string)
    | NotAnInteger(key: string)
    | NotPositive
    | NotEquivalent
    | WrongArtifact
    | WrongWorkload

  datatype FixedRecord = FixedRecord(
    mode: string, seed: nat, count: nat, sessions: nat, warmupSessions: nat, requested: nat, completed: nat,
    attempts: nat, elapsedNs: nat, outputBytes: nat)

  // ----- lines and fields -----

  function IndexOf(s: string, c: char): (i: nat)
    ensures i <= |s| && (forall k :: 0 <= k < i ==> s[k] != c) && (i < |s| ==> s[i] == c)
  {
    if s == [] || s[0] == c then 0 else 1 + IndexOf(s[1..], c)
  }

  function WithoutReturn(line: string): string {
    if line != [] && line[|line| - 1] == '\r' then line[..|line| - 1] else line
  }

  /** The lines of a text; the newline of the last one is optional. */
  function Lines(text: string): seq<string>
    decreases |text|
  {
    var i := IndexOf(text, '\n');
    if text == [] then []
    else if i == |text| then [text]
    else [WithoutReturn(text[..i])] + Lines(text[i + 1..])
  }

  /** The pieces between separators. */
  function Split(s: string, c: char): seq<string>
    decreases |s|
  {
    var i := IndexOf(s, c);
    if i == |s| then [s] else [s[..i]] + Split(s[i + 1..], c)
  }

  /** The value of each field that has the key. */
  function Values(fields: seq<string>, key: string): seq<string> {
    if fields == [] then []
    else
      var prefix := key + "=";
      (if prefix <= fields[0] then [fields[0][|prefix|..]] else []) + Values(fields[1..], key)
  }

  /** The value of the one field that has the key. */
  function Field(fields: seq<string>, key: string): Result<string, RecordError> {
    var values := Values(fields, key);
    if values == [] then Err(MissingField(key))
    else if |values| > 1 then Err(RepeatedField(key))
    else Ok(values[0])
  }

  /** The fields of a text that is one line of the version. */
  function FieldsOf(text: string, version: string): Result<seq<string>, RecordError> {
    var lines := Lines(text);
    if lines == [] then Err(NoRecord)
    else if |lines| > 1 then Err(MoreThanOneLine)
    else
      var fields := Split(lines[0], '\t');
      if fields[0] != version then Err(WrongVersion) else Ok(fields)
  }

  // ----- numbers -----

  predicate IsDigit(c: char) {
    '0' <= c <= '9'
  }

  function Digit(n: nat): char
    requires n < 10
  {
    '0' + n as char
  }

  function Decimal(n: nat): string {
    if n < 10 then [Digit(n)] else Decimal(n / 10) + [Digit(n % 10)]
  }

  predicate AreDigits(s: string) {
    forall i :: 0 <= i < |s| ==> IsDigit(s[i])
  }

  function DigitsValue(s: string): nat
    requires AreDigits(s)
  {
    if s == [] then 0
    else
      assert IsDigit(s[|s| - 1]);
      10 * DigitsValue(s[..|s| - 1]) + (s[|s| - 1] as int - '0' as int)
  }

  /** An unsigned integer below `limit`, with an optional plus sign. */
  function ParseNat(s: string, limit: nat): Option<nat> {
    var digits := if s != [] && s[0] == '+' then s[1..] else s;
    if digits == [] || !AreDigits(digits) then None
    else if DigitsValue(digits) < limit then Some(DigitsValue(digits))
    else None
  }

  function NatField(fields: seq<string>, key: string, limit: nat): Result<nat, RecordError> {
    var value :- Field(fields, key);
    match ParseNat(value, limit)
    case None => Err(NotAnInteger(key))
    case Some(n) => Ok(n)
  }

  lemma {:induction false} DecimalBack(n: nat)
    ensures Decimal(n) != [] && AreDigits(Decimal(n))
    ensures DigitsValue(Decimal(n)) == n
  {
    if n >= 10 {
      DecimalBack(n / 10);
      assert Decimal(n)[..|Decimal(n)| - 1] == Decimal(n / 10);
    } else {
      assert Decimal(n)[..0] == [];
      assert DigitsValue([]) == 0;
    }
  }

  /** A printed number below the limit is read back; any other is not a number. */
  lemma NumberBack(n: nat, limit: nat)
    ensures ParseNat(Decimal(n), limit) == if n < limit then Some(n) else None
  {
    DecimalBack(n);
    assert IsDigit(Decimal(n)[0]);
  }

  // ----- the printed records -----

  function JoinTabs(fields: seq<string>): string {
    if fields == [] then []
    else if |fields| == 1 then fields[0]
    else fields[0] + "\t" + JoinTabs(fields[1..])
  }

  /** Fields of the given keys and values. */
  function Tagged(keys: seq<string>, values: seq<string>): seq<string>
    requires |keys| == |values|
  {
    if keys == [] then [] else [keys[0] + "=" + values[0]] + Tagged(keys[1..], values[1..])
  }

  function PrintRecord(version: string, keys: seq<string>, values: seq<string>): string
    requires |keys| == |values|
  {
    JoinTabs([version] + Tagged(keys, values)) + "\n"
  }

  // ----- a printed record is read back field by field -----

  /** Neither a separator nor a line end. */
  predicate Clean(s: string) {
    '\t' !in s && '\n' !in s
  }

  lemma {:induction false} IndexOfEnd(s: string, c: char, rest: string)
    requires c !in s
    ensures IndexOf(s, c) == |s| && IndexOf(s + [c] + rest, c) == |s|
  {
    if s != [] {
      assert (s + [c] + rest)[1..] == s[1..] + [c] + rest;
      IndexOfEnd(s[1..], c, rest);
    }
  }

  lemma {:induction false} SplitJoined(fields: seq<string>)
    requires fields != [] && forall k :: 0 <= k < |fields| ==> Clean(fields[k])
    ensures Split(JoinTabs(fields), '\t') == fields && '\n' !in JoinTabs(fields)
  {
    if |fields| == 1 {
      IndexOfEnd(fields[0], '\t', "");
    } else {
      var rest := JoinTabs(fields[1..]);
      SplitJoined(fields[1..]);
      IndexOfEnd(fields[0], '\t', rest);
      assert JoinTabs(fields) == fields[0] + ['\t'] + rest;
      assert JoinTabs(fields)[..|fields[0]|] == fields[0] && JoinTabs(fields)[|fields[0]| + 1..] == rest;
    }
  }

  lemma OneLine(s: string)
    requires '\n' !in s && s != [] && s[|s| - 1] != '\r'
    ensures Lines(s + "\n") == [s]
  {
    IndexOfEnd(s, '\n', "");
    assert s + "\n" == s + ['\n'] + "";
    assert (s + "\n")[..|s|] == s && (s + "\n")[|s| + 1..] == [];
    assert Lines([]) == [];
  }

  lemma {:induction false} JoinedLast(fields: seq<string>)
    requires fields != [] && fields[|fields| - 1] != []
    ensures var last := fields[|fields| - 1];
            JoinTabs(fields) != [] && JoinTabs(fields)[|JoinTabs(fields)| - 1] == last[|last| - 1]
  {
    if |fields| > 1 {
      JoinedLast(fields[1..]);
    }
  }

  lemma PrintedFields(version: string, fields: seq<string>)
    requires forall k :: 0 <= k < |fields| ==> Clean(fields[k])
    requires Clean(version) && fields != [] && fields[|fields| - 1] != []
    requires fields[|fields| - 1][|fields[|fields| - 1]| - 1] != '\r'
    ensures FieldsOf(JoinTabs([version] + fields) + "\n", version) == Ok([version] + fields)
  {
    var all := [version] + fields;
    assert all[|all| - 1] == fields[|fields| - 1];
    SplitJoined(all);
    JoinedLast(all);
    OneLine(JoinTabs(all));
  }

  predicate KeyLike(key: string) {
    '=' !in key && Clean(key)
  }

  lemma KeyOfField(key: string, other: string, value: string)
    requires '=' !in key && '=' !in other
    ensures key + "=" <= other + "=" + value <==> key == other
    ensures (other + "=" + value)[|other + "="|..] == value
  {
    var prefix, field := key + "=", other + "=" + value;
    assert prefix[|key|] == '=' && field[|other|] == '=';
    if prefix <= field {
      assert forall i :: 0 <= i < |prefix| ==> field[i] == prefix[i];
      assert |key| == |other|;
      assert key == field[..|key|] && other == field[..|other|];
    }
  }

  predicate Distinct(keys: seq<string>) {
    forall i, j :: 0 <= i < j < |keys| ==> keys[i] != keys[j]
  }

  lemma {:induction false} NoValue(keys: seq<string>, values: seq<string>, key: string)
    requires |keys| == |values| && '=' !in key && key !in keys
    requires forall k :: 0 <= k < |keys| ==> '=' !in keys[k]
    ensures Values(Tagged(keys, values), key) == []
  {
    if keys != [] {
      KeyOfField(key, keys[0], values[0]);
      NoValue(keys[1..], values[1..], key);
    }
  }

  lemma {:induction false} OneValue(keys: seq<string>, values: seq<string>, i: nat)
    requires |keys| == |values| && i < |keys| && Distinct(keys)
    requires forall k :: 0 <= k < |keys| ==> '=' !in keys[k]
    ensures Values(Tagged(keys, values), keys[i]) == [values[i]]
  {
    KeyOfField(keys[i], keys[0], values[0]);
    if i == 0 {
      NoValue(keys[1..], values[1..], keys[0]);
    } else {
      OneValue(keys[1..], values[1..], i - 1);
    }
  }

  lemma PrefixHas(prefix: string, s: string)
    requires '=' in prefix
    ensures prefix <= s ==> '=' in s
  {
    var k :| 0 <= k < |prefix| && prefix[k] == '=';
    if prefix <= s {
      assert s[k] == '=';
    }
  }

  /** Behind the version, the field of each key is its value. */
  lemma FieldOfTagged(version: string, keys: seq<string>, values: seq<string>, i: nat)
    requires |keys| == |values| && i < |keys| && Distinct(keys) && '=' !in version
    requires forall k :: 0 <= k < |keys| ==> '=' !in keys[k]
    ensures Field([version] + Tagged(keys, values), keys[i]) == Ok(values[i])
  {
    var fields := [version] + Tagged(keys, values);
    assert fields[1..] == Tagged(keys, values);
    OneValue(keys, values, i);
    assert (keys[i] + "=")[|keys[i]|] == '=';
    PrefixHas(keys[i] + "=", version);
  }

  lemma {:induction false} TaggedClean(keys: seq<string>, values: seq<string>)
    requires |keys| == |values|
    requires forall k :: 0 <= k < |keys| ==> Clean(keys[k]) && Clean(values[k])
    ensures |Tagged(keys, values)| == |keys|
    ensures forall k :: 0 <= k < |keys| ==> Tagged(keys, values)[k] == keys[k] + "=" + values[k] && Clean(Tagged(keys, values)[k])
  {
    if keys != [] {
      TaggedClean(keys[1..], values[1..]);
    }
  }

  /** A printed record is read as its version and its fields. */
  lemma RecordBack(version: string, keys: seq<string>, values: seq<string>)
    requires |keys| == |values| > 0 && KeyLike(version) && Distinct(keys)
    requires forall k :: 0 <= k < |keys| ==> KeyLike(keys[k]) && Clean(values[k])
    requires values[|values| - 1] != [] && values[|values| - 1][|values[|values| - 1]| - 1] != '\r'
    ensures FieldsOf(PrintRecord(version, keys, values), version) == Ok([version] + Tagged(keys, values))
    ensures forall i :: 0 <= i < |keys| ==> Field([version] + Tagged(keys, values), keys[i]) == Ok(values[i])
  {
    TaggedClean(keys, values);
    PrintedFields(version, Tagged(keys, values));
    forall i | 0 <= i < |keys| ensures Field([version] + Tagged(keys, values), keys[i]) == Ok(values[i]) {
      FieldOfTagged(version, keys, values, i);
    }
  }
}

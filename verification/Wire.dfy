/** The fixed-work record and the gate record: what is printed, what is read, and that the two agree. */
module Wire {
  import opened Wrappers
  import opened Widths
  import opened Records
  import CampaignPlan

  // ----- the fixed-work record -----

  const FIXED_KEYS: seq<string> :=
    ["mode", "seed", "count", "sessions", "warmup_sessions", "requested", "completed", "attempts", "elapsed_ns",
     "items_per_second", "output_bytes"]

  /** The printed record; `throughput` is the printed rate, which no reader looks at. */
  function PrintFixed(r: FixedRecord, throughput: string): string {
    PrintRecord(FIXED_RECORD_VERSION, FIXED_KEYS, FixedValues(r, throughput))
  }

  function FixedValues(r: FixedRecord, throughput: string): seq<string> {
    [r.mode, Decimal(r.seed), Decimal(r.count), Decimal(r.sessions), Decimal(r.warmupSessions), Decimal(r.requested),
     Decimal(r.completed), Decimal(r.attempts), Decimal(r.elapsedNs), throughput, Decimal(r.outputBytes)]
  }

  function ParseFixed(text: string): Result<FixedRecord, RecordError> {
    var fields :- FieldsOf(text, FIXED_RECORD_VERSION);
    var record :- FixedOf(fields);
    if record.elapsedNs == 0 then Err(NotPositive) else Ok(record)
  }

  function FixedOf(fields: seq<string>): Result<FixedRecord, RecordError> {
    var mode :- Field(fields, "mode");
    var seed :- NatField(fields, "seed", U64);
    var count :- NatField(fields, "count", U64);
    var sessions :- NatField(fields, "sessions", U64);
    var warmupSessions :- NatField(fields, "warmup_sessions", U64);
    var requested :- NatField(fields, "requested", U64);
    var completed :- NatField(fields, "completed", U64);
    var attempts :- NatField(fields, "attempts", U64);
    var elapsedNs :- NatField(fields, "elapsed_ns", U128);
    var outputBytes :- NatField(fields, "output_bytes", U64);
    Ok(FixedRecord(mode, seed, count, sessions, warmupSessions, requested, completed, attempts, elapsedNs, outputBytes))
  }

  /** The record is one that can be printed and read back. */
  predicate Fits(r: FixedRecord) {
    && Clean(r.mode)
    && r.seed < U64 && r.count < U64 && r.sessions < U64 && r.warmupSessions < U64 && r.requested < U64
    && r.completed < U64 && r.attempts < U64 && 0 < r.elapsedNs < U128 && r.outputBytes < U64
  }

  // ----- what is read is clean -----

  lemma {:induction false} SplitClean(s: string)
    ensures forall k :: 0 <= k < |Split(s, '\t')| ==> '\t' !in Split(s, '\t')[k]
    ensures '\n' !in s ==> forall k :: 0 <= k < |Split(s, '\t')| ==> '\n' !in Split(s, '\t')[k]
    decreases |s|
  {
    var i := IndexOf(s, '\t');
    if i < |s| {
      SplitClean(s[i + 1..]);
    }
  }

  lemma {:induction false} LinesClean(text: string)
    ensures forall k :: 0 <= k < |Lines(text)| ==> '\n' !in Lines(text)[k]
    decreases |text|
  {
    var i := IndexOf(text, '\n');
    if i < |text| {
      LinesClean(text[i + 1..]);
    }
  }

  lemma {:induction false} ValuesClean(fields: seq<string>, key: string)
    requires forall k :: 0 <= k < |fields| ==> Clean(fields[k])
    ensures forall k :: 0 <= k < |Values(fields, key)| ==> Clean(Values(fields, key)[k])
  {
    if fields != [] {
      ValuesClean(fields[1..], key);
    }
  }

  lemma NatFieldBound(fields: seq<string>, key: string, limit: nat)
    ensures NatField(fields, key, limit).Ok? ==> NatField(fields, key, limit).value < limit
  {
  }

  /** Whatever is read could have been printed. */
  lemma ParsedFits(text: string)
    ensures ParseFixed(text).Ok? ==> Fits(ParseFixed(text).value)
  {
    hide Field, NatField, Split, Lines, Values;
    if ParseFixed(text).Ok? {
      var fields := FieldsOf(text, FIXED_RECORD_VERSION).value;
      LinesClean(text);
      SplitClean(Lines(text)[0]);
      FieldClean(fields, "mode");
      NatFieldBound(fields, "seed", U64);
      NatFieldBound(fields, "count", U64);
      NatFieldBound(fields, "sessions", U64);
      NatFieldBound(fields, "warmup_sessions", U64);
      NatFieldBound(fields, "requested", U64);
      NatFieldBound(fields, "completed", U64);
      NatFieldBound(fields, "attempts", U64);
      NatFieldBound(fields, "elapsed_ns", U128);
      NatFieldBound(fields, "output_bytes", U64);
    }
  }

  lemma FieldClean(fields: seq<string>, key: string)
    requires forall k :: 0 <= k < |fields| ==> Clean(fields[k])
    ensures Field(fields, key).Ok? ==> Clean(Field(fields, key).value)
  {
    ValuesClean(fields, key);
  }

  // ----- the round trip -----

  lemma FixedKeysDistinct()
    ensures Distinct(FIXED_KEYS)
  {
    forall i, j | 0 <= i < j < |FIXED_KEYS| ensures FIXED_KEYS[i] != FIXED_KEYS[j] {
      assert |FIXED_KEYS[i]| == [4, 4, 5, 8, 15, 9, 9, 8, 10, 16, 12][i];
      assert |FIXED_KEYS[j]| == [4, 4, 5, 8, 15, 9, 9, 8, 10, 16, 12][j];
      assert FIXED_KEYS[i][0] == "mscswrcaeio"[i] && FIXED_KEYS[j][0] == "mscswrcaeio"[j];
    }
  }

  lemma FixedKeysAreKeys()
    ensures forall k :: 0 <= k < |FIXED_KEYS| ==> KeyLike(FIXED_KEYS[k])
  {
    forall k | 0 <= k < |FIXED_KEYS| ensures KeyLike(FIXED_KEYS[k]) {
      if k < 4 {
      } else if k < 8 {
      } else {
      }
    }
  }

  lemma VersionsAreKeys()
    ensures KeyLike(FIXED_RECORD_VERSION) && KeyLike(GATE_RECORD_VERSION)
  {
  }

  lemma NatFieldBack(fields: seq<string>, key: string, n: nat, limit: nat)
    requires Field(fields, key) == Ok(Decimal(n)) && n < limit
    ensures NatField(fields, key, limit) == Ok(n)
  {
    NumberBack(n, limit);
  }

  lemma DecimalClean(n: nat)
    ensures Clean(Decimal(n)) && Decimal(n) != [] && Decimal(n)[|Decimal(n)| - 1] != '\r'
  {
    DecimalBack(n);
  }

  /** The fields of a printed record hold what was printed. */
  lemma FixedFields(r: FixedRecord, throughput: string)
    requires Clean(r.mode) && Clean(throughput)
    ensures FieldsOf(PrintFixed(r, throughput), FIXED_RECORD_VERSION).Ok?
    ensures var fields := FieldsOf(PrintFixed(r, throughput), FIXED_RECORD_VERSION).value;
            && Field(fields, "mode") == Ok(r.mode)
            && Field(fields, "seed") == Ok(Decimal(r.seed))
            && Field(fields, "count") == Ok(Decimal(r.count))
            && Field(fields, "sessions") == Ok(Decimal(r.sessions))
            && Field(fields, "warmup_sessions") == Ok(Decimal(r.warmupSessions))
            && Field(fields, "requested") == Ok(Decimal(r.requested))
            && Field(fields, "completed") == Ok(Decimal(r.completed))
            && Field(fields, "attempts") == Ok(Decimal(r.attempts))
            && Field(fields, "elapsed_ns") == Ok(Decimal(r.elapsedNs))
            && Field(fields, "output_bytes") == Ok(Decimal(r.outputBytes))
  {
    hide FieldsOf, Field, Decimal, Tagged, Distinct, KeyLike, Clean, PrintRecord;
    FixedKeysDistinct();
    FixedKeysAreKeys();
    VersionsAreKeys();
    var values := FixedValues(r, throughput);
    ValuesAreClean(r, throughput);
    DecimalClean(r.outputBytes);
    RecordBack(FIXED_RECORD_VERSION, FIXED_KEYS, values);
    var fields := [FIXED_RECORD_VERSION] + Tagged(FIXED_KEYS, values);
    assert Field(fields, FIXED_KEYS[0]) == Ok(values[0]) && Field(fields, FIXED_KEYS[1]) == Ok(values[1]);
    assert Field(fields, FIXED_KEYS[2]) == Ok(values[2]) && Field(fields, FIXED_KEYS[3]) == Ok(values[3]);
    assert Field(fields, FIXED_KEYS[4]) == Ok(values[4]) && Field(fields, FIXED_KEYS[5]) == Ok(values[5]);
    assert Field(fields, FIXED_KEYS[6]) == Ok(values[6]) && Field(fields, FIXED_KEYS[7]) == Ok(values[7]);
    assert Field(fields, FIXED_KEYS[8]) == Ok(values[8]) && Field(fields, FIXED_KEYS[10]) == Ok(values[10]);
  }

  lemma ValuesAreClean(r: FixedRecord, throughput: string)
    requires Clean(r.mode) && Clean(throughput)
    ensures forall k :: 0 <= k < |FIXED_KEYS| ==> Clean(FixedValues(r, throughput)[k])
  {
    hide Clean, Decimal;
    DecimalClean(r.seed);
    DecimalClean(r.count);
    DecimalClean(r.sessions);
    DecimalClean(r.warmupSessions);
    DecimalClean(r.requested);
    DecimalClean(r.completed);
    DecimalClean(r.attempts);
    DecimalClean(r.elapsedNs);
    DecimalClean(r.outputBytes);
  }

  /**
   A printed record is read back exactly when its mode has no tab and no line end, its
   numbers fit their types, and time elapsed.
   */
  lemma FixedRoundTrip(r: FixedRecord, throughput: string)
    requires Clean(throughput)
    ensures ParseFixed(PrintFixed(r, throughput)) == Ok(r) <==> Fits(r)
  {
    ParsedFits(PrintFixed(r, throughput));
    if Fits(r) {
      hide FieldsOf, Field, Decimal, NatField, PrintFixed;
      FixedFields(r, throughput);
      var fields := FieldsOf(PrintFixed(r, throughput), FIXED_RECORD_VERSION).value;
      NatFieldBack(fields, "seed", r.seed, U64);
      NatFieldBack(fields, "count", r.count, U64);
      NatFieldBack(fields, "sessions", r.sessions, U64);
      NatFieldBack(fields, "warmup_sessions", r.warmupSessions, U64);
      NatFieldBack(fields, "requested", r.requested, U64);
      NatFieldBack(fields, "completed", r.completed, U64);
      NatFieldBack(fields, "attempts", r.attempts, U64);
      NatFieldBack(fields, "elapsed_ns", r.elapsedNs, U128);
      NatFieldBack(fields, "output_bytes", r.outputBytes, U64);
    }
  }

  // ----- the gate record -----

  const GATE_KEYS: seq<string> := ["status", "artifact_id", "workload_id", "checked_units"]

  function PrintGate(artifact: string, workload: string, units: nat): string {
    PrintRecord(GATE_RECORD_VERSION, GATE_KEYS, ["equivalent", artifact, workload, Decimal(units)])
  }

  /** The number of units the gate checked, for the artifact and workload that were asked for. */
  function ParseGate(text: string, artifact: string, workload: string): Result<nat, RecordError> {
    var fields :- FieldsOf(text, GATE_RECORD_VERSION);
    var status :- Field(fields, "status");
    if status != "equivalent" then Err(NotEquivalent)
    else
      var artifactId :- Field(fields, "artifact_id");
      if artifactId != artifact then Err(WrongArtifact)
      else
        var workloadId :- Field(fields, "workload_id");
        if workloadId != workload then Err(WrongWorkload)
        else
          var units :- NatField(fields, "checked_units", U64);
          if units == 0 then Err(NotPositive) else Ok(units)
  }

  lemma GateKeysDistinct()
    ensures Distinct(GATE_KEYS) && forall k :: 0 <= k < |GATE_KEYS| ==> KeyLike(GATE_KEYS[k])
  {
    forall i, j | 0 <= i < j < |GATE_KEYS| ensures GATE_KEYS[i] != GATE_KEYS[j] {
      assert GATE_KEYS[i][0] == "sawc"[i] && GATE_KEYS[j][0] == "sawc"[j];
    }
  }

  /**
   A gate record printed for clean ids is believed by whoever expects those ids, and by no
   one else, and only if units were checked.
   */
  lemma CleanGateBack(artifact: string, workload: string, units: nat, wantArtifact: string, wantWorkload: string)
    requires Clean(artifact) && Clean(workload)
    ensures ParseGate(PrintGate(artifact, workload, units), wantArtifact, wantWorkload)
         == if artifact != wantArtifact then Err(WrongArtifact)
            else if workload != wantWorkload then Err(WrongWorkload)
            else if units >= U64 then Err(NotAnInteger("checked_units"))
            else if units == 0 then Err(NotPositive)
            else Ok(units)
  {
    hide FieldsOf, Field, Decimal, Tagged, Distinct, KeyLike, PrintRecord, ParseNat;
    GateKeysDistinct();
    VersionsAreKeys();
    DecimalClean(units);
    NumberBack(units, U64);
    var values := ["equivalent", artifact, workload, Decimal(units)];
    RecordBack(GATE_RECORD_VERSION, GATE_KEYS, values);
    var fields := [GATE_RECORD_VERSION] + Tagged(GATE_KEYS, values);
    assert Field(fields, GATE_KEYS[0]) == Ok(values[0]) && Field(fields, GATE_KEYS[1]) == Ok(values[1]);
    assert Field(fields, GATE_KEYS[2]) == Ok(values[2]) && Field(fields, GATE_KEYS[3]) == Ok(values[3]);
  }

  /** The ids a validated plan may use are clean. */
  lemma ValidIdClean(id: string)
    requires CampaignPlan.ValidId(id)
    ensures Clean(id)
  {
    assert forall i :: 0 <= i < |id| ==> CampaignPlan.IsIdChar(id[i]);
  }

  /**
   What a gate prints for an artifact and a workload of a validated plan is believed if and
   only if these are the ones it was run for and the units it checked are some, and fewer than 2^64.
   */
  lemma GateRoundTrip(artifact: string, workload: string, units: nat, wantArtifact: string, wantWorkload: string)
    requires CampaignPlan.ValidId(artifact) && CampaignPlan.ValidId(workload)
    ensures var r := ParseGate(PrintGate(artifact, workload, units), wantArtifact, wantWorkload);
            && (r.Ok? <==> artifact == wantArtifact && workload == wantWorkload && 0 < units < U64)
            && (r.Ok? ==> r.value == units)
  {
    ValidIdClean(artifact);
    ValidIdClean(workload);
    CleanGateBack(artifact, workload, units, wantArtifact, wantWorkload);
  }
}

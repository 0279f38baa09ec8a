/**
 * Identity keys derived from canonical JSON (packages/core/src/identity.ts: digest and the key
 * constructors). SHA-256 is taken as injective, so a digest stands for the text it was computed from.
 */
module Identity {
  import opened Wrappers
  import opened Sequences
  import opened JsonGrammar
  import opened Canonical
  import opened CanonicalProofs
  import opened CanonicalText

  datatype Sha256 = Sha256(preimage: Text)

  datatype Key = Key(prefix: string, digest: Sha256)

  const MAX_SAFE_INTEGER: int := 0x1F_FFFF_FFFF_FFFF

  function DigestOf(v: Json): Option<Sha256>
  {
    var t := Canonicalize(v);
    if t.None? then None else Some(Sha256(t.value))
  }

  function Ascii(s: string): Text
  {
    seq(|s|, i requires 0 <= i < |s| => s[i] as int % 0x80)
  }

  /** Property names are told apart by their length and second letter. */
  function Code(name: Text): int
  {
    128 * |name| + if |name| >= 2 then name[1] else 0
  }

  lemma AsciiCode(s: string)
    requires |s| >= 2
    ensures Code(Ascii(s)) == 128 * |s| + s[1] as int % 0x80
  {
  }

  lemma CodesDiffer(names: seq<Text>, codes: seq<int>)
    requires |codes| == |names| && Distinct(codes) && forall i :: 0 <= i < |names| ==> codes[i] == Code(names[i])
    ensures Distinct(names)
  {
    hide Code;
  }

  /** An object literal with the given property names. */
  function Record(names: seq<Text>, values: seq<Json>): Entries
    requires |names| == |values|
  {
    if names == [] then NoEntries else Entry(names[0], values[0], Record(names[1..], values[1..]))
  }

  function MakeKey(prefix: string, names: seq<Text>, values: seq<Json>): Option<Key>
    requires |names| == |values|
  {
    var d := DigestOf(JObj(Record(names, values)));
    if d.None? then None else Some(Key(prefix, d.value))
  }

  function Decimal(n: nat): Text
  {
    if n < 10 then [ZERO + n] else Decimal(n / 10) + [ZERO + n % 10]
  }

  function Integer(n: nat): Json
  {
    JNum(Finite(Number(false, Decimal(n), [], [])))
  }

  function TextOrNull(t: Option<Text>): Json
  {
    if t.Some? then JStr(t.value) else JNull
  }

  // The key constructors; `clean` is the non-empty, trimmed, NFC test on identity text

  datatype SourceRecord = SourceRecord(profile: Text, sourceNamespace: Text, externalId: Text)

  function SourceNames(): seq<Text>
  {
    [Ascii("profile"), Ascii("sourceNamespace"), Ascii("externalId")]
  }

  function SourceRecordKey(r: SourceRecord, clean: Text -> bool): Option<Key>
  {
    if !clean(r.profile) || !clean(r.sourceNamespace) || !clean(r.externalId) then None
    else MakeKey("srk_", SourceNames(), [JStr(r.profile), JStr(r.sourceNamespace), JStr(r.externalId)])
  }

  datatype Observation = Observation(sourceRecordKey: Text, sourceRevision: Option<Text>, payload: Json)

  function ObservationNames(): seq<Text>
  {
    [Ascii("sourceRecordKey"), Ascii("sourceRevision"), Ascii("payload")]
  }

  function ObservationId(o: Observation): Option<Key>
  {
    MakeKey("obs_", ObservationNames(), [JStr(o.sourceRecordKey), TextOrNull(o.sourceRevision), o.payload])
  }

  datatype Job = Job(profile: Text, pipeline: Text, pipelineVersion: int, task: Text, pluginId: Text,
                     pluginVersion: Text, entityKey: Text, mode: Text)

  function JobNames(): seq<Text>
  {
    [Ascii("profile"), Ascii("pipeline"), Ascii("pipelineVersion"), Ascii("task"), Ascii("pluginId"),
     Ascii("pluginVersion"), Ascii("entityKey"), Ascii("mode")]
  }

  function JobKey(j: Job, clean: Text -> bool): Option<Key>
  {
    if !(clean(j.profile) && clean(j.pipeline) && clean(j.task) && clean(j.pluginId) && clean(j.pluginVersion)
         && clean(j.entityKey) && clean(j.mode)) then None
    else if !(0 < j.pipelineVersion <= MAX_SAFE_INTEGER) then None
    else MakeKey("job_", JobNames(), [JStr(j.profile), JStr(j.pipeline), Integer(j.pipelineVersion), JStr(j.task),
                                      JStr(j.pluginId), JStr(j.pluginVersion), JStr(j.entityKey), JStr(j.mode)])
  }

  datatype Checkpoint = Checkpoint(profile: Text, pipeline: Text, pipelineVersion: int, stageId: Text, pluginId: Text,
                                   pluginVersion: Text, sourceNamespace: Text, target: Text, partition: Text,
                                     mode: Text)

  function CheckpointNames(): seq<Text>
  {
    [Ascii("profile"), Ascii("pipeline"), Ascii("pipelineVersion"), Ascii("stageId"), Ascii("pluginId"),
     Ascii("pluginVersion"), Ascii("sourceNamespace"), Ascii("target"), Ascii("partition"), Ascii("mode")]
  }

  function CheckpointKey(c: Checkpoint, clean: Text -> bool): Option<Key>
  {
    if !(clean(c.profile) && clean(c.pipeline) && clean(c.stageId) && clean(c.pluginId) && clean(c.pluginVersion)
         && clean(c.sourceNamespace) && clean(c.target) && clean(c.partition) && clean(c.mode)) then None
    else if !(0 < c.pipelineVersion <= MAX_SAFE_INTEGER) then None
    else MakeKey("chk_", CheckpointNames(),
                 [JStr(c.profile), JStr(c.pipeline), Integer(c.pipelineVersion), JStr(c.stageId), JStr(c.pluginId),
                  JStr(c.pluginVersion), JStr(c.sourceNamespace), JStr(c.target), JStr(c.partition), JStr(c.mode)])
  }

  // Proofs

  lemma {:induction false} DecimalIsExact(n: nat)
    ensures ValidWhole(Decimal(n)) && NumeralValue(Decimal(n)) == n
    ensures n > 0 ==> Decimal(n)[0] != ZERO
    decreases n
  {
    var t := Decimal(n);
    if n < 10 {
      assert t[..0] == [] && NumeralValue([]) == 0;
    } else {
      DecimalIsExact(n / 10);
      assert t[..|t| - 1] == Decimal(n / 10);
    }
  }

  ghost predicate Printable(values: seq<Json>)
  {
    forall v | v in values :: WellFormed(v) && AllFinite(v)
  }

  lemma {:induction false} RecordIsWellFormed(names: seq<Text>, values: seq<Json>)
    requires |names| == |values| && Distinct(names) && Printable(values)
    ensures WellFormedEntries(Record(names, values)) && AllFiniteEntries(Record(names, values))
    ensures forall k | k in KeysOf(Record(names, values)) :: k in names
    decreases |names|
  {
    hide WellFormed, AllFinite;
    if names != [] {
      RecordIsWellFormed(names[1..], values[1..]);
      assert values[0] in values;
      assert forall i | 0 <= i < |names| - 1 :: names[1..][i] == names[i + 1];
    }
  }

  /** A record maps each name to its value. */
  lemma {:induction false} RecordField(names: seq<Text>, values: seq<Json>, i: nat)
    requires |names| == |values| && Distinct(names) && i < |names|
    ensures names[i] in KeysOf(Record(names, values))
    ensures DenoteEntries(Record(names, values))[names[i]] == Denote(values[i])
    decreases |names|
  {
    hide Denote;
    if i > 0 {
      RecordField(names[1..], values[1..], i - 1);
    }
  }

  lemma {:induction false} SameValuesSameMeaning(names: seq<Text>, a: seq<Json>, b: seq<Json>)
    requires |names| == |a| == |b| && forall i | 0 <= i < |names| :: Denote(a[i]) == Denote(b[i])
    ensures DenoteEntries(Record(names, a)) == DenoteEntries(Record(names, b))
    decreases |names|
  {
    hide Denote;
    if names != [] {
      SameValuesSameMeaning(names[1..], a[1..], b[1..]);
    }
  }

  lemma RecordMeaning(names: seq<Text>, a: seq<Json>, b: seq<Json>)
    requires |names| == |a| == |b| && Distinct(names)
    ensures DenoteEntries(Record(names, a)) == DenoteEntries(Record(names, b))
       <==> forall i | 0 <= i < |names| :: Denote(a[i]) == Denote(b[i])
  {
    hide Denote, DenoteEntries, Record;
    if forall i | 0 <= i < |names| :: Denote(a[i]) == Denote(b[i]) {
      SameValuesSameMeaning(names, a, b);
    }
    forall i | 0 <= i < |names|
      ensures names[i] in DenoteEntries(Record(names, a)) && DenoteEntries(Record(names, a))[names[i]] == Denote(a[i])
      ensures names[i] in DenoteEntries(Record(names, b)) && DenoteEntries(Record(names, b))[names[i]] == Denote(b[i])
    {
      RecordField(names, a, i);
      RecordField(names, b, i);
    }
  }

  /** Two keys made under the same names are equal exactly when their values mean the same. */
  lemma KeysAgree(prefix: string, names: seq<Text>, a: seq<Json>, b: seq<Json>)
    requires |names| == |a| == |b| && Distinct(names) && Printable(a) && Printable(b)
    ensures MakeKey(prefix, names, a).Some?
    ensures MakeKey(prefix, names, a) == MakeKey(prefix, names, b)
       <==> forall i | 0 <= i < |names| :: Denote(a[i]) == Denote(b[i])
  {
    hide WellFormedEntries, AllFiniteEntries, DenoteEntries, Record, Normalize, Stringify;
    RecordIsWellFormed(names, a);
    RecordIsWellFormed(names, b);
    RecordMeaning(names, a, b);
    CanonicalTextIsMeaning(JObj(Record(names, a)), JObj(Record(names, b)));
  }

  /** Property names are told apart by their length and second letter. */
  lemma {:induction false} NamesDiffer(names: seq<Text>)
    requires forall n | n in names :: |n| >= 2
    requires forall i, j | 0 <= i < j < |names| :: |names[i]| != |names[j]| || names[i][1] != names[j][1]
    ensures Distinct(names)
  {
  }

  lemma SourceNamesDiffer()
    ensures Distinct(SourceNames()) && Distinct(ObservationNames())
  {
    NamesDiffer(SourceNames());
    NamesDiffer(ObservationNames());
  }

  lemma JobNamesDiffer()
    ensures Distinct(JobNames())
  {
    NamesDiffer(JobNames());
  }

  lemma CheckpointNamesDiffer()
    ensures Distinct(CheckpointNames())
  {
    NamesDiffer(CheckpointNames());
  }

  lemma SourceRecordKeysDiffer(a: SourceRecord, b: SourceRecord, clean: Text -> bool)
    requires SourceRecordKey(a, clean).Some? && SourceRecordKey(b, clean).Some?
    ensures SourceRecordKey(a, clean) == SourceRecordKey(b, clean) <==> a == b
  {
    hide MakeKey;
    SourceNamesDiffer();
    var va := [JStr(a.profile), JStr(a.sourceNamespace), JStr(a.externalId)];
    var vb := [JStr(b.profile), JStr(b.sourceNamespace), JStr(b.externalId)];
    KeysAgree("srk_", SourceNames(), va, vb);
    assert Denote(va[0]) == DStr(a.profile) && Denote(va[1]) == DStr(a.sourceNamespace)
           && Denote(va[2]) == DStr(a.externalId);
    assert Denote(vb[0]) == DStr(b.profile) && Denote(vb[1]) == DStr(b.sourceNamespace)
           && Denote(vb[2]) == DStr(b.externalId);
  }

  /** Observation ids ignore nothing but the key order of the payload. */
  lemma ObservationIdsDiffer(a: Observation, b: Observation)
    requires Printable([a.payload, b.payload])
    ensures ObservationId(a).Some?
    ensures ObservationId(a) == ObservationId(b) <==>
              a.sourceRecordKey == b.sourceRecordKey && a.sourceRevision == b.sourceRevision
                && Denote(a.payload) == Denote(b.payload)
  {
    hide MakeKey;
    SourceNamesDiffer();
    var va := [JStr(a.sourceRecordKey), TextOrNull(a.sourceRevision), a.payload];
    var vb := [JStr(b.sourceRecordKey), TextOrNull(b.sourceRevision), b.payload];
    assert a.payload in [a.payload, b.payload] && b.payload in [a.payload, b.payload];
    KeysAgree("obs_", ObservationNames(), va, vb);
    assert va[0] == JStr(a.sourceRecordKey) && va[1] == TextOrNull(a.sourceRevision) && va[2] == a.payload;
    assert vb[0] == JStr(b.sourceRecordKey) && vb[1] == TextOrNull(b.sourceRevision) && vb[2] == b.payload;
  }

  lemma IntegersPrint(n: nat, m: nat)
    ensures WellFormed(Integer(n)) && AllFinite(Integer(n))
    ensures Denote(Integer(n)) == Denote(Integer(m)) <==> n == m
  {
    DecimalIsExact(n);
    DecimalIsExact(m);
  }

  lemma JobKeysDiffer(a: Job, b: Job, clean: Text -> bool)
    requires JobKey(a, clean).Some? && JobKey(b, clean).Some?
    ensures JobKey(a, clean) == JobKey(b, clean) <==> a == b
  {
    hide MakeKey, Integer;
    JobNamesDiffer();
    IntegersPrint(a.pipelineVersion, b.pipelineVersion);
    IntegersPrint(b.pipelineVersion, a.pipelineVersion);
    var va := [JStr(a.profile), JStr(a.pipeline), Integer(a.pipelineVersion), JStr(a.task),
               JStr(a.pluginId), JStr(a.pluginVersion), JStr(a.entityKey), JStr(a.mode)];
    var vb := [JStr(b.profile), JStr(b.pipeline), Integer(b.pipelineVersion), JStr(b.task),
               JStr(b.pluginId), JStr(b.pluginVersion), JStr(b.entityKey), JStr(b.mode)];
    KeysAgree("job_", JobNames(), va, vb);
    if JobKey(a, clean) == JobKey(b, clean) {
      assert forall i | 0 <= i < 8 :: Denote(va[i]) == Denote(vb[i]);
      assert Denote(va[0]) == Denote(vb[0]) && Denote(va[1]) == Denote(vb[1]) && Denote(va[2]) == Denote(vb[2]);
      assert Denote(va[3]) == Denote(vb[3]) && Denote(va[4]) == Denote(vb[4]) && Denote(va[5]) == Denote(vb[5]);
      assert Denote(va[6]) == Denote(vb[6]) && Denote(va[7]) == Denote(vb[7]);
    }
  }

  lemma CheckpointKeysDiffer(a: Checkpoint, b: Checkpoint, clean: Text -> bool)
    requires CheckpointKey(a, clean).Some? && CheckpointKey(b, clean).Some?
    ensures CheckpointKey(a, clean) == CheckpointKey(b, clean) <==> a == b
  {
    hide MakeKey, Integer;
    CheckpointNamesDiffer();
    IntegersPrint(a.pipelineVersion, b.pipelineVersion);
    IntegersPrint(b.pipelineVersion, a.pipelineVersion);
    var va := [JStr(a.profile), JStr(a.pipeline), Integer(a.pipelineVersion), JStr(a.stageId), JStr(a.pluginId),
               JStr(a.pluginVersion), JStr(a.sourceNamespace), JStr(a.target), JStr(a.partition), JStr(a.mode)];
    var vb := [JStr(b.profile), JStr(b.pipeline), Integer(b.pipelineVersion), JStr(b.stageId), JStr(b.pluginId),
               JStr(b.pluginVersion), JStr(b.sourceNamespace), JStr(b.target), JStr(b.partition), JStr(b.mode)];
    KeysAgree("chk_", CheckpointNames(), va, vb);
    if CheckpointKey(a, clean) == CheckpointKey(b, clean) {
      assert forall i | 0 <= i < 10 :: Denote(va[i]) == Denote(vb[i]);
      assert Denote(va[0]) == Denote(vb[0]) && Denote(va[1]) == Denote(vb[1]) && Denote(va[2]) == Denote(vb[2]);
      assert Denote(va[3]) == Denote(vb[3]) && Denote(va[4]) == Denote(vb[4]) && Denote(va[5]) == Denote(vb[5]);
      assert Denote(va[6]) == Denote(vb[6]) && Denote(va[7]) == Denote(vb[7]) && Denote(va[8]) == Denote(vb[8]);
      assert Denote(va[9]) == Denote(vb[9]);
    }
  }
}

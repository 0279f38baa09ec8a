/**
 * What the artifact store writes about an artifact (packages/artifacts-filesystem/src/index.ts:24-56, 192-206):
 * its record count and field names, and the manifest, a JSON record named by its own digest.
 */
module Manifests {
  import opened Wrappers
  import opened Sequences
  import opened JsonGrammar
  import opened Canonical
  import opened CanonicalProofs
  import opened CanonicalText
  import opened Identity
  import Sorting

  // recordMetadata

  datatype Summary = Summary(recordCount: nat, fields: seq<Text>)

  function RecordArrays(): seq<Text>
  {
    [Ascii("records"), Ascii("rows"), Ascii("places"), Ascii("features")]
  }

  function Lookup(e: Entries, key: Text): Option<Json>
  {
    if e.NoEntries? then None else if e.key == key then Some(e.value) else Lookup(e.rest, key)
  }

  /** The arrays an object holds under the given names. */
  function ArraysAt(e: Entries, names: seq<Text>): seq<Elements>
  {
    if names == [] then []
    else
      var at := Lookup(e, names[0]);
      (if at.Some? && at.value.JArr? then [at.value.elements] else []) + ArraysAt(e, names[1..])
  }

  /** `None` is the error for several recognized record arrays. */
  function RecordsOf(v: Json): Option<Elements>
  {
    match v
    case JArr(elements) => Some(elements)
    case JNull => Some(NoElements)
    case JObj(entries) =>
      var arrays := ArraysAt(entries, RecordArrays());
      if |arrays| > 1 then None else Some(if |arrays| == 1 then arrays[0] else Element(v, NoElements))
    case _ => Some(Element(v, NoElements))
  }

  function KeyList(e: Entries): seq<Text>
  {
    if e.NoEntries? then [] else [e.key] + KeyList(e.rest)
  }

  /** Object.keys, for objects only. */
  function KeysIn(v: Json): seq<Text>
  {
    if v.JObj? then KeyList(v.entries) else []
  }

  function KeysInAll(records: Elements): seq<Text>
  {
    if records.NoElements? then [] else KeysIn(records.head) + KeysInAll(records.tail)
  }

  function Length(e: Elements): nat
  {
    if e.NoElements? then 0 else 1 + Length(e.tail)
  }

  /** Additions to a JavaScript set, which keeps insertion order. */
  function AddAll(fields: seq<Text>, keys: seq<Text>): seq<Text>
    decreases |keys|
  {
    if keys == [] then fields
    else AddAll(if keys[0] in fields then fields else fields + [keys[0]], keys[1..])
  }

  function Summarize(v: Json): Option<Summary>
  {
    var records := RecordsOf(v);
    if records.None? then None
    else Some(Summary(Length(records.value),
                      Sorting.Sort(LexBefore, AddAll(AddAll([], KeysIn(v)), KeysInAll(records.value)))))
  }

  method RecordMetadata(value: Json) returns (summary: Option<Summary>)
    ensures summary == Summarize(value)
  {
    var records := RecordsOf(value);
    if records.None? { return None; }
    var fields := AddKeys([], value);
    var rest, count := records.value, 0;
    while rest.Element?
      invariant AddAll(fields, KeysInAll(rest)) == AddAll(AddAll([], KeysIn(value)), KeysInAll(records.value))
      invariant count + Length(rest) == Length(records.value)
      decreases rest
    {
      AddAllInParts(fields, KeysIn(rest.head), KeysInAll(rest.tail));
      fields := AddKeys(fields, rest.head);
      rest, count := rest.tail, count + 1;
    }
    return Some(Summary(count, Sorting.Sort(LexBefore, fields)));
  }

  method AddKeys(fields: seq<Text>, v: Json) returns (more: seq<Text>)
    ensures more == AddAll(fields, KeysIn(v))
  {
    more := fields;
    if v.JObj? {
      var rest := v.entries;
      while rest.Entry?
        invariant AddAll(more, KeyList(rest)) == AddAll(fields, KeyList(v.entries))
        decreases rest
      {
        if rest.key !in more { more := more + [rest.key]; }
        rest := rest.rest;
      }
    }
  }

  lemma {:induction false} AddAllInParts(fields: seq<Text>, a: seq<Text>, b: seq<Text>)
    ensures AddAll(fields, a + b) == AddAll(AddAll(fields, a), b)
    decreases |a|
  {
    if a == [] {
      assert a + b == b;
    } else {
      AddAllInParts(if a[0] in fields then fields else fields + [a[0]], a[1..], b);
      assert (a + b)[1..] == a[1..] + b;
    }
  }

  /** A set holds each key once. */
  lemma {:induction false} AddAllIsSet(fields: seq<Text>, keys: seq<Text>)
    requires Distinct(fields)
    ensures Distinct(AddAll(fields, keys))
    ensures forall k :: k in AddAll(fields, keys) <==> k in fields || k in keys
    decreases |keys|
  {
    if keys != [] {
      AddAllIsSet(if keys[0] in fields then fields else fields + [keys[0]], keys[1..]);
      assert keys == [keys[0]] + keys[1..];
    }
  }

  // The summary depends on the meaning of the value only

  lemma {:induction false} KeyListIsKeys(e: Entries)
    ensures forall k :: k in KeyList(e) <==> k in KeysOf(e)
  {
    if e.Entry? {
      KeyListIsKeys(e.rest);
    }
  }

  lemma {:induction false} LookupIsMeaning(e: Entries, key: Text)
    ensures Lookup(e, key).Some? <==> key in DenoteEntries(e)
    ensures Lookup(e, key).Some? ==> Denote(Lookup(e, key).value) == DenoteEntries(e)[key]
  {
    hide Denote;
    if e.Entry? {
      LookupIsMeaning(e.rest, key);
    }
  }

  lemma {:induction false} ArraysAgree(a: Entries, b: Entries, names: seq<Text>)
    requires DenoteEntries(a) == DenoteEntries(b)
    ensures |ArraysAt(a, names)| == |ArraysAt(b, names)|
    ensures forall i :: 0 <= i < |ArraysAt(a, names)| ==>
              DenoteElements(ArraysAt(a, names)[i]) == DenoteElements(ArraysAt(b, names)[i])
    decreases |names|
  {
    if names != [] {
      ArraysAgree(a, b, names[1..]);
      LookupIsMeaning(a, names[0]);
      LookupIsMeaning(b, names[0]);
    }
  }

  lemma KeysAgreeOn(a: Json, b: Json)
    requires Denote(a) == Denote(b)
    ensures forall k :: k in KeysIn(a) <==> k in KeysIn(b)
  {
    if a.JObj? {
      KeyListIsKeys(a.entries);
      KeyListIsKeys(b.entries);
    }
  }

  lemma {:induction false} RecordsAgree(a: Elements, b: Elements)
    requires DenoteElements(a) == DenoteElements(b)
    ensures Length(a) == Length(b) && forall k :: k in KeysInAll(a) <==> k in KeysInAll(b)
  {
    hide Denote, KeysIn;
    if a.Element? {
      assert DenoteElements(a)[0] == DenoteElements(b)[0];
      assert DenoteElements(a)[1..] == DenoteElements(a.tail) && DenoteElements(b)[1..] == DenoteElements(b.tail);
      KeysAgreeOn(a.head, b.head);
      RecordsAgree(a.tail, b.tail);
    }
  }

  lemma LexIsOrder()
    ensures Sorting.IsOrder(LexBefore)
  {
    forall a, b | LexBefore(a, b) ensures !LexBefore(b, a) {
      LexAsymmetric(a, b);
    }
    forall a, b, c | LexBefore(a, c) ensures LexBefore(a, b) || LexBefore(b, c) {
      if a != b {
        LexTotal(a, b);
        if !LexBefore(a, b) {
          LexTransitive(b, a, c);
        }
      }
    }
  }

  lemma LexTellsApart(items: multiset<Text>)
    ensures Sorting.ToldApart(LexBefore, items)
  {
    forall a, b | a in items && b in items && !LexBefore(a, b) && !LexBefore(b, a) ensures a == b {
      if a != b { LexTotal(a, b); }
    }
  }

  lemma SameMultiset(a: seq<Text>, b: seq<Text>)
    requires Distinct(a) && Distinct(b) && forall k :: k in a <==> k in b
    ensures multiset(a) == multiset(b)
  {
    DistinctCounts(a);
    DistinctCounts(b);
    hide Distinct;
    forall k ensures multiset(a)[k] == multiset(b)[k] {
      assert (k in a <==> k in multiset(a)) && (k in b <==> k in multiset(b));
    }
  }

  /** Sets with the same members sort to the same list. */
  lemma SortedSetsAgree(a: seq<Text>, b: seq<Text>)
    requires Distinct(a) && Distinct(b) && forall k :: k in a <==> k in b
    ensures Sorting.Sort(LexBefore, a) == Sorting.Sort(LexBefore, b)
  {
    hide *;
    SameMultiset(a, b);
    LexIsOrder();
    LexTellsApart(multiset(a));
    Sorting.SortKeeps(LexBefore, a);
    Sorting.SortKeeps(LexBefore, b);
    Sorting.SortedIsUnique(LexBefore, Sorting.Sort(LexBefore, a), Sorting.Sort(LexBefore, b));
  }

  /** Values that agree up to key order have the same record count and field names, or fail alike. */
  lemma SummariesAgree(a: Json, b: Json)
    requires Denote(a) == Denote(b)
    ensures Summarize(a) == Summarize(b)
  {
    hide LexBefore, Lookup;
    RecordsOfAgree(a, b);
    var ra, rb := RecordsOf(a), RecordsOf(b);
    if ra.Some? {
      hide RecordsOf, Denote;
      KeysAgreeOn(a, b);
      RecordsAgree(ra.value, rb.value);
      AddAllIsSet([], KeysIn(a));
      AddAllIsSet([], KeysIn(b));
      AddAllIsSet(AddAll([], KeysIn(a)), KeysInAll(ra.value));
      AddAllIsSet(AddAll([], KeysIn(b)), KeysInAll(rb.value));
      SortedSetsAgree(AddAll(AddAll([], KeysIn(a)), KeysInAll(ra.value)),
                      AddAll(AddAll([], KeysIn(b)), KeysInAll(rb.value)));
    }
  }

  lemma RecordsOfAgree(a: Json, b: Json)
    requires Denote(a) == Denote(b)
    ensures RecordsOf(a).Some? <==> RecordsOf(b).Some?
    ensures RecordsOf(a).Some? ==> DenoteElements(RecordsOf(a).value) == DenoteElements(RecordsOf(b).value)
  {
    if a.JObj? {
      ArraysAgree(a.entries, b.entries, RecordArrays());
    }
  }

  // The manifest

  /** What a commit adds to the description of its contents. */
  datatype Metadata = Metadata(schema: Json, artifactPolicy: Text, artifactClass: Text, retentionStartedAt: Text,
                               expiresAt: Option<Text>, restrictions: Json, provenance: Json)

  /** JSON.parse of JSON.stringify: numbers that are not finite become null. */
  function Reparsed(v: Json): Json
  {
    match v
    case JNum(NotFinite) => JNull
    case JArr(elements) => JArr(ReparsedElements(elements))
    case JObj(entries) => JObj(ReparsedEntries(entries))
    case _ => v
  }

  function ReparsedElements(e: Elements): Elements
  {
    if e.NoElements? then e else Element(Reparsed(e.head), ReparsedElements(e.tail))
  }

  function ReparsedEntries(e: Entries): Entries
  {
    if e.NoEntries? then e else Entry(e.key, Reparsed(e.value), ReparsedEntries(e.rest))
  }

  /** Digests and paths as text: a digest stands for what it was computed from, a path is relative to the store. */
  function DigestText(d: Sha256): Text
  {
    Ascii("sha256:") + d.preimage
  }

  function ObjectUri(d: Sha256): Text
  {
    Ascii("objects/") + d.preimage + Ascii(".json")
  }

  function Strings(s: seq<Text>): Elements
  {
    if s == [] then NoElements else Element(JStr(s[0]), Strings(s[1..]))
  }

  function ContentNames(): seq<Text>
  {
    [Ascii("version"), Ascii("contentDigest"), Ascii("byteCount"), Ascii("recordCount"), Ascii("fields"),
     Ascii("objectUri")]
  }

  function MetadataNames(): seq<Text>
  {
    [Ascii("schema"), Ascii("artifactPolicy"), Ascii("artifactClass"), Ascii("retentionStartedAt"), Ascii("expiresAt"),
     Ascii("restrictions"), Ascii("provenance")]
  }

  function ManifestNames(): seq<Text>
  {
    ContentNames() + MetadataNames()
  }

  /** What is known of staged contents. */
  datatype Contents = Contents(digest: Sha256, byteCount: nat, summary: Summary)

  function ManifestValues(c: Contents, m: Metadata): seq<Json>
  {
    [Integer(1), JStr(DigestText(c.digest)), Integer(c.byteCount), Integer(c.summary.recordCount),
     JArr(Strings(c.summary.fields)),
     JStr(ObjectUri(c.digest)), Reparsed(m.schema), JStr(m.artifactPolicy), JStr(m.artifactClass),
       JStr(m.retentionStartedAt),
     TextOrNull(m.expiresAt), Reparsed(m.restrictions), Reparsed(m.provenance)]
  }

  function Manifest(c: Contents, m: Metadata): Json
  {
    JObj(Record(ManifestNames(), ManifestValues(c, m)))
  }

  /** The metadata of JavaScript callers. */
  predicate IsMetadata(m: Metadata)
  {
    WellFormed(m.schema) && WellFormed(m.restrictions) && WellFormed(m.provenance)
  }

  /** What metadata says once printed. */
  function Meant(m: Metadata): (Den, Text, Text, Text, Option<Text>, Den, Den)
  {
    (Denote(Reparsed(m.schema)), m.artifactPolicy, m.artifactClass, m.retentionStartedAt, m.expiresAt,
     Denote(Reparsed(m.restrictions)), Denote(Reparsed(m.provenance)))
  }

  lemma {:induction false} ReparsedPrints(v: Json)
    requires WellFormed(v)
    ensures WellFormed(Reparsed(v)) && AllFinite(Reparsed(v))
    decreases v
  {
    match v
    case JArr(elements) => ReparsedElementsPrint(elements);
    case JObj(entries) => ReparsedEntriesPrint(entries);
    case _ =>
  }

  lemma {:induction false} ReparsedElementsPrint(e: Elements)
    requires WellFormedElements(e)
    ensures WellFormedElements(ReparsedElements(e)) && AllFiniteElements(ReparsedElements(e))
    decreases e
  {
    if e.Element? {
      ReparsedPrints(e.head);
      ReparsedElementsPrint(e.tail);
    }
  }

  lemma {:induction false} ReparsedEntriesPrint(e: Entries)
    requires WellFormedEntries(e)
    ensures WellFormedEntries(ReparsedEntries(e)) && AllFiniteEntries(ReparsedEntries(e))
    ensures KeysOf(ReparsedEntries(e)) == KeysOf(e)
    decreases e
  {
    if e.Entry? {
      ReparsedPrints(e.value);
      ReparsedEntriesPrint(e.rest);
    }
  }

  lemma {:induction false} StringsPrint(s: seq<Text>)
    ensures WellFormedElements(Strings(s)) && AllFiniteElements(Strings(s))
    decreases |s|
  {
    if s != [] {
      StringsPrint(s[1..]);
    }
  }

  lemma {:induction false} StringsMean(s: seq<Text>)
    ensures DenoteElements(Strings(s)) == seq(|s|, i requires 0 <= i < |s| => DStr(s[i]))
    decreases |s|
  {
    if s != [] {
      StringsMean(s[1..]);
    }
  }

  lemma StringsDiffer(a: seq<Text>, b: seq<Text>)
    ensures Denote(JArr(Strings(a))) == Denote(JArr(Strings(b))) <==> a == b
  {
    StringsMean(a);
    StringsMean(b);
    if DenoteElements(Strings(a)) == DenoteElements(Strings(b)) {
      assert |a| == |DenoteElements(Strings(a))| == |b|;
      forall i | 0 <= i < |a| ensures a[i] == b[i] {
        assert DenoteElements(Strings(a))[i] == DStr(a[i]) && DenoteElements(Strings(b))[i] == DStr(b[i]);
      }
    }
  }

  predicate HasCodes(names: seq<Text>, codes: seq<int>)
  {
    |codes| == |names| && forall i :: 0 <= i < |names| ==> codes[i] == Code(names[i])
  }

  lemma ContentCodes()
    ensures HasCodes(ContentNames(), [997, 1775, 1273, 1509, 873, 1250])
  {
    AsciiCode("version"); AsciiCode("contentDigest"); AsciiCode("byteCount");
    AsciiCode("recordCount"); AsciiCode("fields"); AsciiCode("objectUri");
    hide Ascii, Code;
  }

  lemma MetadataCodes()
    ensures HasCodes(MetadataNames(), [867, 1906, 1778, 2405, 1272, 1637, 1394])
  {
    AsciiCode("schema"); AsciiCode("artifactPolicy"); AsciiCode("artifactClass");
    AsciiCode("retentionStartedAt"); AsciiCode("expiresAt"); AsciiCode("restrictions");
    AsciiCode("provenance");
    hide Ascii, Code;
  }

  lemma ManifestNamesDiffer()
    ensures Distinct(ManifestNames())
  {
    hide ContentNames, MetadataNames, Code;
    ContentCodes();
    MetadataCodes();
    CodesDiffer(ManifestNames(), [997, 1775, 1273, 1509, 873, 1250] + [867, 1906, 1778, 2405, 1272, 1637, 1394]);
  }

  lemma ManifestPrints(c: Contents, m: Metadata)
    requires IsMetadata(m)
    ensures Printable(ManifestValues(c, m))
    ensures WellFormed(Manifest(c, m)) && AllFinite(Manifest(c, m))
  {
    hide Integer, Reparsed, Record;
    IntegersPrint(1, 1);
    IntegersPrint(c.byteCount, 0);
    IntegersPrint(c.summary.recordCount, 0);
    StringsPrint(c.summary.fields);
    ReparsedPrints(m.schema);
    ReparsedPrints(m.restrictions);
    ReparsedPrints(m.provenance);
    ManifestNamesDiffer();
    RecordIsWellFormed(ManifestNames(), ManifestValues(c, m));
  }

  lemma SameDigestText(a: Sha256, b: Sha256)
    ensures DigestText(a) == DigestText(b) <==> a == b
  {
    if DigestText(a) == DigestText(b) {
      assert a.preimage == DigestText(a)[|Ascii("sha256:")|..] && b.preimage == DigestText(b)[|Ascii("sha256:")|..];
    }
  }

  /** The values of a manifest mean the same exactly when contents and metadata do. */
  lemma ManifestValuesAgree(c: Contents, m: Metadata, d: Contents, n: Metadata)
    ensures (forall i | 0 <= i < |ManifestNames()| ::
             Denote(ManifestValues(c, m)[i]) == Denote(ManifestValues(d, n)[i]))
       <==> c == d && Meant(m) == Meant(n)
  {
    hide Integer, Reparsed, Strings, DigestText, ObjectUri;
    IntegersPrint(c.byteCount, d.byteCount);
    IntegersPrint(c.summary.recordCount, d.summary.recordCount);
    StringsDiffer(c.summary.fields, d.summary.fields);
    SameDigestText(c.digest, d.digest);
    var a, b := ManifestValues(c, m), ManifestValues(d, n);
    if forall i | 0 <= i < |ManifestNames()| :: Denote(a[i]) == Denote(b[i]) {
      assert Denote(a[1]) == Denote(b[1]) && Denote(a[2]) == Denote(b[2]) && Denote(a[3]) == Denote(b[3]);
      assert Denote(a[4]) == Denote(b[4]) && Denote(a[6]) == Denote(b[6]) && Denote(a[7]) == Denote(b[7]);
      assert Denote(a[8]) == Denote(b[8]) && Denote(a[9]) == Denote(b[9]) && Denote(a[10]) == Denote(b[10]);
      assert Denote(a[11]) == Denote(b[11]) && Denote(a[12]) == Denote(b[12]);
    }
  }

  /** A manifest's digest exists, and two are equal exactly when the contents are and the metadata means the same. */
  lemma ManifestsAgree(c: Contents, m: Metadata, d: Contents, n: Metadata)
    requires IsMetadata(m) && IsMetadata(n)
    ensures DigestOf(Manifest(c, m)).Some?
    ensures DigestOf(Manifest(c, m)) == DigestOf(Manifest(d, n)) <==> c == d && Meant(m) == Meant(n)
  {
    hide Canonicalize, Record, ManifestValues, ManifestNames, Meant, Printable;
    ManifestPrints(c, m);
    ManifestPrints(d, n);
    ManifestNamesDiffer();
    NamesAndValues(c, m);
    NamesAndValues(d, n);
    KeysAgree("", ManifestNames(), ManifestValues(c, m), ManifestValues(d, n));
    ManifestValuesAgree(c, m, d, n);
  }

  lemma NamesAndValues(c: Contents, m: Metadata)
    ensures |ManifestNames()| == |ManifestValues(c, m)|
  {
  }

  /** The bytes of a text in UTF-8; a lone surrogate is written as the replacement character. */
  function Utf8Length(t: Text): nat
  {
    if t == [] then 0
    else if |t| >= 2 && IsHighSurrogate(t[0]) && IsLowSurrogate(t[1]) then 4 + Utf8Length(t[2..])
    else (if t[0] < 0x80 then 1 else if t[0] < 0x800 then 2 else 3) + Utf8Length(t[1..])
  }
}

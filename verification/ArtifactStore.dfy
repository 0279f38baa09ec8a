/**
 * The content-addressed artifact store (packages/artifacts-filesystem/src/index.ts:59-89, 118-276) as a
 * state machine: any number of clients stage, commit, discard and read, interleaved at every await. A link
 * creates a name that does not exist yet, or reports what is already there.
 */
module ArtifactStore {
  import opened Wrappers
  import opened JsonGrammar
  import opened JsonReader
  import opened JsonReaderProofs
  import opened Canonical
  import opened CanonicalProofs
  import opened CanonicalText
  import opened Identity
  import opened Manifests

  const NEWLINE: Text := [0x0A]

  /** A staged artifact: the value, and what the store noted of it. */
  datatype StagedEntry = StagedEntry(value: Json, contents: Contents)

  /** Where a commit or discard stands; each constructor is a wait for the file system. */
  datatype Op =
    | Reading(handle: nat, entry: StagedEntry, metadata: Metadata)
    | LinkingObject(handle: nat, entry: StagedEntry, metadata: Metadata, contents: Text)
    | LinkingManifest(handle: nat, entry: StagedEntry, metadata: Metadata, manifest: Sha256, contents: Text)
    | Removing(handle: nat, entry: StagedEntry, metadata: Metadata, manifest: Sha256)
    | Committed(entry: StagedEntry, metadata: Metadata, manifest: Sha256)
    | Discarding(handle: nat)
    | Collided
    | Failed

  datatype Store = Store(
    objects: map<Sha256, Text>,
    manifests: map<Sha256, Text>,
    staging: map<nat, Text>,
    entries: map<nat, StagedEntry>,
    ops: map<nat, Op>,
    next: nat)

  datatype Event =
    | Stage(value: Json)
    | BeginCommit(handle: nat, metadata: Metadata)
    | BeginDiscard(handle: nat)
    | Advance(id: nat)                            // the file system answers a commit or discard
    | Abort(id: nat)

  function Stored(canonical: Text): Text
  {
    canonical + NEWLINE
  }

  function SetOp(s: Store, id: nat, op: Op): Store
  {
    s.(ops := s.ops[id := op])
  }

  function Begin(s: Store, op: Op): Store
  {
    s.(ops := s.ops[s.next := op], next := s.next + 1)
  }

  /** JSON.parse and digest of the staged file. */
  function DigestOfText(t: Text): Option<Sha256>
  {
    var v := ParseJson(t);
    if v.None? then None else DigestOf(v.value)
  }

  /** What stageJson notes of a value; `None` is one of its errors. */
  function ContentsOf(value: Json): Option<Contents>
  {
    var canonical, summary := Canonicalize(value), Summarize(value);
    if canonical.None? || summary.None? then None
    else Some(Contents(Sha256(canonical.value), Utf8Length(Stored(canonical.value)), summary.value))
  }

  /** The name is new, or its file has these very contents. */
  predicate Links(directory: map<Sha256, Text>, name: Sha256, contents: Text)
  {
    name in directory ==> directory[name] == contents
  }

  function Linked(directory: map<Sha256, Text>, name: Sha256, contents: Text): (r: map<Sha256, Text>)
    ensures name in r && directory.Keys <= r.Keys
    ensures forall other :: other in directory ==> r[other] == directory[other]
  {
    if name in directory then directory else directory[name := contents]
  }

  /** Where the manifest of a linked object goes. */
  function ManifestLink(handle: nat, entry: StagedEntry, metadata: Metadata): Op
  {
    var manifest := Manifest(entry.contents, metadata);
    var name, contents := DigestOf(manifest), Canonicalize(manifest);
    if name.None? || contents.None? then Failed else LinkingManifest(handle, entry, metadata, name.value,
                                                                     Stored(contents.value))
  }

  function Advanced(s: Store, id: nat): (r: Store)
    requires id in s.ops
    ensures r.next == s.next && id in r.ops && r.ops == s.ops[id := r.ops[id]]
    ensures s.objects.Keys <= r.objects.Keys && s.manifests.Keys <= r.manifests.Keys
    ensures forall h :: h in r.staging ==> h in s.staging && r.staging[h] == s.staging[h]
    ensures s.ops[id].Committed? ==> r == s
  {
    match s.ops[id]
    case Reading(handle, entry, metadata) =>
      if handle !in s.staging || DigestOfText(s.staging[handle]) != Some(entry.contents.digest) then
        SetOp(s, id, Failed)
      else SetOp(s, id, LinkingObject(handle, entry, metadata, s.staging[handle]))
    case LinkingObject(handle, entry, metadata, contents) =>
      if !Links(s.objects, entry.contents.digest, contents) then SetOp(s, id, Collided)
      else SetOp(s.(objects := Linked(s.objects, entry.contents.digest, contents)), id,
                 ManifestLink(handle, entry, metadata))
    case LinkingManifest(handle, entry, metadata, manifest, contents) =>
      if !Links(s.manifests, manifest, contents) then SetOp(s, id, Collided)
      else SetOp(s.(manifests := Linked(s.manifests, manifest, contents)), id,
                 Removing(handle, entry, metadata, manifest))
    case Removing(handle, entry, metadata, manifest) =>
      SetOp(s.(staging := s.staging - {handle}, entries := s.entries - {handle}), id,
            Committed(entry, metadata, manifest))
    case Discarding(handle) =>
      SetOp(s.(staging := s.staging - {handle}, entries := s.entries - {handle}), id, Failed)
    case _ => s
  }

  function Step(s: Store, e: Event): Store
  {
    match e
    case Stage(value) =>
      if ContentsOf(value).None? then s
      else
        s.(staging := s.staging[s.next := Stored(Canonicalize(value).value)],
           entries := s.entries[s.next := StagedEntry(value, ContentsOf(value).value)], next := s.next + 1)
    case BeginCommit(handle, metadata) =>
      if handle in s.entries then Begin(s, Reading(handle, s.entries[handle], metadata)) else s
    case BeginDiscard(handle) => if handle in s.entries then Begin(s, Discarding(handle)) else s
    case Advance(id) => if id in s.ops then Advanced(s, id) else s
    case Abort(id) => if id in s.ops && !s.ops[id].Committed? then SetOp(s, id, Failed) else s
  }

  /** What is handed to the store are JavaScript values. */
  predicate IsProper(e: Event)
  {
    && (e.Stage? ==> WellFormed(e.value))
    && (e.BeginCommit? ==> IsMetadata(e.metadata))
  }

  function Run(events: seq<Event>): Store
  {
    if events == [] then Store(map[], map[], map[], map[], map[], 0)
    else Step(Run(events[..|events| - 1]), events[|events| - 1])
  }

  // The invariant

  predicate EntryOk(e: StagedEntry)
  {
    WellFormed(e.value) && AllFinite(e.value) && ContentsOf(e.value) == Some(e.contents)
  }

  /** A manifest's name is the digest of the record that describes the entry. */
  predicate ManifestOk(entry: StagedEntry, metadata: Metadata, manifest: Sha256)
  {
    EntryOk(entry) && IsMetadata(metadata) && DigestOf(Manifest(entry.contents, metadata)) == Some(manifest)
  }

  /** What a pending or finished operation may rely on. */
  predicate OpFits(op: Op, objects: set<Sha256>, manifests: set<Sha256>, staging: map<nat, Text>, next: nat)
  {
    match op
    case Reading(handle, entry, metadata) =>
      EntryOk(entry) && IsMetadata(metadata) && handle < next
      && (handle in staging ==> staging[handle] == Stored(entry.contents.digest.preimage))
    case LinkingObject(_, entry, metadata, contents) =>
      EntryOk(entry) && IsMetadata(metadata) && contents == Stored(entry.contents.digest.preimage)
    case LinkingManifest(_, entry, metadata, manifest, contents) =>
      ManifestOk(entry, metadata, manifest) && contents == Stored(manifest.preimage) && entry.contents.digest in objects
    case Removing(_, entry, metadata, manifest) =>
      ManifestOk(entry, metadata, manifest) && entry.contents.digest in objects && manifest in manifests
    case Committed(entry, metadata, manifest) =>
      ManifestOk(entry, metadata, manifest) && entry.contents.digest in objects && manifest in manifests
    case Collided => false
    case _ => true
  }

  /** The file under a name holds the text the name is the digest of. */
  predicate NamesOk(directory: map<Sha256, Text>)
  {
    forall name :: name in directory ==> directory[name] == Stored(name.preimage)
  }

  predicate EntriesOk(entries: map<nat, StagedEntry>, staging: map<nat, Text>, next: nat)
  {
    && (forall h :: h in entries ==> h < next && EntryOk(entries[h]))
    && (forall h :: h in entries && h in staging ==> staging[h] == Stored(entries[h].contents.digest.preimage))
  }

  predicate OpsFit(ops: map<nat, Op>, objects: set<Sha256>, manifests: set<Sha256>, staging: map<nat, Text>, next: nat)
  {
    forall id :: id in ops ==> id < next && OpFits(ops[id], objects, manifests, staging, next)
  }

  predicate Inv(s: Store)
  {
    && NamesOk(s.objects) && NamesOk(s.manifests)
    && EntriesOk(s.entries, s.staging, s.next)
    && OpsFit(s.ops, s.objects.Keys, s.manifests.Keys, s.staging, s.next)
  }

  /** Names appear, staged files disappear or are new, and every operation keeps what it relies on. */
  lemma OpsStillFit(s: Store, t: Store)
    requires OpsFit(s.ops, s.objects.Keys, s.manifests.Keys, s.staging, s.next)
    requires s.objects.Keys <= t.objects.Keys && s.manifests.Keys <= t.manifests.Keys && s.next <= t.next
    requires forall h :: h in t.staging && h < s.next ==> h in s.staging && t.staging[h] == s.staging[h]
    ensures OpsFit(s.ops, t.objects.Keys, t.manifests.Keys, t.staging, t.next)
  {
    hide EntryOk, Stored;
  }

  lemma FinitePrints(v: Json)
    requires Canonicalize(v).Some?
    ensures AllFinite(v)
  {
  }

  /** The stored form of a canonical text parses back to the normalized value and keeps its digest. */
  lemma StoredReadsBack(e: StagedEntry)
    requires EntryOk(e)
    ensures ParseJson(Stored(e.contents.digest.preimage)) == Some(Normalize(e.value))
    ensures DigestOfText(Stored(e.contents.digest.preimage)) == Some(e.contents.digest)
  {
    hide Normalize, Stringify, ReadDocument, Stored, EntryOk, WellFormed, AllFinite;
    var n := Normalize(e.value);
    EntryText(e);
    TextReadsBack(n);
    assert ParseJson(Stored(Stringify(n))) == Some(n);
    hide ParseJson;
  }

  /** The digest an entry notes is that of the normalized value, which is already in normal form. */
  lemma EntryText(e: StagedEntry)
    requires EntryOk(e)
    ensures var n := Normalize(e.value);
            && WellFormed(n) && AllFinite(n) && Normalize(n) == n
            && e.contents.digest == Sha256(Stringify(n))
  {
    hide Summarize, Normalize, Stringify, WellFormed, AllFinite, Stored;
    NormalizeKeeps(e.value);
    NormalizeIsIdempotent(e.value);
  }

  /** A value's text with a line end after it parses back to the value. */
  lemma TextReadsBack(v: Json)
    requires WellFormed(v) && AllFinite(v)
    ensures ParseJson(Stored(Stringify(v))) == Some(v)
  {
    hide Spell, Stringify, Tree, Valid, UniqueKeys, FromTree, WellFormed, AllFinite, ReadDocument;
    TreeIsExact(v);
    var d := Document([], Tree(v), NEWLINE);
    assert [] + (Spell(Tree(v)) + NEWLINE) == Stored(Stringify(v));
    DocumentComplete(d);
  }

  lemma AdvanceKeepsInv(s: Store, id: nat)
    requires Inv(s) && id in s.ops
    ensures Inv(Advanced(s, id))
  {
    hide Advanced, NamesOk, EntriesOk, OpsFit;
    AdvanceKeepsNames(s, id);
    AdvanceKeepsOps(s, id);
  }

  lemma AdvanceKeepsNames(s: Store, id: nat)
    requires Inv(s) && id in s.ops
    ensures var t := Advanced(s, id);
              NamesOk(t.objects) && NamesOk(t.manifests)
              && EntriesOk(t.entries, t.staging, t.next)
  {
    hide ParseJson, DigestOf, Stored, EntryOk, DigestOfText, OpsFit, ManifestOk, ManifestLink, IsMetadata, NamesOk,
         Linked;
    OneFits(s.ops, id, s.objects.Keys, s.manifests.Keys, s.staging, s.next);
    match s.ops[id]
    case LinkingObject(_, entry, _, contents) => LinkKeepsNames(s.objects, entry.contents.digest, contents);
    case LinkingManifest(_, _, _, manifest, contents) => LinkKeepsNames(s.manifests, manifest, contents);
    case _ =>
  }

  lemma LinkKeepsNames(directory: map<Sha256, Text>, name: Sha256, contents: Text)
    requires NamesOk(directory) && contents == Stored(name.preimage)
    ensures Links(directory, name, contents) && NamesOk(Linked(directory, name, contents))
  {
    hide Stored;
  }

  lemma AdvanceKeepsOps(s: Store, id: nat)
    requires Inv(s) && id in s.ops
    ensures var t := Advanced(s, id); OpsFit(t.ops, t.objects.Keys, t.manifests.Keys, t.staging, t.next)
  {
    hide Advanced, OpFits, OpsFit, EntriesOk, NamesOk;
    var t := Advanced(s, id);
    OpsStillFit(s, t);
    OneFits(s.ops, id, s.objects.Keys, s.manifests.Keys, s.staging, s.next);
    AdvancedFits(s, id);
    OpsWith(s.ops, id, t.ops[id], t.objects.Keys, t.manifests.Keys, t.staging, t.next);
  }

  lemma AdvancedFits(s: Store, id: nat)
    requires id in s.ops && OpFits(s.ops[id], s.objects.Keys, s.manifests.Keys, s.staging, s.next)
    requires NamesOk(s.objects) && NamesOk(s.manifests)
    ensures var t := Advanced(s, id); OpFits(t.ops[id], t.objects.Keys, t.manifests.Keys, t.staging, t.next)
  {
    hide ParseJson, DigestOf, Stored, EntryOk, DigestOfText, ManifestLink, ManifestOk, Manifest, NamesOk, Linked,
         IsMetadata;
    match s.ops[id]
    case LinkingObject(handle, entry, metadata, contents) =>
      LinkKeepsNames(s.objects, entry.contents.digest, contents);
      ManifestLinkIsOk(handle, entry, metadata);
    case LinkingManifest(_, _, _, manifest, contents) => LinkKeepsNames(s.manifests, manifest, contents);
    case _ =>
  }

  /** The manifest of an accepted entry always prints. */
  lemma ManifestLinkIsOk(handle: nat, entry: StagedEntry, metadata: Metadata)
    requires EntryOk(entry) && IsMetadata(metadata)
    ensures var op := ManifestLink(handle, entry, metadata);
            && op.LinkingManifest? && op.handle == handle && op.entry == entry && op.metadata == metadata
            && ManifestOk(entry, metadata, op.manifest) && op.contents == Stored(op.manifest.preimage)
  {
    hide Manifest, EntryOk, IsMetadata, Stored;
    ManifestPrints(entry.contents, metadata);
  }

  lemma OneFits(ops: map<nat, Op>, id: nat, objects: set<Sha256>, manifests: set<Sha256>, staging: map<nat, Text>,
                next: nat)
    requires OpsFit(ops, objects, manifests, staging, next) && id in ops
    ensures id < next && OpFits(ops[id], objects, manifests, staging, next)
  {
  }

  lemma OpsWith(ops: map<nat, Op>, id: nat, op: Op, objects: set<Sha256>, manifests: set<Sha256>,
                staging: map<nat, Text>, next: nat)
    requires OpsFit(ops, objects, manifests, staging, next) && id < next
    ensures OpFits(op, objects, manifests, staging, next) ==> OpsFit(ops[id := op], objects, manifests, staging, next)
  {
    hide OpFits;
  }

  lemma StepKeepsInv(s: Store, e: Event)
    requires Inv(s) && IsProper(e)
    ensures Inv(Step(s, e))
  {
    hide Canonicalize, WellFormed, ParseJson, Stored, EntryOk, DigestOfText, OpsFit, Advanced, NamesOk, ContentsOf,
         IsMetadata;
    var t := Step(s, e);
    match e
    case Stage(value) =>
      if ContentsOf(value).Some? {
        StagedIsOk(value);
        OpsStillFit(s, t);
      }
    case Advance(id) => if id in s.ops { AdvanceKeepsInv(s, id); }
    case Abort(id) =>
      if id in s.ops {
        OneFits(s.ops, id, s.objects.Keys, s.manifests.Keys, s.staging, s.next);
        OpsWith(s.ops, id, Failed, s.objects.Keys, s.manifests.Keys, s.staging, s.next);
      }
    case BeginCommit(handle, metadata) => BeginKeepsInv(s, t);
    case BeginDiscard(handle) => BeginKeepsInv(s, t);
  }

  lemma BeginKeepsInv(s: Store, t: Store)
    requires Inv(s) && (t == s || (s.next in t.ops && t == Begin(s, t.ops[s.next])
                                   && OpFits(t.ops[s.next], s.objects.Keys, s.manifests.Keys, s.staging, s.next)))
    ensures Inv(t)
  {
    hide EntryOk, Stored, OpsFit, NamesOk;
    if t != s {
      OpsStillFit(s, s.(next := s.next + 1));
      NextGrows(t.ops[s.next], s.objects.Keys, s.manifests.Keys, s.staging, s.next);
      OpsWith(s.ops, s.next, t.ops[s.next], s.objects.Keys, s.manifests.Keys, s.staging, s.next + 1);
    }
  }

  lemma NextGrows(op: Op, objects: set<Sha256>, manifests: set<Sha256>, staging: map<nat, Text>, next: nat)
    requires OpFits(op, objects, manifests, staging, next)
    ensures OpFits(op, objects, manifests, staging, next + 1)
  {
    hide EntryOk, Stored;
  }

  lemma StagedIsOk(value: Json)
    requires WellFormed(value) && ContentsOf(value).Some?
    ensures EntryOk(StagedEntry(value, ContentsOf(value).value))
    ensures Canonicalize(value).Some? && Canonicalize(value).value == ContentsOf(value).value.digest.preimage
  {
    hide WellFormed, Summarize;
    FinitePrints(value);
  }

  // Every run

  lemma {:induction false} RunInv(events: seq<Event>)
    requires forall e :: e in events ==> IsProper(e)
    ensures Inv(Run(events))
  {
    hide Inv, Step;
    if events == [] {
      EmptyInv();
    } else {
      assert events == events[..|events| - 1] + [events[|events| - 1]];
      RunInv(events[..|events| - 1]);
      StepKeepsInv(Run(events[..|events| - 1]), events[|events| - 1]);
    }
  }

  lemma EmptyInv()
    ensures Inv(Store(map[], map[], map[], map[], map[], 0))
  {
  }

  /** The collision error is unreachable. */
  lemma CollisionsNeverHappen(events: seq<Event>, id: nat)
    requires forall e :: e in events ==> IsProper(e)
    requires id in Run(events).ops
    ensures !Run(events).ops[id].Collided?
  {
    hide Run, EntryOk, NamesOk, EntriesOk, OpsFit;
    RunInv(events);
    var s := Run(events);
    OneFits(s.ops, id, s.objects.Keys, s.manifests.Keys, s.staging, s.next);
  }

  predicate Keeps(s: Store, t: Store)
  {
    && (forall name :: name in s.objects ==> name in t.objects && t.objects[name] == s.objects[name])
    && (forall name :: name in s.manifests ==> name in t.manifests && t.manifests[name] == s.manifests[name])
    && (forall id :: id in s.ops && s.ops[id].Committed? ==> id in t.ops && t.ops[id] == s.ops[id])
  }

  lemma StepKeepsLinks(s: Store, e: Event)
    requires Inv(s)
    ensures Keeps(s, Step(s, e))
  {
    hide Canonicalize, DigestOf, EntryOk, Advanced, EntriesOk, NamesOk, OpFits;
    if e.Advance? && e.id in s.ops {
      AdvanceKeepsLinks(s, e.id);
    }
  }

  lemma AdvanceKeepsLinks(s: Store, id: nat)
    requires id in s.ops
    ensures Keeps(s, Advanced(s, id))
  {
    hide ParseJson, DigestOf, DigestOfText, ManifestLink, Linked;
    match s.ops[id]
    case LinkingObject(_, _, _, _) =>
    case LinkingManifest(_, _, _, _, _) =>
    case _ => assert Advanced(s, id).objects == s.objects && Advanced(s, id).manifests == s.manifests;
  }

  /** Objects and manifests, once linked, never change or disappear, and commits stay committed. */
  lemma {:induction false} LinksAreForever(events: seq<Event>, more: seq<Event>)
    requires forall e :: e in events + more ==> IsProper(e)
    ensures Keeps(Run(events), Run(events + more))
  {
    hide Inv, Step, IsProper;
    if more == [] {
      assert events + more == events;
    } else {
      var before := events + more[..|more| - 1];
      assert (events + more)[..|events + more| - 1] == before;
      assert events + more == before + [more[|more| - 1]];
      LinksAreForever(events, more[..|more| - 1]);
      RunInv(before);
      StepKeepsLinks(Run(before), more[|more| - 1]);
    }
  }

  /** readJson of a committed artifact. */
  function ReadJson(s: Store, content: Sha256): Option<Json>
  {
    if content !in s.objects || DigestOfText(s.objects[content]) != Some(content) then None
    else ParseJson(s.objects[content])
  }

  /**
   * At any time after a commit, reading the artifact returns the normalized value that was staged, and the
   * manifest's file holds the canonical text of the record that describes it.
   */
  lemma CommittedValuesReadBack(events: seq<Event>, more: seq<Event>, id: nat)
    requires forall e :: e in events + more ==> IsProper(e)
    requires id in Run(events).ops && Run(events).ops[id].Committed?
    ensures var op, s := Run(events).ops[id], Run(events + more);
            && ReadJson(s, op.entry.contents.digest) == Some(Normalize(op.entry.value))
            && op.manifest in s.manifests
            && Canonicalize(Manifest(op.entry.contents, op.metadata)).Some?
            && s.manifests[op.manifest] == Stored(Canonicalize(Manifest(op.entry.contents, op.metadata)).value)
  {
    hide Run, Manifest, Canonicalize, ReadJson, ManifestOk, NamesOk, IsProper, Stored;
    assert forall e :: e in events ==> e in events + more;
    CommittedFits(events, id);
    LinksAreForever(events, more);
    NamesHold(events + more);
    var op := Run(events).ops[id];
    LinkedReadsBack(Run(events + more), op.entry, op.metadata, op.manifest);
  }

  lemma NamesHold(events: seq<Event>)
    requires forall e :: e in events ==> IsProper(e)
    ensures NamesOk(Run(events).objects) && NamesOk(Run(events).manifests)
  {
    hide Run, NamesOk, IsProper;
    RunInv(events);
  }

  lemma CommittedFits(events: seq<Event>, id: nat)
    requires (forall e :: e in events ==> IsProper(e)) && id in Run(events).ops && Run(events).ops[id].Committed?
    ensures var s, op := Run(events), Run(events).ops[id];
            && ManifestOk(op.entry, op.metadata, op.manifest)
            && op.entry.contents.digest in s.objects && op.manifest in s.manifests
  {
    hide Run, ManifestOk, NamesOk, EntriesOk, OpsFit, IsProper;
    RunInv(events);
    var s := Run(events);
    OneFits(s.ops, id, s.objects.Keys, s.manifests.Keys, s.staging, s.next);
  }

  /** Names that hold what they are the digest of give the value and the manifest record back. */
  lemma LinkedReadsBack(s: Store, entry: StagedEntry, metadata: Metadata, manifest: Sha256)
    requires NamesOk(s.objects) && NamesOk(s.manifests) && ManifestOk(entry, metadata, manifest)
    requires entry.contents.digest in s.objects && manifest in s.manifests
    ensures ReadJson(s, entry.contents.digest) == Some(Normalize(entry.value))
    ensures Canonicalize(Manifest(entry.contents, metadata)).Some?
    ensures s.manifests[manifest] == Stored(Canonicalize(Manifest(entry.contents, metadata)).value)
  {
    hide Manifest, Canonicalize, EntryOk, IsMetadata, ParseJson, DigestOfText, Stored;
    StoredReadsBack(entry);
  }

  /**
   * Commits share the content digest exactly when their values agree up to key order, and the manifest when the
   * metadata does too.
   */
  lemma EqualCommitsAgree(events: seq<Event>, i: nat, j: nat)
    requires forall e :: e in events ==> IsProper(e)
    requires i in Run(events).ops && Run(events).ops[i].Committed? && j in Run(events).ops
             && Run(events).ops[j].Committed?
    ensures var a, b := Run(events).ops[i], Run(events).ops[j];
            && (a.entry.contents.digest == b.entry.contents.digest <==> Denote(a.entry.value) == Denote(b.entry.value))
            && (a.manifest == b.manifest <==>
                 Denote(a.entry.value) == Denote(b.entry.value)
                 && Meant(a.metadata) == Meant(b.metadata))
  {
    hide EntryOk, IsMetadata, Denote, Meant, Manifest, DigestOf, Run;
    RunInv(events);
    var a, b := Run(events).ops[i], Run(events).ops[j];
    assert ManifestOk(a.entry, a.metadata, a.manifest) && ManifestOk(b.entry, b.metadata, b.manifest);
    ContentsAgree(a.entry, b.entry);
    ManifestsAgree(a.entry.contents, a.metadata, b.entry.contents, b.metadata);
  }

  /** Byte count, record count and field names follow from the digest. */
  lemma ContentsAgree(a: StagedEntry, b: StagedEntry)
    requires EntryOk(a) && EntryOk(b)
    ensures a.contents.digest == b.contents.digest <==> Denote(a.value) == Denote(b.value)
    ensures a.contents == b.contents <==> Denote(a.value) == Denote(b.value)
  {
    hide Canonicalize, Denote, WellFormed, Summarize, AllFinite, Utf8Length, Stored;
    CanonicalTextIsMeaning(a.value, b.value);
    if Denote(a.value) == Denote(b.value) {
      SummariesAgree(a.value, b.value);
    }
  }

  // Commits succeed

  /** How many answers of the file system a commit has had. */
  function Progress(op: Op): nat
  {
    match op
    case LinkingObject(_, _, _, _) => 1
    case LinkingManifest(_, _, _, _, _) => 2
    case Removing(_, _, _, _) => 3
    case Committed(_, _, _) => 4
    case _ => 0
  }

  predicate IsCommit(op: Op)
  {
    op.Reading? || op.LinkingObject? || op.LinkingManifest? || op.Removing? || op.Committed?
  }

  predicate Removes(op: Op, handle: nat)
  {
    (op.Removing? || op.Discarding?) && op.handle == handle
  }

  /** The event does not abort commit `id`, and takes no staged file from it that it still has to read. */
  predicate Spares(s: Store, id: nat, e: Event)
  {
    && e != Abort(id)
    && (id in s.ops && s.ops[id].Reading? && e.Advance? && e.id in s.ops ==> !Removes(s.ops[e.id], s.ops[id].handle))
  }

  predicate Undisturbed(events: seq<Event>, more: seq<Event>, id: nat)
  {
    forall i :: 0 <= i < |more| ==> Spares(Run(events + more[..i]), id, more[i])
  }

  /** The commit has begun and its staged file is there. */
  predicate Ready(s: Store, id: nat)
  {
    id in s.ops && s.ops[id].Reading? && s.ops[id].handle in s.staging
  }

  function Advances(events: seq<Event>, id: nat): nat
  {
    if events == [] then 0
    else Advances(events[..|events| - 1], id) + if events[|events| - 1] == Advance(id) then 1 else 0
  }

  /**
   * Operation `id` is a commit of this entry with this metadata, `n` answers along and with its staged file at hand.
   */
  predicate IsUnderWay(s: Store, id: nat, entry: StagedEntry, metadata: Metadata, n: nat)
  {
    && id in s.ops && IsCommit(s.ops[id]) && Progress(s.ops[id]) == n
    && s.ops[id].entry == entry && s.ops[id].metadata == metadata
    && (s.ops[id].Reading? ==> s.ops[id].handle in s.staging)
  }

  lemma AdvanceMovesOn(s: Store, id: nat, entry: StagedEntry, metadata: Metadata, n: nat)
    requires Inv(s) && IsUnderWay(s, id, entry, metadata, n)
    ensures IsUnderWay(Advanced(s, id), id, entry, metadata, if n < 4 then n + 1 else 4)
  {
    hide EntryOk, ManifestOk, EntriesOk, OpsFit, NamesOk, IsMetadata, ManifestLink, Linked, Stored, DigestOfText;
    OneFits(s.ops, id, s.objects.Keys, s.manifests.Keys, s.staging, s.next);
    match s.ops[id]
    case Reading(handle, _, _) => StoredReadsBack(entry);
    case LinkingObject(handle, _, _, contents) =>
      LinkKeepsNames(s.objects, entry.contents.digest, contents);
      ManifestLinkIsOk(handle, entry, metadata);
    case LinkingManifest(_, _, _, manifest, contents) => LinkKeepsNames(s.manifests, manifest, contents);
    case _ =>
  }

  lemma OthersSpare(s: Store, id: nat, entry: StagedEntry, metadata: Metadata, n: nat, e: Event)
    requires Inv(s) && IsUnderWay(s, id, entry, metadata, n) && Spares(s, id, e) && e != Advance(id)
    ensures IsUnderWay(Step(s, e), id, entry, metadata, n)
  {
    hide EntryOk, EntriesOk, NamesOk, OpFits, ManifestLink, Linked, Stored, DigestOfText, ContentsOf, Canonicalize;
    assert id < s.next;
  }

  /**
   * A commit that found its staged file succeeds once the file system answered it four times, whatever
   * interleaves, unless it is aborted or another operation on the same handle removes the file before it is read.
   */
  lemma {:induction false} CommitsSucceed(events: seq<Event>, more: seq<Event>, id: nat)
    requires forall e :: e in events + more ==> IsProper(e)
    requires Ready(Run(events), id) && Undisturbed(events, more, id)
    ensures var op, n := Run(events).ops[id], Advances(more, id);
            && IsUnderWay(Run(events + more), id, op.entry, op.metadata, if n < 4 then n else 4)
            && (n >= 4 ==> Run(events + more).ops[id].Committed?)
  {
    hide Inv, Step, IsProper, Advanced, Spares, Undisturbed;
    if more == [] {
      assert events + more == events;
    } else {
      var op, before, last := Run(events).ops[id], more[..|more| - 1], more[|more| - 1];
      var s := Run(events + before);
      assert events + more == (events + before) + [last];
      UndisturbedBefore(events, more, id);
      CommitsSucceed(events, before, id);
      RunInv(events + before);
      assert (events + more)[..|events + more| - 1] == events + before;
      var n := Advances(before, id);
      AfterOne(s, id, op.entry, op.metadata, if n < 4 then n else 4, last);
    }
  }

  lemma UndisturbedBefore(events: seq<Event>, more: seq<Event>, id: nat)
    requires Undisturbed(events, more, id) && more != []
    ensures Undisturbed(events, more[..|more| - 1], id)
    ensures Spares(Run(events + more[..|more| - 1]), id, more[|more| - 1])
  {
    hide Run, Spares;
    var before := more[..|more| - 1];
    forall i | 0 <= i < |before| ensures Spares(Run(events + before[..i]), id, before[i]) {
      assert before[..i] == more[..i];
    }
  }

  lemma AfterOne(s: Store, id: nat, entry: StagedEntry, metadata: Metadata, n: nat, e: Event)
    requires Inv(s) && IsUnderWay(s, id, entry, metadata, n) && Spares(s, id, e)
    ensures IsUnderWay(Step(s, e), id, entry, metadata, if e == Advance(id) && n < 4 then n + 1 else n)
  {
    hide Inv, Advanced;
    if e == Advance(id) {
      AdvanceMovesOn(s, id, entry, metadata, n);
    } else {
      OthersSpare(s, id, entry, metadata, n, e);
    }
  }

  /**
   * Concurrent commits of values that agree up to key order, with metadata that does, both succeed with the same
   * digests.
   */
  lemma EqualCommitsSucceedAlike(events: seq<Event>, more: seq<Event>, i: nat, j: nat)
    requires forall e :: e in events + more ==> IsProper(e)
    requires Ready(Run(events), i) && Undisturbed(events, more, i) && Advances(more, i) >= 4
    requires Ready(Run(events), j) && Undisturbed(events, more, j) && Advances(more, j) >= 4
    requires Denote(Run(events).ops[i].entry.value) == Denote(Run(events).ops[j].entry.value)
    requires Meant(Run(events).ops[i].metadata) == Meant(Run(events).ops[j].metadata)
    ensures var s := Run(events + more);
            && i in s.ops && s.ops[i].Committed? && j in s.ops && s.ops[j].Committed?
            && s.ops[i].entry.contents == s.ops[j].entry.contents && s.ops[i].manifest == s.ops[j].manifest
  {
    hide Run, Undisturbed, Denote, Meant, IsProper;
    CommitsSucceed(events, more, i);
    CommitsSucceed(events, more, j);
    EqualCommitsAgree(events + more, i, j);
    CommittedContents(events + more, i);
    CommittedContents(events + more, j);
    ContentsAgree(Run(events + more).ops[i].entry, Run(events + more).ops[j].entry);
  }

  lemma CommittedContents(events: seq<Event>, id: nat)
    requires (forall e :: e in events ==> IsProper(e)) && id in Run(events).ops && Run(events).ops[id].Committed?
    ensures EntryOk(Run(events).ops[id].entry)
  {
    hide Run, EntryOk;
    RunInv(events);
  }

  /** The store directory and one client's table of staged artifacts, with each wait as its own method. */
  class ArtifactDirectory {
    var objects: map<Sha256, Text>
    var manifests: map<Sha256, Text>
    var staging: map<nat, Text>
    var staged: map<nat, StagedEntry>
    var pending: map<nat, Op>
    var next: nat
    ghost var events: seq<Event>

    ghost function View(): Store
      reads this
    {
      Store(objects, manifests, staging, staged, pending, next)
    }

    /** The directory is what the events so far led to, all of them calls with JavaScript values. */
    ghost predicate Valid()
      reads this
    {
      View() == Run(events) && forall e :: e in events ==> IsProper(e)
    }

    constructor ()
      ensures Valid() && events == []
    {
      objects, manifests, staging, staged, pending, next, events := map[], map[], map[], map[], map[], 0, [];
    }

    method StageJson(value: Json) returns (handle: Option<nat>)
      requires Valid() && WellFormed(value)
      modifies this
      ensures Valid() && events == old(events) + [Stage(value)]
      ensures handle.Some? <==> AllFinite(value) && Summarize(value).Some?
    {
      hide Run;
      Appended(events, Stage(value));
      events := events + [Stage(value)];
      hide Summarize;
      var canonical := Canonicalize(value);
      if canonical.None? { return None; }
      var serialized := canonical.value + NEWLINE;
      var summary := RecordMetadata(value);
      if summary.None? { return None; }
      handle := Some(next);
      staging := staging[next := serialized];
      staged := staged[next := StagedEntry(value, Contents(Sha256(canonical.value), Utf8Length(serialized),
                                                           summary.value))];
      next := next + 1;
    }

    method CommitJson(handle: nat, metadata: Metadata) returns (id: Option<nat>)
      requires Valid() && IsMetadata(metadata)
      modifies this
      ensures Valid() && events == old(events) + [BeginCommit(handle, metadata)]
    {
      hide Run;
      Appended(events, BeginCommit(handle, metadata));
      events := events + [BeginCommit(handle, metadata)];
      if handle !in staged { return None; }
      id := Some(next);
      pending := pending[next := Reading(handle, staged[handle], metadata)];
      next := next + 1;
    }

    /** The staged file is read and checked against its digest. */
    method ReadStaged(id: nat)
      requires Valid() && id in pending && pending[id].Reading?
      modifies this
      ensures Valid() && events == old(events) + [Advance(id)]
    {
      hide Run;
      Appended(events, Advance(id));
      events := events + [Advance(id)];
      var op := pending[id];
      var found := op.handle in staging && DigestOfText(staging[op.handle]) == Some(op.entry.contents.digest);
      pending := pending[id := if found then LinkingObject(op.handle, op.entry, op.metadata, staging[op.handle])
                         else Failed];
    }

    /** writeImmutable: create the name, or accept what is there when it has the same contents. */
    static method WriteImmutable(directory: map<Sha256, Text>, name: Sha256, contents: Text)
      returns (ok: bool, after: map<Sha256, Text>)
      ensures ok == (name !in directory || directory[name] == contents)
      ensures after == if name in directory then directory else directory[name := contents]
    {
      after := directory;
      if name !in directory {
        after := directory[name := contents];
        return true, after;
      }
      ok := directory[name] == contents;
    }

    method LinkObject(id: nat)
      requires Valid() && id in pending && pending[id].LinkingObject?
      modifies this
      ensures Valid() && events == old(events) + [Advance(id)]
      ensures pending[id].LinkingManifest?
    {
      hide Run;
      LinkIsSafe(events, id);
      Appended(events, Advance(id));
      events := events + [Advance(id)];
      hide Manifest, Canonicalize, DigestOf;
      var op := pending[id];
      var ok, after := WriteImmutable(objects, op.entry.contents.digest, op.contents);
      objects := after;
      var manifest := Manifest(op.entry.contents, op.metadata);
      var name, text := DigestOf(manifest), Canonicalize(manifest);
      pending := pending[id := if !ok then Collided
                               else if name.None? || text.None? then Failed
                               else LinkingManifest(op.handle, op.entry, op.metadata, name.value,
                                                    text.value + NEWLINE)];
    }

    method LinkManifest(id: nat)
      requires Valid() && id in pending && pending[id].LinkingManifest?
      modifies this
      ensures Valid() && events == old(events) + [Advance(id)]
      ensures pending[id].Removing?
    {
      hide Run;
      LinkIsSafe(events, id);
      Appended(events, Advance(id));
      events := events + [Advance(id)];
      var op := pending[id];
      var ok, after := WriteImmutable(manifests, op.manifest, op.contents);
      manifests := after;
      pending := pending[id := if ok then Removing(op.handle, op.entry, op.metadata, op.manifest) else Collided];
    }

    method Discard(handle: nat)
      requires Valid()
      modifies this
      ensures Valid() && events == old(events) + [BeginDiscard(handle)]
    {
      hide Run;
      Appended(events, BeginDiscard(handle));
      events := events + [BeginDiscard(handle)];
      if handle !in staged { return; }
      pending := pending[next := Discarding(handle)];
      next := next + 1;
    }

    /** The staged file and its entry are gone, after a commit or a discard. */
    method RemoveStaged(id: nat)
      requires Valid() && (id in pending && (pending[id].Removing? || pending[id].Discarding?))
      modifies this
      ensures Valid() && events == old(events) + [Advance(id)]
    {
      hide Run;
      Appended(events, Advance(id));
      events := events + [Advance(id)];
      var op := pending[id];
      staging := staging - {op.handle};
      staged := staged - {op.handle};
      pending := pending[id := if op.Removing? then Committed(op.entry, op.metadata, op.manifest) else Failed];
    }
  }

  /** Neither link meets other contents under its name. */
  lemma LinkIsSafe(events: seq<Event>, id: nat)
    requires (forall e :: e in events ==> IsProper(e)) && id in Run(events).ops
    ensures var s, op := Run(events), Run(events).ops[id];
            && (op.LinkingObject? ==> Links(s.objects, op.entry.contents.digest, op.contents)
                                      && ManifestLink(op.handle, op.entry, op.metadata).LinkingManifest?)
            && (op.LinkingManifest? ==> Links(s.manifests, op.manifest, op.contents))
  {
    hide Run, EntryOk, ManifestLink, ManifestOk, EntriesOk, OpsFit, IsMetadata;
    RunInv(events);
    var s := Run(events);
    OneFits(s.ops, id, s.objects.Keys, s.manifests.Keys, s.staging, s.next);
    if s.ops[id].LinkingObject? {
      ManifestLinkIsOk(s.ops[id].handle, s.ops[id].entry, s.ops[id].metadata);
    }
  }

  lemma Appended(events: seq<Event>, e: Event)
    requires (forall x :: x in events ==> IsProper(x)) && IsProper(e)
    ensures Run(events + [e]) == Step(Run(events), e) && forall x :: x in events + [e] ==> IsProper(x)
  {
    hide Step, IsProper;
    assert (events + [e])[..|events + [e]| - 1] == events;
  }
}

/** When an ingestion is accepted, how it is refused, and everything it stores and returns. */
module IngestionOutcomes {
  import opened Wrappers
  import opened ArtifactPaths
  import BlobStore
  import opened ArtifactStore
  import opened Ingestion

  // ---- Sources ----

  /** Two sources are the same: a missing revision counts as one when looking a source up. */
  ghost predicate IsSame(x: Source, s: Source) {
    x.caseId == s.caseId && x.connector == s.connector && x.locator == s.locator && x.revision == s.revision
  }

  ghost predicate IsSourceName(t: Tables, id: Id) { exists x :: x in t.sources && x.id == id }

  ghost predicate IsKnownSource(t: Tables, s: Source) { exists x :: x in t.sources && IsSame(x, s) }

  /** A source is inserted under its own name, unless the name is taken or its revision is known. */
  ghost predicate IsInserted(t: Tables, s: Source) {
    !IsSourceName(t, s.id) && (s.revision.None? || !IsKnownSource(t, s))
  }

  lemma {:induction false} SameSourceFinds(sources: seq<Source>, s: Source)
    ensures match SameSource(sources, s)
      case None => forall x :: x in sources ==> !IsSame(x, s)
      case Some(x) => x in sources && IsSame(x, s)
  {
    if sources != [] {
      SameSourceFinds(sources[1..], s);
    }
  }

  /** Inserting a source fails exactly when its name is taken and no source is the same; otherwise the
      name that comes back is that of a stored source which is the same. */
  lemma SourcesExactly(t: Tables, s: Source)
    ensures var r := InsertOrGetSource(t, s);
      && (r.Ok? <==> !IsSourceName(t, s.id) || IsKnownSource(t, s))
      && (r.Err? ==> r == Err(Storage))
      && (r.Ok? ==>
           var (u, id) := r.value;
           && u == t.(sources := if IsInserted(t, s) then t.sources + [s] else t.sources)
           && exists x :: x in u.sources && x.id == id && IsSame(x, s))
  {
    SameSourceFinds(t.sources, s);
    if IsInserted(t, s) { assert s in t.sources + [s] && IsSame(s, s); }
    hide SameSource;
  }

  // ---- The transaction ----

  ghost predicate IsVersionName(t: Tables, id: Id) { exists v :: v in t.versions && v.id == id }

  ghost predicate IsArtifactName(t: Tables, id: Id) { exists a :: a in t.artifacts && a.id == id }

  ghost predicate IsKnownArtifact(t: Tables, b: Bundle) {
    exists a :: a in t.artifacts && a.caseId == b.artifact.caseId && a.sourceKey == b.artifact.sourceKey
  }

  /** The content is stored for the case and source key. */
  ghost predicate IsStored(t: Tables, b: Bundle) {
    b.version.hash in HashesOf(t, b.artifact.caseId, b.artifact.sourceKey)
  }

  ghost predicate Acceptable(t: Tables, b: Bundle) {
    && b.artifact.caseId in t.cases && (!IsSourceName(t, b.source.id) || IsKnownSource(t, b.source))
    && b.audit !in t.audits
    && (!IsStored(t, b) ==>
         !IsVersionName(t, b.version.id) && (IsKnownArtifact(t, b) || !IsArtifactName(t, b.artifact.id)))
  }

  lemma TargetFound(t: Tables, b: Bundle)
    ensures ArtifactOf(t.artifacts, b.artifact.caseId, b.artifact.sourceKey).Some? <==> IsKnownArtifact(t, b)
    ensures IsRepeat(t, b) <==> IsStored(t, b)
  {
    ArtifactOfFinds(t.artifacts, b.artifact.caseId, b.artifact.sourceKey);
    RepeatsHaveStoredHashes(t, b);
    hide ArtifactOf, WithHash, HashesOf;
  }

  /** The version constraints of the tables hold for the next version of a new content. */
  lemma NextVersionFits(t: Tables, b: Bundle)
    requires Inv(t) && FromService(b) && !IsRepeat(t, b) && !IsVersionName(t, b.version.id)
    requires IsKnownArtifact(t, b) || !IsArtifactName(t, b.artifact.id)
    ensures var id := TargetId(t, b); var n := if IsKnownArtifact(t, b) then MaxNumber(t.versions, id) + 1 else 1;
      forall v :: v in t.versions && v.artifactId == id ==> v.number != n && v.hash != b.version.hash
  {
    var id := TargetId(t, b);
    ArtifactOfFinds(t.artifacts, b.artifact.caseId, b.artifact.sourceKey);
    WithHashFinds(t.versions, id, b.version.hash);
    VersionsOfMembers(t.versions, id);
    if IsKnownArtifact(t, b) { MaxNumberIsCount(t.versions, id); }
    hide ArtifactOf, WithHash, VersionsOf, MaxNumber;
    forall v | v in t.versions && v.artifactId == id
      ensures v.hash != b.version.hash && IsKnownArtifact(t, b) && v.number <= MaxNumber(t.versions, id)
    {
      assert v in VersionsOf(t.versions, id);
    }
  }

  /** An ingestion is accepted exactly when its case is known, its source can be inserted or found, and
      no row it inserts is there. The rest of the tables does not matter. */
  lemma IngestingExactly(t: Tables, b: Bundle)
    requires Inv(t) && FromService(b)
    ensures var (u, r) := Ingest(t, b);
      && (r.Ok? <==> Acceptable(t, b))
      && (r == Err(NotFound) <==> b.artifact.caseId !in t.cases)
      && (r == Err(Storage) <==>
           b.artifact.caseId in t.cases && IsSourceName(t, b.source.id) && !IsKnownSource(t, b.source))
      && (r.Err? ==> (r.error == NotFound || r.error == Storage || r.error == Conflict) && u == t)
  {
    SourcesExactly(t, b.source);
    TargetFound(t, b);
    hide InsertOrGetSource, ArtifactOf, WithHash, MaxNumber, Inv, HashesOf, IsSame;
    if !IsRepeat(t, b) && !IsVersionName(t, b.version.id)
      && (IsKnownArtifact(t, b) || !IsArtifactName(t, b.artifact.id)) {
      NextVersionFits(t, b);
    }
  }

  /** The source rows after an ingestion, and the name under which the version is associated. */
  ghost predicate SourceRecorded(t: Tables, u: Tables, b: Bundle, version: Id, sourceId: Id) {
    && u.sources == (if IsInserted(t, b.source) then t.sources + [b.source] else t.sources)
    && (exists x :: x in u.sources && x.id == sourceId && IsSame(x, b.source))
    && u.associations == t.associations + {(version, sourceId)}
  }

  /** The artifact an ingestion returns: the known one, or the bundle's own under the source's name. */
  ghost predicate ArtifactRecorded(t: Tables, u: Tables, b: Bundle, a: Artifact, sourceId: Id) {
    && a in u.artifacts && a.caseId == b.artifact.caseId && a.sourceKey == b.artifact.sourceKey
    && (if IsKnownArtifact(t, b) then u.artifacts == t.artifacts
        else a == b.artifact.(sourceId := sourceId) && u.artifacts == t.artifacts + [a])
  }

  lemma RowsRecorded(t: Tables, b: Bundle)
    requires Ingest(t, b).1.Ok?
    ensures var (u, r) := Ingest(t, b);
      && u.cases == t.cases && u.audits == t.audits + {b.audit}
      && exists id ::
           SourceRecorded(t, u, b, r.value.version.id, id) && ArtifactRecorded(t, u, b, r.value.artifact, id)
    ensures TargetId(t, b) == Ingest(t, b).1.value.artifact.id
  {
    var (u, r) := Ingest(t, b);
    SourcesExactly(t, b.source);
    TargetFound(t, b);
    ArtifactOfFinds(t.artifacts, b.artifact.caseId, b.artifact.sourceKey);
    hide InsertOrGetSource, ArtifactOf, WithHash, MaxNumber, HashesOf, IsSame, IsInserted, IsKnownArtifact;
    var id := InsertOrGetSource(t, b.source).value.1;
    assert SourceRecorded(t, u, b, r.value.version.id, id);
    assert ArtifactRecorded(t, u, b, r.value.artifact, id);
  }

  /** The disposition tells exactly what was there: the content, or only the artifact, or neither. A
      content that is there is returned as it was stored; a new one becomes the next version of its
      artifact and is the only version added. */
  lemma IngestedExactly(t: Tables, b: Bundle)
    requires Inv(t) && FromService(b) && Ingest(t, b).1.Ok?
    ensures var (u, r) := Ingest(t, b);
      var hashes := HashesOf(t, b.artifact.caseId, b.artifact.sourceKey);
      var disposition, v := r.value.disposition, r.value.version;
      && (disposition == ExactDuplicate <==> IsStored(t, b))
      && (disposition == NewVersion <==> IsKnownArtifact(t, b) && !IsStored(t, b))
      && (disposition == NewArtifact <==> !IsKnownArtifact(t, b))
      && v.hash == b.version.hash && v.artifactId == r.value.artifact.id
      && (disposition == ExactDuplicate ==> v in t.versions && u.versions == t.versions)
      && (disposition != ExactDuplicate ==>
           && u.versions == t.versions + [v]
           && v == b.version.(artifactId := r.value.artifact.id, number := |hashes| + 1))
  {
    IngestRows(t, b);
    TargetFound(t, b);
    RowsRecorded(t, b);
    WithHashFinds(t.versions, TargetId(t, b), b.version.hash);
    NothingStoredYet(t, b);
    hide Ingest, ArtifactOf, WithHash, MaxNumber, HashesOf, Inv, IsKnownArtifact;
    if IsStored(t, b) { RepeatReturnsOriginal(t, b); } else { NewContentIsAppended(t, b); }
  }

  lemma NothingStoredYet(t: Tables, b: Bundle)
    ensures !IsKnownArtifact(t, b) ==> !IsStored(t, b)
  {
    TargetFound(t, b);
  }

  // ---- From bytes ----

  /** The store takes the bytes: it has them unaltered, or can write them and no stale file is in the way. */
  ghost predicate Storable(s: Archive, q: Request, process: nat, fault: Fault, digest: BlobStore.Digest)
    requires BlobStore.IsDigest(digest)
  {
    var hash := digest(q.bytes);
    if StorageKey(hash) in s.files then
      digest(s.files[StorageKey(hash)]) == hash && |s.files[StorageKey(hash)]| == |q.bytes|
    else fault == NoFault && TemporaryPath(hash, process, s.counter) !in s.files
  }

  /** What a put answers and leaves behind, for bytes that are there and for new ones. */
  lemma PutsExactly(s: Archive, q: Request, process: nat, fault: Fault, digest: BlobStore.Digest)
    requires BlobStore.IsDigest(digest)
    ensures var (files, r) := Put(s.files, q.bytes, process, s.counter, fault, digest);
      var key := StorageKey(digest(q.bytes));
      && (r.Ok? <==> Storable(s, q, process, fault, digest)) && (r.Err? ==> r == Err(Storage))
      && (r.Ok? ==>
           && r.value == StoredArtifact(digest(q.bytes), |q.bytes|, key, key in s.files)
           && files == if key in s.files then s.files else s.files[key := q.bytes])
  {
    hide StorageKey, TemporaryPath;
  }

  /** The bundle of a request whose bytes are stored. */
  ghost function RequestBundle(q: Request, digest: BlobStore.Digest): Bundle
    requires BlobStore.IsDigest(digest)
  {
    Bundle(Source(q.sourceId, q.caseId, q.connector, q.locator, q.revision),
           Artifact(q.artifactId, q.caseId, q.sourceId, q.sourceKey),
           Version(q.versionId, q.artifactId, 1, digest(q.bytes), |q.bytes|, StorageKey(digest(q.bytes))),
           q.auditId)
  }

  /** An ingestion of bytes is accepted exactly when they are within the limit, the store takes them
      and the transaction accepts their metadata; it returns what the transaction returns. */
  lemma IngestingBytesExactly(
    s: Archive, q: Request, limit: nat, process: nat, fault: Fault, digest: BlobStore.Digest)
    requires BlobStore.IsDigest(digest) && Inv(s.tables)
    ensures var (u, r) := IngestBytes(s, q, limit, process, fault, digest); var b := RequestBundle(q, digest);
      && FromService(b)
      && (r.Ok? <==> |q.bytes| <= limit && Storable(s, q, process, fault, digest) && Acceptable(s.tables, b))
      && (r == Err(TooLarge) <==> |q.bytes| > limit)
      && (r == Err(NotFound) <==> |q.bytes| <= limit && q.caseId !in s.tables.cases)
      && (r.Err? ==> u.tables == s.tables)
      && (r.Ok? ==> (u.tables, r) == Ingest(s.tables, b))
  {
    PutsExactly(s, q, process, fault, digest);
    IngestingExactly(s.tables, RequestBundle(q, digest));
    hide Put, Ingest, Storable, Inv, StorageKey;
  }

  /** A version is read exactly when it is stored and its blob has the digest that names it; what is
      read is that blob. */
  lemma ReadingExactly(s: Archive, id: Id, digest: BlobStore.Digest)
    requires Inv(s.tables) && BytesStored(s.tables, s.files)
    ensures ReadVersion(s, id, digest) == Err(NotFound) <==> !IsVersionName(s.tables, id)
    ensures forall v | v in s.tables.versions && v.id == id ::
      v.storageKey in s.files && ReadVersion(s, id, digest) ==
        if digest(s.files[v.storageKey]) == v.hash then Ok(s.files[v.storageKey]) else Err(Storage)
  {
    WithIdMisses(s.tables.versions, id);
    forall v | v in s.tables.versions && v.id == id
      ensures WithId(s.tables.versions, id) == Some(v)
      ensures v.storageKey in s.files && Read(s.files, v.storageKey, digest) ==
        if digest(s.files[v.storageKey]) == v.hash then Ok(s.files[v.storageKey]) else Err(Storage)
    {
      WithIdFinds(s.tables.versions, v);
      KeysRoundTrip(v.storageKey, v.hash);
    }
    hide WithId, Read, StorageKey, Inv;
  }

  lemma {:induction false} WithIdMisses(versions: seq<Version>, id: Id)
    ensures WithId(versions, id) == None <==> forall v :: v in versions ==> v.id != id
  {
    if versions != [] {
      WithIdMisses(versions[1..], id);
    }
  }
}

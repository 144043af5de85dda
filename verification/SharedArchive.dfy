/** Ingestions by many callers at once: their file operations interleave, with each other and with the
    transactions that store versions of the bytes put. */
module SharedArchive {
  import opened ArtifactPaths
  import opened ArtifactStore
  import opened BlobStore
  import opened Ingestion
  import opened Wrappers

  datatype Shared = Shared(store: Store, tables: Tables)

  /** A file operation, or the transaction of a caller whose put has succeeded. */
  datatype SharedStep = Blob(step: Step) | Commit(writer: nat, request: Request)

  /** What a successful put of some bytes tells its caller. */
  function StoredBytes(bytes: Bytes, digest: Digest): StoredArtifact
    requires IsDigest(digest)
  {
    StoredArtifact(digest(bytes), |bytes|, StorageKey(digest(bytes)), false)
  }

  predicate MayCommit(s: Shared, w: nat, q: Request) {
    w in s.store.writers && s.store.writers[w].phase == Finished(true) && s.store.writers[w].bytes == q.bytes
  }

  ghost function ApplyShared(s: Shared, step: SharedStep, digest: Digest): Shared
    requires IsDigest(digest)
  {
    match step
    case Blob(b) => s.(store := Apply(s.store, b, digest))
    case Commit(w, q) =>
      if MayCommit(s, w, q) then s.(tables := Ingest(s.tables, BundleOf(q, StoredBytes(q.bytes, digest))).0) else s
  }

  ghost function RunShared(s: Shared, steps: seq<SharedStep>, digest: Digest): Shared
    requires IsDigest(digest)
    decreases steps
  {
    if steps == [] then s else RunShared(ApplyShared(s, steps[0], digest), steps[1..], digest)
  }

  ghost predicate SharedInv(s: Shared, digest: Digest, pool: set<Bytes>)
    requires IsDigest(digest)
  {
    BlobStore.Inv(s.store, digest) && Within(s.store, pool) && Ingestion.Inv(s.tables)
      && BytesStored(s.tables, s.store.files)
  }

  predicate PutsFromPool(step: SharedStep, pool: set<Bytes>) {
    step.Blob? && step.step.Begin? ==> step.step.bytes in pool
  }

  /** Versions and blobs stay what they are. */
  ghost predicate Keeps(s: Shared, t: Shared) {
    && s.tables.versions <= t.tables.versions
    && forall hash | IsHash(hash) && StorageKey(hash) in s.store.files ::
         StorageKey(hash) in t.store.files && t.store.files[StorageKey(hash)] == s.store.files[StorageKey(hash)]
  }

  lemma BlobStepKeeps(s: Shared, step: Step, digest: Digest, pool: set<Bytes>)
    requires IsDigest(digest) && SharedInv(s, digest, pool) && CollisionFree(digest, pool)
      && (step.Begin? ==> step.bytes in pool)
    ensures var t := ApplyShared(s, Blob(step), digest); SharedInv(t, digest, pool) && Keeps(s, t)
  {
    hide Apply, StorageKey, BlobStore.Inv, Within, Ingestion.Inv;
    BlobStore.StepKeepsInv(s.store, step, digest);
    StepStaysWithin(s.store, step, digest, pool);
    RunOne(s.store, step, digest);
    forall hash | IsHash(hash) && StorageKey(hash) in s.store.files
      ensures var t := Apply(s.store, step, digest);
        StorageKey(hash) in t.files && t.files[StorageKey(hash)] == s.store.files[StorageKey(hash)]
    {
      CommittedBlobsNeverChange(s.store, [step], digest, pool, hash);
    }
  }

  /** A commit stores or finds a version whose blob is in place with the caller's bytes. */
  lemma CommitKeeps(s: Shared, w: nat, q: Request, digest: Digest, pool: set<Bytes>)
    requires IsDigest(digest) && SharedInv(s, digest, pool) && CollisionFree(digest, pool) && MayCommit(s, w, q)
    ensures var t := ApplyShared(s, Commit(w, q), digest); SharedInv(t, digest, pool) && Keeps(s, t)
    ensures var r := Ingest(s.tables, BundleOf(q, StoredBytes(q.bytes, digest))).1;
      r.Ok? ==>
        var t, v := ApplyShared(s, Commit(w, q), digest), r.value.version;
        v in t.tables.versions && v.storageKey in t.store.files && t.store.files[v.storageKey] == q.bytes
  {
    hide Ingest, StorageKey, Ingestion.Inv;
    var b := BundleOf(q, StoredBytes(q.bytes, digest));
    SuccessIsDurable(s.store, [], digest, pool, w);
    if Ingest(s.tables, b).1.Err? {
      RefusedLeavesNoTrace(s.tables, b);
    } else {
      StoredVersionOf(s.tables, b);
    }
  }

  lemma SharedStepKeeps(s: Shared, step: SharedStep, digest: Digest, pool: set<Bytes>)
    requires IsDigest(digest) && SharedInv(s, digest, pool) && CollisionFree(digest, pool) && PutsFromPool(step, pool)
    ensures SharedInv(ApplyShared(s, step, digest), digest, pool) && Keeps(s, ApplyShared(s, step, digest))
  {
    hide SharedInv, StorageKey, Ingest, Apply;
    match step
    case Blob(b) => BlobStepKeeps(s, b, digest, pool);
    case Commit(w, q) => if MayCommit(s, w, q) { CommitKeeps(s, w, q, digest, pool); }
  }

  lemma KeepsTransitive(s: Shared, t: Shared, u: Shared)
    requires Keeps(s, t) && Keeps(t, u)
    ensures Keeps(s, u)
  {
    hide StorageKey;
  }

  /** Any interleaving of file operations and transactions keeps every version and its bytes. */
  lemma {:induction false} SharedRunKeeps(s: Shared, steps: seq<SharedStep>, digest: Digest, pool: set<Bytes>)
    requires IsDigest(digest) && SharedInv(s, digest, pool) && CollisionFree(digest, pool)
    requires forall step :: step in steps ==> PutsFromPool(step, pool)
    ensures SharedInv(RunShared(s, steps, digest), digest, pool) && Keeps(s, RunShared(s, steps, digest))
    decreases steps
  {
    hide SharedInv, ApplyShared, Keeps, CollisionFree;
    if steps == [] {
      KeepsItself(s);
    } else {
      var t := ApplyShared(s, steps[0], digest);
      assert steps[0] in steps;
      SharedStepKeeps(s, steps[0], digest, pool);
      assert forall step :: step in steps[1..] ==> step in steps;
      SharedRunKeeps(t, steps[1..], digest, pool);
      KeepsTransitive(s, t, RunShared(s, steps, digest));
    }
  }

  lemma KeepsItself(s: Shared)
    ensures Keeps(s, s)
  {
    hide StorageKey;
  }

  /** The version a caller's commit returned reads as exactly the caller's bytes after any further
      interleaving of file operations, crashes and commits of any callers. */
  lemma InterleavedBytesReadBack(s: Shared, w: nat, q: Request, later: seq<SharedStep>, digest: Digest,
    pool: set<Bytes>)
    requires IsDigest(digest) && SharedInv(s, digest, pool) && CollisionFree(digest, pool) && MayCommit(s, w, q)
    requires forall step :: step in later ==> PutsFromPool(step, pool)
    requires Ingest(s.tables, BundleOf(q, StoredBytes(q.bytes, digest))).1.Ok?
    ensures var v := Ingest(s.tables, BundleOf(q, StoredBytes(q.bytes, digest))).1.value.version;
      var u := RunShared(ApplyShared(s, Commit(w, q), digest), later, digest);
      ReadVersion(Archive(u.tables, u.store.files, 0), v.id, digest) == Ok(q.bytes)
  {
    hide Ingest, StorageKey, CollisionFree, ApplyShared, RunShared;
    var t := ApplyShared(s, Commit(w, q), digest);
    var v := Ingest(s.tables, BundleOf(q, StoredBytes(q.bytes, digest))).1.value.version;
    CommitKeeps(s, w, q, digest, pool);
    SharedRunKeeps(t, later, digest, pool);
    VersionReads(RunShared(t, later, digest), v, digest, pool);
  }

  /** A stored version reads as its blob. */
  lemma VersionReads(u: Shared, v: Version, digest: Digest, pool: set<Bytes>)
    requires IsDigest(digest) && SharedInv(u, digest, pool) && v in u.tables.versions
    ensures IsHash(v.hash) && v.storageKey == StorageKey(v.hash) && v.storageKey in u.store.files
    ensures ReadVersion(Archive(u.tables, u.store.files, 0), v.id, digest) == Ok(u.store.files[v.storageKey])
  {
    hide StorageKey;
    WithIdFinds(u.tables.versions, v);
    KeysRoundTrip(v.storageKey, v.hash);
  }

  /** The empty archive starts such runs. */
  lemma EmptyIsShared(cases: set<Id>, digest: Digest, pool: set<Bytes>)
    requires IsDigest(digest)
    ensures SharedInv(Shared(EMPTY, Start(cases)), digest, pool)
  {
  }
}

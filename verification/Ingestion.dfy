/** Ingestion of artifacts: immutable versions per case and source key, and the bytes behind them. */
module Ingestion {
  import opened Wrappers
  import opened ArtifactPaths
  import opened BlobStore
  import opened ArtifactStore

  type Id = string

  datatype Source = Source(id: Id, caseId: Id, connector: string, locator: string, revision: Option<string>)

  datatype Artifact = Artifact(id: Id, caseId: Id, sourceId: Id, sourceKey: string)

  datatype Version = Version(id: Id, artifactId: Id, number: nat, hash: string, length: nat, storageKey: string)

  /** The tables an ingestion reads and writes. */
  datatype Tables = Tables(
    cases: set<Id>, sources: seq<Source>, artifacts: seq<Artifact>, versions: seq<Version>, associations: set<(Id, Id)>,
    audits: set<Id>)

  datatype Bundle = Bundle(source: Source, artifact: Artifact, version: Version, audit: Id)

  datatype Disposition = NewArtifact | NewVersion | ExactDuplicate

  datatype Ingested = Ingested(artifact: Artifact, version: Version, disposition: Disposition)

  // ---- Queries ----

  function ArtifactOf(artifacts: seq<Artifact>, caseId: Id, sourceKey: string): Option<Artifact> {
    if artifacts == [] then None
    else if artifacts[0].caseId == caseId && artifacts[0].sourceKey == sourceKey then Some(artifacts[0])
    else ArtifactOf(artifacts[1..], caseId, sourceKey)
  }

  /** The versions of one artifact, in the order they were stored. */
  function VersionsOf(versions: seq<Version>, artifactId: Id): seq<Version> {
    if versions == [] then []
    else
      VersionsOf(versions[..|versions| - 1], artifactId)
      + if versions[|versions| - 1].artifactId == artifactId then [versions[|versions| - 1]] else []
  }

  function WithHash(versions: seq<Version>, artifactId: Id, hash: string): Option<Version> {
    if versions == [] then None
    else if versions[0].artifactId == artifactId && versions[0].hash == hash then Some(versions[0])
    else WithHash(versions[1..], artifactId, hash)
  }

  function WithId(versions: seq<Version>, id: Id): Option<Version> {
    if versions == [] then None
    else if versions[0].id == id then Some(versions[0])
    else WithId(versions[1..], id)
  }

  /** The largest version number of an artifact, 0 when it has none. */
  function MaxNumber(versions: seq<Version>, artifactId: Id): nat {
    if versions == [] then 0
    else
      var rest, last := MaxNumber(versions[..|versions| - 1], artifactId), versions[|versions| - 1];
      if last.artifactId == artifactId && last.number > rest then last.number else rest
  }

  function SameSource(sources: seq<Source>, s: Source): Option<Source> {
    if sources == [] then None
    else if sources[0].caseId == s.caseId && sources[0].connector == s.connector
            && sources[0].locator == s.locator && sources[0].revision == s.revision then Some(sources[0])
    else SameSource(sources[1..], s)
  }

  // ---- Transactions ----

  /** Inserts a source or finds the one already there; sources without a revision never clash. */
  function InsertOrGetSource(t: Tables, s: Source): Result<(Tables, Id)> {
    if (forall x :: x in t.sources ==> x.id != s.id) && (s.revision.None? || SameSource(t.sources, s).None?) then
      Ok((t.(sources := t.sources + [s]), s.id))
    else match SameSource(t.sources, s)
      case None => Err(Storage)
      case Some(x) => Ok((t, x.id))
  }

  /** Primary key and the two uniqueness constraints of the version table. */
  function InsertVersion(t: Tables, v: Version): Result<Tables> {
    if exists x :: x in t.versions
         && (x.id == v.id || (x.artifactId == v.artifactId && (x.number == v.number || x.hash == v.hash)))
    then Err(Conflict)
    else Ok(t.(versions := t.versions + [v]))
  }

  /** The whole transaction; the audit row comes last and is refused when its identifier is taken. */
  function Ingest(t: Tables, b: Bundle): (Tables, Result<Ingested>) {
    var (u, r) := IngestRowsOf(t, b);
    if r.Err? then (t, r)
    else if b.audit in t.audits then (t, Err(Conflict))
    else (u.(audits := t.audits + {b.audit}), r)
  }

  function IngestRowsOf(t: Tables, b: Bundle): (Tables, Result<Ingested>) {
    if b.artifact.caseId !in t.cases then (t, Err(NotFound))
    else match InsertOrGetSource(t, b.source)
      case Err(e) => (t, Err(e))
      case Ok((t1, sourceId)) =>
        match ArtifactOf(t1.artifacts, b.artifact.caseId, b.artifact.sourceKey)
        case Some(a) =>
          (match WithHash(t1.versions, a.id, b.version.hash)
           case Some(v) =>
             (t1.(associations := t1.associations + {(v.id, sourceId)}), Ok(Ingested(a, v, ExactDuplicate)))
           case None =>
             var v := b.version.(artifactId := a.id, number := MaxNumber(t1.versions, a.id) + 1);
             match InsertVersion(t1, v)
             case Err(e) => (t, Err(e))
             case Ok(t2) => (t2.(associations := t2.associations + {(v.id, sourceId)}), Ok(Ingested(a, v, NewVersion))))
        case None =>
          if exists x :: x in t1.artifacts && x.id == b.artifact.id then (t, Err(Conflict))
          else
            var a := b.artifact.(sourceId := sourceId);
            match InsertVersion(t1.(artifacts := t1.artifacts + [a]), b.version)
            case Err(e) => (t, Err(e))
            case Ok(t2) =>
              (t2.(associations := t2.associations + {(b.version.id, sourceId)}),
                Ok(Ingested(a, b.version, NewArtifact)))
  }

  /** The repository: each call works on a copy of the tables and commits it as a whole. */
  class ArtifactRepository {
    var tables: Tables

    constructor (cases: set<Id>)
      ensures tables == Start(cases)
    {
      tables := Start(cases);
    }

    method IngestBundle(b: Bundle) returns (r: Result<Ingested>)
      modifies this
      ensures (tables, r) == Ingest(old(tables), b)
    {
      if b.artifact.caseId !in tables.cases {
        return Err(NotFound);
      }
      var transaction, sourceId := tables, b.source.id;
      match InsertOrGetSource(transaction, b.source) {
        case Err(e) => return Err(e);
        case Ok((t, id)) => transaction, sourceId := t, id;
      }
      var artifact, version, disposition := b.artifact, b.version, NewArtifact;
      match ArtifactOf(transaction.artifacts, b.artifact.caseId, b.artifact.sourceKey) {
        case Some(a) =>
          artifact := a;
          match WithHash(transaction.versions, a.id, b.version.hash) {
            case Some(v) => version, disposition := v, ExactDuplicate;
            case None =>
              version := version.(artifactId := a.id, number := MaxNumber(transaction.versions, a.id) + 1);
              disposition := NewVersion;
          }
        case None =>
          artifact := artifact.(sourceId := sourceId);
          if exists x :: x in transaction.artifacts && x.id == artifact.id {
            return Err(Conflict);
          }
          transaction := transaction.(artifacts := transaction.artifacts + [artifact]);
      }
      if disposition != ExactDuplicate {
        match InsertVersion(transaction, version) {
          case Err(e) => return Err(e);
          case Ok(t) => transaction := t;
        }
      }
      transaction := transaction.(associations := transaction.associations + {(version.id, sourceId)});
      if b.audit in transaction.audits {
        return Err(Conflict);
      }
      transaction := transaction.(audits := transaction.audits + {b.audit});
      tables := transaction;
      return Ok(Ingested(artifact, version, disposition));
    }
  }

  function Start(cases: set<Id>): Tables { Tables(cases, [], [], [], {}, {}) }

  // ---- Invariant ----

  /** The versions of each artifact are numbered 1 to n without gaps and have distinct hashes. */
  predicate Numbered(versions: seq<Version>) {
    && (forall i :: 0 <= i < |versions| ==> versions[i].number == i + 1)
    && forall i, j :: 0 <= i < j < |versions| ==> versions[i].hash != versions[j].hash
  }

  ghost predicate Inv(t: Tables) {
    && (forall id: Id :: Numbered(VersionsOf(t.versions, id)))
    && (forall v :: v in t.versions ==> exists a :: a in t.artifacts && a.id == v.artifactId)
    && (forall i, j :: 0 <= i < j < |t.artifacts| ==> t.artifacts[i].id != t.artifacts[j].id)
    && (forall i, j :: 0 <= i < j < |t.versions| ==> t.versions[i].id != t.versions[j].id)
  }

  lemma {:induction false} VersionsOfMembers(versions: seq<Version>, artifactId: Id)
    ensures forall v :: v in VersionsOf(versions, artifactId) <==> v in versions && v.artifactId == artifactId
  {
    if versions != [] {
      VersionsOfMembers(versions[..|versions| - 1], artifactId);
      assert versions == versions[..|versions| - 1] + [versions[|versions| - 1]];
    }
  }

  lemma {:induction false} NoVersionsOf(versions: seq<Version>, artifactId: Id)
    requires forall v :: v in versions ==> v.artifactId != artifactId
    ensures VersionsOf(versions, artifactId) == []
  {
    if versions != [] {
      NoVersionsOf(versions[..|versions| - 1], artifactId);
    }
  }

  lemma {:induction false} MaxNumberIsCount(versions: seq<Version>, artifactId: Id)
    requires Numbered(VersionsOf(versions, artifactId))
    ensures MaxNumber(versions, artifactId) == |VersionsOf(versions, artifactId)|
  {
    if versions != [] {
      var rest, all := VersionsOf(versions[..|versions| - 1], artifactId), VersionsOf(versions, artifactId);
      assert forall i :: 0 <= i < |rest| ==> rest[i] == all[i];
      assert all != rest ==> all[|rest|] == versions[|versions| - 1];
      MaxNumberIsCount(versions[..|versions| - 1], artifactId);
    }
  }

  lemma {:induction false} WithHashFinds(versions: seq<Version>, artifactId: Id, hash: string)
    ensures match WithHash(versions, artifactId, hash)
      case None => forall v :: v in versions && v.artifactId == artifactId ==> v.hash != hash
      case Some(v) => v in versions && v.artifactId == artifactId && v.hash == hash
  {
    if versions != [] {
      WithHashFinds(versions[1..], artifactId, hash);
    }
  }

  lemma {:induction false} ArtifactOfFinds(artifacts: seq<Artifact>, caseId: Id, sourceKey: string)
    ensures match ArtifactOf(artifacts, caseId, sourceKey)
      case None => forall a :: a in artifacts ==> a.caseId != caseId || a.sourceKey != sourceKey
      case Some(a) => a in artifacts && a.caseId == caseId && a.sourceKey == sourceKey
  {
    if artifacts != [] {
      ArtifactOfFinds(artifacts[1..], caseId, sourceKey);
    }
  }

  lemma {:induction false} ArtifactOfAppended(artifacts: seq<Artifact>, a: Artifact, caseId: Id, sourceKey: string)
    ensures ArtifactOf(artifacts + [a], caseId, sourceKey) ==
      if ArtifactOf(artifacts, caseId, sourceKey).Some? then ArtifactOf(artifacts, caseId, sourceKey)
      else if a.caseId == caseId && a.sourceKey == sourceKey then Some(a) else None
  {
    if artifacts == [] {
      assert [a][1..] == [];
    } else {
      assert (artifacts + [a])[1..] == artifacts[1..] + [a];
      ArtifactOfAppended(artifacts[1..], a, caseId, sourceKey);
    }
  }

  lemma VersionsOfAppended(versions: seq<Version>, v: Version, artifactId: Id)
    ensures VersionsOf(versions + [v], artifactId) ==
      VersionsOf(versions, artifactId) + if v.artifactId == artifactId then [v] else []
  {
    assert (versions + [v])[..|versions|] == versions;
  }

  /** The hashes of an artifact's versions in order. */
  function HashesOf(t: Tables, caseId: Id, sourceKey: string): seq<string> {
    match ArtifactOf(t.artifacts, caseId, sourceKey)
    case None => []
    case Some(a) => Hashes(VersionsOf(t.versions, a.id))
  }

  function Hashes(versions: seq<Version>): seq<string> {
    seq(|versions|, i requires 0 <= i < |versions| => versions[i].hash)
  }

  /** A bundle as the service builds it: its version is the first of its own artifact. */
  predicate FromService(b: Bundle) {
    b.version.number == 1 && b.version.artifactId == b.artifact.id && b.source.caseId == b.artifact.caseId
  }

  // ---- One ingestion ----

  /** What an accepted ingestion does to the hashes of its own artifact. */
  function Extended(hashes: seq<string>, hash: string): seq<string> {
    if hash in hashes then hashes else hashes + [hash]
  }

  lemma NumberedAppended(versions: seq<Version>, v: Version, artifactId: Id)
    requires Numbered(VersionsOf(versions, artifactId)) && WithHash(versions, v.artifactId, v.hash).None?
    requires v.number == |VersionsOf(versions, v.artifactId)| + 1
    ensures Numbered(VersionsOf(versions + [v], artifactId))
  {
    hide VersionsOf, WithHash;
    VersionsOfAppended(versions, v, artifactId);
    VersionsOfMembers(versions, artifactId);
    WithHashFinds(versions, v.artifactId, v.hash);
  }

  lemma AppendKeepsInv(t: Tables, u: Tables, v: Version)
    requires Inv(t) && u.versions == t.versions + [v]
    requires forall i, j :: 0 <= i < j < |u.artifacts| ==> u.artifacts[i].id != u.artifacts[j].id
    requires t.artifacts <= u.artifacts && exists a :: a in u.artifacts && a.id == v.artifactId
    requires forall x :: x in t.versions ==> x.id != v.id
    requires WithHash(t.versions, v.artifactId, v.hash).None? && v.number == |VersionsOf(t.versions, v.artifactId)| + 1
    ensures Inv(u)
  {
    hide VersionsOf, WithHash, Numbered;
    forall id: Id
      ensures Numbered(VersionsOf(u.versions, id))
    {
      NumberedAppended(t.versions, v, id);
    }
    forall x | x in u.versions
      ensures exists a :: a in u.artifacts && a.id == x.artifactId
    {
      if x in t.versions {
        var a :| a in t.artifacts && a.id == x.artifactId;
        assert a in u.artifacts;
      }
    }
  }

  /** The artifact row an ingestion writes or finds. */
  function TargetId(t: Tables, b: Bundle): Id {
    match ArtifactOf(t.artifacts, b.artifact.caseId, b.artifact.sourceKey)
    case Some(a) => a.id
    case None => b.artifact.id
  }

  predicate IsRepeat(t: Tables, b: Bundle) {
    && ArtifactOf(t.artifacts, b.artifact.caseId, b.artifact.sourceKey).Some?
    && WithHash(t.versions, TargetId(t, b), b.version.hash).Some?
  }

  /** The artifact and version rows of an accepted ingestion, branch by branch. */
  lemma IngestRows(t: Tables, b: Bundle)
    requires Ingest(t, b).1.Ok?
    ensures var (u, r) := Ingest(t, b); var found := ArtifactOf(t.artifacts, b.artifact.caseId, b.artifact.sourceKey);
      && (IsRepeat(t, b) ==>
           && r.value == Ingested(found.value, WithHash(t.versions, TargetId(t, b), b.version.hash).value,
              ExactDuplicate)
           && u.versions == t.versions && u.artifacts == t.artifacts)
      && (!IsRepeat(t, b) ==>
           && u.versions == t.versions + [r.value.version]
           && (forall x :: x in t.versions ==> x.id != r.value.version.id)
           && (found.Some? ==>
                && r.value.disposition == NewVersion && u.artifacts == t.artifacts
                && r.value.version ==
                   b.version.(artifactId := TargetId(t, b), number := MaxNumber(t.versions, TargetId(t, b)) + 1))
           && (found.None? ==>
                && r.value.disposition == NewArtifact && r.value.version == b.version
                && (forall x :: x in t.artifacts ==> x.id != b.artifact.id)
                && |u.artifacts| == |t.artifacts| + 1 && u.artifacts == t.artifacts + [u.artifacts[|t.artifacts|]]
                && u.artifacts[|t.artifacts|].(sourceId := b.artifact.sourceId) == b.artifact))
  {
  }

  lemma RepeatsHaveStoredHashes(t: Tables, b: Bundle)
    ensures IsRepeat(t, b) <==> b.version.hash in HashesOf(t, b.artifact.caseId, b.artifact.sourceKey)
  {
    var stored := VersionsOf(t.versions, TargetId(t, b));
    VersionsOfMembers(t.versions, TargetId(t, b));
    WithHashFinds(t.versions, TargetId(t, b), b.version.hash);
    if IsRepeat(t, b) {
      var v := WithHash(t.versions, TargetId(t, b), b.version.hash).value;
      var i :| 0 <= i < |stored| && stored[i] == v;
      assert Hashes(stored)[i] == b.version.hash;
    } else if ArtifactOf(t.artifacts, b.artifact.caseId, b.artifact.sourceKey).Some? {
      forall i | 0 <= i < |stored|
        ensures Hashes(stored)[i] != b.version.hash
      {
        assert stored[i] in stored;
      }
    }
  }

  /** Repeated content: the version stored first comes back and no version is stored. */
  lemma RepeatReturnsOriginal(t: Tables, b: Bundle)
    requires Inv(t) && Ingest(t, b).1.Ok?
    requires b.version.hash in HashesOf(t, b.artifact.caseId, b.artifact.sourceKey)
    ensures var (u, r) := Ingest(t, b); var hashes := HashesOf(t, b.artifact.caseId, b.artifact.sourceKey);
      && r.value.disposition == ExactDuplicate && r.value.version in t.versions
      && r.value.version.hash == b.version.hash
      && 1 <= r.value.version.number <= |hashes| && hashes[r.value.version.number - 1] == b.version.hash
      && u.versions == t.versions && u.artifacts == t.artifacts && Inv(u)
  {
    hide Ingest, VersionsOf, WithHash;
    IngestRows(t, b);
    RepeatsHaveStoredHashes(t, b);
    VersionsOfMembers(t.versions, TargetId(t, b));
    WithHashFinds(t.versions, TargetId(t, b), b.version.hash);
    var stored := VersionsOf(t.versions, TargetId(t, b));
    var v := Ingest(t, b).1.value.version;
    var i :| 0 <= i < |stored| && stored[i] == v;
    assert Hashes(stored)[v.number - 1] == v.hash;
  }

  /** New content becomes the next version. */
  lemma NewContentIsAppended(t: Tables, b: Bundle)
    requires Inv(t) && FromService(b) && Ingest(t, b).1.Ok?
    requires b.version.hash !in HashesOf(t, b.artifact.caseId, b.artifact.sourceKey)
    ensures var (u, r) := Ingest(t, b); var before := HashesOf(t, b.artifact.caseId, b.artifact.sourceKey);
      && Inv(u) && u.versions == t.versions + [r.value.version] && r.value.disposition != ExactDuplicate
      && r.value.version == b.version.(artifactId := TargetId(t, b), number := |before| + 1)
      && HashesOf(u, b.artifact.caseId, b.artifact.sourceKey) == before + [b.version.hash]
  {
    hide Ingest, VersionsOf, WithHash, ArtifactOf, MaxNumber, Inv;
    var (u, r) := Ingest(t, b);
    var v, id := r.value.version, TargetId(t, b);
    IngestRows(t, b);
    RepeatsHaveStoredHashes(t, b);
    NewVersionFits(t, b);
    TargetAfter(t, b);
    AppendKeepsInv(t, u, v);
    VersionsOfAppended(t.versions, v, id);
    assert Hashes(VersionsOf(t.versions, id) + [v]) == Hashes(VersionsOf(t.versions, id)) + [v.hash];
  }

  lemma NewVersionFits(t: Tables, b: Bundle)
    requires Inv(t) && FromService(b) && Ingest(t, b).1.Ok? && !IsRepeat(t, b)
    ensures var (u, r) := Ingest(t, b); var id := TargetId(t, b);
      && WithHash(t.versions, id, b.version.hash).None?
      && r.value.version == b.version.(artifactId := id, number := |VersionsOf(t.versions, id)| + 1)
      && |HashesOf(t, b.artifact.caseId, b.artifact.sourceKey)| == |VersionsOf(t.versions, id)|
      && (ArtifactOf(t.artifacts, b.artifact.caseId, b.artifact.sourceKey).None? ==> VersionsOf(t.versions, id) == [])
  {
    hide Ingest, VersionsOf, WithHash, ArtifactOf, MaxNumber;
    IngestRows(t, b);
    var id := TargetId(t, b);
    VersionsOfMembers(t.versions, id);
    WithHashFinds(t.versions, id, b.version.hash);
    if ArtifactOf(t.artifacts, b.artifact.caseId, b.artifact.sourceKey).Some? {
      MaxNumberIsCount(t.versions, id);
    } else {
      forall v | v in t.versions
        ensures v.artifactId != id
      {
        var a :| a in t.artifacts && a.id == v.artifactId;
      }
      NoVersionsOf(t.versions, id);
    }
  }

  /** After the ingestion the artifact is found under its case and source key, and artifact
      identifiers are still distinct. */
  lemma TargetAfter(t: Tables, b: Bundle)
    requires Inv(t) && Ingest(t, b).1.Ok? && !IsRepeat(t, b)
    ensures var (u, r) := Ingest(t, b);
      && t.artifacts <= u.artifacts
      && (forall i, j :: 0 <= i < j < |u.artifacts| ==> u.artifacts[i].id != u.artifacts[j].id)
      && (exists a :: a in u.artifacts && a.id == TargetId(t, b))
      && (forall c, k :: ArtifactOf(u.artifacts, c, k) ==
           if c == b.artifact.caseId && k == b.artifact.sourceKey && ArtifactOf(t.artifacts, c, k).None?
           then Some(u.artifacts[|t.artifacts|]) else ArtifactOf(t.artifacts, c, k))
      && ArtifactOf(u.artifacts, b.artifact.caseId, b.artifact.sourceKey).Some?
      && ArtifactOf(u.artifacts, b.artifact.caseId, b.artifact.sourceKey).value.id == TargetId(t, b)
  {
    hide Ingest, VersionsOf, WithHash, ArtifactOf, MaxNumber;
    IngestRows(t, b);
    var u := Ingest(t, b).0;
    ArtifactOfFinds(t.artifacts, b.artifact.caseId, b.artifact.sourceKey);
    if u.artifacts != t.artifacts {
      var a := u.artifacts[|t.artifacts|];
      forall c, k
        ensures ArtifactOf(u.artifacts, c, k) == if ArtifactOf(t.artifacts, c, k).Some? then
          ArtifactOf(t.artifacts, c, k)
          else if a.caseId == c && a.sourceKey == k then Some(a) else None
      {
        ArtifactOfAppended(t.artifacts, a, c, k);
      }
    }
  }

  lemma OtherKeysUnchanged(t: Tables, b: Bundle, caseId: Id, sourceKey: string)
    requires Inv(t) && FromService(b) && Ingest(t, b).1.Ok?
    requires caseId != b.artifact.caseId || sourceKey != b.artifact.sourceKey
    ensures HashesOf(Ingest(t, b).0, caseId, sourceKey) == HashesOf(t, caseId, sourceKey)
  {
    hide Ingest, VersionsOf, WithHash, ArtifactOf, MaxNumber;
    IngestRows(t, b);
    if !IsRepeat(t, b) {
      TargetAfter(t, b);
      NewVersionFits(t, b);
      ArtifactOfFinds(t.artifacts, caseId, sourceKey);
      ArtifactOfFinds(t.artifacts, b.artifact.caseId, b.artifact.sourceKey);
      var mine := ArtifactOf(t.artifacts, caseId, sourceKey);
      if mine.Some? {
        assert mine.value.id != TargetId(t, b);
        VersionsOfAppended(t.versions, Ingest(t, b).1.value.version, mine.value.id);
      }
    }
  }

  // ---- Whole runs ----

  /** The tables after a sequence of ingestions, the last one last. */
  function After(cases: set<Id>, bundles: seq<Bundle>): Tables {
    if bundles == [] then Start(cases)
    else Ingest(After(cases, bundles[..|bundles| - 1]), bundles[|bundles| - 1]).0
  }

  /** The contents accepted for one case and source key, in order and with repeats. */
  function Accepted(cases: set<Id>, bundles: seq<Bundle>, caseId: Id, sourceKey: string): seq<string> {
    if bundles == [] then []
    else
      var earlier, last := bundles[..|bundles| - 1], bundles[|bundles| - 1];
      Accepted(cases, earlier, caseId, sourceKey)
      + if Ingest(After(cases, earlier), last).1.Ok? && last.artifact.caseId == caseId
        && last.artifact.sourceKey == sourceKey
        then [last.version.hash] else []
  }

  /** Repeats removed, first occurrences kept in order. */
  function FirstOccurrences(s: seq<string>): seq<string> {
    if s == [] then []
    else
      var earlier, last := s[..|s| - 1], s[|s| - 1];
      if last in earlier then FirstOccurrences(earlier) else FirstOccurrences(earlier) + [last]
  }

  lemma {:induction false} FirstOccurrencesMembers(s: seq<string>)
    ensures forall x :: x in FirstOccurrences(s) <==> x in s
  {
    if s != [] {
      FirstOccurrencesMembers(s[..|s| - 1]);
      assert s == s[..|s| - 1] + [s[|s| - 1]];
    }
  }

  lemma RefusedLeavesNoTrace(t: Tables, b: Bundle)
    requires Ingest(t, b).1.Err?
    ensures Ingest(t, b).0 == t
  {
  }

  /** In every run, the stored versions of a case and source key are numbered 1 to n and are the
      accepted contents with repeats removed. */
  lemma {:induction false} VersionsAreFirstOccurrences(cases: set<Id>, bundles: seq<Bundle>, caseId: Id,
    sourceKey: string)
    requires forall b :: b in bundles ==> FromService(b)
    ensures Inv(After(cases, bundles))
    ensures HashesOf(After(cases, bundles), caseId, sourceKey) ==
      FirstOccurrences(Accepted(cases, bundles, caseId, sourceKey))
  {
    hide Ingest, HashesOf, FirstOccurrences, Inv;
    if bundles == [] {
      StartIsValid(cases, caseId, sourceKey);
    } else {
      var earlier, last := bundles[..|bundles| - 1], bundles[|bundles| - 1];
      var t, before := After(cases, earlier), Accepted(cases, earlier, caseId, sourceKey);
      VersionsAreFirstOccurrences(cases, earlier, caseId, sourceKey);
      FirstOccurrencesMembers(before);
      if Ingest(t, last).1.Err? {
        RefusedLeavesNoTrace(t, last);
        assert before + [] == before;
      } else {
        IngestKeepsInv(t, last);
        if last.artifact.caseId == caseId && last.artifact.sourceKey == sourceKey {
          FirstOccurrencesOfNext(before, last.version.hash);
        } else {
          OtherKeysUnchanged(t, last, caseId, sourceKey);
          assert before + [] == before;
        }
      }
    }
  }

  lemma StartIsValid(cases: set<Id>, caseId: Id, sourceKey: string)
    ensures Inv(Start(cases)) && HashesOf(Start(cases), caseId, sourceKey) == [] == FirstOccurrences([])
  {
  }

  lemma FirstOccurrencesOfNext(s: seq<string>, x: string)
    ensures FirstOccurrences(s + [x]) == if x in s then FirstOccurrences(s) else FirstOccurrences(s) + [x]
  {
    assert (s + [x])[..|s|] == s;
  }

  lemma IngestKeepsInv(t: Tables, b: Bundle)
    requires Inv(t) && FromService(b) && Ingest(t, b).1.Ok?
    ensures Inv(Ingest(t, b).0) && t.versions <= Ingest(t, b).0.versions
    ensures HashesOf(Ingest(t, b).0, b.artifact.caseId, b.artifact.sourceKey) ==
      Extended(HashesOf(t, b.artifact.caseId, b.artifact.sourceKey), b.version.hash)
  {
    hide Ingest, Inv;
    if b.version.hash in HashesOf(t, b.artifact.caseId, b.artifact.sourceKey) {
      RepeatReturnsOriginal(t, b);
    } else {
      NewContentIsAppended(t, b);
    }
  }

  // ---- From bytes to versions and back ----

  /** What the service passes to the repository for stored bytes. */
  datatype Request = Request(
    caseId: Id, sourceKey: string, connector: string, locator: string, revision: Option<string>, bytes: Bytes,
    sourceId: Id, artifactId: Id, versionId: Id, auditId: Id)

  function BundleOf(q: Request, stored: StoredArtifact): Bundle {
    Bundle(Source(q.sourceId, q.caseId, q.connector, q.locator, q.revision),
           Artifact(q.artifactId, q.caseId, q.sourceId, q.sourceKey),
           Version(q.versionId, q.artifactId, 1, stored.hash, stored.length, stored.key),
           q.auditId)
  }

  /** The repository's tables and the store's files, with the store's temporary-file counter. */
  datatype Archive = Archive(tables: Tables, files: map<string, Bytes>, counter: nat)

  /** `ingest_bytes`: bytes go to the store first, their metadata to the repository after. */
  ghost function IngestBytes(s: Archive, q: Request, limit: nat, process: nat, fault: Fault, digest: Digest)
    : (Archive, Result<Ingested>)
    requires IsDigest(digest)
  {
    if |q.bytes| > limit then (s, Err(TooLarge))
    else if q.caseId !in s.tables.cases then (s, Err(NotFound))
    else
      var counter := s.counter + if StorageKey(digest(q.bytes)) in s.files then 0 else 1;
      var (files, stored) := Put(s.files, q.bytes, process, s.counter, fault, digest);
      match stored
      case Err(e) => (Archive(s.tables, files, counter), Err(e))
      case Ok(stored) =>
        if stored.length != |q.bytes| then (Archive(s.tables, files, counter), Err(Storage))
        else
          var (tables, r) := Ingest(s.tables, BundleOf(q, stored));
          (Archive(tables, files, counter), r)
  }

  function ReadVersion(s: Archive, versionId: Id, digest: Digest): Result<Bytes> {
    match WithId(s.tables.versions, versionId)
    case None => Err(NotFound)
    case Some(v) => Read(s.files, v.storageKey, digest)
  }

  class CasegraphService {
    const repository: ArtifactRepository
    const store: FilesystemArtifactStore
    const limit: nat

    constructor (repository: ArtifactRepository, store: FilesystemArtifactStore, limit: nat)
      ensures this.repository == repository && this.store == store && this.limit == limit
    {
      this.repository, this.store, this.limit := repository, store, limit;
    }

    ghost function State(): Archive
      reads repository, store
    {
      Archive(repository.tables, store.files, store.counter)
    }

    method IngestRequest(q: Request, fault: Fault) returns (r: Result<Ingested>)
      requires IsDigest(store.digest)
      modifies repository, store
      ensures (State(), r) == IngestBytes(old(State()), q, limit, store.process, fault, store.digest)
    {
      if |q.bytes| > limit {
        return Err(TooLarge);
      }
      if q.caseId !in repository.tables.cases {
        return Err(NotFound);
      }
      var stored := store.PutBytes(q.bytes, fault);
      match stored {
        case Err(e) => return Err(e);
        case Ok(stored) =>
          if stored.length != |q.bytes| {
            return Err(Storage);
          }
          r := repository.IngestBundle(BundleOf(q, stored));
      }
    }

    method ReadArtifactVersion(versionId: Id) returns (r: Result<Bytes>)
      ensures r == ReadVersion(State(), versionId, store.digest)
    {
      match WithId(repository.tables.versions, versionId) {
        case None => return Err(NotFound);
        case Some(v) => r := store.ReadBytes(v.storageKey);
      }
    }
  }

  /** Every stored version names a blob by its digest, and the blob is there. */
  ghost predicate BytesStored(t: Tables, files: map<string, Bytes>) {
    forall v | v in t.versions :: IsHash(v.hash) && v.storageKey == StorageKey(v.hash) && v.storageKey in files
  }

  /** Every blob holds bytes of the pool with the digest that is its name. */
  ghost predicate BlobsFromPool(files: map<string, Bytes>, digest: Digest, pool: set<Bytes>) {
    forall hash | IsHash(hash) && StorageKey(hash) in files ::
      digest(files[StorageKey(hash)]) == hash && files[StorageKey(hash)] in pool
  }

  ghost predicate ArchiveInv(s: Archive, digest: Digest, pool: set<Bytes>) {
    Inv(s.tables) && BytesStored(s.tables, s.files) && BlobsFromPool(s.files, digest, pool)
  }

  lemma {:induction false} WithIdFinds(versions: seq<Version>, v: Version)
    requires v in versions && forall i, j :: 0 <= i < j < |versions| ==> versions[i].id != versions[j].id
    ensures WithId(versions, v.id) == Some(v)
  {
    if versions[0] != v {
      WithIdFinds(versions[1..], v);
    }
  }

  /** A put keeps every blob, and after a success the blob of its bytes holds its bytes. */
  lemma PutInPool(files: map<string, Bytes>, bytes: Bytes, process: nat, sequence: nat, fault: Fault, digest: Digest,
    pool: set<Bytes>)
    requires IsDigest(digest) && BlobsFromPool(files, digest, pool) && CollisionFree(digest, pool) && bytes in pool
    ensures var (files', r) := Put(files, bytes, process, sequence, fault, digest);
      && BlobsFromPool(files', digest, pool)
      && (forall hash | IsHash(hash) && StorageKey(hash) in files ::
           StorageKey(hash) in files' && files'[StorageKey(hash)] == files[StorageKey(hash)])
      && (r.Ok? ==>
           && r.value.hash == digest(bytes) && r.value.key == StorageKey(digest(bytes))
           && StorageKey(digest(bytes)) in files' && files'[StorageKey(digest(bytes))] == bytes)
  {
    hide StorageKey, TemporaryPath;
    forall hash | IsHash(hash)
      ensures TemporaryPath(digest(bytes), process, sequence) != StorageKey(hash)
      ensures StorageKey(hash) == StorageKey(digest(bytes)) ==> hash == digest(bytes)
    {
      TemporaryIsNoBlob(digest(bytes), process, sequence, hash);
      if StorageKey(hash) == StorageKey(digest(bytes)) { KeysAreInjective(hash, digest(bytes)); }
    }
  }

  /** Any ingestion, accepted or not, keeps the archive and every stored version's bytes; an
      accepted one returns a version whose bytes are those ingested. */
  lemma IngestKeepsArchive(s: Archive, q: Request, limit: nat, process: nat, fault: Fault, digest: Digest,
    pool: set<Bytes>)
    requires IsDigest(digest) && ArchiveInv(s, digest, pool) && CollisionFree(digest, pool) && q.bytes in pool
    ensures var (t, r) := IngestBytes(s, q, limit, process, fault, digest);
      && ArchiveInv(t, digest, pool) && s.tables.versions <= t.tables.versions
      && (forall v :: v in s.tables.versions ==>
           v.storageKey in s.files && v.storageKey in t.files && t.files[v.storageKey] == s.files[v.storageKey])
      && (r.Ok? ==>
           var v := r.value.version;
           v in t.tables.versions && v.storageKey in t.files && t.files[v.storageKey] == q.bytes)
  {
    hide Ingest, Inv, Put, StorageKey;
    PutInPool(s.files, q.bytes, process, s.counter, fault, digest, pool);
    var put := Put(s.files, q.bytes, process, s.counter, fault, digest).1;
    if put.Ok? {
      var b := BundleOf(q, put.value);
      if Ingest(s.tables, b).1.Err? {
        RefusedLeavesNoTrace(s.tables, b);
      } else {
        StoredVersionOf(s.tables, b);
      }
    }
  }

  /** The version an accepted ingestion returns is stored, carries the hash of the bundle, and is
      the bundle's own version up to artifact and number unless it was there before. */
  lemma StoredVersionOf(t: Tables, b: Bundle)
    requires Inv(t) && FromService(b) && Ingest(t, b).1.Ok?
    ensures var (u, r) := Ingest(t, b); var v := r.value.version;
      && Inv(u) && t.versions <= u.versions && v in u.versions && v.hash == b.version.hash
      && (u.versions == t.versions
          || (u.versions == t.versions + [v] && v.storageKey == b.version.storageKey))
  {
    hide Ingest, Inv;
    if b.version.hash in HashesOf(t, b.artifact.caseId, b.artifact.sourceKey) {
      RepeatReturnsOriginal(t, b);
    } else {
      NewContentIsAppended(t, b);
    }
  }

  datatype Call = Call(request: Request, fault: Fault)

  ghost function AfterCalls(s: Archive, calls: seq<Call>, limit: nat, process: nat, digest: Digest): Archive
    requires IsDigest(digest)
    decreases calls
  {
    if calls == [] then s
    else AfterCalls(IngestBytes(s, calls[0].request, limit, process, calls[0].fault, digest).0, calls[1..], limit,
      process, digest)
  }

  lemma {:induction false} VersionsReadTheSame(s: Archive, calls: seq<Call>, limit: nat, process: nat, digest: Digest,
                                               pool: set<Bytes>, v: Version)
    requires IsDigest(digest) && ArchiveInv(s, digest, pool) && CollisionFree(digest, pool)
    requires forall i :: 0 <= i < |calls| ==> calls[i].request.bytes in pool
    requires v in s.tables.versions
    ensures v.storageKey in s.files
    ensures ReadVersion(AfterCalls(s, calls, limit, process, digest), v.id, digest) == Ok(s.files[v.storageKey])
    decreases calls
  {
    hide IngestBytes, StorageKey;
    if calls == [] {
      WithIdFinds(s.tables.versions, v);
      KeysRoundTrip(v.storageKey, v.hash);
    } else {
      var c := calls[0];
      IngestKeepsArchive(s, c.request, limit, process, c.fault, digest, pool);
      assert forall i :: 0 <= i < |calls[1..]| ==> calls[1..][i] == calls[i + 1];
      VersionsReadTheSame(IngestBytes(s, c.request, limit, process, c.fault, digest).0, calls[1..], limit, process,
        digest, pool, v);
    }
  }

  /** In every later state, whatever else was ingested or failed, the version an ingestion returned
      reads as exactly the bytes that were ingested. */
  lemma {:induction false} IngestedBytesReadBack(
    s: Archive, first: Call, later: seq<Call>, limit: nat, process: nat, digest: Digest, pool: set<Bytes>)
    requires IsDigest(digest) && ArchiveInv(s, digest, pool) && CollisionFree(digest, pool)
    requires first.request.bytes in pool && forall i :: 0 <= i < |later| ==> later[i].request.bytes in pool
    requires IngestBytes(s, first.request, limit, process, first.fault, digest).1.Ok?
    ensures var (t, r) := IngestBytes(s, first.request, limit, process, first.fault, digest);
      ReadVersion(AfterCalls(t, later, limit, process, digest), r.value.version.id, digest) == Ok(first.request.bytes)
  {
    hide IngestBytes;
    IngestKeepsArchive(s, first.request, limit, process, first.fault, digest, pool);
    var (t, r) := IngestBytes(s, first.request, limit, process, first.fault, digest);
    VersionsReadTheSame(t, later, limit, process, digest, pool, r.value.version);
  }

  /** The empty archive satisfies the invariant the runs keep. */
  lemma EmptyArchive(cases: set<Id>, digest: Digest, pool: set<Bytes>)
    ensures ArchiveInv(Archive(Start(cases), map[], 0), digest, pool)
  {
  }
}

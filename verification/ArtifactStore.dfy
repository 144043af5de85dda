/** The store as one caller sees it: `put`, `read` and the integrity check on a directory of files. */
module ArtifactStore {
  import opened Wrappers
  import opened ArtifactPaths
  import opened BlobStore

  datatype StoredArtifact = StoredArtifact(hash: string, length: nat, key: string, alreadyExisted: bool)

  /** Where the file system lets a write down, if it does. */
  datatype Fault = NoFault | CannotCreate | CannotWrite(written: nat) | RenameRefused

  function Verify(files: map<string, Bytes>, path: string, expected: string, digest: Digest): Result<nat> {
    if path !in files || digest(files[path]) != expected then Err(Storage) else Ok(|files[path]|)
  }

  ghost function Put(files: map<string, Bytes>, bytes: Bytes, process: nat, sequence: nat, fault: Fault, digest: Digest)
    : (map<string, Bytes>, Result<StoredArtifact>)
    requires IsDigest(digest)
  {
    var hash := digest(bytes);
    var key := StorageKey(hash);
    var temporary := TemporaryPath(hash, process, sequence);
    if key in files then
      (files,
       match Verify(files, key, hash, digest)
       case Err(e) => Err(e)
       case Ok(length) => if length != |bytes| then Err(Storage) else Ok(StoredArtifact(hash, |bytes|, key, true)))
    else if fault.NoFault? && temporary !in files then
      (files[key := bytes], Ok(StoredArtifact(hash, |bytes|, key, false)))
    else (files - {temporary}, Err(Storage))
  }

  function Read(files: map<string, Bytes>, key: string, digest: Digest): Result<Bytes> {
    match HashFromStorageKey(key)
    case Err(e) => Err(e)
    case Ok(hash) =>
      KeysRoundTrip(key, hash);
      var path := StorageKey(hash);
      if path !in files then Err(NotFound)
      else match Verify(files, path, hash, digest)
        case Err(e) => Err(e)
        case Ok(_) => Ok(files[path])
  }

  class FilesystemArtifactStore {
    const digest: Digest
    const process: nat
    var files: map<string, Bytes>
    var counter: nat

    constructor (digest: Digest, process: nat)
      ensures this.digest == digest && this.process == process && files == map[] && counter == 0
    {
      this.digest, this.process, files, counter := digest, process, map[], 0;
    }

    /** Reads the file through a buffer, feeding the digest and counting the bytes. */
    method VerifyExisting(path: string, expected: string) returns (r: Result<nat>)
      ensures r == Verify(files, path, expected, digest)
    {
      if path !in files {
        return Err(Storage);
      }
      var content := files[path];
      var fed: Bytes, length := [], 0;
      while length < |content|
        invariant 0 <= length <= |content| && fed == content[..length]
      {
        var count := if |content| - length < 65_536 then |content| - length else 65_536;
        fed := fed + content[length..length + count];
        length := length + count;
      }
      assert fed == content;
      if digest(fed) != expected {
        return Err(Storage);
      }
      return Ok(length);
    }

    method PutBytes(bytes: Bytes, fault: Fault) returns (r: Result<StoredArtifact>)
      requires IsDigest(digest)
      modifies this
      ensures (files, r) == Put(old(files), bytes, process, old(counter), fault, digest)
      ensures counter == old(counter) + if StorageKey(digest(bytes)) in old(files) then 0 else 1
    {
      var hash := digest(bytes);
      var destination := StorageKey(hash);
      if destination in files {
        var existing := VerifyExisting(destination, hash);
        match existing {
          case Err(e) => return Err(e);
          case Ok(length) =>
            if length != |bytes| {
              return Err(Storage);
            }
        }
        return Ok(StoredArtifact(hash, |bytes|, destination, true));
      }
      var temporary := TemporaryPath(hash, process, counter);
      counter := counter + 1;
      TemporaryIsNoBlob(hash, process, counter - 1, hash);
      if fault.CannotCreate? || temporary in files {
        files := files - {temporary};
        return Err(Storage);
      }
      files := files[temporary := []];
      if fault.CannotWrite? {
        files := files[temporary := if fault.written <= |bytes| then bytes[..fault.written] else bytes];
        files := files - {temporary};
        assert files == old(files) - {temporary};
        return Err(Storage);
      }
      files := files[temporary := bytes];
      if fault.RenameRefused? {
        files := files - {temporary};
        assert files == old(files) - {temporary};
        return Err(Storage);
      }
      files := (files - {temporary})[destination := files[temporary]];
      assert files == old(files)[destination := bytes];
      return Ok(StoredArtifact(hash, |bytes|, destination, false));
    }

    method ReadBytes(key: string) returns (r: Result<Bytes>)
      ensures r == Read(files, key, digest)
    {
      match HashFromStorageKey(key) {
        case Err(e) => return Err(e);
        case Ok(hash) =>
          KeysRoundTrip(key, hash);
          var path := StorageKey(hash);
          if path !in files {
            return Err(NotFound);
          }
          var checked := VerifyExisting(path, hash);
          match checked {
            case Err(e) => return Err(e);
            case Ok(_) => return Ok(files[path]);
          }
      }
    }
  }

  // ---- Properties ----

  /** A blob is read exactly when its file is there unaltered, as its digest tells; a put of bytes
      that belong in an altered file fails whatever the bytes, and leaves the file alone. */
  lemma AlteredBlobsAreRefused(files: map<string, Bytes>, hash: string, digest: Digest, bytes: Bytes,
                               process: nat, sequence: nat, fault: Fault)
    requires IsDigest(digest) && IsHash(hash) && StorageKey(hash) in files && digest(bytes) == hash
    ensures Read(files, StorageKey(hash), digest) ==
      if digest(files[StorageKey(hash)]) == hash then Ok(files[StorageKey(hash)]) else Err(Storage)
    ensures Put(files, bytes, process, sequence, fault, digest).0 == files
    ensures Put(files, bytes, process, sequence, fault, digest).1.Ok? <==>
      Read(files, StorageKey(hash), digest).Ok? && |files[StorageKey(hash)]| == |bytes|
  {
    KeysRoundTrip(StorageKey(hash), hash);
  }

  /** What a successful put stored is what its key reads, unless the file in place holds other
      bytes with the same digest and length. */
  lemma ReadAfterPut(files: map<string, Bytes>, bytes: Bytes, process: nat, sequence: nat, fault: Fault, digest: Digest)
    requires IsDigest(digest)
    requires StorageKey(digest(bytes)) in files ==> CollisionFree(digest, {bytes, files[StorageKey(digest(bytes))]})
    ensures var (files', stored) := Put(files, bytes, process, sequence, fault, digest);
      stored.Ok? ==>
        && stored.value.hash == digest(bytes) && stored.value.length == |bytes|
        && Read(files', stored.value.key, digest) == Ok(bytes)
  {
    KeysRoundTrip(StorageKey(digest(bytes)), digest(bytes));
  }

  // ---- One caller and many ----

  function Sum(counts: seq<nat>): nat { if counts == [] then 0 else counts[0] + Sum(counts[1..]) }

  /** The content written in pieces. */
  function Writes(w: nat, counts: seq<nat>): seq<Step> {
    if counts == [] then [] else [Write(w, counts[0])] + Writes(w, counts[1..])
  }

  /** How a call ends after its writes. */
  function Ending(w: nat, fault: Fault): seq<Step> {
    match fault
    case CannotWrite(_) => [Fail(w)]
    case RenameRefused => [Sync(w), Rename(w, false)]
    case _ => [Sync(w), Rename(w, true)]
  }

  /** The file operations of one undisturbed call, with its content written in any pieces. */
  function LoneCall(w: nat, process: nat, bytes: Bytes, counts: seq<nat>, fault: Fault): seq<Step> {
    [Begin(w, process, bytes)] + [Check(w)] + [Open(w, !fault.CannotCreate?)] + Writes(w, counts) + Ending(w, fault)
  }

  /** Pieces that make up the content, or less of it when writing fails. */
  predicate PiecesOf(bytes: Bytes, counts: seq<nat>, fault: Fault) {
    if fault.CannotWrite? then Sum(counts) <= |bytes| else Sum(counts) == |bytes|
  }

  /** Without interleaving, the steps of a call do what `put` does: for every fault of the file
      system, and however the content is split into writes. */
  lemma LoneCallIsPut(s: Store, w: nat, process: nat, bytes: Bytes, counts: seq<nat>, fault: Fault, digest: Digest)
    requires IsDigest(digest) && w !in s.writers && PiecesOf(bytes, counts, fault)
    ensures var t := Run(s, LoneCall(w, process, bytes, counts, fault), digest);
      var (files, stored) := Put(s.files, bytes, process, Counter(s, process), fault, digest);
      t.files == files && w in t.writers && t.writers[w].phase == Finished(stored.Ok?)
  {
    hide Apply, Put;
    var start := [Begin(w, process, bytes)] + [Check(w)] + [Open(w, !fault.CannotCreate?)];
    var writes, ending := Writes(w, counts), Ending(w, fault);
    assert LoneCall(w, process, bytes, counts, fault) == start + (writes + ending);
    RunConcatenation(s, start, writes + ending, digest);
    LoneCallOpens(s, w, process, bytes, fault, digest);
    var t := Run(s, start, digest);
    if t.writers[w].phase.Finished? {
      WritesAreOwn(w, counts);
      FinishedCallIsIdle(t, w, writes + ending, digest);
    } else {
      RunConcatenation(t, writes, ending, digest);
      LoneCallWrites(t, w, Counter(s, process), 0, counts, digest);
      LoneCallEnds(Run(t, writes, digest), s.files, w, Counter(s, process), Sum(counts), fault, digest);
    }
  }

  lemma {:induction false} RunConcatenation(s: Store, a: seq<Step>, b: seq<Step>, digest: Digest)
    requires IsDigest(digest)
    ensures Run(s, a + b, digest) == Run(Run(s, a, digest), b, digest)
    decreases a
  {
    hide Apply;
    if a == [] {
      assert a + b == b;
    } else {
      assert (a + b)[1..] == a[1..] + b;
      RunConcatenation(Apply(s, a[0], digest), a[1..], b, digest);
    }
  }

  lemma RunOne(s: Store, step: Step, digest: Digest)
    requires IsDigest(digest)
    ensures Run(s, [step], digest) == Apply(s, step, digest)
  {
    hide Apply;
    assert [step][1..] == [];
  }

  /** The first steps of a call: it finishes on a blob in place, a file in its way, or a refused
      creation; otherwise it has its empty temporary file. */
  lemma LoneCallOpens(s: Store, w: nat, process: nat, bytes: Bytes, fault: Fault, digest: Digest)
    requires IsDigest(digest) && w !in s.writers
    ensures var t := Run(s, [Begin(w, process, bytes)] + [Check(w)] + [Open(w, !fault.CannotCreate?)], digest);
      var (files, stored) := Put(s.files, bytes, process, Counter(s, process), fault, digest);
      var temporary := TemporaryPath(digest(bytes), process, Counter(s, process));
      && w in t.writers
      && if StorageKey(digest(bytes)) in s.files || temporary in s.files || fault.CannotCreate? then
           t.files == files && t.writers[w].phase == Finished(stored.Ok?)
         else
           t.files == s.files[temporary := []]
           && t.writers[w] == Writer(process, bytes, Writing(Counter(s, process), 0))
  {
    hide TemporaryPath, StorageKey, Run;
    var begin, check, open := Begin(w, process, bytes), Check(w), Open(w, !fault.CannotCreate?);
    RunConcatenation(s, [begin] + [check], [open], digest);
    RunConcatenation(s, [begin], [check], digest);
    RunOne(s, begin, digest);
    RunOne(Apply(s, begin, digest), check, digest);
    RunOne(Apply(Apply(s, begin, digest), check, digest), open, digest);
  }

  predicate IsOwn(w: nat, step: Step) { !step.Begin? && !step.Crash? && step.writer == w }

  lemma {:induction false} WritesAreOwn(w: nat, counts: seq<nat>)
    ensures forall step :: step in Writes(w, counts) ==> IsOwn(w, step)
  {
    if counts != [] {
      WritesAreOwn(w, counts[1..]);
    }
  }

  lemma FinishedStepIsIdle(s: Store, step: Step, digest: Digest)
    requires IsDigest(digest) && !step.Begin? && !step.Crash?
    requires step.writer in s.writers && s.writers[step.writer].phase.Finished?
    ensures Apply(s, step, digest) == s
  {
  }

  lemma {:induction false} FinishedCallIsIdle(s: Store, w: nat, steps: seq<Step>, digest: Digest)
    requires IsDigest(digest) && w in s.writers && s.writers[w].phase.Finished?
    requires forall step :: step in steps ==> IsOwn(w, step)
    ensures Run(s, steps, digest) == s
    decreases steps
  {
    if steps != [] {
      assert steps[0] in steps && IsOwn(w, steps[0]);
      FinishedStepIsIdle(s, steps[0], digest);
      hide Apply;
      FinishedCallIsIdle(s, w, steps[1..], digest);
    }
  }

  /** Writing in pieces: the temporary file holds what has been written. */
  lemma {:induction false} LoneCallWrites(s: Store, w: nat, sequence: nat, written: nat, counts: seq<nat>,
    digest: Digest)
    requires IsDigest(digest) && w in s.writers && s.writers[w].phase == Writing(sequence, written)
    requires written + Sum(counts) <= |s.writers[w].bytes|
    requires var me := s.writers[w]; var temporary := TemporaryPath(digest(me.bytes), me.process, sequence);
      temporary in s.files && s.files[temporary] == me.bytes[..written]
    ensures var me, t := s.writers[w], Run(s, Writes(w, counts), digest);
      var temporary := TemporaryPath(digest(me.bytes), me.process, sequence);
      && t.files == s.files[temporary := me.bytes[..written + Sum(counts)]]
      && w in t.writers && t.writers[w] == me.(phase := Writing(sequence, written + Sum(counts)))
    decreases counts
  {
    hide TemporaryPath;
    var me := s.writers[w];
    if counts != [] {
      var step := Write(w, counts[0]);
      var t := Apply(s, step, digest);
      assert t.writers[w] == me.(phase := Writing(sequence, written + counts[0]));
      assert t.files == s.files[TemporaryPath(digest(me.bytes), me.process,
        sequence) := me.bytes[..written + counts[0]]];
      hide Apply;
      assert Writes(w, counts)[1..] == Writes(w, counts[1..]);
      LoneCallWrites(t, w, sequence, written + counts[0], counts[1..], digest);
    }
  }

  /** The last steps of a call without a blob in place: rename, or removal of the temporary file. */
  lemma LoneCallEnds(s: Store, files: map<string, Bytes>, w: nat, sequence: nat, written: nat, fault: Fault,
    digest: Digest)
    requires IsDigest(digest) && w in s.writers && s.writers[w].phase == Writing(sequence, written)
      && !fault.CannotCreate?
    requires written <= |s.writers[w].bytes| && (!fault.CannotWrite? ==> written == |s.writers[w].bytes|)
    requires var me := s.writers[w]; var temporary := TemporaryPath(digest(me.bytes), me.process, sequence);
      && StorageKey(digest(me.bytes)) !in files && temporary !in files
         && s.files == files[temporary := me.bytes[..written]]
    ensures var me, t := s.writers[w], Run(s, Ending(w, fault), digest);
      var (files', stored) := Put(files, me.bytes, me.process, sequence, fault, digest);
      t.files == files' && w in t.writers && t.writers[w].phase == Finished(stored.Ok?)
  {
    hide Run;
    var me := s.writers[w];
    TemporaryIsNoBlob(digest(me.bytes), me.process, sequence, digest(me.bytes));
    hide TemporaryPath, StorageKey;
    if fault.CannotWrite? {
      RunOne(s, Fail(w), digest);
    } else {
      var rename := Rename(w, !fault.RenameRefused?);
      assert Ending(w, fault) == [Sync(w)] + [rename] && me.bytes[..written] == me.bytes;
      RunConcatenation(s, [Sync(w)], [rename], digest);
      RunOne(s, Sync(w), digest);
      RunOne(Apply(s, Sync(w), digest), rename, digest);
    }
  }
}

/** The content-addressed store under concurrent writers, partial writes and crashes:
    every interleaving of the file operations of `put`. */
module BlobStore {
  import opened ArtifactPaths
  import Texts

  type Bytes = seq<Texts.byte>

  /** The digest function of the store, as hexadecimal text. */
  type Digest = Bytes -> string

  ghost predicate IsDigest(digest: Digest) { forall b :: IsHash(digest(b)) }

  /** How far one call of `put` has come. */
  datatype Phase =
    | Checking
    | Opening
    | Writing(sequence: nat, written: nat)
    | Renaming(sequence: nat)
    | Finished(stored: bool)

  datatype Writer = Writer(process: nat, bytes: Bytes, phase: Phase)

  /** The files below the root, the calls in progress, and each process's temporary-file counter. */
  datatype Store = Store(files: map<string, Bytes>, writers: map<nat, Writer>, counters: map<nat, nat>)

  datatype Step =
    | Begin(writer: nat, process: nat, bytes: Bytes)
    | Check(writer: nat)
    | Open(writer: nat, created: bool)
    | Write(writer: nat, count: nat)
    | Sync(writer: nat)
    | Rename(writer: nat, accepted: bool)
    | Fail(writer: nat)
    | Crash(process: nat)

  function Counter(s: Store, process: nat): nat { if process in s.counters then s.counters[process] else 0 }

  function Advance(s: Store, w: nat, phase: Phase): map<nat, Writer>
    requires w in s.writers
  {
    s.writers[w := s.writers[w].(phase := phase)]
  }

  /** The content of a blob's file passes the check of `verify_existing`. */
  predicate Verifies(files: map<string, Bytes>, hash: string, digest: Digest)
    requires IsHash(hash)
  {
    StorageKey(hash) in files && digest(files[StorageKey(hash)]) == hash
  }

  ghost function Apply(s: Store, step: Step, digest: Digest): Store
    requires IsDigest(digest)
  {
    match step
    case Begin(w, process, bytes) =>
      if w in s.writers then s else s.(writers := s.writers[w := Writer(process, bytes, Checking)])
    case Crash(process) =>
      s.(writers := map w | w in s.writers && s.writers[w].process != process :: s.writers[w],
         counters := s.counters - {process})
    case _ =>
      if step.writer !in s.writers then s else ApplyWriter(s, step, digest)
  }

  /** A step of a call in progress; a step that its phase does not allow changes nothing. */
  ghost function ApplyWriter(s: Store, step: Step, digest: Digest): Store
    requires IsDigest(digest) && !step.Begin? && !step.Crash? && step.writer in s.writers
  {
    var w := step.writer;
    var me := s.writers[w];
    var hash := digest(me.bytes);
    match (step, me.phase)
    case (Check(_), Checking) =>
      if StorageKey(hash) in s.files then
        s.(writers := Advance(s, w, Finished(
          Verifies(s.files, hash, digest) && |s.files[StorageKey(hash)]| == |me.bytes|)))
      else s.(writers := Advance(s, w, Opening))
    case (Open(_, created), Opening) =>
      var sequence := Counter(s, me.process);
      var temporary := TemporaryPath(hash, me.process, sequence);
      var counters := s.counters[me.process := sequence + 1];
      if !created || temporary in s.files then
        // the exclusive creation fails, and the failed call removes even a file it did not create
        Store(s.files - {temporary}, Advance(s, w, Finished(false)), counters)
      else Store(s.files[temporary := []], Advance(s, w, Writing(sequence, 0)), counters)
    case (Write(_, count), Writing(sequence, written)) =>
      if written + count > |me.bytes| then s
      else s.(files := s.files[TemporaryPath(hash, me.process, sequence) := me.bytes[..written + count]],
              writers := Advance(s, w, Writing(sequence, written + count)))
    case (Sync(_), Writing(sequence, written)) =>
      if written < |me.bytes| then s else s.(writers := Advance(s, w, Renaming(sequence)))
    case (Rename(_, accepted), Renaming(sequence)) =>
      var temporary := TemporaryPath(hash, me.process, sequence);
      if temporary !in s.files then s
      else if accepted then
        s.(files := (s.files - {temporary})[StorageKey(hash) := s.files[temporary]],
           writers := Advance(s, w, Finished(true)))
      else
        s.(files := s.files - {temporary},
           writers := Advance(s, w, Finished(Verifies(s.files, hash, digest))))
    case (Fail(_), Opening) => s.(writers := Advance(s, w, Finished(false)))
    case (Fail(_), Writing(sequence, _)) =>
      s.(files := s.files - {TemporaryPath(hash, me.process, sequence)}, writers := Advance(s, w, Finished(false)))
    case _ => s
  }

  ghost function Run(s: Store, steps: seq<Step>, digest: Digest): Store
    requires IsDigest(digest)
    decreases steps
  {
    if steps == [] then s else Run(Apply(s, steps[0], digest), steps[1..], digest)
  }

  // ---- What every step keeps ----

  predicate HasTemporary(me: Writer) { me.phase.Writing? || me.phase.Renaming? }

  ghost function TemporaryOf(me: Writer, digest: Digest): string
    requires IsDigest(digest) && HasTemporary(me)
  {
    TemporaryPath(digest(me.bytes), me.process, me.phase.sequence)
  }

  /** Every blob in place has the digest that is its name. */
  ghost predicate BlobsIntact(s: Store, digest: Digest) {
    forall hash | IsHash(hash) && StorageKey(hash) in s.files :: digest(s.files[StorageKey(hash)]) == hash
  }

  /** A call's temporary file holds exactly what the call has written, all of it before the rename. */
  ghost predicate WritersIntact(s: Store, digest: Digest)
    requires IsDigest(digest)
  {
    forall w | w in s.writers && HasTemporary(s.writers[w]) ::
      var me := s.writers[w];
      && TemporaryOf(me, digest) in s.files
      && me.phase.sequence < Counter(s, me.process)
      && (me.phase.Writing? ==> me.phase.written <= |me.bytes|)
      && s.files[TemporaryOf(me, digest)] == if me.phase.Writing? then me.bytes[..me.phase.written] else me.bytes
  }

  /** No two calls of one process share a sequence number. */
  ghost predicate SequencesDiffer(s: Store) {
    forall v, w | v in s.writers && w in s.writers && v != w && HasTemporary(s.writers[v])
      && HasTemporary(s.writers[w]) ::
      s.writers[v].process == s.writers[w].process ==> s.writers[v].phase.sequence != s.writers[w].phase.sequence
  }

  /** A call that reported success has its blob in place. */
  ghost predicate SuccessesStored(s: Store, digest: Digest)
    requires IsDigest(digest)
  {
    forall w | w in s.writers && s.writers[w].phase == Finished(true) ::
      StorageKey(digest(s.writers[w].bytes)) in s.files
  }

  ghost predicate Inv(s: Store, digest: Digest)
    requires IsDigest(digest)
  {
    BlobsIntact(s, digest) && WritersIntact(s, digest) && SequencesDiffer(s) && SuccessesStored(s, digest)
  }

  /** A step changes no blob except by a rename onto it, and removes none. */
  ghost predicate BlobsKept(s: Store, t: Store) {
    forall hash | IsHash(hash) && StorageKey(hash) in s.files :: StorageKey(hash) in t.files
  }

  /** Distinct calls in progress have distinct temporary files, none in the place of a blob. */
  lemma TemporariesApart(s: Store, digest: Digest, v: nat, w: nat)
    requires IsDigest(digest) && SequencesDiffer(s)
    requires v in s.writers && w in s.writers && v != w && HasTemporary(s.writers[v]) && HasTemporary(s.writers[w])
    ensures TemporaryOf(s.writers[v], digest) != TemporaryOf(s.writers[w], digest)
  {
    var a, b := s.writers[v], s.writers[w];
    if TemporaryOf(a, digest) == TemporaryOf(b, digest) {
      TemporariesAreDistinct(digest(a.bytes), a.process, a.phase.sequence, digest(b.bytes), b.process,
        b.phase.sequence);
    }
  }

  lemma NoBlob(hash: string, process: nat, sequence: nat)
    requires IsHash(hash)
    ensures forall h | IsHash(h) :: TemporaryPath(hash, process, sequence) != StorageKey(h)
  {
    forall h | IsHash(h)
      ensures TemporaryPath(hash, process, sequence) != StorageKey(h)
    {
      TemporaryIsNoBlob(hash, process, sequence, h);
    }
  }

  /** The temporary file of call `w`, present or about to be created, is no other call's and no blob. */
  lemma OwnTemporary(s: Store, digest: Digest, w: nat, sequence: nat)
    requires IsDigest(digest) && Inv(s, digest) && w in s.writers
    requires if HasTemporary(s.writers[w]) then sequence == s.writers[w].phase.sequence
             else sequence == Counter(s, s.writers[w].process)
    ensures var mine := TemporaryPath(digest(s.writers[w].bytes), s.writers[w].process, sequence);
      && (forall h | IsHash(h) :: mine != StorageKey(h))
      && forall v | v in s.writers && v != w && HasTemporary(s.writers[v]) :: TemporaryOf(s.writers[v], digest) != mine
  {
    var me := s.writers[w];
    NoBlob(digest(me.bytes), me.process, sequence);
    forall v | v in s.writers && v != w && HasTemporary(s.writers[v])
      ensures TemporaryOf(s.writers[v], digest) != TemporaryPath(digest(me.bytes), me.process, sequence)
    {
      var other := s.writers[v];
      if TemporaryOf(other, digest) == TemporaryPath(digest(me.bytes), me.process, sequence) {
        TemporariesAreDistinct(digest(other.bytes), other.process, other.phase.sequence, digest(me.bytes), me.process,
          sequence);
      }
    }
  }

  /** The blob a step puts in place, if any, has the digest that is its name. */
  ghost predicate BlobsFrom(s: Store, t: Store, digest: Digest) {
    forall hash | IsHash(hash) && StorageKey(hash) in t.files ::
      || (StorageKey(hash) in s.files && t.files[StorageKey(hash)] == s.files[StorageKey(hash)])
      || (digest(t.files[StorageKey(hash)]) == hash
          && exists w :: w in s.writers && s.writers[w].bytes == t.files[StorageKey(hash)])
  }

  /** Files changed at no blob's place leave every blob alone. */
  lemma BlobsUntouched(s: Store, t: Store, digest: Digest)
    requires BlobsIntact(s, digest)
    requires forall h | IsHash(h) ::
      && (StorageKey(h) in s.files <==> StorageKey(h) in t.files)
      && (StorageKey(h) in s.files ==> s.files[StorageKey(h)] == t.files[StorageKey(h)])
    ensures BlobsIntact(t, digest) && BlobsKept(s, t) && BlobsFrom(s, t, digest)
  {
  }

  ghost predicate StepGood(s: Store, t: Store, digest: Digest)
    requires IsDigest(digest)
  {
    Inv(t, digest) && BlobsKept(s, t) && BlobsFrom(s, t, digest)
  }

  /** One call moves to another phase; the temporary files of all other calls stay as they were. */
  lemma OneCallMoves(s: Store, t: Store, digest: Digest, w: nat, phase: Phase)
    requires IsDigest(digest) && WritersIntact(s, digest) && SequencesDiffer(s)
    requires w in s.writers && t.writers == Advance(s, w, phase)
    requires forall p :: Counter(s, p) <= Counter(t, p)
    requires forall v | v in s.writers && v != w && HasTemporary(s.writers[v]) ::
      var path := TemporaryOf(s.writers[v], digest); path in t.files && t.files[path] == s.files[path]
    requires HasTemporary(t.writers[w]) ==>
      && (HasTemporary(s.writers[w]) ==> s.writers[w].phase.sequence == phase.sequence)
      && (!HasTemporary(s.writers[w]) ==> phase.sequence == Counter(s, s.writers[w].process))
      && phase.sequence < Counter(t, s.writers[w].process)
      && (phase.Writing? ==> phase.written <= |s.writers[w].bytes|)
      && TemporaryOf(t.writers[w], digest) in t.files
      && t.files[TemporaryOf(t.writers[w], digest)]
           == if phase.Writing? then s.writers[w].bytes[..phase.written] else s.writers[w].bytes
    ensures WritersIntact(t, digest) && SequencesDiffer(t)
  {
    hide TemporaryOf, Counter;
  }

  lemma SuccessesKept(s: Store, t: Store, digest: Digest, w: nat, phase: Phase)
    requires IsDigest(digest) && SuccessesStored(s, digest) && BlobsKept(s, t)
    requires w in s.writers && t.writers == Advance(s, w, phase)
    requires phase == Finished(true) ==> StorageKey(digest(s.writers[w].bytes)) in t.files
    ensures SuccessesStored(t, digest)
  {
  }

  /** Steps of a call that touch at most its own temporary file. */
  lemma TemporaryStepKeepsInv(s: Store, step: Step, digest: Digest)
    requires IsDigest(digest) && Inv(s, digest) && !step.Begin? && !step.Crash? && step.writer in s.writers
    requires !(step.Rename? && step.accepted)
    ensures StepGood(s, ApplyWriter(s, step, digest), digest)
  {
    hide TemporaryPath, StorageKey, BlobsIntact, BlobsKept, BlobsFrom, WritersIntact, SequencesDiffer, SuccessesStored;
    var w := step.writer;
    var t := ApplyWriter(s, step, digest);
    var me := s.writers[w];
    var sequence := if HasTemporary(me) then me.phase.sequence else Counter(s, me.process);
    OwnTemporary(s, digest, w, sequence);
    TemporaryExists(s, digest, w);
    BlobsUntouched(s, t, digest);
    assert me.bytes[..|me.bytes|] == me.bytes;
    if t != s {
      OneCallMoves(s, t, digest, w, t.writers[w].phase);
      SuccessesKept(s, t, digest, w, t.writers[w].phase);
    }
  }

  lemma TemporaryExists(s: Store, digest: Digest, w: nat)
    requires IsDigest(digest) && WritersIntact(s, digest)
    ensures forall v | v in s.writers && HasTemporary(s.writers[v]) ::
      var me := s.writers[v];
      && TemporaryOf(me, digest) in s.files && me.phase.sequence < Counter(s, me.process)
      && (me.phase.Writing? ==> me.phase.written <= |me.bytes|)
      && s.files[TemporaryOf(me, digest)] == if me.phase.Writing? then me.bytes[..me.phase.written] else me.bytes
  {
  }

  lemma RenameKeepsInv(s: Store, w: nat, digest: Digest)
    requires IsDigest(digest) && Inv(s, digest) && w in s.writers && s.writers[w].phase.Renaming?
    ensures StepGood(s, ApplyWriter(s, Rename(w, true), digest), digest)
  {
    hide TemporaryPath, StorageKey, WritersIntact, SequencesDiffer, SuccessesStored;
    OwnTemporary(s, digest, w, s.writers[w].phase.sequence);
    TemporaryExists(s, digest, w);
    var me, t := s.writers[w], ApplyWriter(s, Rename(w, true), digest);
    var mine, place := TemporaryOf(me, digest), StorageKey(digest(me.bytes));
    assert t.files == (s.files - {mine})[place := me.bytes];
    forall hash | IsHash(hash) && StorageKey(hash) == place
      ensures hash == digest(me.bytes)
    {
      KeysAreInjective(hash, digest(me.bytes));
    }
    assert BlobsIntact(t, digest) && BlobsKept(s, t) && BlobsFrom(s, t, digest);
    hide BlobsIntact, BlobsKept, BlobsFrom;
    forall v | v in s.writers && v != w && HasTemporary(s.writers[v])
      ensures TemporaryOf(s.writers[v], digest) != place
    {
      NoBlob(digest(s.writers[v].bytes), s.writers[v].process, s.writers[v].phase.sequence);
    }
    OneCallMoves(s, t, digest, w, Finished(true));
    SuccessesKept(s, t, digest, w, Finished(true));
  }

  /** New calls and crashes change no file. */
  lemma CallsComeAndGo(s: Store, step: Step, digest: Digest)
    requires IsDigest(digest) && Inv(s, digest) && (step.Begin? || step.Crash?)
    ensures StepGood(s, Apply(s, step, digest), digest)
  {
    hide TemporaryPath, StorageKey, BlobsIntact, BlobsKept, BlobsFrom, ApplyWriter;
    BlobsUntouched(s, Apply(s, step, digest), digest);
  }

  lemma StepKeepsInv(s: Store, step: Step, digest: Digest)
    requires IsDigest(digest) && Inv(s, digest)
    ensures StepGood(s, Apply(s, step, digest), digest)
  {
    hide TemporaryPath, StorageKey, BlobsIntact, BlobsKept, BlobsFrom, WritersIntact, SequencesDiffer, SuccessesStored;
    if step.Begin? || step.Crash? {
      CallsComeAndGo(s, step, digest);
    } else if step.writer !in s.writers {
      BlobsUntouched(s, s, digest);
    } else if step.Rename? && step.accepted && s.writers[step.writer].phase.Renaming? {
      RenameKeepsInv(s, step.writer, digest);
    } else if step.Rename? && step.accepted {
      BlobsUntouched(s, s, digest);
    } else {
      TemporaryStepKeepsInv(s, step, digest);
    }
  }

  const EMPTY := Store(map[], map[], map[])

  // ---- Main results ----

  /** After any interleaving of steps from an empty store, every file in the place of a blob is
      complete: its digest is its name; and every call that reported success has its blob in place. */
  lemma {:induction false} BlobsStayIntact(s: Store, steps: seq<Step>, digest: Digest)
    requires IsDigest(digest) && Inv(s, digest)
    ensures Inv(Run(s, steps, digest), digest) && BlobsKept(s, Run(s, steps, digest))
    decreases steps
  {
    if steps != [] {
      StepKeepsInv(s, steps[0], digest);
      BlobsStayIntact(Apply(s, steps[0], digest), steps[1..], digest);
    }
  }

  lemma EmptyIsIntact(digest: Digest)
    requires IsDigest(digest)
    ensures Inv(EMPTY, digest)
  {
  }

  /** No two byte strings of the pool share a digest. */
  ghost predicate CollisionFree(digest: Digest, pool: set<Bytes>) {
    forall a, b | a in pool && b in pool :: digest(a) == digest(b) ==> a == b
  }

  /** All bytes that calls of the run pass to `put` are in the pool. */
  ghost predicate PutsFrom(steps: seq<Step>, pool: set<Bytes>) {
    forall i | 0 <= i < |steps| && steps[i].Begin? :: steps[i].bytes in pool
  }

  ghost predicate Within(s: Store, pool: set<Bytes>) {
    && (forall hash | IsHash(hash) && StorageKey(hash) in s.files :: s.files[StorageKey(hash)] in pool)
    && forall w | w in s.writers :: s.writers[w].bytes in pool
  }

  lemma StepStaysWithin(s: Store, step: Step, digest: Digest, pool: set<Bytes>)
    requires IsDigest(digest) && Inv(s, digest) && Within(s, pool)
    requires step.Begin? ==> step.bytes in pool
    ensures Within(Apply(s, step, digest), pool)
  {
    hide TemporaryPath, StorageKey;
    StepKeepsInv(s, step, digest);
    WritersOfStep(s, step, digest);
  }

  lemma WritersOfStep(s: Store, step: Step, digest: Digest)
    requires IsDigest(digest)
    ensures var t := Apply(s, step, digest); forall w | w in t.writers ::
      (w in s.writers && t.writers[w].bytes == s.writers[w].bytes) || (step.Begin? && t.writers[w].bytes == step.bytes)
  {
  }

  /** A committed blob is never removed and never changes, unless two of the byte strings put
      in the run share a digest. */
  lemma {:induction false} CommittedBlobsNeverChange(s: Store, steps: seq<Step>, digest: Digest, pool: set<Bytes>,
    hash: string)
    requires IsDigest(digest) && Inv(s, digest) && Within(s, pool) && CollisionFree(digest, pool)
      && PutsFrom(steps, pool)
    requires IsHash(hash) && StorageKey(hash) in s.files
    ensures StorageKey(hash) in Run(s, steps, digest).files
    ensures Run(s, steps, digest).files[StorageKey(hash)] == s.files[StorageKey(hash)]
    decreases steps
  {
    hide StorageKey, Apply;
    if steps != [] {
      var t := Apply(s, steps[0], digest);
      StepKeepsInv(s, steps[0], digest);
      StepStaysWithin(s, steps[0], digest, pool);
      assert PutsFrom(steps[1..], pool) by {
        assert forall i | 0 <= i < |steps[1..]| :: steps[1..][i] == steps[i + 1];
      }
      CommittedBlobsNeverChange(t, steps[1..], digest, pool, hash);
    }
  }

  /** Once a call has reported success, its bytes are in place in every later state. */
  lemma SuccessIsDurable(s: Store, steps: seq<Step>, digest: Digest, pool: set<Bytes>, w: nat)
    requires IsDigest(digest) && Inv(s, digest) && Within(s, pool) && CollisionFree(digest, pool)
      && PutsFrom(steps, pool)
    requires w in s.writers && s.writers[w].phase == Finished(true)
    ensures var key, later := StorageKey(digest(s.writers[w].bytes)), Run(s, steps, digest);
      key in later.files && later.files[key] == s.writers[w].bytes
  {
    var hash := digest(s.writers[w].bytes);
    CommittedBlobsNeverChange(s, steps, digest, pool, hash);
    assert s.files[StorageKey(hash)] in pool && digest(s.files[StorageKey(hash)]) == hash;
  }
}

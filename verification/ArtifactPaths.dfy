/** Storage keys and file names of the content-addressed store. */
module ArtifactPaths {
  import opened Wrappers
  import opened Digits
  import opened Texts

  const HASH_LENGTH := 64
  const KEY_LENGTH := 73

  /** Lower-case hexadecimal text of a SHA-256 digest. */
  predicate IsHash(hash: string) {
    |hash| == HASH_LENGTH && forall i :: 0 <= i < |hash| ==> IsDigit(hash[i]) || 'a' <= hash[i] <= 'f'
  }

  function ValidateHash(hash: string): Result<()> { if IsHash(hash) then Ok(()) else Err(InvalidInput) }

  /** The storage key of a blob, which is also its path below the store root. */
  function StorageKey(hash: string): string
    requires IsHash(hash)
  {
    "blobs/" + hash[..2] + "/" + hash
  }

  function HashFromStorageKey(key: string): Result<string> {
    if |key| != KEY_LENGTH || !("blobs/" <= key) || key[8] != '/' then Err(InvalidInput)
    else match ValidateHash(key[9..])
      case Err(e) => Err(e)
      case Ok(_) => if key[6..8] != key[9..][..2] then Err(InvalidInput) else Ok(key[9..])
  }

  /** The parser accepts exactly the keys the writer makes, and recovers their hash. */
  lemma KeysRoundTrip(key: string, hash: string)
    ensures HashFromStorageKey(key) == Ok(hash) <==> IsHash(hash) && key == StorageKey(hash)
  {
    if IsHash(hash) {
      KeyParts(hash);
    }
    if HashFromStorageKey(key) == Ok(hash) {
      assert key == key[..6] + key[6..8] + [key[8]] + key[9..];
    }
  }

  lemma KeyParts(hash: string)
    requires IsHash(hash)
    ensures var key := StorageKey(hash);
      |key| == KEY_LENGTH && "blobs/" <= key && key[6..8] == hash[..2] && key[8] == '/' && key[9..] == hash
  {
  }

  lemma KeysAreInjective(a: string, b: string)
    requires IsHash(a) && IsHash(b) && StorageKey(a) == StorageKey(b)
    ensures a == b
  {
    KeyParts(a);
    KeyParts(b);
  }

  /** The temporary file of one write: named by hash, process and sequence number, beside the blob. */
  function TemporaryPath(hash: string, process: nat, sequence: nat): string
    requires IsHash(hash)
  {
    "blobs/" + hash[..2] + "/" + ("." + hash + "." + TemporarySuffix(process, sequence))
  }

  function TemporarySuffix(process: nat, sequence: nat): string {
    Padded(process, 1) + ['.'] + (Padded(sequence, 1) + ['.'] + "tmp")
  }

  /** No temporary file is ever in the place of a blob. */
  lemma TemporaryIsNoBlob(a: string, process: nat, sequence: nat, b: string)
    requires IsHash(a) && IsHash(b)
    ensures TemporaryPath(a, process, sequence) != StorageKey(b)
  {
    KeyParts(b);
    assert TemporaryPath(a, process, sequence)[9] == '.';
    assert StorageKey(b)[9] == StorageKey(b)[9..][0] == b[0];
  }

  lemma TemporaryParts(hash: string, process: nat, sequence: nat)
    requires IsHash(hash)
    ensures var path := TemporaryPath(hash, process, sequence);
      |path| >= 75 && path[10..74] == hash && path[75..] == TemporarySuffix(process, sequence)
  {
  }

  lemma SuffixIsInjective(process: nat, sequence: nat, process': nat, sequence': nat)
    requires TemporarySuffix(process, sequence) == TemporarySuffix(process', sequence')
    ensures process == process' && sequence == sequence'
  {
    SplitAtFirst(Padded(process, 1), Padded(sequence, 1) + ['.'] + "tmp", '.');
    SplitAtFirst(Padded(process', 1), Padded(sequence', 1) + ['.'] + "tmp", '.');
    SplitAtFirst(Padded(sequence, 1), "tmp", '.');
    SplitAtFirst(Padded(sequence', 1), "tmp", '.');
    PaddedValue(process, 1);
    PaddedValue(process', 1);
    PaddedValue(sequence, 1);
    PaddedValue(sequence', 1);
  }

  /** Two writes share a temporary file only when they agree in process and sequence number. */
  lemma TemporariesAreDistinct(a: string, process: nat, sequence: nat, b: string, process': nat, sequence': nat)
    requires IsHash(a) && IsHash(b)
    requires TemporaryPath(a, process, sequence) == TemporaryPath(b, process', sequence')
    ensures a == b && process == process' && sequence == sequence'
  {
    hide TemporaryPath, TemporarySuffix;
    TemporaryParts(a, process, sequence);
    TemporaryParts(b, process', sequence');
    SuffixIsInjective(process, sequence, process', sequence');
  }
}

/** The schema migration runner: a checksummed history that grows one migration at a time. */
module Migrations {
  import opened Wrappers

  /** A migration of the source-controlled list; `checksum` is that of its SQL text. */
  datatype Migration = Migration(version: nat, checksum: string)

  /** A row of the history table. */
  datatype Row = Row(version: nat, checksum: string)

  datatype Outcome =
    | Migrated
    | Database
    | ChecksumMismatch(version: nat, stored: string, expected: string)
    | UnsupportedVersion(found: nat, supported: nat)

  /** The list is numbered 1 to n, as the repository's own list of four is. */
  predicate IsNumbered(migrations: seq<Migration>) {
    forall i :: 0 <= i < |migrations| ==> migrations[i].version == i + 1
  }

  function Latest(migrations: seq<Migration>): nat {
    if migrations == [] then 0 else migrations[|migrations| - 1].version
  }

  /** The largest recorded version, 0 for an empty history. */
  function CurrentVersion(history: seq<Row>): nat {
    if history == [] then 0
    else
      var rest := CurrentVersion(history[..|history| - 1]);
      var last := history[|history| - 1].version;
      if last > rest then last else rest
  }

  function StoredChecksum(history: seq<Row>, version: nat): Option<string> {
    if history == [] then None
    else if history[|history| - 1].version == version then Some(history[|history| - 1].checksum)
    else StoredChecksum(history[..|history| - 1], version)
  }

  /** The loop over the list: check what is recorded, apply what is missing up to the target.
      `faults` are the versions whose SQL or clock fails in this call; a failed transaction
      leaves no trace. */
  function ApplyFrom(history: seq<Row>, migrations: seq<Migration>, target: nat, faults: set<nat>): (seq<Row>, Outcome)
    decreases migrations
  {
    if migrations == [] then (history, Migrated)
    else
      var m := migrations[0];
      match StoredChecksum(history, m.version)
      case Some(stored) =>
        if stored != m.checksum then (history, ChecksumMismatch(m.version, stored, m.checksum))
        else ApplyFrom(history, migrations[1..], target, faults)
      case None =>
        if m.version > target then ApplyFrom(history, migrations[1..], target, faults)
        else if m.version in faults then (history, Database)
        else ApplyFrom(history + [Row(m.version, m.checksum)], migrations[1..], target, faults)
  }

  function Migrate(history: seq<Row>, migrations: seq<Migration>, target: nat, faults: set<nat>): (seq<Row>, Outcome) {
    if target > Latest(migrations) then (history, UnsupportedVersion(target, Latest(migrations)))
    else if CurrentVersion(history) > target then (history, UnsupportedVersion(CurrentVersion(history), target))
    else ApplyFrom(history, migrations, target, faults)
  }

  /** The connection to a database file, with the history table the runner extends. */
  class Connection {
    var history: seq<Row>

    constructor ()
      ensures history == []
    {
      history := [];
    }

    method MigrateTo(migrations: seq<Migration>, target: nat, faults: set<nat>) returns (outcome: Outcome)
      modifies this
      ensures (history, outcome) == Migrate(old(history), migrations, target, faults)
    {
      if target > Latest(migrations) {
        return UnsupportedVersion(target, Latest(migrations));
      }
      var current := CurrentVersion(history);
      if current > target {
        return UnsupportedVersion(current, target);
      }
      var i := 0;
      while i < |migrations|
        invariant 0 <= i <= |migrations|
        invariant ApplyFrom(history, migrations[i..], target, faults) ==
          ApplyFrom(old(history), migrations, target, faults)
      {
        assert migrations[i..][0] == migrations[i] && migrations[i..][1..] == migrations[i + 1..];
        var expected := migrations[i].checksum;
        match StoredChecksum(history, migrations[i].version) {
          case Some(stored) =>
            if stored != expected {
              return ChecksumMismatch(migrations[i].version, stored, expected);
            }
          case None =>
            if migrations[i].version <= target {
              if migrations[i].version in faults {
                return Database;
              }
              history := history + [Row(migrations[i].version, expected)];
            }
        }
        i := i + 1;
      }
      return Migrated;
    }
  }

  // ---- Histories ----

  /** The history after the first `k` migrations. */
  function Applied(migrations: seq<Migration>, k: nat): (rows: seq<Row>)
    requires k <= |migrations|
    ensures |rows| == k && forall i :: 0 <= i < k ==> rows[i] == Row(migrations[i].version, migrations[i].checksum)
  {
    seq(k, i requires 0 <= i < k => Row(migrations[i].version, migrations[i].checksum))
  }

  /** Rows numbered 1 to their count, with any checksums: what remains of a history after its
      checksums were altered. */
  predicate IsNumberedHistory(history: seq<Row>) {
    forall i :: 0 <= i < |history| ==> history[i].version == i + 1
  }

  lemma {:induction false} NumberedLookup(history: seq<Row>, version: nat)
    requires IsNumberedHistory(history) && version >= 1
    ensures CurrentVersion(history) == |history|
    ensures StoredChecksum(history, version) ==
      if version <= |history| then Some(history[version - 1].checksum) else None
  {
    if history != [] {
      NumberedLookup(history[..|history| - 1], version);
    }
  }

  /** The first version after `k`, up to `target`, that fails; `target + 1` when none does. */
  function FirstFault(k: nat, target: nat, faults: set<nat>): (v: nat)
    requires k <= target
    ensures k < v <= target + 1
    ensures forall u :: k < u < v ==> u !in faults
    ensures v <= target ==> v in faults
    decreases target - k
  {
    if k == target || k + 1 in faults then k + 1 else FirstFault(k + 1, target, faults)
  }

  lemma ApplyStep(history: seq<Row>, migrations: seq<Migration>, i: nat, target: nat, faults: set<nat>)
    requires IsNumbered(migrations) && i < |migrations|
    ensures var stored := StoredChecksum(history, i + 1);
      ApplyFrom(history, migrations[i..], target, faults) ==
        if stored.Some? && stored.value != migrations[i].checksum then
          (history, ChecksumMismatch(i + 1, stored.value, migrations[i].checksum))
        else if stored.Some? || i + 1 > target then ApplyFrom(history, migrations[i + 1..], target, faults)
        else if i + 1 in faults then (history, Database)
        else ApplyFrom(history + [Row(i + 1, migrations[i].checksum)], migrations[i + 1..], target, faults)
  {
    assert migrations[i..][0] == migrations[i] && migrations[i..][1..] == migrations[i + 1..];
  }

  /** The first row from `from` on whose checksum is not the source's; the row count when none is. */
  function FirstAltered(history: seq<Row>, migrations: seq<Migration>, from: nat): (i: nat)
    requires from <= |history| <= |migrations|
    ensures from <= i <= |history|
    ensures forall j :: from <= j < i ==> history[j].checksum == migrations[j].checksum
    ensures i < |history| ==> history[i].checksum != migrations[i].checksum
    decreases |history| - from
  {
    if from == |history| || history[from].checksum != migrations[from].checksum then from
    else FirstAltered(history, migrations, from + 1)
  }

  /** The recorded migrations are checked first, in order, and the first altered checksum stops
      the run before anything is applied. */
  lemma {:induction false} ChecksBeforeApplying(
    history: seq<Row>, migrations: seq<Migration>, from: nat, target: nat, faults: set<nat>)
    requires IsNumbered(migrations) && IsNumberedHistory(history) && from <= |history| <= |migrations|
    ensures var i := FirstAltered(history, migrations, from);
      ApplyFrom(history, migrations[from..], target, faults) ==
        if i < |history| then (history, ChecksumMismatch(i + 1, history[i].checksum, migrations[i].checksum))
        else ApplyFrom(history, migrations[|history|..], target, faults)
    decreases |history| - from
  {
    hide ApplyFrom, StoredChecksum;
    if from < |history| {
      ApplyStep(history, migrations, from, target, faults);
      NumberedLookup(history, from + 1);
      if history[from].checksum == migrations[from].checksum {
        ChecksBeforeApplying(history, migrations, from + 1, target, faults);
      }
    }
  }

  /** From a faithful history the missing migrations are applied in order, up to the first fault. */
  lemma {:induction false} AppliesInOrder(migrations: seq<Migration>, k: nat, target: nat, faults: set<nat>)
    requires IsNumbered(migrations) && k <= target <= |migrations|
    ensures var fault := FirstFault(k, target, faults);
      ApplyFrom(Applied(migrations, k), migrations[k..], target, faults) ==
        (Applied(migrations, fault - 1), if fault <= target then Database else Migrated)
    decreases |migrations| - k
  {
    hide ApplyFrom, StoredChecksum;
    if k == target {
      NothingBeyondTarget(migrations, k, target, faults);
    } else {
      ApplyStep(Applied(migrations, k), migrations, k, target, faults);
      NumberedLookup(Applied(migrations, k), k + 1);
      if k + 1 !in faults {
        assert Applied(migrations, k) + [Row(k + 1, migrations[k].checksum)] == Applied(migrations, k + 1);
        AppliesInOrder(migrations, k + 1, target, faults);
      }
    }
  }

  lemma {:induction false} NothingBeyondTarget(migrations: seq<Migration>, k: nat, target: nat, faults: set<nat>)
    requires IsNumbered(migrations) && target <= k <= |migrations|
    ensures ApplyFrom(Applied(migrations, target), migrations[k..], target, faults) ==
      (Applied(migrations, target), Migrated)
    decreases |migrations| - k
  {
    if k < |migrations| {
      assert migrations[k..][0] == migrations[k] && migrations[k..][1..] == migrations[k + 1..];
      NumberedLookup(Applied(migrations, target), k + 1);
      NothingBeyondTarget(migrations, k + 1, target, faults);
    }
  }

  // ---- Main results ----

  /** One call on a faithful history, completely. */
  lemma MigrateExactly(migrations: seq<Migration>, k: nat, target: nat, faults: set<nat>)
    requires IsNumbered(migrations) && k <= |migrations|
    ensures Migrate(Applied(migrations, k), migrations, target, faults) ==
      if target > |migrations| then (Applied(migrations, k), UnsupportedVersion(target, |migrations|))
      else if k > target then (Applied(migrations, k), UnsupportedVersion(k, target))
      else
        var fault := FirstFault(k, target, faults);
        (Applied(migrations, fault - 1), if fault <= target then Database else Migrated)
  {
    NumberedLookup(Applied(migrations, k), 1);
    if k <= target <= |migrations| {
      assert migrations[0..] == migrations;
      ChecksBeforeApplying(Applied(migrations, k), migrations, 0, target, faults);
      AppliesInOrder(migrations, k, target, faults);
    }
  }

  datatype Call = Call(target: nat, faults: set<nat>)

  function AfterCalls(history: seq<Row>, migrations: seq<Migration>, calls: seq<Call>): seq<Row>
    decreases calls
  {
    if calls == [] then history
    else AfterCalls(Migrate(history, migrations, calls[0].target, calls[0].faults).0, migrations, calls[1..])
  }

  /** Whatever calls succeed or fail, the history is that of the first k migrations, and never shrinks. */
  lemma {:induction false} HistoriesArePrefixes(migrations: seq<Migration>, k: nat, calls: seq<Call>)
    requires IsNumbered(migrations) && k <= |migrations|
    ensures exists n ::
      k <= n <= |migrations| && AfterCalls(Applied(migrations, k), migrations, calls) == Applied(migrations, n)
    decreases calls
  {
    if calls == [] {
      assert AfterCalls(Applied(migrations, k), migrations, calls) == Applied(migrations, k);
    } else {
      var c := calls[0];
      MigrateExactly(migrations, k, c.target, c.faults);
      var n := if k <= c.target <= |migrations| then FirstFault(k, c.target, c.faults) - 1 else k;
      HistoriesArePrefixes(migrations, n, calls[1..]);
    }
  }

  /** Whatever calls came before, refused and failed ones included: if the history is not yet beyond
      the target, a faultless call gives what that call alone gives. */
  lemma DetoursDoNotMatter(migrations: seq<Migration>, k: nat, calls: seq<Call>, target: nat)
    requires IsNumbered(migrations) && k <= |migrations| && target <= |migrations|
    requires |AfterCalls(Applied(migrations, k), migrations, calls)| <= target
    ensures Migrate(AfterCalls(Applied(migrations, k), migrations, calls), migrations, target, {}) ==
      (Applied(migrations, target), Migrated) == Migrate(Applied(migrations, k), migrations, target, {})
  {
    hide Migrate, AfterCalls, IsNumbered;
    HistoriesArePrefixes(migrations, k, calls);
    var n :| k <= n <= |migrations| && AfterCalls(Applied(migrations, k), migrations, calls) == Applied(migrations, n);
    FaultlessCall(migrations, k, target);
    FaultlessCall(migrations, n, target);
  }

  lemma FaultlessCall(migrations: seq<Migration>, k: nat, target: nat)
    requires IsNumbered(migrations) && k <= target <= |migrations|
    ensures Migrate(Applied(migrations, k), migrations, target, {}) == (Applied(migrations, target), Migrated)
  {
    hide Migrate, Applied, IsNumbered;
    MigrateExactly(migrations, k, target, {});
  }

  /** Repeating a successful call changes nothing. */
  lemma RepetitionIsIdle(migrations: seq<Migration>, k: nat, target: nat, first: set<nat>, second: set<nat>)
    requires IsNumbered(migrations) && k <= |migrations|
    requires Migrate(Applied(migrations, k), migrations, target, first).1 == Migrated
    ensures var h := Migrate(Applied(migrations, k), migrations, target, first).0;
      Migrate(h, migrations, target, second) == (h, Migrated)
  {
    MigrateExactly(migrations, k, target, first);
    MigrateExactly(migrations, target, target, second);
  }

  /** A newer program with a longer list continues the histories of the older one. */
  lemma UpgradesContinue(older: seq<Migration>, newer: seq<Migration>, k: nat, target: nat)
    requires IsNumbered(newer) && older <= newer && k <= |older| && k <= target <= |newer|
    ensures Migrate(Applied(older, k), newer, target, {}) == (Applied(newer, target), Migrated)
  {
    assert Applied(older, k) == Applied(newer, k);
    MigrateExactly(newer, k, target, {});
  }

  /** With rows 1 to k in place, a call that gets as far as checking fails on a checksum exactly when
      some row was altered; it names the first such row and has applied nothing. */
  lemma AlteredHistoryIsRefused(history: seq<Row>, migrations: seq<Migration>, target: nat, faults: set<nat>)
    requires IsNumbered(migrations) && IsNumberedHistory(history) && |history| <= target <= |migrations|
    ensures Migrate(history, migrations, target, faults).1.ChecksumMismatch? <==>
      exists i :: 0 <= i < |history| && history[i].checksum != migrations[i].checksum
    ensures Migrate(history, migrations, target, faults).1.ChecksumMismatch? ==>
      var i := FirstAltered(history, migrations, 0);
      Migrate(history, migrations, target, faults) ==
        (history, ChecksumMismatch(i + 1, history[i].checksum, migrations[i].checksum))
  {
    hide ApplyFrom, Migrate, FirstFault;
    MigrationChecksFirst(history, migrations, target, faults);
    if forall i :: 0 <= i < |history| ==> history[i].checksum == migrations[i].checksum {
      assert history == Applied(migrations, |history|);
      MigrateExactly(migrations, |history|, target, faults);
    }
  }

  lemma MigrationChecksFirst(history: seq<Row>, migrations: seq<Migration>, target: nat, faults: set<nat>)
    requires IsNumbered(migrations) && IsNumberedHistory(history) && |history| <= target <= |migrations|
    ensures var i := FirstAltered(history, migrations, 0);
      i < |history| ==>
        Migrate(history, migrations, target, faults) ==
          (history, ChecksumMismatch(i + 1, history[i].checksum, migrations[i].checksum))
  {
    hide ApplyFrom, StoredChecksum, CurrentVersion;
    NumberedLookup(history, 1);
    assert migrations[0..] == migrations;
    ChecksBeforeApplying(history, migrations, 0, target, faults);
  }
}

/** Schema migrations (`run_pending_migrations`) and their restarts. */
module Migrations {
  import opened Options

  const I32_MIN := -0x8000_0000

  type MigrationId = i: int | -0x8000_0000 <= i < 0x8000_0000

  datatype Migration = Migration(id: MigrationId, up: string)

  datatype MigrationError = MigrationOutOfOrder(id: MigrationId) | DatabaseTooNew

  /** `Interrupted` is a process that ends between two transactions; `EmptyList` is the
      failed unwrap on a list without migrations. */
  datatype RunOutcome = Complete | Interrupted | Failed(error: MigrationError) | EmptyList

  /** What the database holds: the ids in `migration_entries`, and every script run so far. */
  datatype Schema = Schema(entries: seq<MigrationId>, scripts: seq<string>)

  /** `get_last_migration`, with the default used when there is none. */
  function LastMigration(entries: seq<MigrationId>): (r: MigrationId)
    ensures forall i :: 0 <= i < |entries| ==> entries[i] <= r
    ensures entries != [] ==> exists i :: 0 <= i < |entries| && entries[i] == r
    ensures entries == [] ==> r == I32_MIN
  {
    if |entries| == 0 then I32_MIN
    else if |entries| == 1 then entries[0]
    else
      var r, last := LastMigration(entries[..|entries| - 1]), entries[|entries| - 1];
      assert entries[..|entries| - 1][0] == entries[0];
      if last > r then last else
        var i :| 0 <= i < |entries| - 1 && entries[..|entries| - 1][i] == r;
        assert entries[i] == r;
        r
  }

  /** The migrations the loop applies: each one newer than everything applied before it. */
  function Pending(migrations: seq<Migration>, last: int): seq<Migration> {
    if migrations == [] then []
    else if migrations[0].id > last then [migrations[0]] + Pending(migrations[1..], migrations[0].id)
    else Pending(migrations[1..], last)
  }

  function Ids(migrations: seq<Migration>): (r: seq<MigrationId>)
    ensures |r| == |migrations| && forall i :: 0 <= i < |migrations| ==> r[i] == migrations[i].id
  {
    seq(|migrations|, i requires 0 <= i < |migrations| => migrations[i].id)
  }

  function Scripts(migrations: seq<Migration>): (r: seq<string>)
    ensures |r| == |migrations| && forall i :: 0 <= i < |migrations| ==> r[i] == migrations[i].up
  {
    seq(|migrations|, i requires 0 <= i < |migrations| => migrations[i].up)
  }

  /** The database with some migrations applied on top. */
  function Applied(s: Schema, done: seq<Migration>): Schema {
    Schema(s.entries + Ids(done), s.scripts + Scripts(done))
  }

  lemma AppliedNext(s: Schema, done: seq<Migration>, m: Migration)
    ensures Applied(s, done + [m]) == Schema(Applied(s, done).entries + [m.id], Applied(s, done).scripts + [m.up])
  {
    assert Ids(done + [m]) == Ids(done) + [m.id];
    assert Scripts(done + [m]) == Scripts(done) + [m.up];
    assert s.entries + (Ids(done) + [m.id]) == (s.entries + Ids(done)) + [m.id];
    assert s.scripts + (Scripts(done) + [m.up]) == (s.scripts + Scripts(done)) + [m.up];
  }

  function FirstOf(migrations: seq<Migration>, n: nat): seq<Migration> {
    if n < |migrations| then migrations[..n] else migrations
  }

  /** The effect of a run that may end after `patience` migrations. */
  function RunEffect(s: Schema, migrations: seq<Migration>, patience: nat): Schema {
    var pending := Pending(migrations, LastMigration(s.entries));
    Applied(s, FirstOf(pending, patience))
  }

  lemma PendingStep(migrations: seq<Migration>, i: nat, last: int)
    requires i < |migrations|
    ensures Pending(migrations[i..], last) ==
            if migrations[i].id > last then [migrations[i]] + Pending(migrations[i + 1..], migrations[i].id)
            else Pending(migrations[i + 1..], last)
  {
    assert migrations[i..][0] == migrations[i] && migrations[i..][1..] == migrations[i + 1..];
  }

  lemma AppendFirst(done: seq<Migration>, m: Migration, rest: seq<Migration>)
    ensures done + ([m] + rest) == (done + [m]) + rest
  {
  }

  class Database {
    var entries: seq<MigrationId>
    var scripts: seq<string>
    var foreignKeys: bool

    constructor ()
      ensures Contents() == Schema([], []) && foreignKeys
    {
      entries, scripts, foreignKeys := [], [], true;
    }

    function Contents(): Schema
      reads this`entries, this`scripts
    {
      Schema(entries, scripts)
    }

    /** `Migration::up`: one transaction, refused when an entry is not older. */
    method Up(m: Migration) returns (error: Option<MigrationError>)
      modifies this
      ensures error.Some? <==> exists i :: 0 <= i < |old(entries)| && old(entries)[i] >= m.id
      ensures error.Some? ==> error.value == MigrationOutOfOrder(m.id) && Contents() == old(Contents()) && !foreignKeys
      ensures error.None? ==> Contents() == Applied(old(Contents()), [m]) && foreignKeys
    {
      foreignKeys := false;
      if exists i :: 0 <= i < |entries| && entries[i] >= m.id {
        return Some(MigrationOutOfOrder(m.id));
      }
      scripts := scripts + [m.up];
      entries := entries + [m.id];
      foreignKeys := true;
      error := None;
    }

    /** The loop over the migrations; the process may end after `patience` of them. */
    method ApplyPending(migrations: seq<Migration>, last: MigrationId, patience: nat) returns (r: RunOutcome)
      requires forall k :: 0 <= k < |entries| ==> entries[k] <= last
      modifies this
      ensures r == if patience < |Pending(migrations, last)| then Interrupted else Complete
      ensures Contents() == Applied(old(Contents()), FirstOf(Pending(migrations, last), patience))
      ensures old(foreignKeys) ==> foreignKeys
    {
      var lastMigration := last;
      ghost var pending := Pending(migrations, last);
      ghost var done: seq<Migration> := [];
      var left := patience;
      for i := 0 to |migrations|
        invariant pending == done + Pending(migrations[i..], lastMigration)
        invariant Contents() == Applied(old(Contents()), done)
        invariant forall k :: 0 <= k < |entries| ==> entries[k] <= lastMigration
        invariant 0 <= left && left + |done| == patience
        invariant old(foreignKeys) ==> foreignKeys
      {
        var mig := migrations[i];
        PendingStep(migrations, i, lastMigration);
        if mig.id > lastMigration {
          if left == 0 {
            assert |pending| > patience && FirstOf(pending, patience) == done;
            return Interrupted;
          }
          AppliedNext(old(Contents()), done, mig);
          var error := Up(mig);
          assert error.None?;
          lastMigration := mig.id;
          left := left - 1;
          AppendFirst(done, mig, Pending(migrations[i + 1..], mig.id));
          done := done + [mig];
        }
      }
      assert pending == done && FirstOf(pending, patience) == done;
      r := Complete;
    }

    /** Whatever the list and the database, no migration is ever found out of order, so foreign
        keys are never left off. */
    method RunPendingMigrations(migrations: seq<Migration>, patience: nat) returns (r: RunOutcome)
      modifies this
      ensures r.EmptyList? <==> migrations == []
      ensures r.Failed? <==> migrations != [] && LastMigration(old(entries)) > migrations[|migrations| - 1].id
      ensures r.Failed? ==> r.error == DatabaseTooNew
      ensures r.EmptyList? || r.Failed? ==> Contents() == old(Contents())
      ensures r.Complete? || r.Interrupted? ==> Contents() == RunEffect(old(Contents()), migrations, patience)
      ensures r.Interrupted? ==> patience < |Pending(migrations, LastMigration(old(entries)))|
      ensures r.Complete? ==> patience >= |Pending(migrations, LastMigration(old(entries)))|
      ensures old(foreignKeys) ==> foreignKeys
    {
      if migrations == [] {
        return EmptyList;
      }
      var lastMigration := LastMigration(entries);
      if lastMigration > migrations[|migrations| - 1].id {
        return Failed(DatabaseTooNew);
      }
      r := ApplyPending(migrations, lastMigration, patience);
    }
  }

  // ---- restarts ----

  ghost predicate Increasing(migrations: seq<Migration>) {
    && (forall i, j :: 0 <= i < j < |migrations| ==> migrations[i].id < migrations[j].id)
    && (migrations != [] ==> migrations[0].id > I32_MIN)
  }

  /** The database after the first k migrations of the list, and nothing else. */
  function AtPrefix(migrations: seq<Migration>, k: nat): Schema
    requires k <= |migrations|
  {
    Schema(Ids(migrations[..k]), Scripts(migrations[..k]))
  }

  lemma {:induction false} PendingAll(migrations: seq<Migration>, last: int)
    requires forall i, j :: 0 <= i < j < |migrations| ==> migrations[i].id < migrations[j].id
    requires forall i :: 0 <= i < |migrations| ==> migrations[i].id > last
    ensures Pending(migrations, last) == migrations
    decreases |migrations|
  {
    if migrations != [] {
      PendingAll(migrations[1..], migrations[0].id);
    }
  }

  lemma {:induction false} PendingSkips(migrations: seq<Migration>, k: nat, last: int)
    requires k <= |migrations| && forall i :: 0 <= i < k ==> migrations[i].id <= last
    ensures Pending(migrations, last) == Pending(migrations[k..], last)
    decreases k
  {
    if k > 0 {
      PendingSkips(migrations[1..], k - 1, last);
      assert migrations[1..][k - 1..] == migrations[k..];
    } else {
      assert migrations[0..] == migrations;
    }
  }

  lemma PrefixLast(migrations: seq<Migration>, k: nat)
    requires Increasing(migrations) && 0 < k <= |migrations|
    ensures LastMigration(AtPrefix(migrations, k).entries) == migrations[k - 1].id
  {
    var entries := AtPrefix(migrations, k).entries;
    assert entries[k - 1] == migrations[k - 1].id;
  }

  /** From the state after k migrations of an increasing list, exactly the others are pending. */
  lemma PendingFromPrefix(migrations: seq<Migration>, k: nat)
    requires Increasing(migrations) && k <= |migrations|
    ensures Pending(migrations, LastMigration(AtPrefix(migrations, k).entries)) == migrations[k..]
  {
    if k > 0 {
      PrefixLast(migrations, k);
    }
    PendingFrom(migrations, k, if k > 0 then migrations[k - 1].id else I32_MIN);
  }

  lemma PendingFrom(migrations: seq<Migration>, k: nat, last: int)
    requires Increasing(migrations) && k <= |migrations|
    requires last == if k > 0 then migrations[k - 1].id else I32_MIN
    ensures Pending(migrations, last) == migrations[k..]
  {
    PrefixSplits(migrations, k, last);
    PendingSkips(migrations, k, last);
    PendingAll(migrations[k..], last);
  }

  lemma PrefixSplits(migrations: seq<Migration>, k: nat, last: int)
    requires Increasing(migrations) && k <= |migrations|
    requires last == if k > 0 then migrations[k - 1].id else I32_MIN
    ensures forall i :: 0 <= i < k ==> migrations[i].id <= last
    ensures forall i :: 0 <= i < |migrations[k..]| ==> migrations[k..][i].id > last
    ensures forall i, j :: 0 <= i < j < |migrations[k..]| ==> migrations[k..][i].id < migrations[k..][j].id
  {
    assert forall i :: 0 <= i < |migrations[k..]| ==> migrations[k..][i] == migrations[k + i];
  }

  lemma AppliedPrefix(migrations: seq<Migration>, k: nat, n: nat)
    requires k + n <= |migrations|
    ensures Applied(AtPrefix(migrations, k), migrations[k..][..n]) == AtPrefix(migrations, k + n)
  {
    assert migrations[..k] + migrations[k..][..n] == migrations[..k + n];
    assert Ids(migrations[..k]) + Ids(migrations[k..][..n]) == Ids(migrations[..k + n]);
    assert Scripts(migrations[..k]) + Scripts(migrations[k..][..n]) == Scripts(migrations[..k + n]);
  }

  function RunsEffect(s: Schema, migrations: seq<Migration>, runs: seq<nat>): Schema
    decreases |runs|
  {
    if runs == [] then s else RunsEffect(RunEffect(s, migrations, runs[0]), migrations, runs[1..])
  }

  lemma RunFromPrefix(migrations: seq<Migration>, k: nat, patience: nat)
    requires Increasing(migrations) && k <= |migrations|
    ensures RunEffect(AtPrefix(migrations, k), migrations, patience) ==
            AtPrefix(migrations, if patience < |migrations| - k then k + patience else |migrations|)
  {
    PendingFromPrefix(migrations, k);
    var n := if patience < |migrations| - k then patience else |migrations| - k;
    AppliedPrefix(migrations, k, n);
    assert migrations[k..][..|migrations| - k] == migrations[k..];
  }

  /** However many runs are cut short between transactions, one uninterrupted run then
      leaves every migration applied once and in order, as if nothing had been interrupted. */
  lemma {:induction false} Restartable(migrations: seq<Migration>, k: nat, runs: seq<nat>, patience: nat)
    requires Increasing(migrations) && k <= |migrations| && patience >= |migrations|
    ensures RunEffect(RunsEffect(AtPrefix(migrations, k), migrations, runs), migrations, patience) ==
            AtPrefix(migrations, |migrations|)
    decreases |runs|
  {
    if runs == [] {
      RunFromPrefix(migrations, k, patience);
    } else {
      RunFromPrefix(migrations, k, runs[0]);
      Restartable(migrations, if runs[0] < |migrations| - k then k + runs[0] else |migrations|, runs[1..], patience);
    }
  }

  lemma {:induction false} PendingNewer(migrations: seq<Migration>, last: int)
    ensures |Pending(migrations, last)| <= |migrations|
    ensures forall i :: 0 <= i < |Pending(migrations, last)| ==> Pending(migrations, last)[i].id > last
    ensures forall i, j :: 0 <= i < j < |Pending(migrations, last)| ==>
              Pending(migrations, last)[i].id < Pending(migrations, last)[j].id
    decreases |migrations|
  {
    if migrations != [] {
      PendingNewer(migrations[1..], if migrations[0].id > last then migrations[0].id else last);
    }
  }

  /** A list in any other order silently loses migrations: on a new database a run applies
      the whole list exactly when the list is strictly increasing and starts above the
      default for an empty table. */
  lemma NewDatabaseGetsAllIff(migrations: seq<Migration>)
    ensures Pending(migrations, LastMigration([])) == migrations <==> Increasing(migrations)
  {
    PendingNewer(migrations, I32_MIN);
    if Increasing(migrations) {
      forall i | 0 <= i < |migrations| ensures migrations[i].id > I32_MIN {
      }
      PendingAll(migrations, I32_MIN);
    }
  }
}

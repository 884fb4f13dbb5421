/**
 The migration runner. A database holds the tracking table and a schema; a version is the number its
 four digits spell, so the table's text order is the order of the numbers.
 */
module Migrations {
  import opened Decimal

  type Version = nat

  /** One migration file as a run sees it: skip is set for a dev-only file on a production database. */
  datatype Migration = Migration(version: Version, checksum: string, skip: bool)

  datatype Entry = Entry(checksum: string, skipped: bool)

  type Table = map<Version, Entry>

  /** `_discover` lists the files by version; the versions are distinct. */
  predicate Listed(ms: seq<Migration>) {
    forall i, j :: 0 <= i < j < |ms| ==> ms[i].version < ms[j].version
  }

  /** The migrations whose version is not recorded, in order. */
  function Pending(ms: seq<Migration>, recorded: Table): seq<Migration> {
    if ms == [] then []
    else Pending(ms[..|ms| - 1], recorded) + (if ms[|ms| - 1].version in recorded then [] else [ms[|ms| - 1]])
  }

  /** The highest recorded version. */
  ghost predicate IsLatest(recorded: Table, v: Version) {
    v in recorded && forall u :: u in recorded ==> u <= v
  }

  lemma {:induction false} PendingMembers(ms: seq<Migration>, recorded: Table)
    ensures forall m :: m in Pending(ms, recorded) <==> m in ms && m.version !in recorded
  {
    if ms != [] {
      PendingMembers(ms[..|ms| - 1], recorded);
      assert forall m :: m in ms <==> m in ms[..|ms| - 1] || m == ms[|ms| - 1];
    }
  }

  lemma PendingIsUnrecorded(ms: seq<Migration>, recorded: Table, i: nat)
    requires i < |Pending(ms, recorded)|
    ensures Pending(ms, recorded)[i].version !in recorded
  {
    PendingMembers(ms, recorded);
    assert Pending(ms, recorded)[i] in Pending(ms, recorded);
  }

  lemma {:induction false} PendingIsListed(ms: seq<Migration>, recorded: Table)
    requires Listed(ms)
    ensures Listed(Pending(ms, recorded))
  {
    if ms != [] {
      var init := ms[..|ms| - 1];
      PendingIsListed(init, recorded);
      PendingMembers(init, recorded);
      forall i | 0 <= i < |Pending(init, recorded)|
        ensures Pending(init, recorded)[i].version < ms[|ms| - 1].version
      {
        assert Pending(init, recorded)[i] in init;
      }
    }
  }

  // ---------------------------------------------------------------- one run on its own

  /** What running a file does to the schema, and the schema itself: both are the caller's. */
  datatype Sql<!S> = Sql(up: (Version, S) -> S, down: (Version, S) -> S)

  /** executed lists the migrations run so far, a rollback as the second component true. */
  datatype Db<S> = Db(recorded: Table, schema: S, executed: seq<(Version, bool)>)

  function Run<S>(sql: Sql<S>, db: Db<S>, v: Version, back: bool): Db<S> {
    db.(schema := if back then sql.down(v, db.schema) else sql.up(v, db.schema), executed := db.executed + [(v, back)])
  }

  /** `_apply_one` on a version that is not recorded. */
  function Apply<S>(sql: Sql<S>, db: Db<S>, m: Migration): Db<S> {
    var ran := if m.skip then db else Run(sql, db, m.version, false);
    ran.(recorded := ran.recorded[m.version := Entry(m.checksum, m.skip)])
  }

  function ApplyAll<S>(sql: Sql<S>, db: Db<S>, ms: seq<Migration>): Db<S> {
    if ms == [] then db else Apply(sql, ApplyAll(sql, db, ms[..|ms| - 1]), ms[|ms| - 1])
  }

  /** `_rollback_one`. */
  function Rollback<S>(sql: Sql<S>, db: Db<S>, v: Version): Db<S> {
    if v !in db.recorded then db
    else
      var ran := if db.recorded[v].skipped then db else Run(sql, db, v, true);
      ran.(recorded := ran.recorded - {v})
  }

  datatype Outcome = Done | Drift(version: Version) | MissingFile(version: Version)

  class Runner<S(==)> {
    const sql: Sql<S>
    var recorded: Table
    var schema: S
    ghost var executed: seq<(Version, bool)>

    ghost function View(): Db<S>
      reads this
    {
      Db(recorded, schema, executed)
    }

    constructor (sql: Sql<S>, recorded: Table, schema: S)
      ensures this.sql == sql && View() == Db(recorded, schema, [])
    {
      this.sql, this.recorded, this.schema, this.executed := sql, recorded, schema, [];
    }

    /** One transaction: the version is checked again under the table lock. */
    method ApplyOne(m: Migration) returns (outcome: Outcome)
      modifies this
      ensures m.version !in old(recorded) ==> outcome == Done && View() == Apply(sql, old(View()), m)
      ensures m.version in old(recorded) ==>
                View() == old(View())
                && outcome == if old(recorded)[m.version].checksum == m.checksum then Done else Drift(m.version)
    {
      if m.version in recorded {
        return if recorded[m.version].checksum == m.checksum then Done else Drift(m.version);
      }
      if !m.skip {
        schema := sql.up(m.version, schema);
        executed := executed + [(m.version, false)];
      }
      recorded := recorded[m.version := Entry(m.checksum, m.skip)];
      outcome := Done;
    }

    /** `up` with nobody else at work: every pending migration is applied, and drift is never met. */
    method Up(ms: seq<Migration>) returns (outcome: Outcome)
      requires Listed(ms)
      modifies this
      ensures outcome == Done && View() == ApplyAll(sql, old(View()), Pending(ms, old(recorded)))
    {
      var pending := Pending(ms, recorded);
      PendingMembers(ms, recorded);
      PendingIsListed(ms, recorded);
      for k := 0 to |pending|
        invariant View() == ApplyAll(sql, old(View()), pending[..k])
        invariant forall j :: k <= j < |pending| ==> pending[j].version !in recorded
      {
        assert pending[..k + 1][..k] == pending[..k];
        outcome := ApplyOne(pending[k]);
      }
      assert pending[..|pending|] == pending;
      outcome := Done;
    }

    method RollbackOne(v: Version)
      modifies this
      ensures View() == Rollback(sql, old(View()), v)
    {
      if v !in recorded {
        return;
      }
      if !recorded[v].skipped {
        schema := sql.down(v, schema);
        executed := executed + [(v, true)];
      }
      recorded := recorded - {v};
    }

    /** `down`: the most recent version is rolled back, if its file is still there. */
    method Down(ms: seq<Migration>) returns (outcome: Outcome)
      modifies this
      ensures old(recorded) == map[] ==> outcome == Done && View() == old(View())
      ensures forall v :: IsLatest(old(recorded), v) ==>
                if exists m :: m in ms && m.version == v
                then outcome == Done && View() == Rollback(sql, old(View()), v)
                else outcome == MissingFile(v) && View() == old(View())
    {
      if recorded == map[] {
        return Done;
      }
      var v := Latest();
      if exists m :: m in ms && m.version == v {
        RollbackOne(v);
        outcome := Done;
      } else {
        outcome := MissingFile(v);
      }
    }

    method Latest() returns (v: Version)
      requires recorded != map[]
      ensures IsLatest(recorded, v)
    {
      var left := recorded.Keys;
      v :| v in left;
      left := left - {v};
      while left != {}
        invariant left <= recorded.Keys && v in recorded
        invariant forall u :: u in recorded && u !in left ==> u <= v
        decreases left
      {
        var u :| u in left;
        if v < u {
          v := u;
        }
        left := left - {u};
      }
    }
  }
}

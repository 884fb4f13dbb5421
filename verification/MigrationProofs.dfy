/** What `up` and `down` do together, and what they do not see. */
module MigrationProofs {
  import opened Decimal
  import opened Migrations

  // ---------------------------------------------------------------- up, then down as often

  /** Every rollback undoes its migration. */
  ghost predicate Inverts<S(!new)>(sql: Sql<S>) {
    forall v, s :: sql.down(v, sql.up(v, s)) == s
  }

  function Executed(ms: seq<Migration>): seq<(Version, bool)> {
    if ms == [] then []
    else Executed(ms[..|ms| - 1]) + (if ms[|ms| - 1].skip then [] else [(ms[|ms| - 1].version, false)])
  }

  /** The rollbacks of the migrations that were executed, last first. */
  function RolledBack(ms: seq<Migration>): seq<(Version, bool)> {
    if ms == [] then []
    else (if ms[|ms| - 1].skip then [] else [(ms[|ms| - 1].version, true)]) + RolledBack(ms[..|ms| - 1])
  }

  /** `down`, k times in a row, each time on the latest version, leads from a to b. */
  ghost predicate AfterDowns<S(!new)>(sql: Sql<S>, a: Db<S>, k: nat, b: Db<S>)
    decreases k
  {
    if k == 0 then a == b
    else exists v :: IsLatest(a.recorded, v) && AfterDowns(sql, Rollback(sql, a, v), k - 1, b)
  }

  /** New migrations, in order, all above what is recorded. */
  ghost predicate Above(ms: seq<Migration>, recorded: Table) {
    Listed(ms) && forall i, u :: 0 <= i < |ms| && u in recorded ==> u < ms[i].version
  }

  lemma {:induction false} ApplyAllIs<S>(sql: Sql<S>, db: Db<S>, ms: seq<Migration>)
    ensures var r := ApplyAll(sql, db, ms);
            && r.executed == db.executed + Executed(ms)
            && forall u :: u in r.recorded <==> u in db.recorded || exists m :: m in ms && m.version == u
  {
    if ms != [] {
      var init, last := ms[..|ms| - 1], ms[|ms| - 1];
      ApplyAllIs(sql, db, init);
      assert forall m :: m in ms <==> m in init || m == last;
    }
  }

  /** After `up`, the last migration applied is the latest version: `down` picks exactly it. */
  lemma LastIsLatest<S>(sql: Sql<S>, db: Db<S>, ms: seq<Migration>)
    requires ms != [] && Above(ms, db.recorded)
    ensures IsLatest(ApplyAll(sql, db, ms).recorded, ms[|ms| - 1].version)
  {
    ApplyAllIs(sql, db, ms);
    assert ms[|ms| - 1] in ms;
  }

  /** Rolling back the last migration leaves exactly what the earlier ones had made. */
  lemma RollbackUndoesApply<S(!new)>(sql: Sql<S>, up: Db<S>, m: Migration, a: Db<S>)
    requires Inverts(sql) && m.version !in up.recorded
    requires a.recorded == Apply(sql, up, m).recorded && a.schema == Apply(sql, up, m).schema
    ensures var r := Rollback(sql, a, m.version);
            && r.recorded == up.recorded && r.schema == up.schema
            && r.executed == a.executed + (if m.skip then [] else [(m.version, true)])
  {
    assert up.recorded[m.version := Entry(m.checksum, m.skip)] - {m.version} == up.recorded;
  }

  /** The next `down` rolls back the last of ms and leaves the earlier ones. */
  lemma DownUndoesLast<S(!new)>(sql: Sql<S>, db: Db<S>, ms: seq<Migration>, a: Db<S>, b: Db<S>) returns (r: Db<S>)
    requires Inverts(sql) && Above(ms, db.recorded) && ms != [] && AfterDowns(sql, a, |ms|, b)
    requires a.recorded == ApplyAll(sql, db, ms).recorded && a.schema == ApplyAll(sql, db, ms).schema
    ensures AfterDowns(sql, r, |ms| - 1, b)
    ensures var up, last := ApplyAll(sql, db, ms[..|ms| - 1]), ms[|ms| - 1];
            && r.recorded == up.recorded && r.schema == up.schema
            && r.executed == a.executed + (if last.skip then [] else [(last.version, true)])
  {
    var v :| IsLatest(a.recorded, v) && AfterDowns(sql, Rollback(sql, a, v), |ms| - 1, b);
    r := Rollback(sql, a, v);
    var init, last := ms[..|ms| - 1], ms[|ms| - 1];
    LastIsLatest(sql, db, ms);
    assert v == last.version;
    ApplyAllIs(sql, db, init);
    RollbackUndoesApply(sql, ApplyAll(sql, db, init), last, a);
  }

  lemma {:induction false} DownsUndo<S(!new)>(sql: Sql<S>, db: Db<S>, ms: seq<Migration>, a: Db<S>, b: Db<S>)
    requires Inverts(sql) && Above(ms, db.recorded) && AfterDowns(sql, a, |ms|, b)
    requires a.recorded == ApplyAll(sql, db, ms).recorded && a.schema == ApplyAll(sql, db, ms).schema
    ensures b.recorded == db.recorded && b.schema == db.schema && b.executed == a.executed + RolledBack(ms)
  {
    if ms == [] {
      assert RolledBack(ms) == [] && a.executed + RolledBack(ms) == a.executed;
    } else {
      var init, last := ms[..|ms| - 1], ms[|ms| - 1];
      var r := DownUndoesLast(sql, db, ms, a, b);
      assert Above(init, db.recorded);
      DownsUndo(sql, db, init, r, b);
      Regroup(a.executed, if last.skip then [] else [(last.version, true)], RolledBack(init));
    }
  }

  lemma Regroup<T>(x: seq<T>, y: seq<T>, z: seq<T>)
    ensures (x + y) + z == x + (y + z)
  {
  }

  /** `up`, then `down` as often as it recorded: the rollbacks run in exactly the reverse order, and table and schema are back. */
  lemma DownsUndoUp<S(!new)>(sql: Sql<S>, db: Db<S>, files: seq<Migration>, b: Db<S>)
    requires Inverts(sql) && Listed(files) && Above(Pending(files, db.recorded), db.recorded)
    requires var ms := Pending(files, db.recorded); AfterDowns(sql, ApplyAll(sql, db, ms), |ms|, b)
    ensures var ms := Pending(files, db.recorded);
            b.recorded == db.recorded && b.schema == db.schema
            && b.executed == db.executed + Executed(ms) + RolledBack(ms)
  {
    var ms := Pending(files, db.recorded);
    ApplyAllIs(sql, db, ms);
    DownsUndo(sql, db, ms, ApplyAll(sql, db, ms), b);
  }

  lemma {:induction false} HasLatest(recorded: Table) returns (v: Version)
    requires recorded != map[]
    ensures IsLatest(recorded, v)
  {
    var u :| u in recorded;
    var others := recorded - {u};
    if others == map[] {
      v := u;
      assert forall w :: w in recorded ==> w == u || w in others;
    } else {
      var w := HasLatest(others);
      v := if u < w then w else u;
      assert forall x :: x in recorded ==> x == u || x in others;
    }
  }

  /** As long as enough versions are recorded, the `down`s lead somewhere. */
  lemma {:induction false} DownsLead<S(!new)>(sql: Sql<S>, a: Db<S>, k: nat) returns (b: Db<S>)
    requires k <= |a.recorded|
    ensures AfterDowns(sql, a, k, b)
    decreases k
  {
    if k == 0 {
      b := a;
    } else {
      var v := HasLatest(a.recorded);
      assert (a.recorded - {v}).Keys == a.recorded.Keys - {v};
      assert |Rollback(sql, a, v).recorded| == |a.recorded| - 1;
      b := DownsLead(sql, Rollback(sql, a, v), k - 1);
    }
  }

  /** The `down`s after an `up` always lead to one database, and it is the one there was. */
  lemma DownsAfterUp<S(!new)>(sql: Sql<S>, db: Db<S>, files: seq<Migration>) returns (b: Db<S>)
    requires Inverts(sql) && Listed(files) && Above(Pending(files, db.recorded), db.recorded)
    ensures var ms := Pending(files, db.recorded);
            && AfterDowns(sql, ApplyAll(sql, db, ms), |ms|, b)
            && b == Db(db.recorded, db.schema, db.executed + Executed(ms) + RolledBack(ms))
  {
    var ms := Pending(files, db.recorded);
    PendingMembers(files, db.recorded);
    PendingIsListed(files, db.recorded);
    ApplyAllRecords(sql, db, ms);
    b := DownsLead(sql, ApplyAll(sql, db, ms), |ms|);
    DownsUndoUp(sql, db, files, b);
  }

  /** RolledBack is Executed backwards. */
  lemma {:induction false} RolledBackReverses(ms: seq<Migration>)
    ensures |RolledBack(ms)| == |Executed(ms)|
    ensures forall i :: 0 <= i < |Executed(ms)| ==>
              RolledBack(ms)[i] == (Executed(ms)[|Executed(ms)| - 1 - i].0, true)
  {
    if ms != [] {
      var init, last := ms[..|ms| - 1], ms[|ms| - 1];
      RolledBackReverses(init);
      if last.skip {
        assert RolledBack(ms) == RolledBack(init) && Executed(ms) == Executed(init);
      } else {
        ReverseMore(Executed(init), RolledBack(init), last.version);
      }
    }
  }

  lemma ReverseMore(ran: seq<(Version, bool)>, back: seq<(Version, bool)>, v: Version)
    requires |back| == |ran| && forall i :: 0 <= i < |ran| ==> back[i] == (ran[|ran| - 1 - i].0, true)
    ensures var longer := ran + [(v, false)];
            forall i :: 0 <= i < |longer| ==> ([(v, true)] + back)[i] == (longer[|longer| - 1 - i].0, true)
  {
  }

  /** What the executed files make of a schema, one after the other. */
  function Replay<S>(sql: Sql<S>, start: S, ran: seq<(Version, bool)>): S {
    if ran == [] then start
    else
      var (v, back) := ran[|ran| - 1];
      var before := Replay(sql, start, ran[..|ran| - 1]);
      if back then sql.down(v, before) else sql.up(v, before)
  }

  lemma ReplayMore<S>(sql: Sql<S>, start: S, ran: seq<(Version, bool)>, v: Version, back: bool)
    ensures Replay(sql, start, ran + [(v, back)])
         == if back then sql.down(v, Replay(sql, start, ran)) else sql.up(v, Replay(sql, start, ran))
  {
    assert (ran + [(v, back)])[..|ran|] == ran;
  }

  /** The schema is what the executed files made of the first one: `up` and `down` change it in no other way. */
  lemma {:induction false} SchemaIsReplayed<S>(sql: Sql<S>, start: S, db: Db<S>, ms: seq<Migration>)
    requires db.schema == Replay(sql, start, db.executed)
    ensures var r := ApplyAll(sql, db, ms); r.schema == Replay(sql, start, r.executed)
    ensures forall v :: var r := Rollback(sql, db, v); r.schema == Replay(sql, start, r.executed)
  {
    forall v ensures var r := Rollback(sql, db, v); r.schema == Replay(sql, start, r.executed) {
      ReplayMore(sql, start, db.executed, v, true);
    }
    if ms != [] {
      var init, m := ms[..|ms| - 1], ms[|ms| - 1];
      SchemaIsReplayed(sql, start, db, init);
      ReplayMore(sql, start, ApplyAll(sql, db, init).executed, m.version, false);
    }
  }

  /** A rollback runs exactly when the version is recorded and was not skipped, and forgets it alone. */
  lemma RollbackIs<S>(sql: Sql<S>, db: Db<S>, v: Version)
    ensures var r := Rollback(sql, db, v);
            && r.executed == db.executed + (if v in db.recorded && !db.recorded[v].skipped then [(v, true)] else [])
            && v !in r.recorded
            && forall u :: u != v ==> (u in r.recorded <==> u in db.recorded) && (u in db.recorded ==> r.recorded[u] == db.recorded[u])
  {
  }

  /** `up` does not look at the checksums of recorded versions: only which versions are recorded matters. */
  lemma {:induction false} DriftIsNotSeen(ms: seq<Migration>, recorded: Table, drifted: Table)
    requires recorded.Keys == drifted.Keys
    ensures Pending(ms, recorded) == Pending(ms, drifted)
  {
    if ms != [] {
      DriftIsNotSeen(ms[..|ms| - 1], recorded, drifted);
      assert forall v :: v in recorded <==> v in recorded.Keys;
    }
  }

  /** Every migration of ms is recorded with its own checksum, and the other entries are those of db. */
  ghost predicate Records<S>(db: Db<S>, ms: seq<Migration>, r: Db<S>) {
    && (forall m :: m in ms ==> m.version in r.recorded && r.recorded[m.version] == Entry(m.checksum, m.skip))
    && (forall v :: v in db.recorded ==> v in r.recorded && r.recorded[v] == db.recorded[v])
    && |r.recorded| == |db.recorded| + |ms|
  }

  lemma RecordsOneMore<S>(sql: Sql<S>, db: Db<S>, init: seq<Migration>, last: Migration, r: Db<S>)
    requires Records(db, init, r) && last.version !in r.recorded
    ensures Records(db, init + [last], Apply(sql, r, last))
  {
    var t := Apply(sql, r, last);
    assert t.recorded.Keys == r.recorded.Keys + {last.version};
    assert |t.recorded| == |r.recorded| + 1;
  }

  lemma {:induction false} ApplyAllRecords<S>(sql: Sql<S>, db: Db<S>, ms: seq<Migration>)
    requires Listed(ms) && forall m :: m in ms ==> m.version !in db.recorded
    ensures Records(db, ms, ApplyAll(sql, db, ms))
  {
    if ms != [] {
      var init, last := ms[..|ms| - 1], ms[|ms| - 1];
      assert ms == init + [last];
      ApplyAllRecords(sql, db, init);
      ApplyAllIs(sql, db, init);
      forall m | m in init ensures m.version != last.version {
        var i :| 0 <= i < |init| && init[i] == m;
        assert ms[i] == m;
      }
      RecordsOneMore(sql, db, init, last, ApplyAll(sql, db, init));
    }
  }

  /**
   A recorded file was edited, among any other files: `up` runs every pending migration all the same,
   ends with every version recorded, and keeps the edited file's old checksum.
   */
  lemma DriftGoesUnnoticed<S>(sql: Sql<S>, db: Db<S>, ms: seq<Migration>, a: Migration)
    requires Listed(ms) && a in ms && a.version in db.recorded && db.recorded[a.version].checksum != a.checksum
    ensures var r := ApplyAll(sql, db, Pending(ms, db.recorded));
            && r.executed == db.executed + Executed(Pending(ms, db.recorded))
            && (forall m :: m in ms ==> m.version in r.recorded)
            && (forall m :: m in ms && m.version !in db.recorded ==> r.recorded[m.version].checksum == m.checksum)
            && r.recorded[a.version].checksum == db.recorded[a.version].checksum != a.checksum
  {
    var pending := Pending(ms, db.recorded);
    PendingMembers(ms, db.recorded);
    PendingIsListed(ms, db.recorded);
    ApplyAllRecords(sql, db, pending);
    ApplyAllIs(sql, db, pending);
  }
}

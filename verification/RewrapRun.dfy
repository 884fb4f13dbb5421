/** One run of the re-wrap script as the loop it is written in: it takes only the steps of `Rewrap`. */
module RewrapRun {
  import opened Decimal
  import opened Rewrap
  import opened RewrapProofs

  /** What the outside answers for one row; ends is for the end of a raced row's transaction and connection. */
  datatype Answers = Answers(locks: bool, ends: bool, unwraps: bool, wrapped: Option<Bytes>, verifies: bool,
                             commit: CommitEnd, recorded: bool, audited: bool)

  /** The states that steps of the protocol can lead to. */
  ghost predicate Reached(m: Masters, table: map<Tenant, Row>, s: State) {
    exists actions :: s == After(m, table, actions)
  }

  lemma StepIsReached(m: Masters, table: map<Tenant, Row>, s: State, a: Action)
    requires Reached(m, table, s) && Enabled(m, s, a)
    ensures Reached(m, table, Step(m, s, a))
  {
    var actions :| s == After(m, table, actions);
    assert (actions + [a])[..|actions|] == actions;
    assert After(m, table, actions + [a]) == Step(m, s, a);
  }

  /** Every step from a state of the set leads to one. */
  ghost predicate Closed(m: Masters, states: iset<State>) {
    forall s, a :: s in states && Enabled(m, s, a) ==> Step(m, s, a) in states
  }

  lemma ReachedIsSafe(m: Masters, table: map<Tenant, Row>, s: State, originals: map<Tenant, Bytes>)
    requires Reached(m, table, s) && Intact(m, Initial(table), originals)
    ensures Inv(m, s, originals)
  {
    var actions :| s == After(m, table, actions);
    AlwaysInv(m, table, originals, actions);
  }

  lemma SafeInAll(m: Masters, table: map<Tenant, Row>, s: State)
    requires Reached(m, table, s)
    ensures forall originals :: Intact(m, Initial(table), originals) ==> Inv(m, s, originals)
  {
    forall originals | Intact(m, Initial(table), originals) ensures Inv(m, s, originals) {
      ReachedIsSafe(m, table, s, originals);
    }
  }

  // ---------------------------------------------------------------- one row

  /** How a row's turn ends: nothing to do, only looked at, raced, given up (perhaps after the row was written), or moved. */
  datatype Fate = Known | Looked | Raced(ended: bool) | GivenUp(written: Option<Bytes>)
                | Moved(wrapped: Bytes, recorded: bool, audited: bool)

  function Written(f: Fate): Option<Bytes> {
    match f
    case Known => None
    case Looked => None
    case Raced(_) => None
    case GivenUp(w) => w
    case Moved(w, _, _) => Some(w)
  }

  function Counted(run: Sweep, f: Fate): Sweep {
    match f
    case Known => run.(skipped := run.skipped + 1)
    case Looked => run.(migrated := run.migrated + 1)
    case Raced(true) => run.(skipped := run.skipped + 1)
    case Raced(false) =>
      run.(skipped := run.skipped + 1, failed := run.failed + 1, racedFailures := run.racedFailures + 1)
    case GivenUp(_) => run.(failed := run.failed + 1)
    case Moved(_, _, true) => run.(migrated := run.migrated + 1)
    case Moved(_, _, false) =>
      run.(migrated := run.migrated + 1, failed := run.failed + 1, auditFailures := run.auditFailures + 1)
  }

  function Table(m: Masters, keks: map<Tenant, Row>, t: Tenant, f: Fate): map<Tenant, Row> {
    if Written(f).Some? then keks[t := Row(Written(f).value, m.Target())] else keks
  }

  function Rewrites(rewrites: multiset<Tenant>, t: Tenant, f: Fate): multiset<Tenant> {
    if Written(f).Some? then rewrites + multiset{t} else rewrites
  }

  function Audits(audits: multiset<Tenant>, t: Tenant, f: Fate): multiset<Tenant> {
    if f.Moved? && f.recorded then audits + multiset{t} else audits
  }

  /** The protocol's state once the row's turn is over. */
  function Settled(m: Masters, s: State, t: Tenant, f: Fate): State
    requires 0 in s.runs
  {
    State(Table(m, s.table, t, f), map[], s.runs[0 := Counted(s.runs[0].Next(), f)],
          Rewrites(s.rewrites, t, f), Audits(s.audits, t, f))
  }

  /** The run is in t's transaction, at this phase. */
  predicate Holds(s: State, t: Tenant, p: Phase) {
    AtRow(s, 0) && TenantAt(s.runs[0]) == t && s.runs[0].phase == p && s.locks == map[t := 0]
  }

  /** The state with the run at this phase of its row. */
  function At(s: State, p: Phase, locks: map<Tenant, RunId>): State
    requires 0 in s.runs
  {
    With(s, 0, s.runs[0].(phase := p)).(locks := locks)
  }

  /** Only the run's phase and the lock differ: the turn ends the same. */
  lemma SettlesTheSame(m: Masters, s: State, t: Tenant, p: Phase, locks: map<Tenant, RunId>, f: Fate)
    requires 0 in s.runs
    ensures Settled(m, At(s, p, locks), t, f) == Settled(m, s, t, f)
  {
    var run := Counted(s.runs[0].Next(), f);
    assert s.runs[0 := s.runs[0].(phase := p)][0 := run] == s.runs[0 := run];
  }

  lemma GiveUp(m: Masters, s: State, t: Tenant, p: Phase)
    requires Holds(s, t, p)
    ensures Fail(s, 0) == Settled(m, s, t, GivenUp(None))
  {
    assert s.locks - {t} == map[];
  }

  lemma FromVerified(m: Masters, R: iset<State>, s: State, t: Tenant, w: Bytes, o: Answers, f: Fate)
    requires s in R && Closed(m, R) && Holds(s, t, Verified(w)) && (o.audited ==> o.recorded)
    requires f == FateOfVerified(w, o)
    ensures Settled(m, s, t, f) in R
  {
    assert Enabled(m, s, Commit(0, o.commit));
    var s' := CommitStep(m, s, 0, o.commit);
    assert Step(m, s, Commit(0, o.commit)) == s';
    if o.commit != Done {
      CommitSettles(m, s, t, w, o);
    } else {
      AuditSettles(m, s, s', t, w, o);
      assert Enabled(m, s', WriteAudit(0, o.recorded, o.audited));
      assert Step(m, s', WriteAudit(0, o.recorded, o.audited)) == AuditStep(s', 0, o.recorded, o.audited);
    }
  }

  lemma CommitSettles(m: Masters, s: State, t: Tenant, w: Bytes, o: Answers)
    requires Holds(s, t, Verified(w)) && o.commit != Done
    ensures CommitStep(m, s, 0, o.commit) == Settled(m, s, t, FateOfVerified(w, o))
  {
    assert s.locks - {t} == map[];
  }

  lemma AuditSettles(m: Masters, s: State, s': State, t: Tenant, w: Bytes, o: Answers)
    requires Holds(s, t, Verified(w)) && s' == CommitStep(m, s, 0, Done)
    ensures AuditStep(s', 0, o.recorded, o.audited) == Settled(m, s, t, Moved(w, o.recorded, o.audited))
  {
    assert s.locks - {t} == map[];
    var f := Moved(w, o.recorded, o.audited);
    var run := Counted(s.runs[0].Next(), f);
    assert s'.runs[0 := run] == s.runs[0 := run];
  }

  /** The fate of a row whose new wrapping was verified: what the commit and the audit log make of it. */
  function FateOfVerified(w: Bytes, o: Answers): (f: Fate)
    ensures f.GivenUp? || f.Moved?
  {
    match o.commit
    case Aborted => GivenUp(None)
    case DoneButLost => GivenUp(Some(w))
    case Done => Moved(w, o.recorded, o.audited)
  }

  /** The fate of a row that was unwrapped, from the wrapping on. */
  function FateOfPlain(m: Masters, plaintext: Bytes, o: Answers): Fate {
    if o.wrapped == None || !o.verifies || m.vaultUnwrap(o.wrapped.value) != Some(plaintext) then GivenUp(None)
    else FateOfVerified(o.wrapped.value, o)
  }

  function FateOf(m: Masters, locked: Row, o: Answers): Fate {
    if !o.locks then GivenUp(None)
    else if locked.masterId == m.Target() then Raced(o.ends)
    else if !o.unwraps || Unwrap(m, locked) == None then GivenUp(None)
    else FateOfPlain(m, Unwrap(m, locked).value, o)
  }

  lemma FromWrapped(m: Masters, R: iset<State>, s: State, t: Tenant, row: Row, x: Bytes, o: Answers)
    requires o.wrapped.Some? && (o.audited ==> o.recorded)
    requires s in R && Closed(m, R) && Holds(s, t, Wrapped(row, x, o.wrapped.value))
    ensures Settled(m, s, t, FateOfPlain(m, x, o)) in R
  {
    assert Enabled(m, s, Verify(0, o.verifies));
    if o.verifies && m.vaultUnwrap(o.wrapped.value) == Some(x) {
      var p := Verified(o.wrapped.value);
      assert Step(m, s, Verify(0, o.verifies)) == At(s, p, s.locks);
      FromVerified(m, R, At(s, p, s.locks), t, o.wrapped.value, o, FateOfPlain(m, x, o));
      SettlesTheSame(m, s, t, p, s.locks, FateOfPlain(m, x, o));
    } else {
      assert Step(m, s, Verify(0, o.verifies)) == Fail(s, 0);
      GiveUp(m, s, t, s.runs[0].phase);
    }
  }

  lemma FromPlain(m: Masters, R: iset<State>, s: State, t: Tenant, row: Row, x: Bytes, o: Answers)
    requires o.audited ==> o.recorded
    requires s in R && Closed(m, R) && Holds(s, t, Plain(row, x))
    ensures Settled(m, s, t, FateOfPlain(m, x, o)) in R
  {
    assert Enabled(m, s, CallWrap(0, o.wrapped));
    if o.wrapped.Some? {
      var p := Wrapped(row, x, o.wrapped.value);
      assert Step(m, s, CallWrap(0, o.wrapped)) == At(s, p, s.locks);
      FromWrapped(m, R, At(s, p, s.locks), t, row, x, o);
      SettlesTheSame(m, s, t, p, s.locks, FateOfPlain(m, x, o));
    } else {
      assert Step(m, s, CallWrap(0, o.wrapped)) == Fail(s, 0);
      GiveUp(m, s, t, s.runs[0].phase);
    }
  }

  lemma FromLocked(m: Masters, R: iset<State>, s: State, t: Tenant, row: Row, o: Answers)
    requires o.locks && (o.audited ==> o.recorded)
    requires s in R && Closed(m, R) && Holds(s, t, Locked(row)) && row.masterId != m.Target()
    ensures Settled(m, s, t, FateOf(m, row, o)) in R
  {
    assert Enabled(m, s, CallUnwrap(0, o.unwraps));
    if o.unwraps && Unwrap(m, row).Some? {
      var p := Plain(row, Unwrap(m, row).value);
      assert Step(m, s, CallUnwrap(0, o.unwraps)) == At(s, p, s.locks);
      FromPlain(m, R, At(s, p, s.locks), t, row, Unwrap(m, row).value, o);
      SettlesTheSame(m, s, t, p, s.locks, FateOf(m, row, o));
    } else {
      assert Step(m, s, CallUnwrap(0, o.unwraps)) == Fail(s, 0);
      GiveUp(m, s, t, s.runs[0].phase);
    }
  }

  /** The run is between rows, at one it must move, and nobody holds a lock. */
  predicate Faces(m: Masters, s: State, t: Tenant) {
    && AtRow(s, 0) && s.runs[0].phase.Scan? && TenantAt(s.runs[0]) == t && s.locks == map[]
    && s.runs[0].rows[s.runs[0].at].1 != m.Target() && t in s.table
  }

  /** A row's turn is steps of the protocol. */
  lemma MoveIsSteps(m: Masters, R: iset<State>, s: State, t: Tenant, o: Answers)
    requires o.audited ==> o.recorded
    requires s in R && Closed(m, R) && Faces(m, s, t) && !s.runs[0].dry
    ensures Settled(m, s, t, FateOf(m, s.table[t], o)) in R
  {
    if o.locks {
      MoveLocked(m, R, s, t, o);
    } else {
      LockFailsSettles(m, R, s, t);
    }
  }

  lemma LockFailsSettles(m: Masters, R: iset<State>, s: State, t: Tenant)
    requires s in R && Closed(m, R) && Faces(m, s, t) && !s.runs[0].dry
    ensures Settled(m, s, t, GivenUp(None)) in R
  {
    assert Enabled(m, s, LockFails(0));
    assert Step(m, s, LockFails(0)) == Settled(m, s, t, GivenUp(None));
  }

  lemma MoveLocked(m: Masters, R: iset<State>, s: State, t: Tenant, o: Answers)
    requires o.locks && (o.audited ==> o.recorded)
    requires s in R && Closed(m, R) && Faces(m, s, t) && !s.runs[0].dry
    ensures Settled(m, s, t, FateOf(m, s.table[t], o)) in R
  {
    var row := s.table[t];
    var p := Locked(row);
    var s' := At(s, p, map[t := 0]);
    assert Enabled(m, s, Lock(0));
    assert Step(m, s, Lock(0)) == s';
    SettlesTheSame(m, s, t, p, map[t := 0], FateOf(m, row, o));
    if row.masterId == m.Target() {
      RaceSettles(m, R, s', t, row, o.ends);
    } else {
      FromLocked(m, R, s', t, row, o);
    }
  }

  lemma RaceSettles(m: Masters, R: iset<State>, s: State, t: Tenant, row: Row, ends: bool)
    requires s in R && Closed(m, R) && Holds(s, t, Locked(row)) && row.masterId == m.Target()
    ensures Settled(m, s, t, Raced(ends)) in R
  {
    assert Enabled(m, s, SkipRaced(0, ends));
    assert s.locks - {t} == map[];
    assert Step(m, s, SkipRaced(0, ends)) == Settled(m, s, t, Raced(ends));
  }

  lemma KnownSettles(m: Masters, R: iset<State>, s: State, t: Tenant)
    requires s in R && Closed(m, R) && Scanning(s, 0) && s.locks == map[] && s.runs[0].rows[s.runs[0].at].1 == m.Target()
    ensures Settled(m, s, t, Known) in R
  {
    assert Enabled(m, s, SkipKnown(0));
    assert Step(m, s, SkipKnown(0)) == Settled(m, s, t, Known);
  }

  lemma LookSettles(m: Masters, R: iset<State>, s: State, t: Tenant, reachable: bool)
    requires s in R && Closed(m, R) && Faces(m, s, t) && s.runs[0].dry
    ensures (if reachable && Unwrap(m, s.table[t]).Some? then Settled(m, s, t, Looked) else At(s, Crash, map[])) in R
  {
    assert Enabled(m, s, DryCheck(0, reachable));
    assert Step(m, s, DryCheck(0, reachable))
        == if reachable && Unwrap(m, s.table[t]).Some? then Settled(m, s, t, Looked) else At(s, Crash, map[]);
  }

  // ---------------------------------------------------------------- the script

  class Script {
    const m: Masters
    var keks: map<Tenant, Row>
    var audits: multiset<Tenant>
    var migrated: nat
    var skipped: nat
    var failed: nat

    constructor (m: Masters, table: map<Tenant, Row>)
      ensures this.m == m && keks == table && audits == multiset{} && migrated == skipped == failed == 0
    {
      this.m, keks, audits := m, table, multiset{};
      migrated, skipped, failed := 0, 0, 0;
    }

    /** The fields are those of this state of the protocol. */
    ghost predicate Mirrors(s: State)
      reads this
    {
      && s.table == keks && s.audits == audits && s.locks == map[] && 0 in s.runs
      && s.runs[0].migrated == migrated && s.runs[0].skipped == skipped && s.runs[0].failed == failed
    }

    /** The row's transaction and its audit event; whatever goes wrong is counted, and the sweep goes on. */
    method MoveRow(t: Tenant, o: Answers)
      requires t in keks
      modifies this
      ensures var f := FateOf(m, old(keks)[t], o);
              && keks == Table(m, old(keks), t, f) && audits == Audits(old(audits), t, f)
              && migrated == old(migrated) + (if f.Moved? then 1 else 0)
              && skipped == old(skipped) + (if f.Raced? then 1 else 0)
              && failed == old(failed) + (if f.GivenUp? || (f.Moved? && !f.audited) || (f.Raced? && !f.ended) then 1 else 0)
    {
      ghost var f := FateOf(m, keks[t], o);
      if !o.locks {
        assert f == GivenUp(None);
        failed := failed + 1;
        return;
      }
      var locked := keks[t];
      if locked.masterId == m.Target() {
        assert f == Raced(o.ends);
        skipped := skipped + 1;
        if !o.ends {
          failed := failed + 1;
        }
        return;
      }
      var plaintext := if o.unwraps then Unwrap(m, locked) else None;
      if plaintext == None || o.wrapped == None {
        assert f == GivenUp(None);
        failed := failed + 1;
        return;
      }
      var back := if o.verifies then m.vaultUnwrap(o.wrapped.value) else None;
      if back != plaintext {
        assert f == GivenUp(None);
        failed := failed + 1;
        return;
      }
      WriteRow(t, o.wrapped.value, o);
    }

    /** The verified row's update and commit, and its audit event. */
    method WriteRow(t: Tenant, w: Bytes, o: Answers)
      requires t in keks
      modifies this
      ensures var f := FateOfVerified(w, o);
              && keks == Table(m, old(keks), t, f) && audits == Audits(old(audits), t, f)
              && migrated == old(migrated) + (if f.Moved? then 1 else 0) && skipped == old(skipped)
              && failed == old(failed) + (if f.GivenUp? || !f.audited then 1 else 0)
    {
      if o.commit != Aborted {
        keks := keks[t := Row(w, m.Target())];
      }
      if o.commit != Done {
        failed := failed + 1;
        return;
      }
      migrated := migrated + 1;
      if o.recorded {
        audits := audits + multiset{t};
      }
      if !o.audited {
        failed := failed + 1;
      }
    }

    /** One row of the snapshot; dead when a dry run's unwrap raised. */
    method OneRow(t: Tenant, sourceId: string, dry: bool, o: Answers, ghost R: iset<State>, ghost s: State)
      returns (dead: bool, ghost s': State)
      requires Closed(m, R) && s in R && Mirrors(s) && Scanning(s, 0) && t in keks && (o.audited ==> o.recorded)
      requires s.runs[0].dry == dry && s.runs[0].rows[s.runs[0].at] == (t, sourceId)
      modifies this
      ensures s' in R && Mirrors(s') && s'.table.Keys == s.table.Keys
      ensures s'.runs[0].dry == dry && s'.runs[0].rows == s.runs[0].rows
      ensures if dead then s'.runs[0].phase == Crash else s'.runs[0].phase == Scan && s'.runs[0].at == s.runs[0].at + 1
    {
      dead := false;
      if sourceId == m.Target() {
        KnownSettles(m, R, s, t);
        s' := Settled(m, s, t, Known);
        skipped := skipped + 1;
      } else if dry {
        LookSettles(m, R, s, t, o.unwraps);
        var plaintext := if o.unwraps then Unwrap(m, keks[t]) else None;
        if plaintext == None {
          s' := At(s, Crash, map[]);
          dead := true;
        } else {
          s' := Settled(m, s, t, Looked);
          migrated := migrated + 1;
        }
      } else {
        MoveIsSteps(m, R, s, t, o);
        s' := Settled(m, s, t, FateOf(m, keks[t], o));
        MoveRow(t, o);
      }
    }

    /** The whole run: its exit code, or none when a dry run's unwrap raised. */
    method Run(dry: bool, rows: seq<(Tenant, string)>, answers: seq<Answers>) returns (code: Option<nat>, ghost s: State)
      requires audits == multiset{} && migrated == skipped == failed == 0
      requires IsSnapshot(rows, keks) && |answers| == |rows|
      requires forall o :: o in answers ==> (o.audited ==> o.recorded)
      modifies this
      ensures Mirrors(s) && Reached(m, old(keks), s)
      ensures s.runs[0].rows == rows && s.runs[0].dry == dry
      ensures s.runs[0].phase == match code case Some(c) => Exit(c) case None => Crash
      ensures forall originals :: Intact(m, Initial(old(keks)), originals) ==> Inv(m, s, originals)
    {
      ghost var R := Reachable(m, keks);
      s := Begun(m, keks, R, dry, rows);
      for i := 0 to |rows|
        invariant Mirrors(s) && s in R && s.table.Keys == old(keks).Keys
        invariant s.runs[0].rows == rows && s.runs[0].dry == dry
        invariant s.runs[0].phase.Scan? && s.runs[0].at == i
      {
        var dead;
        dead, s := OneRow(rows[i].0, rows[i].1, dry, answers[i], R, s);
        if dead {
          SafeInAll(m, old(keks), s);
          return None, s;
        }
      }
      assert Enabled(m, s, Finish(0));
      s := Step(m, s, Finish(0));
      SafeInAll(m, old(keks), s);
      code := Some(if failed > 0 then 1 else 0);
    }
  }

  ghost function Reachable(m: Masters, table: map<Tenant, Row>): iset<State> {
    iset s | Reached(m, table, s)
  }

  lemma ReachableIsClosed(m: Masters, table: map<Tenant, Row>)
    ensures Closed(m, Reachable(m, table)) && Initial(table) in Reachable(m, table)
  {
    forall s, a | s in Reachable(m, table) && Enabled(m, s, a) ensures Step(m, s, a) in Reachable(m, table) {
      StepIsReached(m, table, s, a);
    }
    assert After(m, table, []) == Initial(table);
  }

  lemma Begun(m: Masters, table: map<Tenant, Row>, R: iset<State>, dry: bool, rows: seq<(Tenant, string)>) returns (s: State)
    requires R == Reachable(m, table) && IsSnapshot(rows, table)
    ensures Closed(m, R) && s in R
    ensures s == Initial(table).(runs := map[0 := Sweep(dry, rows, 0, Scan, 0, 0, 0, 0, 0)])
  {
    ReachableIsClosed(m, table);
    var a := Begin(0, dry, rows);
    assert Enabled(m, Initial(table), a);
    s := Step(m, Initial(table), a);
  }

  /**
   One row, moved as it should be, and an audit event that cannot be written: the run counts its one
   row as migrated and as failed, and exits with 1 although no row is left behind.
   */
  lemma OneRowCountedTwice(m: Masters, t: Tenant, row: Row, x: Bytes, w: Bytes) returns (s: State)
    requires row.masterId == FILE_ID && m.fileUnwrap(row.wrapped) == Some(x) && m.vaultUnwrap(w) == Some(x)
    ensures Reached(m, map[t := row], s) && s.table == map[t := Row(w, m.Target())] && s.audits == multiset{}
    ensures 0 in s.runs && s.runs[0] == Sweep(false, [(t, FILE_ID)], 1, Exit(1), 1, 0, 1, 1, 0)
  {
    TargetIsNotFile(m);
    var table, rows := map[t := row], [(t, FILE_ID)];
    var R := Reachable(m, table);
    assert rows[0].0 == t;
    s := Begun(m, table, R, false, rows);
    var o := Answers(true, true, true, Some(w), true, Done, false, false);
    MoveIsSteps(m, R, s, t, o);
    var moved := Settled(m, s, t, Moved(w, false, false));
    assert FateOf(m, row, o) == Moved(w, false, false);
    assert Enabled(m, moved, Finish(0));
    s := Step(m, moved, Finish(0));
  }

  /** Runs 0 and 1 have begun over the same snapshot of one row. */
  function Both(t: Tenant, table: map<Tenant, Row>): State {
    var run := Sweep(false, [(t, FILE_ID)], 0, Scan, 0, 0, 0, 0, 0);
    Initial(table).(runs := map[1 := run, 0 := run])
  }

  lemma BothBegin(m: Masters, t: Tenant, row: Row, R: iset<State>)
    requires row.masterId == FILE_ID && R == Reachable(m, map[t := row])
    ensures Closed(m, R) && Both(t, map[t := row]) in R
  {
    var table, rows := map[t := row], [(t, FILE_ID)];
    ReachableIsClosed(m, table);
    assert rows[0].0 == t;
    var s := Step(m, Initial(table), Begin(1, false, rows));
    assert s in R && Enabled(m, s, Begin(0, false, rows));
    assert Step(m, s, Begin(0, false, rows)) == Both(t, table);
  }

  /** Run 1 comes to a row that run 0 has moved, and its transaction or connection does not end. */
  lemma LateToTheRow(m: Masters, R: iset<State>, s: State, t: Tenant) returns (s': State)
    requires s in R && Closed(m, R) && s.locks == map[] && t in s.table && s.table[t].masterId == m.Target()
    requires 1 in s.runs && s.runs[1] == Sweep(false, [(t, FILE_ID)], 0, Scan, 0, 0, 0, 0, 0)
    ensures s' in R && s'.table == s.table && s'.audits == s.audits
    ensures 1 in s'.runs && s'.runs[1] == Sweep(false, [(t, FILE_ID)], 1, Exit(1), 0, 1, 1, 0, 1)
  {
    TargetIsNotFile(m);
    assert Enabled(m, s, Lock(1));
    var locked := Step(m, s, Lock(1));
    assert locked in R && Enabled(m, locked, SkipRaced(1, false));
    var skipped := Step(m, locked, SkipRaced(1, false));
    assert skipped in R && Enabled(m, skipped, Finish(1));
    s' := Step(m, skipped, Finish(1));
  }

  /**
   Two runs over one row, the first of which moves and audits it: the second counts its one row as
   skipped and as failed, and exits with 1 although no audit event was lost.
   */
  lemma OneRowSkippedAndFailed(m: Masters, t: Tenant, row: Row, x: Bytes, w: Bytes) returns (s: State)
    requires row.masterId == FILE_ID && m.fileUnwrap(row.wrapped) == Some(x) && m.vaultUnwrap(w) == Some(x)
    ensures Reached(m, map[t := row], s) && s.table == map[t := Row(w, m.Target())] && s.audits == multiset{t}
    ensures 1 in s.runs && s.runs[1] == Sweep(false, [(t, FILE_ID)], 1, Exit(1), 0, 1, 1, 0, 1)
  {
    TargetIsNotFile(m);
    var table := map[t := row];
    var R := Reachable(m, table);
    BothBegin(m, t, row, R);
    var o := Answers(true, true, true, Some(w), true, Done, true, true);
    MoveIsSteps(m, R, Both(t, table), t, o);
    assert FateOf(m, row, o) == Moved(w, true, true);
    s := LateToTheRow(m, R, Settled(m, Both(t, table), t, Moved(w, true, true)), t);
  }
}

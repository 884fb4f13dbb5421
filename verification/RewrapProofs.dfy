/** What every interleaving of re-wrap runs keeps. */
module RewrapProofs {
  import opened Decimal
  import opened Rewrap

  lemma TargetIsNotFile(m: Masters)
    ensures m.Target() != FILE_ID
  {
    assert m.Target()[0] == 'v' && FILE_ID[0] == 'f';
  }

  /** Every stored KEK unwraps to its original plaintext. */
  ghost predicate Intact(m: Masters, s: State, originals: map<Tenant, Bytes>) {
    s.table.Keys == originals.Keys && forall t :: t in s.table ==> Unwrap(m, s.table[t]) == Some(originals[t])
  }

  /** What a run in a row's transaction holds: the lock, the row as it is, and the right plaintext. */
  ghost predicate HoldsRow(m: Masters, s: State, originals: map<Tenant, Bytes>, r: RunId, run: Sweep) {
    run.InTransaction() ==>
      && run.at < |run.rows| && !run.dry
      && var t := TenantAt(run);
      && t in s.table && t in originals && t in s.locks && s.locks[t] == r
      && (run.phase.Locked? ==> run.phase.row == s.table[t])
      && (!run.phase.Locked? ==> s.table[t].masterId != m.Target())
      && (run.phase.Plain? || run.phase.Wrapped? ==> run.phase.plaintext == originals[t])
      && (run.phase.Verified? ==> m.vaultUnwrap(run.phase.wrapped) == Some(originals[t]))
  }

  /** A run about to audit has rewritten its row, which nobody has audited. */
  ghost predicate OwesAudit(m: Masters, s: State, run: Sweep) {
    run.phase.Audit? ==>
      && run.at < |run.rows| && !run.dry
      && TenantAt(run) in s.table && s.table[TenantAt(run)].masterId == m.Target()
      && s.rewrites[TenantAt(run)] == 1 && s.audits[TenantAt(run)] == 0
  }

  /** A run without failures has brought every row it passed to the target master. */
  ghost predicate Swept(m: Masters, s: State, run: Sweep) {
    && (forall i :: 0 <= i < |run.rows| ==> run.rows[i].0 in s.table)
    && (forall i :: 0 <= i < |run.rows| && run.rows[i].1 == m.Target() ==> s.table[run.rows[i].0].masterId == m.Target())
    && (!run.dry && run.failed == 0 ==>
          forall i :: 0 <= i < |run.rows| && i < run.at ==> s.table[run.rows[i].0].masterId == m.Target())
    && run.at <= |run.rows|
    && (run.phase.Exit? ==> run.at == |run.rows| && run.phase.code == if run.failed > 0 then 1 else 0)
  }

  /** The three counts of the last line a run prints. */
  function Total(run: Sweep): nat {
    run.migrated + run.skipped + run.failed
  }

  /** Every row passed is counted once, and once more if it failed after it was counted. */
  predicate Counted(run: Sweep) {
    Total(run) == run.at + run.auditFailures + run.racedFailures + (if run.phase.Audit? then 1 else 0)
    || run.phase.Crash?
  }

  ghost predicate RunOk(m: Masters, s: State, originals: map<Tenant, Bytes>, r: RunId, run: Sweep) {
    HoldsRow(m, s, originals, r, run) && OwesAudit(m, s, run) && Swept(m, s, run) && Counted(run)
  }

  /** Two runs never owe the audit of one row. */
  ghost predicate OneAuditor(s: State) {
    forall r, q :: AtRow(s, r) && AtRow(s, q) && r != q && s.runs[r].phase.Audit? && s.runs[q].phase.Audit? ==>
      TenantAt(s.runs[r]) != TenantAt(s.runs[q])
  }

  /** Rewritten at most once, then at the target; audited only after it was rewritten. */
  ghost predicate OnceEach(m: Masters, s: State) {
    forall t :: s.audits[t] <= s.rewrites[t] <= 1
      && (s.rewrites[t] == 1 ==> t in s.table && s.table[t].masterId == m.Target())
  }

  ghost predicate Inv(m: Masters, s: State, originals: map<Tenant, Bytes>) {
    && Intact(m, s, originals) && OnceEach(m, s) && OneAuditor(s)
    && forall r :: r in s.runs ==> RunOk(m, s, originals, r, s.runs[r])
  }

  // ---------------------------------------------------------------- steps that leave the table alone

  /** What is said of a run depends only on the table, the locks and the two histories. */
  lemma SameTables(m: Masters, s: State, s': State, originals: map<Tenant, Bytes>, r: RunId, run: Sweep)
    requires s'.table == s.table && s'.locks == s.locks && s'.rewrites == s.rewrites && s'.audits == s.audits
    requires RunOk(m, s, originals, r, run)
    ensures RunOk(m, s', originals, r, run)
  {
  }

  lemma MoveKeepsAuditors(s: State, r: RunId, run: Sweep)
    requires OneAuditor(s) && !run.phase.Audit?
    ensures OneAuditor(With(s, r, run))
  {
    var s' := With(s, r, run);
    forall p, q | AtRow(s', p) && AtRow(s', q) && p != q && s'.runs[p].phase.Audit? && s'.runs[q].phase.Audit?
      ensures TenantAt(s'.runs[p]) != TenantAt(s'.runs[q])
    {
      assert AtRow(s, p) && AtRow(s, q);
    }
  }

  /** A run moves on without touching table, locks or audits. */
  lemma MoveKeeps(m: Masters, s: State, originals: map<Tenant, Bytes>, r: RunId, run: Sweep)
    requires Inv(m, s, originals) && RunOk(m, s, originals, r, run) && !run.phase.Audit?
    ensures Inv(m, With(s, r, run), originals)
  {
    var s' := With(s, r, run);
    MoveKeepsAuditors(s, r, run);
    forall q | q in s'.runs ensures RunOk(m, s', originals, q, s'.runs[q]) {
      SameTables(m, s, s', originals, q, s'.runs[q]);
    }
  }

  /** A run has dealt with its row: brought to the target, counted as failed, or only looked at. */
  lemma RowPassed(m: Masters, s: State, originals: map<Tenant, Bytes>, r: RunId, run: Sweep, next: Sweep)
    requires RunOk(m, s, originals, r, run) && run.at < |run.rows| && (run.phase.Scan? || run.InTransaction())
    requires next.dry == run.dry && next.rows == run.rows && next.at == run.at + 1 && next.phase.Scan?
    requires next.failed >= run.failed && next.auditFailures == run.auditFailures
    requires Total(next) - next.racedFailures == Total(run) - run.racedFailures + 1
    requires next.dry || next.failed > 0 || (TenantAt(run) in s.table && s.table[TenantAt(run)].masterId == m.Target())
    ensures RunOk(m, s, originals, r, next)
  {
  }

  /** A run's transaction ends without a change to the table. */
  lemma ReleaseKeeps(m: Masters, s: State, originals: map<Tenant, Bytes>, r: RunId, run: Sweep, s': State)
    requires Inv(m, s, originals) && AtRow(s, r) && s.runs[r].InTransaction()
    requires RunOk(m, s, originals, r, run) && !run.phase.Audit? && !run.InTransaction()
    requires s' == Release(s, r, TenantAt(s.runs[r]), run)
    ensures Inv(m, s', originals)
  {
    MoveKeepsAuditors(s, r, run);
    forall q | q in s'.runs ensures RunOk(m, s', originals, q, s'.runs[q]) {
      if q != r {
        OthersAfterRelease(m, s, originals, r, q, s');
      }
    }
  }

  lemma OthersAfterRelease(m: Masters, s: State, originals: map<Tenant, Bytes>, r: RunId, q: RunId, s': State)
    requires Inv(m, s, originals) && AtRow(s, r) && s.runs[r].InTransaction() && q in s.runs && q != r
    requires s'.table == s.table && s'.locks == s.locks - {TenantAt(s.runs[r])}
    requires s'.rewrites == s.rewrites && s'.audits == s.audits
    ensures RunOk(m, s', originals, q, s.runs[q])
  {
    assert RunOk(m, s, originals, q, s.runs[q]) && RunOk(m, s, originals, r, s.runs[r]);
  }

  lemma FailKeeps(m: Masters, s: State, originals: map<Tenant, Bytes>, r: RunId)
    requires Inv(m, s, originals) && AtRow(s, r) && s.runs[r].InTransaction()
    ensures Inv(m, Fail(s, r), originals)
  {
    var run := s.runs[r];
    var next := run.Next().(failed := run.failed + 1);
    assert RunOk(m, s, originals, r, next) by {
      assert RunOk(m, s, originals, r, run);
      RowPassed(m, s, originals, r, run, next);
    }
    ReleaseKeeps(m, s, originals, r, next, Fail(s, r));
  }

  lemma BeginKeeps(m: Masters, s: State, originals: map<Tenant, Bytes>, r: RunId, dry: bool, rows: seq<(Tenant, string)>)
    requires Inv(m, s, originals) && Enabled(m, s, Begin(r, dry, rows))
    ensures Inv(m, Step(m, s, Begin(r, dry, rows)), originals)
  {
    MoveKeeps(m, s, originals, r, Sweep(dry, rows, 0, Scan, 0, 0, 0, 0, 0));
  }

  lemma SnapshotAtTarget(m: Masters, s: State, run: Sweep)
    requires Swept(m, s, run) && run.at < |run.rows| && run.rows[run.at].1 == m.Target()
    ensures TenantAt(run) in s.table && s.table[TenantAt(run)].masterId == m.Target()
  {
  }

  lemma LockedAtTarget(m: Masters, s: State, originals: map<Tenant, Bytes>, r: RunId, run: Sweep)
    requires HoldsRow(m, s, originals, r, run) && run.phase.Locked? && run.phase.row.masterId == m.Target()
    ensures TenantAt(run) in s.table && s.table[TenantAt(run)].masterId == m.Target()
  {
  }

  lemma SkipKeeps(m: Masters, s: State, originals: map<Tenant, Bytes>, r: RunId)
    requires Inv(m, s, originals) && Enabled(m, s, SkipKnown(r))
    ensures Inv(m, Step(m, s, SkipKnown(r)), originals)
  {
    var run := s.runs[r];
    var next := run.Next().(skipped := run.skipped + 1);
    assert RunOk(m, s, originals, r, next) by {
      assert RunOk(m, s, originals, r, run);
      SnapshotAtTarget(m, s, run);
      RowPassed(m, s, originals, r, run, next);
    }
    assert Step(m, s, SkipKnown(r)) == With(s, r, next);
    MoveKeeps(m, s, originals, r, next);
  }

  lemma DryRun(m: Masters, s: State, originals: map<Tenant, Bytes>, r: RunId, run: Sweep)
    requires RunOk(m, s, originals, r, run) && run.phase.Scan? && run.dry && run.at < |run.rows|
    ensures RunOk(m, s, originals, r, run.Next().(migrated := run.migrated + 1))
    ensures RunOk(m, s, originals, r, run.(phase := Crash))
  {
    RowPassed(m, s, originals, r, run, run.Next().(migrated := run.migrated + 1));
  }

  lemma DryKeeps(m: Masters, s: State, originals: map<Tenant, Bytes>, r: RunId, reachable: bool)
    requires Inv(m, s, originals) && Enabled(m, s, DryCheck(r, reachable))
    ensures Inv(m, Step(m, s, DryCheck(r, reachable)), originals)
  {
    var run := s.runs[r];
    DryRun(m, s, originals, r, run);
    var to := if reachable && Unwrap(m, s.table[TenantAt(run)]).Some? then run.Next().(migrated := run.migrated + 1)
              else run.(phase := Crash);
    assert Step(m, s, DryCheck(r, reachable)) == With(s, r, to);
    MoveKeeps(m, s, originals, r, to);
  }

  lemma AfterLock(m: Masters, s: State, originals: map<Tenant, Bytes>, r: RunId, q: RunId)
    requires Inv(m, s, originals) && Enabled(m, s, Lock(r)) && q in s.runs
    ensures var s' := Step(m, s, Lock(r)); RunOk(m, s', originals, q, s'.runs[q])
  {
    assert RunOk(m, s, originals, q, s.runs[q]);
  }

  lemma LockKeeps(m: Masters, s: State, originals: map<Tenant, Bytes>, r: RunId)
    requires Inv(m, s, originals) && Enabled(m, s, Lock(r))
    ensures Inv(m, Step(m, s, Lock(r)), originals)
  {
    var s' := Step(m, s, Lock(r));
    MoveKeepsAuditors(s, r, s'.runs[r]);
    forall q | q in s'.runs ensures RunOk(m, s', originals, q, s'.runs[q]) {
      AfterLock(m, s, originals, r, q);
    }
  }

  lemma RacedRun(m: Masters, s: State, originals: map<Tenant, Bytes>, r: RunId, run: Sweep, ends: bool)
    requires RunOk(m, s, originals, r, run) && run.phase.Locked? && run.phase.row.masterId == m.Target()
    ensures RunOk(m, s, originals, r, RacedNext(run, ends))
  {
    LockedAtTarget(m, s, originals, r, run);
    RowPassed(m, s, originals, r, run, RacedNext(run, ends));
  }

  lemma RacedKeeps(m: Masters, s: State, originals: map<Tenant, Bytes>, r: RunId, ends: bool)
    requires Inv(m, s, originals) && Enabled(m, s, SkipRaced(r, ends))
    ensures Inv(m, Step(m, s, SkipRaced(r, ends)), originals)
  {
    var run := s.runs[r];
    RacedRun(m, s, originals, r, run, ends);
    ReleaseKeeps(m, s, originals, r, RacedNext(run, ends), Step(m, s, SkipRaced(r, ends)));
  }

  /** A row that could not be locked leaves everything as it was but the run's count. */
  lemma LockFailsKeeps(m: Masters, s: State, originals: map<Tenant, Bytes>, r: RunId)
    requires Inv(m, s, originals) && Enabled(m, s, LockFails(r))
    ensures Inv(m, Step(m, s, LockFails(r)), originals)
  {
    var next := s.runs[r].Next().(failed := s.runs[r].failed + 1);
    LockFailsRun(m, s, originals, r, s.runs[r]);
    assert Step(m, s, LockFails(r)) == With(s, r, next);
    MoveKeeps(m, s, originals, r, next);
  }

  lemma LockFailsRun(m: Masters, s: State, originals: map<Tenant, Bytes>, r: RunId, run: Sweep)
    requires RunOk(m, s, originals, r, run) && run.phase.Scan? && run.at < |run.rows|
    ensures RunOk(m, s, originals, r, run.Next().(failed := run.failed + 1))
  {
    RowPassed(m, s, originals, r, run, run.Next().(failed := run.failed + 1));
  }

  lemma UnwrapKeeps(m: Masters, s: State, originals: map<Tenant, Bytes>, r: RunId, reachable: bool)
    requires Inv(m, s, originals) && Enabled(m, s, CallUnwrap(r, reachable))
    ensures Inv(m, Step(m, s, CallUnwrap(r, reachable)), originals)
  {
    var run := s.runs[r];
    assert RunOk(m, s, originals, r, run);
    FailKeeps(m, s, originals, r);
    if Unwrap(m, run.phase.row).Some? {
      MoveKeeps(m, s, originals, r, run.(phase := Plain(run.phase.row, Unwrap(m, run.phase.row).value)));
    }
  }

  lemma WrapKeeps(m: Masters, s: State, originals: map<Tenant, Bytes>, r: RunId, answer: Option<Bytes>)
    requires Inv(m, s, originals) && Enabled(m, s, CallWrap(r, answer))
    ensures Inv(m, Step(m, s, CallWrap(r, answer)), originals)
  {
    var run := s.runs[r];
    assert RunOk(m, s, originals, r, run);
    if answer.Some? {
      MoveKeeps(m, s, originals, r, run.(phase := Wrapped(run.phase.row, run.phase.plaintext, answer.value)));
    } else {
      FailKeeps(m, s, originals, r);
    }
  }

  lemma VerifyKeeps(m: Masters, s: State, originals: map<Tenant, Bytes>, r: RunId, reachable: bool)
    requires Inv(m, s, originals) && Enabled(m, s, Verify(r, reachable))
    ensures Inv(m, Step(m, s, Verify(r, reachable)), originals)
  {
    var run := s.runs[r];
    assert RunOk(m, s, originals, r, run);
    if reachable && m.vaultUnwrap(run.phase.wrapped) == Some(run.phase.plaintext) {
      MoveKeeps(m, s, originals, r, run.(phase := Verified(run.phase.wrapped)));
    } else {
      FailKeeps(m, s, originals, r);
    }
  }

  lemma FinishKeeps(m: Masters, s: State, originals: map<Tenant, Bytes>, r: RunId)
    requires Inv(m, s, originals) && Enabled(m, s, Finish(r))
    ensures Inv(m, Step(m, s, Finish(r)), originals)
  {
    var run := s.runs[r];
    assert RunOk(m, s, originals, r, run);
    MoveKeeps(m, s, originals, r, run.(phase := Exit(if run.failed > 0 then 1 else 0)));
  }

  lemma DieKeeps(m: Masters, s: State, originals: map<Tenant, Bytes>, r: RunId)
    requires Inv(m, s, originals) && Enabled(m, s, Die(r))
    ensures Inv(m, Step(m, s, Die(r)), originals)
  {
    var run := s.runs[r];
    assert RunOk(m, s, originals, r, run);
    if run.InTransaction() {
      ReleaseKeeps(m, s, originals, r, run.(phase := Crash), Step(m, s, Die(r)));
    } else {
      MoveKeeps(m, s, originals, r, run.(phase := Crash));
    }
  }

  // ---------------------------------------------------------------- steps that write

  lemma AuditedRun(m: Masters, s: State, originals: map<Tenant, Bytes>, r: RunId, recorded: bool, ok: bool)
    requires AtRow(s, r) && s.runs[r].phase.Audit? && RunOk(m, s, originals, r, s.runs[r])
    ensures var s' := AuditStep(s, r, recorded, ok);
            RunOk(m, s', originals, r, s'.runs[r]) && s'.runs[r].phase.Scan?
  {
    var run := s.runs[r];
    var s' := AuditStep(s, r, recorded, ok);
    var next := s'.runs[r];
    assert next.rows == run.rows && next.at == run.at + 1 && next.phase == Scan && next.dry == run.dry;
    assert s'.table == s.table && next.failed >= run.failed;
    assert Swept(m, s', next) by {
      assert s.table[TenantAt(run)].masterId == m.Target();
    }
    assert Counted(next);
  }

  lemma OthersAfterAudit(m: Masters, s: State, originals: map<Tenant, Bytes>, r: RunId, q: RunId, recorded: bool, ok: bool)
    requires Inv(m, s, originals) && AtRow(s, r) && s.runs[r].phase.Audit? && q in s.runs && q != r
    ensures RunOk(m, AuditStep(s, r, recorded, ok), originals, q, s.runs[q])
  {
    assert RunOk(m, s, originals, r, s.runs[r]) && RunOk(m, s, originals, q, s.runs[q]);
    assert s.runs[q].phase.Audit? ==> AtRow(s, q);
  }

  lemma AuditKeeps(m: Masters, s: State, originals: map<Tenant, Bytes>, r: RunId, recorded: bool, ok: bool)
    requires Inv(m, s, originals) && AtRow(s, r) && s.runs[r].phase.Audit?
    ensures Inv(m, AuditStep(s, r, recorded, ok), originals)
  {
    var s' := AuditStep(s, r, recorded, ok);
    assert RunOk(m, s, originals, r, s.runs[r]);
    AuditedRun(m, s, originals, r, recorded, ok);
    MoveKeepsAuditors(s, r, s'.runs[r]);
    assert OwesAudit(m, s, s.runs[r]) by { assert RunOk(m, s, originals, r, s.runs[r]); }
    forall q | q in s'.runs ensures RunOk(m, s', originals, q, s'.runs[q]) {
      if q != r {
        OthersAfterAudit(m, s, originals, r, q, recorded, ok);
      }
    }
  }

  /** Before a verified row is committed nobody has rewritten it, and nobody else holds it or owes its audit. */
  lemma VerifiedRowIsFree(m: Masters, s: State, originals: map<Tenant, Bytes>, r: RunId, q: RunId)
    requires Inv(m, s, originals) && AtRow(s, r) && s.runs[r].phase.Verified? && q in s.runs && q != r
    ensures var t := TenantAt(s.runs[r]);
            && s.rewrites[t] == 0
            && (s.runs[q].InTransaction() ==> AtRow(s, q) && TenantAt(s.runs[q]) != t)
            && (s.runs[q].phase.Audit? ==> AtRow(s, q) && TenantAt(s.runs[q]) != t)
  {
    assert RunOk(m, s, originals, r, s.runs[r]) && RunOk(m, s, originals, q, s.runs[q]);
  }

  lemma WrittenRow(m: Masters, s: State, originals: map<Tenant, Bytes>, r: RunId)
    requires Inv(m, s, originals) && AtRow(s, r) && s.runs[r].phase.Verified?
    ensures var t := TenantAt(s.runs[r]);
            && t in s.table && s.rewrites[t] == 0
            && Unwrap(m, Row(s.runs[r].phase.wrapped, m.Target())) == Some(originals[t])
  {
    TargetIsNotFile(m);
    assert RunOk(m, s, originals, r, s.runs[r]);
  }

  /** The table with the new row, for every run but the writer. */
  lemma OthersAfterWrite(m: Masters, s: State, originals: map<Tenant, Bytes>, r: RunId, q: RunId, s': State)
    requires Inv(m, s, originals) && AtRow(s, r) && s.runs[r].phase.Verified? && q in s.runs && q != r
    requires var t := TenantAt(s.runs[r]);
             s'.table == s.table[t := Row(s.runs[r].phase.wrapped, m.Target())] && s'.locks == s.locks - {t}
             && s'.rewrites == s.rewrites + multiset{t} && s'.audits == s.audits
    ensures RunOk(m, s', originals, q, s.runs[q])
  {
    VerifiedRowIsFree(m, s, originals, r, q);
    assert RunOk(m, s, originals, q, s.runs[q]);
  }

  /** The table and the histories after the write. */
  lemma WriteKeepsTables(m: Masters, s: State, originals: map<Tenant, Bytes>, r: RunId, end: CommitEnd)
    requires Inv(m, s, originals) && AtRow(s, r) && s.runs[r].phase.Verified? && end != Aborted
    ensures var s' := CommitStep(m, s, r, end); Intact(m, s', originals) && OnceEach(m, s')
  {
    WrittenRow(m, s, originals, r);
  }

  lemma WriteKeepsAuditors(m: Masters, s: State, originals: map<Tenant, Bytes>, r: RunId, end: CommitEnd)
    requires Inv(m, s, originals) && AtRow(s, r) && s.runs[r].phase.Verified? && end != Aborted
    ensures OneAuditor(CommitStep(m, s, r, end))
  {
    var s' := CommitStep(m, s, r, end);
    forall p: RunId, q: RunId | AtRow(s', p) && AtRow(s', q) && p != q && s'.runs[p].phase.Audit? && s'.runs[q].phase.Audit?
      ensures TenantAt(s'.runs[p]) != TenantAt(s'.runs[q])
    {
      if p == r {
        VerifiedRowIsFree(m, s, originals, r, q);
      } else if q == r {
        VerifiedRowIsFree(m, s, originals, r, p);
      } else {
        assert AtRow(s, p) && AtRow(s, q);
      }
    }
  }

  lemma CommitKeeps(m: Masters, s: State, originals: map<Tenant, Bytes>, r: RunId, end: CommitEnd)
    requires Inv(m, s, originals) && AtRow(s, r) && s.runs[r].phase.Verified?
    ensures Inv(m, CommitStep(m, s, r, end), originals)
  {
    if end == Aborted {
      FailKeeps(m, s, originals, r);
    } else {
      var s' := CommitStep(m, s, r, end);
      WriteKeepsTables(m, s, originals, r, end);
      WriteKeepsAuditors(m, s, originals, r, end);
      forall q | q in s'.runs ensures RunOk(m, s', originals, q, s'.runs[q]) {
        if q == r {
          WriterAfterWrite(m, s, originals, r, end);
        } else {
          OthersAfterWrite(m, s, originals, r, q, s');
        }
      }
    }
  }

  lemma WriterAfterWrite(m: Masters, s: State, originals: map<Tenant, Bytes>, r: RunId, end: CommitEnd)
    requires Inv(m, s, originals) && AtRow(s, r) && s.runs[r].phase.Verified? && end != Aborted
    ensures var s' := CommitStep(m, s, r, end); RunOk(m, s', originals, r, s'.runs[r])
  {
    WrittenRow(m, s, originals, r);
    assert RunOk(m, s, originals, r, s.runs[r]);
  }

  // ---------------------------------------------------------------- whole runs

  lemma StepKeeps(m: Masters, s: State, originals: map<Tenant, Bytes>, a: Action)
    requires Inv(m, s, originals) && Enabled(m, s, a)
    ensures Inv(m, Step(m, s, a), originals)
  {
    match a
    case Begin(r, dry, rows) => BeginKeeps(m, s, originals, r, dry, rows);
    case SkipKnown(r) => SkipKeeps(m, s, originals, r);
    case DryCheck(r, reachable) => DryKeeps(m, s, originals, r, reachable);
    case Lock(r) => LockKeeps(m, s, originals, r);
    case LockFails(r) => LockFailsKeeps(m, s, originals, r);
    case SkipRaced(r, ends) => RacedKeeps(m, s, originals, r, ends);
    case CallUnwrap(r, reachable) => UnwrapKeeps(m, s, originals, r, reachable);
    case CallWrap(r, answer) => WrapKeeps(m, s, originals, r, answer);
    case Verify(r, reachable) => VerifyKeeps(m, s, originals, r, reachable);
    case Commit(r, end) => CommitKeeps(m, s, originals, r, end);
    case WriteAudit(r, recorded, ok) => AuditKeeps(m, s, originals, r, recorded, ok);
    case Finish(r) => FinishKeeps(m, s, originals, r);
    case Die(r) => DieKeeps(m, s, originals, r);
  }

  lemma {:induction false} AlwaysInv(m: Masters, table: map<Tenant, Row>, originals: map<Tenant, Bytes>, actions: seq<Action>)
    requires Intact(m, Initial(table), originals)
    ensures Inv(m, After(m, table, actions), originals)
  {
    if actions != [] {
      AlwaysInv(m, table, originals, actions[..|actions| - 1]);
      var s := After(m, table, actions[..|actions| - 1]);
      if Enabled(m, s, actions[|actions| - 1]) {
        StepKeeps(m, s, originals, actions[|actions| - 1]);
      }
    }
  }

  /** At every step of every interleaving, with any failures and crashes, every KEK unwraps to its original plaintext. */
  lemma KeksSurvive(m: Masters, table: map<Tenant, Row>, originals: map<Tenant, Bytes>, actions: seq<Action>)
    requires Intact(m, Initial(table), originals)
    ensures Intact(m, After(m, table, actions), originals)
  {
    AlwaysInv(m, table, originals, actions);
  }

  /** Each row is rewritten at most once and audited at most once, and only after it was rewritten. */
  lemma RewrittenAndAuditedOnce(m: Masters, table: map<Tenant, Row>, originals: map<Tenant, Bytes>, actions: seq<Action>, t: Tenant)
    requires Intact(m, Initial(table), originals)
    ensures var s := After(m, table, actions); s.audits[t] <= s.rewrites[t] <= 1
  {
    AlwaysInv(m, table, originals, actions);
  }

  /** Exit 0 of a run that was not dry: every row of its snapshot is at the target master. */
  lemma ExitZeroMeansMigrated(m: Masters, table: map<Tenant, Row>, originals: map<Tenant, Bytes>, actions: seq<Action>, r: RunId)
    requires Intact(m, Initial(table), originals)
    ensures var s := After(m, table, actions);
            r in s.runs && !s.runs[r].dry && s.runs[r].phase == Exit(0) ==>
              forall i :: 0 <= i < |s.runs[r].rows| ==>
                s.runs[r].rows[i].0 in s.table && s.table[s.runs[r].rows[i].0].masterId == m.Target()
  {
    AlwaysInv(m, table, originals, actions);
    var s := After(m, table, actions);
    if r in s.runs {
      assert RunOk(m, s, originals, r, s.runs[r]);
    }
  }

  /**
   The totals a finished run prints add up to its rows, and one more for every row that failed after
   it was counted: moved, but its audit event not written; or skipped as raced, but its transaction
   or connection not ended. Each row is counted once exactly when neither happened.
   */
  lemma TotalsCountLateFailuresTwice(m: Masters, table: map<Tenant, Row>, originals: map<Tenant, Bytes>, actions: seq<Action>, r: RunId)
    requires Intact(m, Initial(table), originals)
    ensures var s := After(m, table, actions);
            r in s.runs && s.runs[r].phase.Exit? ==>
              var run := s.runs[r];
              && Total(run) == |run.rows| + run.auditFailures + run.racedFailures
              && (Total(run) == |run.rows| <==> run.auditFailures == 0 && run.racedFailures == 0)
  {
    AlwaysInv(m, table, originals, actions);
    var s := After(m, table, actions);
    if r in s.runs {
      assert RunOk(m, s, originals, r, s.runs[r]);
    }
  }

  /** How often run r could not write an audit event, and how often it could not end a raced row's transaction. */
  datatype Late = Late(audits: nat, raced: nat) {
    function And(a: Action, r: RunId): Late {
      if a.WriteAudit? && a.r == r && !a.ok then Late(audits + 1, raced)
      else if a.SkipRaced? && a.r == r && !a.ends then Late(audits, raced + 1)
      else this
    }
  }

  ghost function LateFailures(m: Masters, table: map<Tenant, Row>, actions: seq<Action>, r: RunId): Late {
    if actions == [] then Late(0, 0)
    else
      var init, a := actions[..|actions| - 1], actions[|actions| - 1];
      var n := LateFailures(m, table, init, r);
      if Enabled(m, After(m, table, init), a) then n.And(a, r) else n
  }

  predicate CountsLate(s: State, r: RunId, n: Late) {
    n == if r in s.runs then Late(s.runs[r].auditFailures, s.runs[r].racedFailures) else Late(0, 0)
  }

  lemma StepCountsLate(m: Masters, s: State, a: Action, r: RunId, n: Late)
    requires Enabled(m, s, a) && CountsLate(s, r, n)
    ensures CountsLate(Step(m, s, a), r, n.And(a, r))
  {
    if a.r == r {
      OwnStepCountsLate(m, s, a, n);
    } else {
      OtherRunsStay(m, s, a, r);
    }
  }

  lemma OtherRunsStay(m: Masters, s: State, a: Action, r: RunId)
    requires Enabled(m, s, a) && a.r != r
    ensures var t := Step(m, s, a); if r in s.runs then r in t.runs && t.runs[r] == s.runs[r] else r !in t.runs
  {
  }

  lemma OwnStepCountsLate(m: Masters, s: State, a: Action, n: Late)
    requires Enabled(m, s, a) && CountsLate(s, a.r, n)
    ensures CountsLate(Step(m, s, a), a.r, n.And(a, a.r))
  {
  }

  lemma StateAfter(m: Masters, table: map<Tenant, Row>, actions: seq<Action>)
    requires actions != []
    ensures var s, a := After(m, table, actions[..|actions| - 1]), actions[|actions| - 1];
            After(m, table, actions) == if Enabled(m, s, a) then Step(m, s, a) else s
  {
  }

  /** The history fields count what happened. */
  lemma {:induction false} LateFailuresAreCounted(m: Masters, table: map<Tenant, Row>, actions: seq<Action>, r: RunId)
    ensures CountsLate(After(m, table, actions), r, LateFailures(m, table, actions, r))
  {
    if actions != [] {
      var init, a := actions[..|actions| - 1], actions[|actions| - 1];
      var s, n := After(m, table, init), LateFailures(m, table, init, r);
      LateFailuresAreCounted(m, table, init, r);
      StateAfter(m, table, actions);
      if Enabled(m, s, a) {
        StepCountsLate(m, s, a, r, n);
        assert LateFailures(m, table, actions, r) == n.And(a, r);
      } else {
        assert LateFailures(m, table, actions, r) == n;
      }
    }
  }

  /**
   How a run's rows went: skipped, moved and failed. A row counts as skipped when it was known or found
   to be at the target, and as moved when its commit was reported or its dry check passed.
   */
  datatype Tally = Tally(skipped: nat, migrated: nat, failed: nat) {
    function Skip(): Tally { this.(skipped := skipped + 1) }
    function Move(): Tally { this.(migrated := migrated + 1) }
    function Fail(): Tally { this.(failed := failed + 1) }
  }

  ghost function AndOutcome(m: Masters, s: State, a: Action, n: Tally): Tally
    requires Enabled(m, s, a)
  {
    match a
    case Begin(_, _, _) => Tally(0, 0, 0)
    case SkipKnown(_) => n.Skip()
    case DryCheck(r, reachable) => if reachable && Unwrap(m, s.table[TenantAt(s.runs[r])]).Some? then n.Move() else n
    case LockFails(_) => n.Fail()
    case SkipRaced(_, ends) => if ends then n.Skip() else n.Skip().Fail()
    case CallUnwrap(r, reachable) => if reachable && Unwrap(m, s.runs[r].phase.row).Some? then n else n.Fail()
    case CallWrap(_, answer) => if answer.Some? then n else n.Fail()
    case Verify(r, reachable) =>
      if reachable && m.vaultUnwrap(s.runs[r].phase.wrapped) == Some(s.runs[r].phase.plaintext) then n else n.Fail()
    case Commit(_, end) => if end.Done? then n.Move() else n.Fail()
    case WriteAudit(_, _, ok) => if ok then n else n.Fail()
    case _ => n
  }

  ghost function Outcomes(m: Masters, table: map<Tenant, Row>, actions: seq<Action>, r: RunId): Tally {
    if actions == [] then Tally(0, 0, 0)
    else
      var init, a := actions[..|actions| - 1], actions[|actions| - 1];
      var s, n := After(m, table, init), Outcomes(m, table, init, r);
      if Enabled(m, s, a) && a.r == r then AndOutcome(m, s, a, n) else n
  }

  predicate CountsOutcomes(s: State, r: RunId, n: Tally) {
    n == if r in s.runs then Tally(s.runs[r].skipped, s.runs[r].migrated, s.runs[r].failed) else Tally(0, 0, 0)
  }

  lemma StepCountsOutcome(m: Masters, s: State, a: Action, n: Tally)
    requires Enabled(m, s, a) && CountsOutcomes(s, a.r, n)
    ensures CountsOutcomes(Step(m, s, a), a.r, AndOutcome(m, s, a, n))
  {
  }

  /** Each counter is the number of rows that went that way, in every interleaving. */
  lemma {:induction false} OutcomesAreCounted(m: Masters, table: map<Tenant, Row>, actions: seq<Action>, r: RunId)
    ensures CountsOutcomes(After(m, table, actions), r, Outcomes(m, table, actions, r))
  {
    if actions != [] {
      var init, a := actions[..|actions| - 1], actions[|actions| - 1];
      var s := After(m, table, init);
      OutcomesAreCounted(m, table, init, r);
      StateAfter(m, table, actions);
      if Enabled(m, s, a) {
        if a.r == r {
          StepCountsOutcome(m, s, a, Outcomes(m, table, init, r));
        } else {
          OtherRunsStay(m, s, a, r);
        }
      }
    }
  }

  /** How often a tenant's KEK was written, a commit whose answer was lost included, and how often audited. */
  datatype Writes = Writes(rewrites: nat, audits: nat)

  predicate IsWrite(s: State, a: Action, t: Tenant) {
    a.Commit? && AtRow(s, a.r) && TenantAt(s.runs[a.r]) == t && !a.end.Aborted?
  }

  predicate IsAudit(s: State, a: Action, t: Tenant) {
    a.WriteAudit? && AtRow(s, a.r) && TenantAt(s.runs[a.r]) == t && a.recorded
  }

  ghost function WritesOf(m: Masters, table: map<Tenant, Row>, actions: seq<Action>, t: Tenant): Writes {
    if actions == [] then Writes(0, 0)
    else
      var init, a := actions[..|actions| - 1], actions[|actions| - 1];
      var s, n := After(m, table, init), WritesOf(m, table, init, t);
      if !Enabled(m, s, a) then n
      else if IsWrite(s, a, t) then Writes(n.rewrites + 1, n.audits)
      else if IsAudit(s, a, t) then Writes(n.rewrites, n.audits + 1)
      else n
  }

  lemma StepCountsWrites(m: Masters, s: State, a: Action, t: Tenant)
    requires Enabled(m, s, a)
    ensures Step(m, s, a).rewrites[t] == s.rewrites[t] + (if IsWrite(s, a, t) then 1 else 0)
    ensures Step(m, s, a).audits[t] == s.audits[t] + (if IsAudit(s, a, t) then 1 else 0)
  {
  }

  /** Every write of a KEK is counted, and every audit event that was recorded is there. */
  lemma {:induction false} WritesAreCounted(m: Masters, table: map<Tenant, Row>, actions: seq<Action>, t: Tenant)
    ensures var s := After(m, table, actions); Writes(s.rewrites[t], s.audits[t]) == WritesOf(m, table, actions, t)
  {
    if actions != [] {
      var init, a := actions[..|actions| - 1], actions[|actions| - 1];
      WritesAreCounted(m, table, init, t);
      StateAfter(m, table, actions);
      if Enabled(m, After(m, table, init), a) {
        StepCountsWrites(m, After(m, table, init), a, t);
      }
    }
  }

  /** Only a write changes a row of the table, and it puts the verified KEK at the target. */
  lemma OnlyWritesChangeRows(m: Masters, s: State, a: Action, t: Tenant)
    requires Enabled(m, s, a) && t in s.table
    ensures var after := Step(m, s, a).table;
            && t in after && (!IsWrite(s, a, t) ==> after[t] == s.table[t])
            && (IsWrite(s, a, t) ==> after[t] == Row(s.runs[a.r].phase.wrapped, "vault:" + m.mount + ":" + m.keyName))
  {
  }

  /** A dry run writes nothing. */
  lemma DryRunWritesNothing(m: Masters, s: State, originals: map<Tenant, Bytes>, r: RunId, a: Action)
    requires Inv(m, s, originals) && Enabled(m, s, a) && r in s.runs && s.runs[r].dry
    requires !a.Begin? && a.r == r
    ensures Step(m, s, a).table == s.table && Step(m, s, a).audits == s.audits
  {
    assert RunOk(m, s, originals, r, s.runs[r]);
  }
}

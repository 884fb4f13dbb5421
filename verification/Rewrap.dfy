/**
 Re-wrapping tenant KEKs from the file master to Vault Transit, as a state machine: any number of
 runs, each with its own stale snapshot, taking turns one step at a time, with every call allowed to
 fail and every run allowed to crash between any two steps.
 */
module Rewrap {
  import opened Decimal

  type Bytes = seq<nat>

  const FILE_ID := "file-v1"

  /** Where the KEKs go, and how the two masters unwrap; nothing is assumed of how Vault wraps. */
  datatype Masters = Masters(mount: string, keyName: string,
                             fileUnwrap: Bytes -> Option<Bytes>, vaultUnwrap: Bytes -> Option<Bytes>) {
    function Target(): string { "vault:" + mount + ":" + keyName }
  }

  datatype Row = Row(wrapped: Bytes, masterId: string)

  /** The provider that handles the row's master id unwraps it; Vault refuses an id that is not its own. */
  function Unwrap(m: Masters, row: Row): Option<Bytes> {
    if row.masterId == FILE_ID then m.fileUnwrap(row.wrapped)
    else if row.masterId == m.Target() then m.vaultUnwrap(row.wrapped)
    else None
  }

  type Tenant = string

  /** Where a run is: between rows, inside a row's transaction, writing its audit event, or over. */
  datatype Phase =
    | Scan
    | Locked(row: Row)
    | Plain(row: Row, plaintext: Bytes)
    | Wrapped(row: Row, plaintext: Bytes, wrapped: Bytes)
    | Verified(wrapped: Bytes)
    | Audit
    | Exit(code: nat)
    | Crash

  /** auditFailures and racedFailures are history: the rows that were counted and failed after that all the same. */
  datatype Sweep = Sweep(dry: bool, rows: seq<(Tenant, string)>, at: nat, phase: Phase,
                         migrated: nat, skipped: nat, failed: nat, auditFailures: nat, racedFailures: nat) {
    predicate InTransaction() {
      phase.Locked? || phase.Plain? || phase.Wrapped? || phase.Verified?
    }

    function Next(): Sweep { this.(at := at + 1, phase := Scan) }
  }

  type RunId = nat

  /** The table and its row locks, the runs, and how often each row was rewritten and audited. */
  datatype State = State(table: map<Tenant, Row>, locks: map<Tenant, RunId>, runs: map<RunId, Sweep>,
                         rewrites: multiset<Tenant>, audits: multiset<Tenant>)

  function TenantAt(run: Sweep): Tenant
    requires run.at < |run.rows|
  {
    run.rows[run.at].0
  }

  /** How a commit can end: as asked, not at all, or done without the run learning of it. */
  datatype CommitEnd = Done | Aborted | DoneButLost

  datatype Action =
    | Begin(r: RunId, dry: bool, rows: seq<(Tenant, string)>)
    | SkipKnown(r: RunId)
    | DryCheck(r: RunId, reachable: bool)
    | Lock(r: RunId)
    | LockFails(r: RunId)
    | SkipRaced(r: RunId, ends: bool)
    | CallUnwrap(r: RunId, reachable: bool)
    | CallWrap(r: RunId, answer: Option<Bytes>)
    | Verify(r: RunId, reachable: bool)
    | Commit(r: RunId, end: CommitEnd)
    | WriteAudit(r: RunId, recorded: bool, ok: bool)
    | Finish(r: RunId)
    | Die(r: RunId)

  /** The rows of the table with the master ids they have now, each tenant listed. */
  ghost predicate IsSnapshot(rows: seq<(Tenant, string)>, table: map<Tenant, Row>) {
    && (forall i :: 0 <= i < |rows| ==> rows[i].0 in table && rows[i].1 == table[rows[i].0].masterId)
    && (forall t :: t in table ==> exists i :: 0 <= i < |rows| && rows[i].0 == t)
  }

  predicate AtRow(s: State, r: RunId) {
    r in s.runs && s.runs[r].at < |s.runs[r].rows|
  }

  predicate Scanning(s: State, r: RunId) {
    AtRow(s, r) && s.runs[r].phase.Scan?
  }

  ghost predicate Enabled(m: Masters, s: State, a: Action) {
    match a
    case Begin(r, dry, rows) => r !in s.runs && IsSnapshot(rows, s.table)
    case SkipKnown(r) => Scanning(s, r) && s.runs[r].rows[s.runs[r].at].1 == m.Target()
    case DryCheck(r, _) =>
      Scanning(s, r) && s.runs[r].dry && s.runs[r].rows[s.runs[r].at].1 != m.Target() && TenantAt(s.runs[r]) in s.table
    case Lock(r) =>
      Scanning(s, r) && !s.runs[r].dry && s.runs[r].rows[s.runs[r].at].1 != m.Target()
      && TenantAt(s.runs[r]) in s.table && TenantAt(s.runs[r]) !in s.locks
    case LockFails(r) => Scanning(s, r) && !s.runs[r].dry && s.runs[r].rows[s.runs[r].at].1 != m.Target()
    case SkipRaced(r, _) => AtRow(s, r) && s.runs[r].phase.Locked? && s.runs[r].phase.row.masterId == m.Target()
    case CallUnwrap(r, _) => AtRow(s, r) && s.runs[r].phase.Locked? && s.runs[r].phase.row.masterId != m.Target()
    case CallWrap(r, _) => AtRow(s, r) && s.runs[r].phase.Plain?
    case Verify(r, _) => AtRow(s, r) && s.runs[r].phase.Wrapped?
    case Commit(r, _) => AtRow(s, r) && s.runs[r].phase.Verified?
    case WriteAudit(r, recorded, ok) => AtRow(s, r) && s.runs[r].phase.Audit? && (ok ==> recorded)
    case Finish(r) => r in s.runs && s.runs[r].phase.Scan? && s.runs[r].at >= |s.runs[r].rows|
    case Die(r) => r in s.runs && !s.runs[r].phase.Exit? && (s.runs[r].InTransaction() ==> AtRow(s, r))
  }

  // ---------------------------------------------------------------- steps

  function With(s: State, r: RunId, run: Sweep): State {
    s.(runs := s.runs[r := run])
  }

  /** The transaction ends, whatever its outcome: the row lock is gone and the run goes on as given. */
  function Release(s: State, r: RunId, t: Tenant, run: Sweep): State {
    With(s, r, run).(locks := s.locks - {t})
  }

  /** The row's transaction failed: it is rolled back, counted, and the sweep goes on. */
  function Fail(s: State, r: RunId): State
    requires AtRow(s, r)
  {
    var run := s.runs[r];
    Release(s, r, TenantAt(run), run.Next().(failed := run.failed + 1))
  }

  /** A row that another run has moved is skipped; then its transaction and connection end, or fail to. */
  function RacedNext(run: Sweep, ends: bool): Sweep {
    var skips := run.Next().(skipped := run.skipped + 1);
    if ends then skips else skips.(failed := run.failed + 1, racedFailures := run.racedFailures + 1)
  }

  function Rewritten(m: Masters, s: State, t: Tenant, wrapped: Bytes): State {
    s.(table := s.table[t := Row(wrapped, m.Target())], rewrites := s.rewrites + multiset{t})
  }

  function CommitStep(m: Masters, s: State, r: RunId, end: CommitEnd): State
    requires AtRow(s, r) && s.runs[r].phase.Verified?
  {
    var run := s.runs[r];
    match end
    case Aborted => Fail(s, r)
    case DoneButLost => Rewritten(m, Fail(s, r), TenantAt(run), run.phase.wrapped)
    case Done =>
      Rewritten(m, Release(s, r, TenantAt(run), run.(phase := Audit, migrated := run.migrated + 1)),
                TenantAt(run), run.phase.wrapped)
  }

  function AuditStep(s: State, r: RunId, recorded: bool, ok: bool): State
    requires AtRow(s, r)
  {
    var run := s.runs[r];
    var after := if ok then run.Next()
                 else run.Next().(failed := run.failed + 1, auditFailures := run.auditFailures + 1);
    With(s, r, after).(audits := if recorded then s.audits + multiset{TenantAt(run)} else s.audits)
  }

  ghost function Step(m: Masters, s: State, a: Action): State
    requires Enabled(m, s, a)
  {
    match a
    case Begin(r, dry, rows) => With(s, r, Sweep(dry, rows, 0, Scan, 0, 0, 0, 0, 0))
    case SkipKnown(r) => With(s, r, s.runs[r].Next().(skipped := s.runs[r].skipped + 1))
    case DryCheck(r, reachable) =>
      if reachable && Unwrap(m, s.table[TenantAt(s.runs[r])]).Some? then
        With(s, r, s.runs[r].Next().(migrated := s.runs[r].migrated + 1))
      else With(s, r, s.runs[r].(phase := Crash))
    case Lock(r) =>
      With(s, r, s.runs[r].(phase := Locked(s.table[TenantAt(s.runs[r])])))
        .(locks := s.locks[TenantAt(s.runs[r]) := r])
    case LockFails(r) => With(s, r, s.runs[r].Next().(failed := s.runs[r].failed + 1))
    case SkipRaced(r, ends) => Release(s, r, TenantAt(s.runs[r]), RacedNext(s.runs[r], ends))
    case CallUnwrap(r, reachable) =>
      var row := s.runs[r].phase.row;
      if reachable && Unwrap(m, row).Some? then
        With(s, r, s.runs[r].(phase := Plain(row, Unwrap(m, row).value)))
      else Fail(s, r)
    case CallWrap(r, answer) =>
      var p := s.runs[r].phase;
      if answer.Some? then With(s, r, s.runs[r].(phase := Wrapped(p.row, p.plaintext, answer.value)))
      else Fail(s, r)
    case Verify(r, reachable) =>
      var p := s.runs[r].phase;
      if reachable && m.vaultUnwrap(p.wrapped) == Some(p.plaintext) then
        With(s, r, s.runs[r].(phase := Verified(p.wrapped)))
      else Fail(s, r)
    case Commit(r, end) => CommitStep(m, s, r, end)
    case WriteAudit(r, recorded, ok) => AuditStep(s, r, recorded, ok)
    case Finish(r) => With(s, r, s.runs[r].(phase := Exit(if s.runs[r].failed > 0 then 1 else 0)))
    case Die(r) =>
      if s.runs[r].InTransaction() then
        Release(s, r, TenantAt(s.runs[r]), s.runs[r].(phase := Crash))
      else With(s, r, s.runs[r].(phase := Crash))
  }

  function Initial(table: map<Tenant, Row>): State {
    State(table, map[], map[], multiset{}, multiset{})
  }

  /** The state after any interleaving of actions; one that is not possible has no effect. */
  ghost function After(m: Masters, table: map<Tenant, Row>, actions: seq<Action>): State {
    if actions == [] then Initial(table)
    else
      var s := After(m, table, actions[..|actions| - 1]);
      var a := actions[|actions| - 1];
      if Enabled(m, s, a) then Step(m, s, a) else s
  }
}

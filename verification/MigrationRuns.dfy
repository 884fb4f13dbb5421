/** Any number of migration runs at once, as a state machine. */
module MigrationRuns {
  import opened Decimal
  import opened Migrations

  type RunId = nat

  /** mine is history: which of the files it has passed the run recorded itself. */
  datatype Phase = Applying(pending: seq<Migration>, at: nat, mine: seq<bool>)
                 | RollingBack(version: Version) | Finished | Aborted | Drifted(pending: seq<Migration>, mine: seq<bool>)

  /** How a transaction can end: as asked, without effect, or done without the run learning of it. */
  datatype End = Committed | Undone | CommittedButLost

  /** ups and downs count how often each version's files were executed. */
  datatype State = State(recorded: Table, ups: multiset<Version>, downs: multiset<Version>, runs: map<RunId, Phase>)

  /** Every action is one transaction or one read; a run can also die between any two. */
  datatype Action =
    | BeginUp(r: RunId, ms: seq<Migration>)
    | BeginDown(r: RunId, version: Option<Version>)
    | ApplyNext(r: RunId, end: End)
    | RollbackNext(r: RunId, end: End)
    | Die(r: RunId)

  ghost predicate Enabled(s: State, a: Action) {
    match a
    case BeginUp(r, ms) => r !in s.runs && Listed(ms)
    case BeginDown(r, v) => r !in s.runs && (v.Some? ==> IsLatest(s.recorded, v.value))
    case ApplyNext(r, _) => r in s.runs && s.runs[r].Applying? && s.runs[r].at < |s.runs[r].pending|
    case RollbackNext(r, _) => r in s.runs && s.runs[r].RollingBack?
    case Die(r) => r in s.runs
  }

  function With(s: State, r: RunId, p: Phase): State {
    s.(runs := s.runs[r := p])
  }

  /** `_apply_one` under the lock: a version recorded meanwhile is passed over, or aborts the run if its checksum differs. */
  function ApplyStep(s: State, r: RunId, end: End): State
    requires r in s.runs && s.runs[r].Applying? && s.runs[r].at < |s.runs[r].pending|
  {
    var p := s.runs[r];
    var m := p.pending[p.at];
    var known := m.version in s.recorded;
    var on := With(s, r, if end.Committed? then p.(at := p.at + 1, mine := p.mine + [!known]) else Aborted);
    if end.Undone? then on
    else if known then
      if s.recorded[m.version].checksum == m.checksum then on else With(s, r, Drifted(p.pending, p.mine))
    else on.(recorded := s.recorded[m.version := Entry(m.checksum, m.skip)],
             ups := if m.skip then s.ups else s.ups + multiset{m.version})
  }

  function RollbackStep(s: State, r: RunId, end: End): State
    requires r in s.runs && s.runs[r].RollingBack?
  {
    var v := s.runs[r].version;
    var over := With(s, r, if end.Committed? then Finished else Aborted);
    if end.Undone? || v !in s.recorded then over
    else over.(recorded := s.recorded - {v}, downs := if s.recorded[v].skipped then s.downs else s.downs + multiset{v})
  }

  ghost function Step(s: State, a: Action): State
    requires Enabled(s, a)
  {
    match a
    case BeginUp(r, ms) => With(s, r, Applying(Pending(ms, s.recorded), 0, []))
    case BeginDown(r, v) => With(s, r, if v.Some? then RollingBack(v.value) else Finished)
    case ApplyNext(r, end) => ApplyStep(s, r, end)
    case RollbackNext(r, end) => RollbackStep(s, r, end)
    case Die(r) => With(s, r, Aborted)
  }

  /** The state after any interleaving; an action that is not possible has no effect. */
  ghost function After(start: State, actions: seq<Action>): State {
    if actions == [] then start
    else
      var s := After(start, actions[..|actions| - 1]);
      if Enabled(s, actions[|actions| - 1]) then Step(s, actions[|actions| - 1]) else s
  }

  /** A version's migration has been executed once more than its rollback exactly when it is recorded and not skipped. */
  predicate Balanced(s: State, v: Version) {
    s.ups[v] == s.downs[v] + (if v in s.recorded && !s.recorded[v].skipped then 1 else 0)
  }

  lemma StepKeepsBalance(s: State, a: Action, v: Version)
    requires Enabled(s, a) && Balanced(s, v)
    ensures Balanced(Step(s, a), v)
  {
  }

  lemma {:induction false} AlwaysBalanced(start: State, actions: seq<Action>, v: Version)
    requires Balanced(start, v)
    ensures Balanced(After(start, actions), v)
  {
    if actions != [] {
      AlwaysBalanced(start, actions[..|actions| - 1], v);
      var s := After(start, actions[..|actions| - 1]);
      if Enabled(s, actions[|actions| - 1]) {
        StepKeepsBalance(s, actions[|actions| - 1], v);
      }
    }
  }

  // ---------------------------------------------------------------- drift is met only in a race

  /** In its k-th action another run recorded version v, with this entry, while run r was at work. */
  ghost predicate RecordedBehind(start: State, actions: seq<Action>, k: nat, r: RunId, v: Version, e: Entry)
    requires k < |actions|
  {
    var s, a := After(start, actions[..k]), actions[k];
    && a.ApplyNext? && a.r != r && r in s.runs && Enabled(s, a)
    && v !in s.recorded && v in Step(s, a).recorded && Step(s, a).recorded[v] == e
  }

  ghost predicate WasRaced(start: State, actions: seq<Action>, r: RunId, v: Version, e: Entry) {
    exists k :: 0 <= k < |actions| && RecordedBehind(start, actions, k, r, v, e)
  }

  /** Whatever a run has still to apply is not recorded, or another run has recorded it meanwhile. */
  ghost predicate PendingRaced(start: State, actions: seq<Action>, s: State) {
    forall r, i :: r in s.runs && s.runs[r].Applying? && s.runs[r].at <= i < |s.runs[r].pending| ==>
      var v := s.runs[r].pending[i].version;
      v in s.recorded ==> WasRaced(start, actions, r, v, s.recorded[v])
  }

  ghost predicate PendingListed(s: State) {
    forall r :: r in s.runs && s.runs[r].Applying? ==> Listed(s.runs[r].pending)
  }

  lemma StepKeepsListed(s: State, a: Action)
    requires Enabled(s, a) && PendingListed(s)
    ensures PendingListed(Step(s, a))
  {
    if a.BeginUp? {
      PendingIsListed(a.ms, s.recorded);
    }
  }

  lemma StillRaced(start: State, actions: seq<Action>, a: Action, r: RunId, v: Version, e: Entry)
    requires WasRaced(start, actions, r, v, e)
    ensures WasRaced(start, actions + [a], r, v, e)
  {
    var k :| 0 <= k < |actions| && RecordedBehind(start, actions, k, r, v, e);
    assert (actions + [a])[..k] == actions[..k];
    assert RecordedBehind(start, actions + [a], k, r, v, e);
  }

  lemma RacedNow(start: State, actions: seq<Action>, a: Action, r: RunId, v: Version)
    requires var s := After(start, actions);
             && Enabled(s, a) && a.ApplyNext? && a.r != r && r in s.runs
             && v !in s.recorded && v in Step(s, a).recorded
    ensures WasRaced(start, actions + [a], r, v, Step(After(start, actions), a).recorded[v])
  {
    assert (actions + [a])[..|actions|] == actions;
    assert RecordedBehind(start, actions + [a], |actions|, r, v, Step(After(start, actions), a).recorded[v]);
  }

  /** A step records at most the version its run has next, and changes no entry. */
  lemma StepRecords(s: State, a: Action, v: Version)
    requires Enabled(s, a) && v in Step(s, a).recorded
    ensures v in s.recorded ==> Step(s, a).recorded[v] == s.recorded[v]
    ensures v !in s.recorded ==> a.ApplyNext? && v == s.runs[a.r].pending[s.runs[a.r].at].version
  {
  }

  /** A run's pending migration, after a step, is one it had before or one it has just found unrecorded. */
  lemma StepPending(s: State, a: Action, r: RunId, i: nat)
    requires Enabled(s, a) && PendingListed(s)
    requires var t := Step(s, a); r in t.runs && t.runs[r].Applying? && t.runs[r].at <= i < |t.runs[r].pending|
    ensures var v := Step(s, a).runs[r].pending[i].version;
            || (v !in s.recorded && a.BeginUp?)
            || (r in s.runs && s.runs[r].Applying? && s.runs[r].pending == Step(s, a).runs[r].pending && s.runs[r].at <= i
                && (a.ApplyNext? && a.r == r ==> v != s.runs[r].pending[s.runs[r].at].version))
  {
    if a.BeginUp? && a.r == r {
      PendingIsUnrecorded(a.ms, s.recorded, i);
    } else if a.ApplyNext? && a.r == r {
      assert Listed(s.runs[r].pending);
    }
  }

  /** One pending migration of one run after one step. */
  lemma OneStillRaced(start: State, actions: seq<Action>, a: Action, r: RunId, i: nat)
    requires var s := After(start, actions);
             && Enabled(s, a) && PendingListed(s) && PendingRaced(start, actions, s)
             && var t := Step(s, a);
                r in t.runs && t.runs[r].Applying? && t.runs[r].at <= i < |t.runs[r].pending|
                && t.runs[r].pending[i].version in t.recorded
    ensures var t := Step(After(start, actions), a);
            var v := t.runs[r].pending[i].version;
            WasRaced(start, actions + [a], r, v, t.recorded[v])
  {
    var s := After(start, actions);
    var v := Step(s, a).runs[r].pending[i].version;
    StepPending(s, a, r, i);
    StepRecords(s, a, v);
    if v in s.recorded {
      StillRaced(start, actions, a, r, v, s.recorded[v]);
    } else {
      RacedNow(start, actions, a, r, v);
    }
  }

  lemma {:induction false} AlwaysRaced(recorded: Table, actions: seq<Action>)
    ensures var start := State(recorded, multiset{}, multiset{}, map[]);
            PendingListed(After(start, actions)) && PendingRaced(start, actions, After(start, actions))
  {
    if actions != [] {
      var start := State(recorded, multiset{}, multiset{}, map[]);
      var init, a := actions[..|actions| - 1], actions[|actions| - 1];
      AlwaysRaced(recorded, init);
      assert actions == init + [a];
      var s, t := After(start, init), After(start, actions);
      if Enabled(s, a) {
        StepKeepsListed(s, a);
        forall r, i | r in t.runs && t.runs[r].Applying? && t.runs[r].at <= i < |t.runs[r].pending|
                      && t.runs[r].pending[i].version in t.recorded
          ensures WasRaced(start, actions, r, t.runs[r].pending[i].version, t.recorded[t.runs[r].pending[i].version])
        {
          OneStillRaced(start, init, a, r, i);
        }
      } else {
        forall r, i | r in t.runs && t.runs[r].Applying? && t.runs[r].at <= i < |t.runs[r].pending|
                      && t.runs[r].pending[i].version in t.recorded
          ensures WasRaced(start, actions, r, t.runs[r].pending[i].version, t.recorded[t.runs[r].pending[i].version])
        {
          StillRaced(start, init, a, r, t.runs[r].pending[i].version, t.recorded[t.runs[r].pending[i].version]);
        }
      }
    }
  }

  /**
   A transaction that is not lost first stops its run by drift exactly when another run, after this
   one had read the table, recorded the next version with the checksum that is there now, and that
   is not the file's.
   */
  lemma DriftNeedsARace(recorded: Table, actions: seq<Action>, r: RunId, end: End)
    ensures var start := State(recorded, multiset{}, multiset{}, map[]);
            var s := After(start, actions);
            Enabled(s, ApplyNext(r, end)) ==>
              var m := s.runs[r].pending[s.runs[r].at];
              Step(s, ApplyNext(r, end)).runs[r].Drifted? <==>
                && end != Undone && m.version in s.recorded && s.recorded[m.version].checksum != m.checksum
                && WasRaced(start, actions, r, m.version, s.recorded[m.version])
  {
    AlwaysRaced(recorded, actions);
  }

  // ---------------------------------------------------------------- what an aborted run had changed

  /** This step of run r records a version. */
  ghost predicate ChangesNow(s: State, a: Action, r: RunId) {
    a.ApplyNext? && a.r == r && Enabled(s, a) && Step(s, a).recorded != s.recorded
  }

  ghost predicate Changed(start: State, actions: seq<Action>, r: RunId)
  {
    actions != [] &&
    var init, a := actions[..|actions| - 1], actions[|actions| - 1];
    Changed(start, init, r) || ChangesNow(After(start, init), a, r)
  }

  /** Another run recorded the file's version, with the file's checksum, while run r was at work. */
  ghost predicate Matched(start: State, actions: seq<Action>, r: RunId, m: Migration) {
    exists e: Entry :: e.checksum == m.checksum && WasRaced(start, actions, r, m.version, e)
  }

  /** The files run r has passed: recorded by itself, or recorded before it came to them. */
  ghost predicate Passed(start: State, actions: seq<Action>, r: RunId, pending: seq<Migration>, mine: seq<bool>) {
    && |mine| <= |pending|
    && (Changed(start, actions, r) <==> true in mine)
    && forall i :: 0 <= i < |mine| && !mine[i] ==> Matched(start, actions, r, pending[i])
  }

  ghost predicate RunPassed(start: State, actions: seq<Action>, s: State, r: RunId) {
    if r !in s.runs then !Changed(start, actions, r)
    else
      var p := s.runs[r];
      && (p.Applying? ==> |p.mine| == p.at && Passed(start, actions, r, p.pending, p.mine))
      && (p.Drifted? ==> |p.mine| < |p.pending| && Passed(start, actions, r, p.pending, p.mine))
  }

  lemma StillMatched(start: State, actions: seq<Action>, a: Action, r: RunId, m: Migration)
    requires Matched(start, actions, r, m)
    ensures Matched(start, actions + [a], r, m)
  {
    var e: Entry :| e.checksum == m.checksum && WasRaced(start, actions, r, m.version, e);
    StillRaced(start, actions, a, r, m.version, e);
  }

  lemma ChangedMore(start: State, actions: seq<Action>, a: Action, r: RunId)
    ensures Changed(start, actions + [a], r) <==> Changed(start, actions, r) || ChangesNow(After(start, actions), a, r)
  {
    assert (actions + [a])[..|actions|] == actions;
  }

  /** A step that is none of run r's own applications leaves what it has passed as it was. */
  lemma StillPassed(start: State, actions: seq<Action>, a: Action, r: RunId, pending: seq<Migration>, mine: seq<bool>)
    requires Passed(start, actions, r, pending, mine) && !ChangesNow(After(start, actions), a, r)
    ensures Passed(start, actions + [a], r, pending, mine)
  {
    ChangedMore(start, actions, a, r);
    forall i | 0 <= i < |mine| && !mine[i] ensures Matched(start, actions + [a], r, pending[i]) {
      StillMatched(start, actions, a, r, pending[i]);
    }
  }

  /** The file that run r has just come to. */
  lemma OneMorePassed(start: State, actions: seq<Action>, r: RunId)
    requires var s := After(start, actions);
             && Enabled(s, ApplyNext(r, Committed)) && RunPassed(start, actions, s, r) && PendingRaced(start, actions, s)
             && !Step(s, ApplyNext(r, Committed)).runs[r].Drifted?
    ensures var p := Step(After(start, actions), ApplyNext(r, Committed)).runs[r];
            |p.mine| == p.at && Passed(start, actions + [ApplyNext(r, Committed)], r, p.pending, p.mine)
  {
    var s, a := After(start, actions), ApplyNext(r, Committed);
    var p := s.runs[r];
    var m, known := p.pending[p.at], p.pending[p.at].version in s.recorded;
    ChangedMore(start, actions, a, r);
    assert ChangesNow(s, a, r) <==> !known;
    assert true in p.mine + [!known] <==> true in p.mine || !known;
    forall i | 0 <= i < |p.mine + [!known]| && !(p.mine + [!known])[i]
      ensures Matched(start, actions + [a], r, p.pending[i])
    {
      if i == p.at {
        assert WasRaced(start, actions, r, m.version, s.recorded[m.version]);
        assert Matched(start, actions, r, m);
      }
      StillMatched(start, actions, a, r, p.pending[i]);
    }
  }

  lemma StepKeepsPassed(start: State, actions: seq<Action>, a: Action, r: RunId)
    requires var s := After(start, actions);
             Enabled(s, a) && RunPassed(start, actions, s, r) && PendingRaced(start, actions, s)
    ensures RunPassed(start, actions + [a], Step(After(start, actions), a), r)
  {
    var s := After(start, actions);
    var t := Step(s, a);
    ChangedMore(start, actions, a, r);
    if r in s.runs && r in t.runs && (t.runs[r].Applying? || t.runs[r].Drifted?) {
      if a == ApplyNext(r, Committed) && t.runs[r].Applying? {
        OneMorePassed(start, actions, r);
      } else {
        StillPassed(start, actions, a, r, s.runs[r].pending, s.runs[r].mine);
      }
    }
  }

  lemma {:induction false} AlwaysPassed(recorded: Table, actions: seq<Action>, r: RunId)
    ensures var start := State(recorded, multiset{}, multiset{}, map[]);
            RunPassed(start, actions, After(start, actions), r)
  {
    if actions != [] {
      var start := State(recorded, multiset{}, multiset{}, map[]);
      var init, a := actions[..|actions| - 1], actions[|actions| - 1];
      AlwaysPassed(recorded, init, r);
      AlwaysRaced(recorded, init);
      assert actions == init + [a];
      if Enabled(After(start, init), a) {
        StepKeepsPassed(start, init, a, r);
      } else {
        NothingPassed(start, init, a, r);
      }
    }
  }

  lemma NothingPassed(start: State, actions: seq<Action>, a: Action, r: RunId)
    requires var s := After(start, actions); !Enabled(s, a) && RunPassed(start, actions, s, r)
    ensures RunPassed(start, actions + [a], After(start, actions), r)
  {
    var s := After(start, actions);
    ChangedMore(start, actions, a, r);
    if r in s.runs && (s.runs[r].Applying? || s.runs[r].Drifted?) {
      StillPassed(start, actions, a, r, s.runs[r].pending, s.runs[r].mine);
    }
  }

  /**
   What a run stopped by drift had changed: nothing exactly when it had recorded none of the files it
   passed, and each of those it had not recorded another run had, meanwhile and with the same checksum.
   */
  lemma DriftBeforeAnyChange(recorded: Table, actions: seq<Action>, r: RunId)
    ensures var start := State(recorded, multiset{}, multiset{}, map[]);
            var s := After(start, actions);
            r in s.runs && s.runs[r].Drifted? ==>
              var p := s.runs[r];
              && |p.mine| < |p.pending|
              && (!Changed(start, actions, r) <==> forall i :: 0 <= i < |p.mine| ==> !p.mine[i])
              && forall i :: 0 <= i < |p.mine| && !p.mine[i] ==> Matched(start, actions, r, p.pending[i])
  {
    AlwaysPassed(recorded, actions, r);
  }

  lemma AfterMore(start: State, actions: seq<Action>, a: Action)
    requires Enabled(After(start, actions), a)
    ensures After(start, actions + [a]) == Step(After(start, actions), a)
  {
    assert (actions + [a])[..|actions|] == actions;
  }

  /**
   Drift that is not before any change: run 1 has applied a when run 0 records another edition of b,
   and is stopped there.
   */
  lemma DriftAfterAChange(a: Migration, b: Migration, edited: Migration) returns (actions: seq<Action>)
    requires a.version < b.version == edited.version && b.checksum != edited.checksum
    ensures var start := State(map[], multiset{}, multiset{}, map[]);
            var s := After(start, actions);
            && 1 in s.runs && s.runs[1] == Drifted([a, b], [true])
            && a.version in s.recorded && Changed(start, actions, 1)
  {
    var start := State(map[], multiset{}, multiset{}, map[]);
    NothingRecorded([a, b]);
    NothingRecorded([edited]);
    var runs := map[1 := Applying([a, b], 0, []), 0 := Applying([edited], 0, [])];
    var begun := [BeginUp(1, [a, b])] + [BeginUp(0, [edited])];
    assert After(start, []) == start;
    AfterMore(start, [], BeginUp(1, [a, b]));
    assert [] + [BeginUp(1, [a, b])] == [BeginUp(1, [a, b])];
    AfterMore(start, [BeginUp(1, [a, b])], BeginUp(0, [edited]));
    assert After(start, begun) == start.(runs := runs);
    actions := RaceOn(start, begun, a, b, edited);
    AlwaysPassed(map[], actions, 1);
    assert [true][0];
  }

  lemma {:induction false} NothingRecorded(ms: seq<Migration>)
    ensures Pending(ms, map[]) == ms
  {
    if ms != [] {
      NothingRecorded(ms[..|ms| - 1]);
    }
  }

  lemma RaceOn(start: State, begun: seq<Action>, a: Migration, b: Migration, edited: Migration) returns (actions: seq<Action>)
    requires a.version < b.version == edited.version && b.checksum != edited.checksum
    requires After(start, begun) == State(map[], multiset{}, multiset{}, map[1 := Applying([a, b], 0, []), 0 := Applying([edited], 0, [])])
    ensures var s := After(start, actions); 1 in s.runs && s.runs[1] == Drifted([a, b], [true]) && a.version in s.recorded
  {
    AfterMore(start, begun, ApplyNext(1, Committed));
    var one := begun + [ApplyNext(1, Committed)];
    assert [] + [true] == [true];
    AfterMore(start, one, ApplyNext(0, Committed));
    var two := one + [ApplyNext(0, Committed)];
    AfterMore(start, two, ApplyNext(1, Committed));
    actions := two + [ApplyNext(1, Committed)];
  }

  // ---------------------------------------------------------------- only ups, over one list

  /** A version of the list is recorded only after all lower ones. */
  ghost predicate Closed(ms: seq<Migration>, recorded: Table) {
    forall i, j :: 0 <= i < j < |ms| && ms[j].version in recorded ==> ms[i].version in recorded
  }

  /** What a run of the list has passed is recorded, and what is not recorded is still to come. */
  ghost predicate OnTrack(ms: seq<Migration>, recorded: Table, p: Phase) {
    p.Applying? ==>
      && Listed(p.pending)
      && (forall i :: 0 <= i < |p.pending| && i < p.at ==> p.pending[i].version in recorded)
      && (forall i :: 0 <= i < |ms| ==> ms[i].version in recorded || ms[i] in p.pending)
      && (forall i :: 0 <= i < |p.pending| ==> p.pending[i] in ms)
  }

  ghost predicate AllOnTrack(ms: seq<Migration>, s: State) {
    forall r :: r in s.runs ==> OnTrack(ms, s.recorded, s.runs[r]) && !s.runs[r].RollingBack?
  }

  /** Only `up` runs, all over the same list. */
  predicate OnlyUps(ms: seq<Migration>, actions: seq<Action>) {
    forall a :: a in actions ==> (a.BeginUp? ==> a.ms == ms) && !a.BeginDown? && !a.RollbackNext?
  }

  lemma LowerIsRecorded(ms: seq<Migration>, recorded: Table, p: Phase, i: nat)
    requires Listed(ms) && OnTrack(ms, recorded, p) && p.Applying? && p.at < |p.pending|
    requires i < |ms| && ms[i].version < p.pending[p.at].version
    ensures ms[i].version in recorded
  {
    assert ms[i] in p.pending ==> exists k :: 0 <= k < p.at && p.pending[k] == ms[i];
  }

  lemma BeginOnTrack(ms: seq<Migration>, recorded: Table)
    requires Listed(ms)
    ensures OnTrack(ms, recorded, Applying(Pending(ms, recorded), 0, []))
  {
    PendingMembers(ms, recorded);
    PendingIsListed(ms, recorded);
    forall i | 0 <= i < |ms| ensures ms[i].version in recorded || ms[i] in Pending(ms, recorded) {
      assert ms[i] in ms;
    }
  }

  lemma ApplyKeepsClosed(ms: seq<Migration>, s: State, r: RunId, end: End)
    requires Listed(ms) && Closed(ms, s.recorded) && AllOnTrack(ms, s) && Enabled(s, ApplyNext(r, end))
    ensures Closed(ms, ApplyStep(s, r, end).recorded) && AllOnTrack(ms, ApplyStep(s, r, end))
  {
    var p := s.runs[r];
    assert OnTrack(ms, s.recorded, p);
    var v := p.pending[p.at].version;
    var after := ApplyStep(s, r, end).recorded;
    forall i, j | 0 <= i < j < |ms| && ms[j].version in after ensures ms[i].version in after {
      if ms[j].version == v {
        LowerIsRecorded(ms, s.recorded, p, i);
      }
    }
  }

  lemma {:induction false} UpsRecordInOrder(ms: seq<Migration>, recorded: Table, actions: seq<Action>)
    requires Listed(ms) && Closed(ms, recorded) && OnlyUps(ms, actions)
    ensures var s := After(State(recorded, multiset{}, multiset{}, map[]), actions);
            Closed(ms, s.recorded) && AllOnTrack(ms, s)
  {
    if actions != [] {
      var init, a := actions[..|actions| - 1], actions[|actions| - 1];
      assert a in actions && forall b :: b in init ==> b in actions;
      UpsRecordInOrder(ms, recorded, init);
      var s := After(State(recorded, multiset{}, multiset{}, map[]), init);
      if Enabled(s, a) {
        if a.ApplyNext? {
          ApplyKeepsClosed(ms, s, a.r, a.end);
        } else if a.BeginUp? {
          BeginOnTrack(ms, s.recorded);
        }
      }
    }
  }
}

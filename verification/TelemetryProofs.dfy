/** What every run of the telemetry reporter keeps. */
module TelemetryProofs {
  import opened Subsequences
  import opened TelemetryModel

  // ---------------------------------------------------------------- the invariant

  predicate DistinctIds(q: seq<Event>) {
    forall i, j :: 0 <= i < j < |q| ==> q[i].id != q[j].id
  }

  /** At most one send is outstanding, and exactly when `sending` is set. */
  predicate OneSend(s: State) {
    |s.inFlight| == if s.sending then 1 else 0
  }

  function Batch(s: State): seq<Event> {
    if s.inFlight == [] then [] else s.inFlight[0]
  }

  function Rest(s: State): seq<Event> {
    Filter(NotSent(Batch(s)), s.queue)
  }

  /** Acknowledged, outstanding and queued events follow the order they were enqueued in. */
  ghost predicate InOrder(s: State) {
    && DistinctIds(s.enqueued)
    && Subseq(s.acked + Batch(s) + Rest(s), s.enqueued)
    && Subseq(s.acked + s.queue, s.enqueued)
  }

  /** Events waiting for their recording have ids of their own. */
  ghost predicate WaitingApart(s: State) {
    && (forall c, i :: c in s.waiting && 0 <= i < |s.waiting[c]| ==> !HasId(s.enqueued, s.waiting[c][i].id))
    && (forall c, i, d, j :: (c in s.waiting && d in s.waiting && 0 <= i < |s.waiting[c]| && 0 <= j < |s.waiting[d]|
          && (c != d || i != j)) ==> s.waiting[c][i].id != s.waiting[d][j].id)
  }

  /** Every enqueued event is still queued, or was acknowledged, expired or dropped. */
  predicate Conserved(s: State) {
    forall e :: e in s.enqueued ==> e in s.queue || e in s.acked || e in s.expired || e in s.dropped
  }

  /** Each key is enqueued at most once in this process life, and remembered. */
  predicate KeyOnce(s: State) {
    && s.loaded <= s.enqueued
    && (forall i :: |s.loaded| <= i < |s.enqueued| ==> KeyOf(s.enqueued[i]) in s.reported)
    && (forall i, j :: |s.loaded| <= i < j < |s.enqueued| ==> KeyOf(s.enqueued[i]) != KeyOf(s.enqueued[j]))
  }

  /** Once something was reported, a non-empty queue has a flush coming or a send under way. */
  predicate NotStranded(s: State) {
    && (s.scheduled ==> s.timers != multiset{})
    && (s.started && s.queue != [] ==> s.scheduled || s.sending)
    && (!s.started ==> s.reported == {})
  }

  function Pow2(k: nat): nat {
    if k == 0 then 1 else 2 * Pow2(k - 1)
  }

  function BackoffAfter(failures: nat): nat {
    if Pow2(failures + 1) <= 300 then Pow2(failures + 1) else 300
  }

  /** What is queued is on disk. */
  ghost predicate OnDisk(s: State) {
    Subseq(s.queue, s.disk)
  }

  ghost predicate Inv(s: State) {
    && OneSend(s) && InOrder(s) && WaitingApart(s) && Conserved(s) && KeyOnce(s) && NotStranded(s)
    && s.backoff == BackoffAfter(s.failures) && OnDisk(s)
  }

  // ---------------------------------------------------------------- ids

  lemma HasIdOfConcat(a: seq<Event>, b: seq<Event>, id: nat)
    ensures HasId(a + b, id) <==> HasId(a, id) || HasId(b, id)
  {
    assert forall e :: e in a + b <==> e in a || e in b;
  }

  lemma {:induction false} IdsOfSubseq(a: seq<Event>, b: seq<Event>)
    requires Subseq(a, b) && DistinctIds(b)
    ensures DistinctIds(a)
    decreases |b|
  {
    if a != [] {
      var a', b' := a[..|a| - 1], b[..|b| - 1];
      if a[|a| - 1] == b[|b| - 1] && Subseq(a', b') {
        IdsOfSubseq(a', b');
        Members(a', b');
        forall i | 0 <= i < |a'| ensures a[i].id != a[|a| - 1].id {
          assert a'[i] in b';
        }
      } else {
        IdsOfSubseq(a, b');
      }
    }
  }

  lemma SameIdSameEvent(q: seq<Event>, d: Event, e: Event)
    requires DistinctIds(q) && d in q && e in q && d.id == e.id
    ensures d == e
  {
  }

  // ---------------------------------------------------------------- order

  /** Leaving out more at the end of a subsequence leaves a subsequence. */
  lemma Shorten(x: seq<Event>, a: seq<Event>, b: seq<Event>, q: seq<Event>)
    requires Subseq(a, b) && Subseq(x + b, q)
    ensures Subseq(x + a, q)
  {
    Refl(x);
    Concat(x, x, a, b);
    Trans(x + a, x + b, q);
  }

  lemma Lengthen(a: seq<Event>, q: seq<Event>, e: Event)
    requires Subseq(a, q)
    ensures Subseq(a + [e], q + [e])
  {
    Refl([e]);
    Concat(a, q, [e], [e]);
  }

  lemma BatchIsEnqueued(s: State)
    requires InOrder(s)
    ensures forall e :: e in Batch(s) || e in s.queue || e in s.acked ==> e in s.enqueued
  {
    Members(s.acked + Batch(s) + Rest(s), s.enqueued);
    Members(s.acked + s.queue, s.enqueued);
  }

  lemma RestOfMore(s: State, e: Event)
    requires !HasId(Batch(s), e.id)
    ensures Filter(NotSent(Batch(s)), s.queue + [e]) == Rest(s) + [e]
  {
    FilterConcat(NotSent(Batch(s)), s.queue, [e]);
    FilterAll(NotSent(Batch(s)), [e]);
  }

  lemma DistinctMore(q: seq<Event>, e: Event)
    requires DistinctIds(q) && !HasId(q, e.id)
    ensures DistinctIds(q + [e])
  {
    forall i | 0 <= i < |q| ensures q[i].id != e.id {
      assert q[i] in q;
    }
  }

  lemma LengthenAfter(x: seq<Event>, a: seq<Event>, q: seq<Event>, e: Event)
    requires Subseq(x + a, q)
    ensures Subseq(x + (a + [e]), q + [e])
  {
    Lengthen(x + a, q, e);
    assert x + (a + [e]) == x + a + [e];
  }

  lemma EnqueueInOrder(s: State, e: Event)
    requires InOrder(s) && !HasId(s.enqueued, e.id)
    ensures InOrder(Enqueue(s, e))
  {
    if KeyOf(e) !in s.reported {
      BatchIsEnqueued(s);
      RestOfMore(s, e);
      LengthenAfter(s.acked + Batch(s), Rest(s), s.enqueued, e);
      LengthenAfter(s.acked, s.queue, s.enqueued, e);
      DistinctMore(s.enqueued, e);
    }
  }

  lemma CapInOrder(s: State)
    requires InOrder(s)
    ensures InOrder(Cap(s))
  {
    var n := Excess(|s.queue|);
    var front, back := s.queue[..n], s.queue[n..];
    var p := NotSent(Batch(s));
    assert s.queue == front + back;
    FilterConcat(p, front, back);
    Suffix(Filter(p, front) + Filter(p, back), |Filter(p, front)|);
    Shorten(s.acked + Batch(s), Filter(p, back), Rest(s), s.enqueued);
    Suffix(s.queue, n);
    Shorten(s.acked, back, s.queue, s.enqueued);
  }

  lemma NothingInFlight(s: State)
    requires s.inFlight == []
    ensures Rest(s) == s.queue && s.acked + Batch(s) + Rest(s) == s.acked + s.queue
  {
    var none: seq<Event> := [];
    FilterAll(NotSent(none), s.queue);
    assert s.acked + none == s.acked;
  }

  lemma ExpireInOrder(s: State, now: int)
    requires InOrder(s) && s.inFlight == []
    ensures InOrder(Expire(s, now))
  {
    FilterIsSubseq(NotBefore(now - MAX_AGE), s.queue);
    Shorten(s.acked, Expire(s, now).queue, s.queue, s.enqueued);
    NothingInFlight(Expire(s, now));
  }

  /** The first n queued events become the batch: what is left over is exactly what follows them. */
  lemma RestOfBatch(q: seq<Event>, n: nat)
    requires n <= |q| && DistinctIds(q)
    ensures Filter(NotSent(q[..n]), q) == q[n..]
  {
    var batch, rest := q[..n], q[n..];
    assert q == batch + rest;
    RestIsNotInBatch(q, n);
    FilterConcat(NotSent(batch), batch, rest);
    FilterNone(NotSent(batch), batch);
    FilterAll(NotSent(batch), rest);
    assert [] + rest == rest;
  }

  lemma RestIsNotInBatch(q: seq<Event>, n: nat)
    requires n <= |q| && DistinctIds(q)
    ensures forall e :: e in q[n..] ==> NotSent(q[..n])(e)
    ensures forall e :: e in q[..n] ==> !NotSent(q[..n])(e)
  {
    forall e | e in q[n..] ensures !HasId(q[..n], e.id) {
      var j :| n <= j < |q| && q[j] == e;
      forall d | d in q[..n] ensures d.id != e.id {
        var i :| 0 <= i < n && q[i] == d;
      }
    }
  }

  lemma SendInOrder(s: State, n: nat)
    requires InOrder(s) && s.inFlight == [] && n <= |s.queue|
    ensures InOrder(s.(sending := true, inFlight := s.inFlight + [s.queue[..n]]))
  {
    IdsOfSubseq(s.acked + s.queue, s.enqueued);
    SuffixIds(s.acked, s.queue);
    RestOfBatch(s.queue, n);
    assert s.acked + s.queue[..n] + s.queue[n..] == s.acked + s.queue;
  }

  lemma SuffixIds(a: seq<Event>, b: seq<Event>)
    requires DistinctIds(a + b)
    ensures DistinctIds(b)
  {
    forall i, j | 0 <= i < j < |b| ensures b[i].id != b[j].id {
      assert (a + b)[|a| + i] == b[i] && (a + b)[|a| + j] == b[j];
    }
  }

  lemma SentInOrder(s: State)
    requires InOrder(s) && |s.inFlight| == 1
    ensures InOrder(SendOk(s, 0))
  {
    var t := SendOk(s, 0);
    assert t.inFlight == [];
    NothingInFlight(t);
  }

  lemma FailedInOrder(s: State)
    requires InOrder(s) && |s.inFlight| == 1
    ensures InOrder(SendFailed(s, 0))
  {
    var t := SendFailed(s, 0);
    assert t.inFlight == [];
    NothingInFlight(t);
  }

  // ---------------------------------------------------------------- one event enqueued

  /** The part of the invariant about events and their history. */
  ghost predicate Core(s: State) {
    InOrder(s) && WaitingApart(s) && Conserved(s) && KeyOnce(s)
  }

  lemma EnqueueKeepsCore(s: State, e: Event)
    requires Core(s) && FreshId(s, e.id)
    ensures Core(Enqueue(s, e))
  {
    EnqueueInOrder(s, e);
    if KeyOf(e) !in s.reported {
      forall c, i | c in s.waiting && 0 <= i < |s.waiting[c]|
        ensures !HasId(s.enqueued + [e], s.waiting[c][i].id)
      {
        HasIdOfConcat(s.enqueued, [e], s.waiting[c][i].id);
      }
      EnqueueKeepsKeys(s, e);
    }
  }

  lemma EnqueueKeepsKeys(s: State, e: Event)
    requires KeyOnce(s) && KeyOf(e) !in s.reported
    ensures KeyOnce(Enqueue(s, e))
  {
    var q := s.enqueued + [e];
    forall i | |s.loaded| <= i < |q| ensures KeyOf(q[i]) in s.reported + {KeyOf(e)} {
    }
  }

  /** What enqueueing leaves alone. */
  predicate SameButEvents(s: State, t: State) {
    && t.waiting == s.waiting && t.inFlight == s.inFlight && t.sending == s.sending && t.scheduled == s.scheduled
    && t.timers == s.timers && t.backoff == s.backoff && t.failures == s.failures && t.started == s.started
  }

  /** t holds no ids but those of s and of es. */
  ghost predicate IdsWithin(t: State, s: State, es: seq<Event>) {
    forall id :: HasId(t.enqueued, id) ==> HasId(s.enqueued, id) || HasId(es, id)
  }

  lemma IdsStayWithin(s: State, t: State, es: seq<Event>, e: Event, f: Event)
    requires IdsWithin(t, s, es) && f.id == e.id
    ensures IdsWithin(Enqueue(t, f), s, es + [e])
  {
    forall id | HasId(Enqueue(t, f).enqueued, id) ensures HasId(s.enqueued, id) || HasId(es + [e], id) {
      HasIdOfConcat(t.enqueued, [f], id);
      HasIdOfConcat(es, [e], id);
      assert e in [e];
    }
  }

  lemma LastIsFresh(s: State, t: State, es: seq<Event>, e: Event)
    requires IdsWithin(t, s, es) && t.waiting == s.waiting && FreshId(s, e.id) && DistinctIds(es + [e])
    ensures FreshId(t, e.id)
  {
    forall d | d in es ensures d.id != e.id {
      var i :| 0 <= i < |es| && es[i] == d;
      assert (es + [e])[i] == d && (es + [e])[|es|] == e;
    }
  }

  lemma {:induction false} EnqueueAllKeepsCore(s: State, es: seq<Event>, recording: string)
    requires Core(s) && DistinctIds(es) && forall e :: e in es ==> FreshId(s, e.id)
    ensures var t := EnqueueAll(s, es, recording); Core(t) && SameButEvents(s, t) && IdsWithin(t, s, es)
  {
    if es != [] {
      var es', e := es[..|es| - 1], es[|es| - 1];
      assert es == es' + [e] && e in es;
      EnqueueAllKeepsCore(s, es', recording);
      var t := EnqueueAll(s, es', recording);
      LastIsFresh(s, t, es', e);
      EnqueueKeepsCore(t, e.(recording := recording));
      IdsStayWithin(s, t, es', e, e.(recording := recording));
    }
  }

  lemma WaitingForCapture(s: State, capture: string)
    requires Core(s)
    ensures var es := WaitingFor(s, capture);
            var t := s.(waiting := s.waiting - {capture});
            Core(t) && DistinctIds(es) && forall e :: e in es ==> FreshId(t, e.id)
  {
    var es := WaitingFor(s, capture);
    var t := s.(waiting := s.waiting - {capture});
    forall e | e in es ensures FreshId(t, e.id) {
      var i :| 0 <= i < |es| && es[i] == e;
    }
  }

  // ---------------------------------------------------------------- each step keeps the invariant

  lemma CapKeepsCore(s: State)
    requires Core(s)
    ensures Core(Cap(s))
  {
    CapInOrder(s);
    var n := Excess(|s.queue|);
    assert s.queue == s.queue[..n] + s.queue[n..];
  }

  lemma ReportKeeps(s: State, e: Event)
    requires Inv(s) && FreshId(s, e.id)
    ensures Inv(Report(s, e))
  {
    if KeyOf(e) !in s.reported {
      var t := Enqueue(s, e);
      EnqueueKeepsCore(s, e);
      CapKeepsCore(t);
      Refl(Cap(t).queue);
      ScheduledAfter(Save(Cap(t)), 1);
    }
  }

  lemma ScheduledAfter(s: State, delay: nat)
    requires s.scheduled ==> s.timers != multiset{}
    ensures var t := Schedule(s, delay); t.scheduled && t.timers != multiset{}
  {
    assert delay in s.timers + multiset{delay};
  }

  lemma WaitingMore(s: State, capture: string, e: Event, c: string, i: nat)
    requires c in ReportBefore(s, capture, e).waiting && i < |ReportBefore(s, capture, e).waiting[c]|
    ensures var d := ReportBefore(s, capture, e).waiting[c][i];
            || (d == e && c == capture && i == |WaitingFor(s, capture)|)
            || (c in s.waiting && i < |s.waiting[c]| && d == s.waiting[c][i])
  {
  }

  lemma ReportBeforeKeepsApart(s: State, capture: string, e: Event)
    requires WaitingApart(s) && FreshId(s, e.id)
    ensures WaitingApart(ReportBefore(s, capture, e))
  {
    var t := ReportBefore(s, capture, e);
    forall c, i | c in t.waiting && 0 <= i < |t.waiting[c]| ensures !HasId(s.enqueued, t.waiting[c][i].id) {
      WaitingMore(s, capture, e, c, i);
    }
    forall c, i, d, j | c in t.waiting && d in t.waiting && 0 <= i < |t.waiting[c]| && 0 <= j < |t.waiting[d]| && (c != d || i != j)
      ensures t.waiting[c][i].id != t.waiting[d][j].id
    {
      WaitingMore(s, capture, e, c, i);
      WaitingMore(s, capture, e, d, j);
    }
  }

  lemma ReportBeforeKeeps(s: State, capture: string, e: Event)
    requires Inv(s) && FreshId(s, e.id)
    ensures Inv(ReportBefore(s, capture, e))
  {
    ReportBeforeKeepsApart(s, capture, e);
  }

  lemma AttachKeeps(s: State, recording: string, capture: string)
    requires Inv(s)
    ensures Inv(Attach(s, recording, capture))
  {
    WaitingForCapture(s, capture);
    var t0 := s.(waiting := s.waiting - {capture});
    EnqueueAllKeepsCore(t0, WaitingFor(s, capture), recording);
    var t := EnqueueAll(t0, WaitingFor(s, capture), recording);
    Refl(t.queue);
    ScheduledAfter(Save(t), 0);
  }

  lemma ExpireKeeps(s: State, now: int)
    requires Core(s) && s.inFlight == [] && OnDisk(s)
    ensures Core(Expire(s, now)) && OnDisk(Expire(s, now))
  {
    ExpireInOrder(s, now);
    FilterIsSubseq(NotBefore(now - MAX_AGE), s.queue);
    Trans(Expire(s, now).queue, s.queue, s.disk);
    FilterMembers(NotBefore(now - MAX_AGE), s.queue);
  }

  lemma FlushKeeps(s: State, now: int)
    requires Inv(s)
    ensures Inv(Flush(s, now))
  {
    var woken := s.(scheduled := false);
    if !s.sending {
      ExpireKeeps(woken, now);
      var t := Expire(woken, now);
      Refl(t.queue);
      SendInOrder(t, if |t.queue| < BATCH then |t.queue| else BATCH);
    }
  }

  lemma SendOkKeepsCore(s: State)
    requires Core(s) && |s.inFlight| == 1
    ensures Core(SendOk(s, 0))
  {
    SentInOrder(s);
    BatchIsEnqueued(s);
    var batch := s.inFlight[0];
    FilterMembers(NotSent(batch), s.queue);
    forall e | e in s.queue && HasId(batch, e.id) ensures e in batch {
      var d :| d in batch && d.id == e.id;
      SameIdSameEvent(s.enqueued, d, e);
    }
  }

  lemma SendOkKeeps(s: State)
    requires Inv(s) && |s.inFlight| == 1
    ensures Inv(SendOk(s, 0))
  {
    SendOkKeepsCore(s);
    var q := SendOk(s, 0).queue;
    Refl(q);
    if q != [] {
      ScheduledAfter(s, 0);
    }
  }

  lemma {:induction false} DoublingBackoff(k: nat)
    ensures Doubled(BackoffAfter(k)) == BackoffAfter(k + 1)
  {
    assert Pow2(k + 2) == 2 * Pow2(k + 1);
  }

  lemma SendFailedKeeps(s: State)
    requires Inv(s) && |s.inFlight| == 1
    ensures Inv(SendFailed(s, 0))
  {
    FailedInOrder(s);
    Refl(s.queue);
    DoublingBackoff(s.failures);
    ScheduledAfter(s, Doubled(s.backoff));
  }

  lemma StepKeeps(s: State, a: Action)
    requires Inv(s) && Enabled(s, a)
    ensures Inv(Step(s, a))
  {
    match a
    case DoReport(e) => ReportKeeps(s, e);
    case DoReportBefore(c, e) => ReportBeforeKeeps(s, c, e);
    case DoAttach(r, c) => AttachKeeps(s, r, c);
    case DoFlush(now) => FlushKeeps(s, now);
    case DoFire(d, now) => FireKeeps(s, d, now);
    case DoSendOk(i) => SendOkKeeps(s);
    case DoSendFailed(i) => SendFailedKeeps(s);
  }

  lemma FireKeeps(s: State, delay: nat, now: int)
    requires Inv(s) && delay in s.timers
    ensures Inv(Fire(s, delay, now))
  {
    var awake := s.(timers := s.timers - multiset{delay}, scheduled := false);
    assert Fire(s, delay, now) == Flush(awake, now);
    if !s.sending {
      ExpireKeeps(awake, now);
      var t := Expire(awake, now);
      Refl(t.queue);
      SendInOrder(t, if |t.queue| < BATCH then |t.queue| else BATCH);
    }
  }

  lemma InitialInOrder(file: seq<Event>)
    requires DistinctIds(file)
    ensures InOrder(Initial(file))
  {
    var s := Initial(file);
    Refl(file);
    NothingInFlight(s);
    assert s.acked + s.queue == file;
  }

  lemma InitialInv(file: seq<Event>)
    requires DistinctIds(file)
    ensures Inv(Initial(file))
  {
    InitialInOrder(file);
    Refl(file);
    assert BackoffAfter(0) == 2 by { assert Pow2(1) == 2 * Pow2(0); }
  }

  /** The invariant holds after every run: any calls, timers and completions in any order. */
  lemma {:induction false} RunKeeps(file: seq<Event>, actions: seq<Action>)
    requires DistinctIds(file)
    ensures Inv(Run(Initial(file), actions))
  {
    if actions == [] {
      InitialInv(file);
    } else {
      RunKeeps(file, actions[..|actions| - 1]);
      var t := Run(Initial(file), actions[..|actions| - 1]);
      if Enabled(t, actions[|actions| - 1]) {
        StepKeeps(t, actions[|actions| - 1]);
      }
    }
  }

  // ---------------------------------------------------------------- what the invariant means

  /** At most one send is outstanding, nothing is acknowledged twice, and acknowledgements follow enqueue order. */
  lemma AckedOnceInOrder(file: seq<Event>, actions: seq<Action>)
    requires DistinctIds(file)
    ensures var s := Run(Initial(file), actions);
            && |s.inFlight| <= 1
            && DistinctIds(s.acked)
            && Subseq(s.acked, s.enqueued)
            && (forall d, e :: d in s.acked && e in s.queue ==> d.id != e.id)
  {
    RunKeeps(file, actions);
    var s := Run(Initial(file), actions);
    IdsOfSubseq(s.acked + s.queue, s.enqueued);
    forall i, j | 0 <= i < j < |s.acked| ensures s.acked[i].id != s.acked[j].id {
      assert (s.acked + s.queue)[i] == s.acked[i] && (s.acked + s.queue)[j] == s.acked[j];
    }
    forall d, e | d in s.acked && e in s.queue ensures d.id != e.id {
      var i :| 0 <= i < |s.acked| && s.acked[i] == d;
      var j :| 0 <= j < |s.queue| && s.queue[j] == e;
      assert (s.acked + s.queue)[i] == d && (s.acked + s.queue)[|s.acked| + j] == e;
    }
    var none: seq<Event> := [];
    assert Subseq(none, s.queue);
    Shorten(s.acked, none, s.queue, s.enqueued);
    assert s.acked + none == s.acked;
  }

  /** No event is stranded once something was reported; a loaded queue alone waits for the first report. */
  lemma NoEventStranded(file: seq<Event>, actions: seq<Action>)
    requires DistinctIds(file)
    ensures var s := Run(Initial(file), actions);
            s.started && s.queue != [] ==> (s.scheduled && s.timers != multiset{}) || (s.sending && |s.inFlight| == 1)
  {
    RunKeeps(file, actions);
  }

  /** Each (recording, event) is enqueued at most once, every enqueued event is accounted for, and the queue is on disk. */
  lemma EventsConserved(file: seq<Event>, actions: seq<Action>)
    requires DistinctIds(file)
    ensures var s := Run(Initial(file), actions);
            Conserved(s) && KeyOnce(s) && s.backoff == BackoffAfter(s.failures) && Subseq(s.queue, s.disk)
  {
    RunKeeps(file, actions);
  }

  /** The wait before the retry after the k-th failure in a row, when no other flush was scheduled meanwhile: 4 s first. */
  lemma RetryWaits(s: State)
    requires Inv(s) && |s.inFlight| == 1
    ensures var t := SendFailed(s, 0);
            t.timers == if s.scheduled then s.timers else s.timers + multiset{BackoffAfter(s.failures + 1)}
    ensures BackoffAfter(1) == 4
  {
    DoublingBackoff(s.failures);
    assert Pow2(2) == 2 * Pow2(1) == 4 * Pow2(0);
  }

  // ---------------------------------------------------------------- keys

  lemma NameHasNoColon(n: Name)
    ensures forall i :: 0 <= i < |RawValue(n)| ==> RawValue(n)[i] != ':'
  {
  }

  lemma {:induction false} SplitAtColon(a: string, b: string, c: string, d: string)
    requires a + ":" + b == c + ":" + d
    requires forall i :: 0 <= i < |b| ==> b[i] != ':'
    requires forall i :: 0 <= i < |d| ==> d[i] != ':'
    ensures a == c && b == d
  {
    var k := a + ":" + b;
    assert k[|a|] == ':' && k[|c|] == ':';
    assert forall i :: |a| < i < |k| ==> k[i] == b[i - |a| - 1] && k[i] != ':';
    assert forall i :: |c| < i < |k| ==> k[i] == d[i - |c| - 1] && k[i] != ':';
    assert k[..|a|] == a && k[..|c|] == c && k[|a| + 1..] == b && k[|c| + 1..] == d;
  }

  /** The deduplication key stands for exactly one recording and event name. */
  lemma KeyIsInjective(r: string, n: Name, q: string, m: Name)
    requires Key(r, n) == Key(q, m)
    ensures r == q && n == m
  {
    NameHasNoColon(n);
    NameHasNoColon(m);
    SplitAtColon(r, RawValue(n), q, RawValue(m));
    RawValuesDiffer(n, m);
  }

  lemma RawValuesDiffer(n: Name, m: Name)
    requires RawValue(n) == RawValue(m)
    ensures n == m
  {
    assert |RawValue(n)| == |RawValue(m)| && RawValue(n)[0] == RawValue(m)[0];
  }
}

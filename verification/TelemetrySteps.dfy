/** What each step of the telemetry queue leaves behind, in events, seconds and counts. */
module TelemetrySteps {
  import opened Subsequences
  import opened TelemetryModel
  import opened TelemetryProofs

  // ---------------------------------------------------------------- expiry

  /** The events that are at most a day old, in order. */
  function Young(q: seq<Event>, now: int): seq<Event> {
    if q == [] then []
    else Young(q[..|q| - 1], now) + (if q[|q| - 1].wall >= now - 24 * 60 * 60 then [q[|q| - 1]] else [])
  }

  lemma {:induction false} YoungIsKept(q: seq<Event>, now: int)
    ensures Filter(NotBefore(now - MAX_AGE), q) == Young(q, now)
  {
    if q != [] {
      YoungIsKept(q[..|q| - 1], now);
    }
  }

  lemma {:induction false} YoungMembers(q: seq<Event>, now: int)
    ensures forall e :: e in Young(q, now) <==> e in q && e.wall >= now - 24 * 60 * 60
  {
    if q != [] {
      var init, last := q[..|q| - 1], q[|q| - 1];
      YoungMembers(init, now);
      assert forall e :: e in q <==> e in init || e == last;
    }
  }

  /**
   A flush that no send blocks keeps exactly the queued events that are at most a day old, and sends
   the first hundred of them, if there are any.
   */
  lemma FlushSendsTheYoung(s: State, now: int)
    requires !s.sending
    ensures var t := Flush(s, now);
            var young := Young(s.queue, now);
            && t.queue == young
            && (forall e :: e in t.expired <==> e in s.expired || (e in s.queue && e.wall < now - 24 * 60 * 60))
            && t.inFlight == (if young == [] then s.inFlight
                              else s.inFlight + [young[..if |young| <= 100 then |young| else 100]])
            && (t.sending <==> young != []) && !t.scheduled
            && t.disk == (if young == [] then [] else s.disk)
            && t.acked == s.acked && t.enqueued == s.enqueued && t.dropped == s.dropped && t.waiting == s.waiting
  {
    YoungIsKept(s.queue, now);
    YoungMembers(s.queue, now);
  }

  /** Behind a send that is under way a flush does nothing but forget that it was coming. */
  lemma FlushIsBlocked(s: State, now: int)
    requires s.sending
    ensures Flush(s, now) == s.(scheduled := false)
  {
  }

  /** A flush, called or by timer, at this time found the event in the queue when it was more than a day old. */
  ghost predicate ExpiredAt(s: State, a: Action, e: Event) {
    && (a.DoFlush? || a.DoFire?) && Enabled(s, a) && !s.sending
    && e in s.queue && e.wall < a.now - 24 * 60 * 60
  }

  lemma StepExpires(s: State, a: Action, e: Event)
    requires Enabled(s, a) && (a.DoSendOk? || a.DoSendFailed? ==> a.i < |s.inFlight|)
    ensures e in Step(s, a).expired <==> e in s.expired || ExpiredAt(s, a, e)
  {
    match a
    case DoFlush(now) => FlushExpires(s, now, e);
    case DoFire(d, now) => FlushExpires(s.(timers := s.timers - multiset{d}), now, e);
    case DoAttach(r, c) => AttachExpiresNothing(s, r, c);
    case _ =>
  }

  lemma FlushExpires(s: State, now: int, e: Event)
    ensures e in Flush(s, now).expired <==> e in s.expired || (!s.sending && e in s.queue && e.wall < now - 24 * 60 * 60)
  {
    if !s.sending {
      FlushSendsTheYoung(s, now);
    }
  }

  lemma {:induction false} EnqueueAllExpiresNothing(s: State, es: seq<Event>, recording: string)
    ensures EnqueueAll(s, es, recording).expired == s.expired
  {
    if es != [] {
      EnqueueAllExpiresNothing(s, es[..|es| - 1], recording);
    }
  }

  lemma AttachExpiresNothing(s: State, recording: string, capture: string)
    ensures Attach(s, recording, capture).expired == s.expired
  {
    EnqueueAllExpiresNothing(s.(waiting := s.waiting - {capture}), WaitingFor(s, capture), recording);
  }

  ghost predicate ExpiredIn(s: State, actions: seq<Action>, e: Event) {
    actions != [] &&
    var init, a := actions[..|actions| - 1], actions[|actions| - 1];
    ExpiredIn(s, init, e) || ExpiredAt(Run(s, init), a, e)
  }

  /** In every run, exactly the events that a flush found queued and more than a day old have expired. */
  lemma {:induction false} OnlyTheOldExpire(file: seq<Event>, actions: seq<Action>, e: Event)
    ensures e in Run(Initial(file), actions).expired <==> ExpiredIn(Initial(file), actions, e)
  {
    if actions != [] {
      var init, a := actions[..|actions| - 1], actions[|actions| - 1];
      var s := Run(Initial(file), init);
      OnlyTheOldExpire(file, init, e);
      if Enabled(s, a) {
        StepExpires(s, a, e);
      }
    }
  }

  // ---------------------------------------------------------------- reports

  /** A new event comes last; beyond 500 the first ones are dropped; the file is written and a flush comes in a second. */
  lemma ReportQueues(s: State, e: Event)
    requires KeyOf(e) !in s.reported
    ensures var t := Report(s, e);
            var q := s.queue + [e];
            && t.queue == t.disk == (if |q| <= 500 then q else q[|q| - 500..])
            && (forall d :: d in t.dropped <==> d in s.dropped || (|q| > 500 && d in q[..|q| - 500]))
            && t.enqueued == s.enqueued + [e] && t.reported == s.reported + {KeyOf(e)}
            && t.scheduled && t.timers == (if s.scheduled then s.timers else s.timers + multiset{1})
            && t.waiting == s.waiting && t.inFlight == s.inFlight && t.sending == s.sending && t.backoff == s.backoff
  {
  }

  lemma ReportedBefore(s: State, e: Event)
    requires KeyOf(e) in s.reported
    ensures Report(s, e) == s
  {
  }

  /** An event held for a capture comes last among those held for it; nothing else changes. */
  lemma ReportBeforeHolds(s: State, capture: string, e: Event)
    ensures var t := ReportBefore(s, capture, e);
            && t == s.(waiting := t.waiting) && t.waiting.Keys == s.waiting.Keys + {capture}
            && t.waiting[capture] == (if capture in s.waiting then s.waiting[capture] else []) + [e]
            && forall c :: c in s.waiting && c != capture ==> t.waiting[c] == s.waiting[c]
  {
  }

  /** The k-th held event is the first with its name. */
  predicate FirstOfName(es: seq<Event>, k: nat)
    requires k < |es|
  {
    forall j :: 0 <= j < k ==> es[j].name != es[k].name
  }

  /** The first n held events that are new, each the first with its name, under the recording's id and in order. */
  function NewOnes(reported: set<string>, es: seq<Event>, recording: string, n: nat): seq<Event>
    requires n <= |es|
  {
    if n == 0 then []
    else NewOnes(reported, es, recording, n - 1)
         + (if Key(recording, es[n - 1].name) !in reported && FirstOfName(es, n - 1)
            then [es[n - 1].(recording := recording)] else [])
  }

  lemma {:induction false} EnqueueAllQueues(s: State, es: seq<Event>, recording: string, n: nat)
    requires n <= |es|
    ensures var t := EnqueueAll(s, es[..n], recording);
            && t.queue == s.queue + NewOnes(s.reported, es, recording, n)
            && ReportedNames(s.reported, t.reported, es, recording, n)
  {
    if n > 0 {
      EnqueueAllQueues(s, es, recording, n - 1);
      assert es[..n][..n - 1] == es[..n - 1];
      QueueOne(s, EnqueueAll(s, es[..n - 1], recording), es, recording, n - 1);
    }
  }

  /** The names that the recording has reported: those of before, and those of the first n held events. */
  ghost predicate ReportedNames(before: set<string>, after: set<string>, es: seq<Event>, recording: string, n: nat)
    requires n <= |es|
  {
    forall x {:trigger Key(recording, x)} ::
      Key(recording, x) in after <==> Key(recording, x) in before || exists j :: 0 <= j < n && es[j].name == x
  }

  lemma NamesMore(before: set<string>, after: set<string>, es: seq<Event>, recording: string, n: nat)
    requires n < |es| && ReportedNames(before, after, es, recording, n)
    ensures ReportedNames(before, after + {Key(recording, es[n].name)}, es, recording, n + 1)
  {
    forall x {:trigger Key(recording, x)}
      ensures Key(recording, x) in after + {Key(recording, es[n].name)}
         <==> Key(recording, x) in before || exists j :: 0 <= j < n + 1 && es[j].name == x
    {
      if Key(recording, x) == Key(recording, es[n].name) {
        KeyIsInjective(recording, x, recording, es[n].name);
      }
    }
  }

  lemma QueueOne(s: State, t: State, es: seq<Event>, recording: string, n: nat)
    requires n < |es| && t.queue == s.queue + NewOnes(s.reported, es, recording, n)
    requires ReportedNames(s.reported, t.reported, es, recording, n)
    ensures var u := Enqueue(t, es[n].(recording := recording));
            && u.queue == s.queue + NewOnes(s.reported, es, recording, n + 1)
            && ReportedNames(s.reported, u.reported, es, recording, n + 1)
  {
    var key := Key(recording, es[n].name);
    NamesMore(s.reported, t.reported, es, recording, n);
    assert key in t.reported ==> t.reported + {key} == t.reported;
    assert key in t.reported <==> key in s.reported || !FirstOfName(es, n);
  }

  /** Attaching queues the held events that are new behind the others, forgets what was held, writes the file, and a flush comes at once. */
  lemma AttachQueues(s: State, recording: string, capture: string)
    ensures var t := Attach(s, recording, capture);
            var held := if capture in s.waiting then s.waiting[capture] else [];
            && t.queue == t.disk == s.queue + NewOnes(s.reported, held, recording, |held|)
            && t.waiting == s.waiting - {capture}
            && t.scheduled && t.timers == (if s.scheduled then s.timers else s.timers + multiset{0})
            && t.inFlight == s.inFlight && t.sending == s.sending && t.backoff == s.backoff
  {
    var held := WaitingFor(s, capture);
    var start := s.(waiting := s.waiting - {capture});
    assert held[..|held|] == held;
    EnqueueAllQueues(start, held, recording, |held|);
    EnqueueAllLeaves(start, held, recording);
  }

  lemma {:induction false} EnqueueAllLeaves(s: State, es: seq<Event>, recording: string)
    ensures SameButEvents(s, EnqueueAll(s, es, recording))
  {
    if es != [] {
      EnqueueAllLeaves(s, es[..|es| - 1], recording);
    }
  }

  // ---------------------------------------------------------------- the end of a send

  /** The events whose ids are not among those of the batch, in order. */
  function Unsent(q: seq<Event>, batch: seq<Event>): seq<Event> {
    if q == [] then []
    else Unsent(q[..|q| - 1], batch)
         + (if exists e :: e in batch && e.id == q[|q| - 1].id then [] else [q[|q| - 1]])
  }

  lemma {:induction false} UnsentIsKept(q: seq<Event>, batch: seq<Event>)
    ensures Filter(NotSent(batch), q) == Unsent(q, batch)
  {
    if q != [] {
      UnsentIsKept(q[..|q| - 1], batch);
    }
  }

  /** When the server has taken the batch, the rest of the queue is saved and the next flush comes at once. */
  lemma SentIsRemoved(s: State, batch: seq<Event>)
    requires s.inFlight == [batch]
    ensures var t := SendOk(s, 0);
            && t.queue == t.disk == Unsent(s.queue, batch) && t.acked == s.acked + batch && t.inFlight == []
            && t.backoff == 2 && !t.sending
            && (t.scheduled <==> s.scheduled || t.queue != [])
            && t.timers == (if s.scheduled || t.queue == [] then s.timers else s.timers + multiset{0})
            && t.waiting == s.waiting && t.reported == s.reported && t.expired == s.expired && t.dropped == s.dropped
  {
    UnsentIsKept(s.queue, batch);
  }

  /** When it has not, the queue is saved as it is, and the next flush comes after twice the last wait, five minutes at most. */
  lemma FailedIsKept(s: State, batch: seq<Event>)
    requires s.inFlight == [batch]
    ensures var t := SendFailed(s, 0);
            && t.queue == t.disk == s.queue && t.acked == s.acked && t.inFlight == []
            && t.backoff == (if 2 * s.backoff <= 300 then 2 * s.backoff else 300) && !t.sending
            && t.scheduled && t.timers == (if s.scheduled then s.timers else s.timers + multiset{t.backoff})
            && t.waiting == s.waiting && t.reported == s.reported && t.expired == s.expired && t.dropped == s.dropped
  {
  }

  /** A timer that fires is a flush. */
  lemma FiringFlushes(s: State, delay: nat, now: int)
    ensures Fire(s, delay, now) == Flush(s.(timers := s.timers - multiset{delay}), now)
  {
  }
}

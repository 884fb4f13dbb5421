/** When the telemetry queue is bounded, and when it is left alone. */
module TelemetryBounds {
  import opened Decimal
  import opened TelemetryModel
  import opened TelemetryProofs

  // ---------------------------------------------------------------- the cap

  /** A report leaves at most 500 events queued exactly when it gets as far as the cap or was within it already. */
  lemma ReportCaps(s: State, e: Event)
    ensures |Report(s, e).queue| <= MAX_QUEUE <==> KeyOf(e) !in s.reported || |s.queue| <= MAX_QUEUE
  {
  }

  /** The keys that the events es would have in the recording and that nobody has reported. */
  function NewKeys(s: State, es: seq<Event>, recording: string): set<string> {
    (set e | e in es :: Key(recording, e.name)) - s.reported
  }

  lemma NewKeysMore(s: State, init: seq<Event>, last: Event, recording: string)
    ensures NewKeys(s, init + [last], recording)
         == NewKeys(s, init, recording) + ({Key(recording, last.name)} - s.reported)
  {
  }

  lemma OneMoreKey(reported: set<string>, keys: set<string>, key: string)
    requires keys !! reported
    ensures |keys + ({key} - reported)| == |keys| + (if key in reported + keys then 0 else 1)
    ensures reported + keys + {key} == reported + (keys + ({key} - reported))
  {
    if key in reported + keys {
      assert keys + ({key} - reported) == keys;
    } else {
      assert keys + ({key} - reported) == keys + {key};
    }
  }

  /** t is s with the events of es added that are new. */
  predicate Added(s: State, t: State, es: seq<Event>, recording: string) {
    && |t.queue| == |s.queue| + |NewKeys(s, es, recording)|
    && t.reported == s.reported + NewKeys(s, es, recording)
  }

  lemma AddOne(s: State, t: State, init: seq<Event>, last: Event, recording: string)
    requires Added(s, t, init, recording)
    ensures Added(s, Enqueue(t, last.(recording := recording)), init + [last], recording)
  {
    var e, keys := last.(recording := recording), NewKeys(s, init, recording);
    var u := Enqueue(t, e);
    assert |u.queue| == |t.queue| + (if KeyOf(e) in t.reported then 0 else 1);
    assert u.reported == t.reported + {KeyOf(e)};
    NewKeysMore(s, init, last, recording);
    OneMoreKey(s.reported, keys, KeyOf(e));
  }

  lemma {:induction false} EnqueueAllAdds(s: State, es: seq<Event>, recording: string)
    ensures Added(s, EnqueueAll(s, es, recording), es, recording)
  {
    if es == [] {
      assert NewKeys(s, es, recording) == {};
    } else {
      var init, last := es[..|es| - 1], es[|es| - 1];
      assert es == init + [last];
      EnqueueAllAdds(s, init, recording);
      AddOne(s, EnqueueAll(s, init, recording), init, last, recording);
    }
  }

  /** Attaching adds one event for every key that is new, so it stays within the cap exactly when there is room for all of them. */
  lemma AttachAdds(s: State, recording: string, capture: string)
    ensures |Attach(s, recording, capture).queue| == |s.queue| + |NewKeys(s, WaitingFor(s, capture), recording)|
  {
    EnqueueAllAdds(s.(waiting := s.waiting - {capture}), WaitingFor(s, capture), recording);
  }

  lemma AttachCaps(s: State, recording: string, capture: string)
    ensures |Attach(s, recording, capture).queue| <= MAX_QUEUE
       <==> |s.queue| + |NewKeys(s, WaitingFor(s, capture), recording)| <= MAX_QUEUE
  {
    AttachAdds(s, recording, capture);
  }

  // ---------------------------------------------------------------- a run beyond the cap

  /** The k-th report: one event name, a recording of its own. */
  function Stop(k: nat): Event {
    Event(k, Str(k), RecordingStopped, 0)
  }

  function Reports(n: nat): (actions: seq<Action>)
    ensures |actions| == n
  {
    if n == 0 then [] else Reports(n - 1) + [DoReport(Stop(n - 1))]
  }

  function Stops(n: nat): (es: seq<Event>)
    ensures |es| == n
  {
    if n == 0 then [] else Stops(n - 1) + [Stop(n - 1)]
  }

  /** After n reports from an empty queue, up to the cap, all n are queued and nothing else was ever enqueued. */
  ghost predicate Reported(s: State, n: nat) {
    && s.queue == s.enqueued == Stops(n) && s.waiting == map[]
    && s.reported == set k | 0 <= k < n :: KeyOf(Stop(k))
  }

  lemma {:induction false} StopsAre(n: nat)
    ensures forall e :: e in Stops(n) ==> e.id < n
  {
    if n > 0 {
      StopsAre(n - 1);
    }
  }

  lemma KeysDiffer(j: nat, k: nat)
    requires KeyOf(Stop(j)) == KeyOf(Stop(k))
    ensures j == k
  {
    KeyIsInjective(Str(j), RecordingStopped, Str(k), RecordingStopped);
    IntOfStr(j);
    IntOfStr(k);
  }

  lemma StopIsNew(s: State, n: nat)
    requires Reported(s, n)
    ensures FreshId(s, n) && KeyOf(Stop(n)) !in s.reported
  {
    StopsAre(n);
    if KeyOf(Stop(n)) in s.reported {
      var k :| 0 <= k < n && KeyOf(Stop(k)) == KeyOf(Stop(n));
      KeysDiffer(k, n);
    }
  }

  lemma ReportFits(s: State, n: nat)
    requires Reported(s, n) && n < MAX_QUEUE
    ensures Reported(Report(s, Stop(n)), n + 1)
  {
    StopIsNew(s, n);
    var t := Enqueue(s, Stop(n));
    assert t.queue == t.enqueued == Stops(n + 1);
    assert t.reported == set k | 0 <= k < n + 1 :: KeyOf(Stop(k));
    assert t.queue[Excess(|t.queue|)..] == t.queue;
  }

  lemma {:induction false} ReportsFill(n: nat)
    requires n <= MAX_QUEUE
    ensures Reported(Run(Initial([]), Reports(n)), n)
  {
    if n > 0 {
      ReportsFill(n - 1);
      var s := Run(Initial([]), Reports(n - 1));
      StopIsNew(s, n - 1);
      RunMore(Initial([]), Reports(n - 1), DoReport(Stop(n - 1)));
      ReportFits(s, n - 1);
    }
  }

  /** One event held back, and its recording attached, beyond any n reports. */
  lemma OneMore(s: State, n: nat, capture: string)
    requires Reported(s, n)
    ensures var held := Event(n, "", RecordingStopped, 0);
            && FreshId(s, held.id)
            && |Attach(ReportBefore(s, capture, held), Str(n), capture).queue| == n + 1
  {
    var held := Event(n, "", RecordingStopped, 0);
    StopIsNew(s, n);
    AttachOne(s, capture, held, Str(n));
  }

  lemma AttachOne(s: State, capture: string, held: Event, recording: string)
    requires s.waiting == map[] && Key(recording, held.name) !in s.reported
    ensures |Attach(ReportBefore(s, capture, held), recording, capture).queue| == |s.queue| + 1
  {
    var t := ReportBefore(s, capture, held);
    assert WaitingFor(t, capture) == [held];
    AttachAdds(t, recording, capture);
    assert NewKeys(t, [held], recording) == {Key(recording, held.name)};
  }

  lemma RunMore(s: State, actions: seq<Action>, a: Action)
    requires Enabled(Run(s, actions), a)
    ensures Run(s, actions + [a]) == Step(Run(s, actions), a)
  {
    assert (actions + [a])[..|actions|] == actions;
  }

  /** A run from an empty queue that ends with 501 events queued. */
  lemma RunBeyondTheCap(capture: string) returns (actions: seq<Action>)
    ensures |Run(Initial([]), actions).queue| == MAX_QUEUE + 1
  {
    var held := DoReportBefore(capture, Event(MAX_QUEUE, "", RecordingStopped, 0));
    var attach := DoAttach(Str(MAX_QUEUE), capture);
    var reports := Reports(MAX_QUEUE);
    ReportsFill(MAX_QUEUE);
    OneMore(Run(Initial([]), reports), MAX_QUEUE, capture);
    RunMore(Initial([]), reports, held);
    RunMore(Initial([]), reports + [held], attach);
    actions := reports + [held] + [attach];
  }

  // ---------------------------------------------------------------- a queue left alone

  /** A report, an attach or a flush has happened in the run. */
  ghost predicate Woken(s: State, actions: seq<Action>) {
    actions != [] &&
    var init, a := actions[..|actions| - 1], actions[|actions| - 1];
    || Woken(s, init)
    || ((a.DoReport? || a.DoAttach? || a.DoFlush?) && Enabled(Run(s, init), a))
  }

  /** Neither a flush is coming nor a send under way. */
  predicate LeftAlone(s: State) {
    !s.scheduled && !s.sending
  }

  /** A queue that is not empty has a flush coming or a send under way. */
  predicate Awake(s: State) {
    s.queue != [] ==> !LeftAlone(s)
  }

  lemma AwakeFlush(s: State, now: int)
    requires Inv(s)
    ensures Awake(Flush(s, now))
  {
  }

  lemma AwakeSend(s: State)
    requires |s.inFlight| == 1
    ensures Awake(SendOk(s, 0)) && Awake(SendFailed(s, 0))
  {
  }

  lemma AwakeStep(s: State, a: Action)
    requires Inv(s) && Enabled(s, a) && (Awake(s) || a.DoReport? || a.DoAttach? || a.DoFlush?)
    ensures Awake(Step(s, a))
  {
    match a
    case DoReport(e) =>
      assert Awake(Report(s, e));
    case DoReportBefore(c, e) =>
    case DoAttach(r, c) =>
    case DoFlush(now) => AwakeFlush(s, now);
    case DoFire(d, now) => AwakeFire(s, d, now);
    case DoSendOk(i) => AwakeSend(s);
    case DoSendFailed(i) => AwakeSend(s);
  }

  lemma AwakeFire(s: State, delay: nat, now: int)
    requires Inv(s) && delay in s.timers
    ensures Awake(Fire(s, delay, now))
  {
  }

  lemma {:induction false} SleepingRun(file: seq<Event>, actions: seq<Action>)
    requires !Woken(Initial(file), actions)
    ensures var s := Run(Initial(file), actions);
            s.queue == file && LeftAlone(s) && s.timers == multiset{} && s.inFlight == []
  {
    if actions != [] {
      SleepingRun(file, actions[..|actions| - 1]);
    }
  }

  lemma {:induction false} WokenRun(file: seq<Event>, actions: seq<Action>)
    requires DistinctIds(file) && Woken(Initial(file), actions)
    ensures Awake(Run(Initial(file), actions))
  {
    var init, a := actions[..|actions| - 1], actions[|actions| - 1];
    var s := Run(Initial(file), init);
    RunKeeps(file, init);
    if Woken(Initial(file), init) {
      WokenRun(file, init);
      if Enabled(s, a) {
        AwakeStep(s, a);
      }
    } else {
      AwakeStep(s, a);
    }
  }

  /** A loaded queue has no flush coming and no send under way exactly as long as nothing was reported, attached or flushed. */
  lemma LoadedQueueSleeps(file: seq<Event>, actions: seq<Action>)
    requires DistinctIds(file)
    ensures var s := Run(Initial(file), actions);
            s.queue != [] ==> (LeftAlone(s) <==> !Woken(Initial(file), actions))
  {
    if Woken(Initial(file), actions) {
      WokenRun(file, actions);
    } else {
      SleepingRun(file, actions);
    }
  }
}

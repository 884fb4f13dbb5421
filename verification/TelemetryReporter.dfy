/** The actor itself: its methods update the fields, and each is one step of the model. */
module TelemetryReporter {
  import opened Decimal
  import opened Subsequences
  import opened TelemetryModel
  import opened TelemetryProofs

  class Reporter {
    var queue: seq<Event>
    var beforeRecording: map<string, seq<Event>>
    var reported: set<string>
    var backoff: nat
    /** The delay of the flush that is coming, if one is. */
    var flushTask: Option<nat>
    var sending: bool
    /** The contents of the file. */
    var file: seq<Event>
    /** The state of the model this object is in. */
    ghost var model: State

    /** The fields are those of the model. */
    ghost predicate Valid()
      reads this
    {
      && queue == model.queue && beforeRecording == model.waiting && reported == model.reported
      && backoff == model.backoff && flushTask.Some? == model.scheduled && sending == model.sending
      && file == model.disk
    }

    /** `init`: loads the queue and schedules nothing. */
    constructor (onDisk: seq<Event>)
      ensures Valid() && model == Initial(onDisk)
    {
      queue, file := onDisk, onDisk;
      beforeRecording, reported := map[], {};
      backoff, flushTask, sending := 2, None, false;
      model := Initial(onDisk);
    }

    /** A flush that is coming keeps its delay. */
    static function Coming(task: Option<nat>, seconds: nat): Option<nat> {
      if task.Some? then task else Some(seconds)
    }

    method ScheduleFlush(seconds: nat)
      modifies this`flushTask
      ensures flushTask == Coming(old(flushTask), seconds)
    {
      if flushTask == None {
        flushTask := Some(seconds);
      }
    }

    method Report(e: Event)
      requires Valid()
      modifies this
      ensures Valid() && model == TelemetryModel.Report(old(model), e)
      ensures flushTask == if KeyOf(e) in old(reported) then old(flushTask) else Coming(old(flushTask), 1)
    {
      AfterReport(model, e);
      var key := KeyOf(e);
      ghost var after := TelemetryModel.Report(model, e);
      if key in reported {
        return;
      }
      reported := reported + {key};
      queue := queue + [e];
      if |queue| > MAX_QUEUE {
        queue := queue[|queue| - MAX_QUEUE..];
      }
      assert queue == after.queue;
      file := queue;
      ScheduleFlush(1);
      model := after;
    }

    lemma AfterReport(s: State, e: Event)
      ensures var t := TelemetryModel.Report(s, e);
              var q := s.queue + [e];
              && t.waiting == s.waiting && t.backoff == s.backoff && t.sending == s.sending
              && if KeyOf(e) in s.reported then t == s
                 else && t.queue == t.disk == (if |q| > MAX_QUEUE then q[|q| - MAX_QUEUE..] else q)
                      && t.reported == s.reported + {KeyOf(e)} && t.scheduled
    {
    }

    method ReportBeforeRecording(capture: string, e: Event)
      requires Valid()
      modifies this
      ensures Valid() && model == ReportBefore(old(model), capture, e)
    {
      var held := if capture in beforeRecording then beforeRecording[capture] else [];
      beforeRecording := beforeRecording[capture := held + [e]];
      model := ReportBefore(model, capture, e);
    }

    method AttachRecording(recording: string, capture: string)
      requires Valid()
      modifies this
      ensures Valid() && model == Attach(old(model), recording, capture)
      ensures flushTask == Coming(old(flushTask), 0)
    {
      var held := if capture in beforeRecording then beforeRecording[capture] else [];
      beforeRecording := beforeRecording - {capture};
      ghost var start := model.(waiting := beforeRecording);
      ghost var t := start;
      for k := 0 to |held|
        invariant unchanged(`model) && unchanged(`flushTask) && unchanged(`backoff) && unchanged(`sending)
        invariant beforeRecording == start.waiting
        invariant t == EnqueueAll(start, held[..k], recording) && SameButEvents(start, t)
        invariant queue == t.queue && reported == t.reported
      {
        EnqueueOneMore(start, held, k, recording);
        var e := held[k].(recording := recording);
        t := Enqueue(t, e);
        if KeyOf(e) !in reported {
          reported := reported + {KeyOf(e)};
          queue := queue + [e];
        }
      }
      assert held[..|held|] == held;
      file := queue;
      ScheduleFlush(0);
      model := Attach(model, recording, capture);
    }

    lemma EnqueueOneMore(s: State, held: seq<Event>, k: nat, recording: string)
      requires k < |held|
      ensures EnqueueAll(s, held[..k + 1], recording)
           == Enqueue(EnqueueAll(s, held[..k], recording), held[k].(recording := recording))
    {
      assert held[..k + 1][..k] == held[..k];
    }

    /** `queue.removeAll`: what is left when the events that satisfy drop are gone, in order. */
    method Keep(keep: Event -> bool) returns (kept: seq<Event>)
      ensures kept == Filter(keep, queue)
    {
      kept := [];
      for k := 0 to |queue|
        invariant kept == Filter(keep, queue[..k])
      {
        assert queue[..k + 1][..k] == queue[..k];
        if keep(queue[k]) {
          kept := kept + [queue[k]];
        }
      }
      assert queue[..|queue|] == queue;
    }

    /** `flushNow` until it awaits the server with a batch, or returns without one. */
    method FlushNow(now: int) returns (batch: Option<seq<Event>>)
      requires Valid()
      modifies this
      ensures Valid() && model == Flush(old(model), now)
      ensures batch.Some? <==> |model.inFlight| == |old(model).inFlight| + 1
      ensures batch.Some? ==> model.inFlight == old(model).inFlight + [batch.value]
    {
      flushTask := None;
      batch := None;
      if !sending {
        queue := Keep(NotBefore(now - MAX_AGE));
        if queue == [] {
          file := queue;
        } else {
          sending := true;
          batch := Some(queue[..if |queue| < BATCH then |queue| else BATCH]);
        }
      }
      model := Flush(model, now);
    }

    /** `flushNow` after its await: the server took the batch. */
    method Sent(batch: seq<Event>)
      requires Valid() && model.inFlight == [batch]
      modifies this
      ensures Valid() && model == SendOk(old(model), 0)
      ensures flushTask == if queue == [] then old(flushTask) else Coming(old(flushTask), 0)
    {
      AfterSent(model);
      ghost var after := SendOk(model, 0);
      queue := Keep(NotSent(batch));
      backoff := 2;
      file := queue;
      if queue != [] {
        ScheduleFlush(0);
      }
      sending := false;
      model := after;
    }

    lemma AfterSent(s: State)
      requires |s.inFlight| == 1
      ensures var t := SendOk(s, 0);
              && t.queue == t.disk == Filter(NotSent(s.inFlight[0]), s.queue) && t.backoff == 2 && !t.sending
              && t.scheduled == (s.scheduled || t.queue != []) && t.waiting == s.waiting && t.reported == s.reported
    {
    }

    /** `flushNow` after its await: the send threw. */
    method Failed(batch: seq<Event>)
      requires Valid() && model.inFlight == [batch]
      modifies this
      ensures Valid() && model == SendFailed(old(model), 0)
      ensures flushTask == Coming(old(flushTask), backoff)
    {
      file := queue;
      backoff := if backoff * 2 <= 300 then backoff * 2 else 300;
      ScheduleFlush(backoff);
      sending := false;
      model := SendFailed(model, 0);
    }
  }
}

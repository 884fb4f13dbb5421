/**
 The telemetry reporter as a state machine. Each stretch of an actor method between two awaits is
 one step, so every interleaving of calls, timers and send completions is a sequence of steps.
 The history fields record what happened to every event in this process life.
 */
module TelemetryModel {
  import opened Subsequences

  datatype Name = RecordingStopped | ImportSubmitted | UploadStarted | UploadFinished
                | TranscriptDisplayed | SpeakerLabelsDisplayed | NotesDisplayed | ErrorShown

  function RawValue(n: Name): string {
    match n
    case RecordingStopped => "recording_stopped"
    case ImportSubmitted => "import_submitted"
    case UploadStarted => "upload_started"
    case UploadFinished => "upload_finished"
    case TranscriptDisplayed => "transcript_displayed"
    case SpeakerLabelsDisplayed => "speaker_labels_displayed"
    case NotesDisplayed => "notes_displayed"
    case ErrorShown => "error_shown"
  }

  /** A queued event; its id stands for the UUID. */
  datatype Event = Event(id: nat, recording: string, name: Name, wall: int)

  function Key(recording: string, name: Name): string {
    recording + ":" + RawValue(name)
  }

  function KeyOf(e: Event): string {
    Key(e.recording, e.name)
  }

  const MAX_AGE := 24 * 60 * 60
  const MAX_QUEUE := 500
  const BATCH := 100

  datatype State = State(
    queue: seq<Event>,
    waiting: map<string, seq<Event>>,
    reported: set<string>,
    backoff: nat,
    scheduled: bool,
    sending: bool,
    /** What the file holds. */
    disk: seq<Event>,
    /** The delays of the flush tasks still asleep. */
    timers: multiset<nat>,
    /** The batches whose send awaits the server. */
    inFlight: seq<seq<Event>>,
    /** History: the queue the process started with, and the fate of every event since. */
    loaded: seq<Event>,
    enqueued: seq<Event>,
    acked: seq<Event>,
    expired: set<Event>,
    dropped: set<Event>,
    failures: nat,
    started: bool)

  function Initial(file: seq<Event>): State {
    State(file, map[], {}, 2, false, false, file, multiset{}, [], file, file, [], {}, {}, 0, false)
  }

  // ---------------------------------------------------------------- steps

  function Schedule(s: State, delay: nat): State {
    if s.scheduled then s else s.(scheduled := true, timers := s.timers + multiset{delay})
  }

  function Excess(n: nat): nat {
    if n > MAX_QUEUE then n - MAX_QUEUE else 0
  }

  function ToSet(q: seq<Event>): set<Event> {
    set e | e in q
  }

  /** Add one event to the queue and the history, unless its recording has reported it already. */
  function Enqueue(s: State, e: Event): State {
    if KeyOf(e) in s.reported then s
    else s.(reported := s.reported + {KeyOf(e)}, queue := s.queue + [e], enqueued := s.enqueued + [e])
  }

  function Cap(s: State): State {
    var n := Excess(|s.queue|);
    s.(queue := s.queue[n..], dropped := s.dropped + ToSet(s.queue[..n]))
  }

  function Save(s: State): State {
    s.(disk := s.queue)
  }

  function Report(s: State, e: Event): State {
    if KeyOf(e) in s.reported then s
    else Schedule(Save(Cap(Enqueue(s, e))), 1).(started := true)
  }

  function WaitingFor(s: State, capture: string): seq<Event> {
    if capture in s.waiting then s.waiting[capture] else []
  }

  function ReportBefore(s: State, capture: string, e: Event): State {
    s.(waiting := s.waiting[capture := WaitingFor(s, capture) + [e]])
  }

  function EnqueueAll(s: State, es: seq<Event>, recording: string): State {
    if es == [] then s
    else Enqueue(EnqueueAll(s, es[..|es| - 1], recording), es[|es| - 1].(recording := recording))
  }

  function Attach(s: State, recording: string, capture: string): State {
    var s' := EnqueueAll(s.(waiting := s.waiting - {capture}), WaitingFor(s, capture), recording);
    Schedule(Save(s'), 0).(started := true)
  }

  function NotBefore(cutoff: int): Event -> bool {
    (e: Event) => e.wall >= cutoff
  }

  function Expire(s: State, now: int): State {
    var kept := Filter(NotBefore(now - MAX_AGE), s.queue);
    s.(queue := kept, expired := s.expired + (ToSet(s.queue) - ToSet(kept)))
  }

  /** `flushNow` up to its await, or to its return when there is nothing to send. */
  function Flush(s: State, now: int): State {
    var woken := s.(scheduled := false);
    if woken.sending then woken
    else
      var s' := Expire(woken, now);
      if s'.queue == [] then Save(s')
      else s'.(sending := true, inFlight := s'.inFlight + [s'.queue[..if |s'.queue| < BATCH then |s'.queue| else BATCH]])
  }

  /** A sleeping flush task wakes. */
  function Fire(s: State, delay: nat, now: int): State {
    Flush(s.(timers := s.timers - multiset{delay}), now)
  }

  predicate HasId(batch: seq<Event>, id: nat) {
    exists e :: e in batch && e.id == id
  }

  function NotSent(batch: seq<Event>): Event -> bool {
    (e: Event) => !HasId(batch, e.id)
  }

  function Without<T>(x: seq<T>, i: nat): seq<T>
    requires i < |x|
  {
    x[..i] + x[i + 1..]
  }

  /** The server took the i-th outstanding batch. */
  function SendOk(s: State, i: nat): State
    requires i < |s.inFlight|
  {
    var batch := s.inFlight[i];
    var s' := Save(s.(inFlight := Without(s.inFlight, i), queue := Filter(NotSent(batch), s.queue),
                      backoff := 2, acked := s.acked + batch, failures := 0));
    (if s'.queue == [] then s' else Schedule(s', 0)).(sending := false)
  }

  function Doubled(backoff: nat): nat {
    if backoff * 2 <= 300 then backoff * 2 else 300
  }

  /** The i-th outstanding send failed: its events stay queued. */
  function SendFailed(s: State, i: nat): State
    requires i < |s.inFlight|
  {
    var s' := Save(s.(inFlight := Without(s.inFlight, i), backoff := Doubled(s.backoff), failures := s.failures + 1));
    Schedule(s', s'.backoff).(sending := false)
  }

  // ---------------------------------------------------------------- runs

  datatype Action =
    | DoReport(e: Event)
    | DoReportBefore(capture: string, e: Event)
    | DoAttach(recording: string, capture: string)
    | DoFlush(now: int)
    | DoFire(delay: nat, now: int)
    | DoSendOk(i: nat)
    | DoSendFailed(i: nat)

  ghost predicate IdsWaiting(s: State, id: nat) {
    exists c, i :: c in s.waiting && 0 <= i < |s.waiting[c]| && s.waiting[c][i].id == id
  }

  /** A new UUID differs from every id in use. */
  ghost predicate FreshId(s: State, id: nat) {
    !HasId(s.enqueued, id) && !IdsWaiting(s, id)
  }

  ghost predicate Enabled(s: State, a: Action) {
    match a
    case DoReport(e) => FreshId(s, e.id)
    case DoReportBefore(c, e) => FreshId(s, e.id)
    case DoAttach(_, _) => true
    case DoFlush(_) => true
    case DoFire(d, _) => d in s.timers
    case DoSendOk(i) => i < |s.inFlight|
    case DoSendFailed(i) => i < |s.inFlight|
  }

  function Step(s: State, a: Action): State
    requires a.DoSendOk? || a.DoSendFailed? ==> a.i < |s.inFlight|
  {
    match a
    case DoReport(e) => Report(s, e)
    case DoReportBefore(c, e) => ReportBefore(s, c, e)
    case DoAttach(r, c) => Attach(s, r, c)
    case DoFlush(now) => Flush(s, now)
    case DoFire(d, now) => Fire(s, d, now)
    case DoSendOk(i) => SendOk(s, i)
    case DoSendFailed(i) => SendFailed(s, i)
  }

  /** The state after a run; actions that cannot happen leave it alone. */
  ghost function Run(s: State, actions: seq<Action>): State {
    if actions == [] then s
    else
      var t := Run(s, actions[..|actions| - 1]);
      var a := actions[|actions| - 1];
      if Enabled(t, a) then Step(t, a) else t
  }
}

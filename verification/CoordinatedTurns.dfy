/** Voice turns that join a microphone transcript with the system audio heard at the same time. */
module CoordinatedTurns {
  import opened Options

  datatype Source = Microphone | SystemAudio

  type Task = nat

  datatype Target = Target(viewerId: Option<string>, personaId: Option<string>)

  const NO_TARGET := Target(None, None)

  datatype Turn = Turn(committed: set<Source>, completed: set<Source>, eventIds: seq<string>, required: Option<bool>,
                       microphoneEndedAtMs: Option<int>, target: Target, timeoutTask: Option<Task>, scheduleTask: Option<Task>)

  const NEW_TURN := Turn({}, {}, [], None, None, NO_TARGET, None, None)

  // ---------------------------------------------------------------------------------------
  // One turn
  // ---------------------------------------------------------------------------------------

  /** `_register_committed_audio_locked`, for a source not committed yet. */
  function Registered(turn: Turn, source: Source, required: bool, endedAtMs: int): Turn {
    var t := turn.(committed := turn.committed + {source});
    if source.Microphone? then t.(required := Some(required), microphoneEndedAtMs := Some(endedAtMs)) else t
  }

  /** A final transcript's contribution to its turn. */
  function Completed(turn: Turn, source: Source, eventId: Option<string>, target: Target): Turn {
    var t := turn.(completed := turn.completed + {source},
                   eventIds := if eventId.Some? then turn.eventIds + [eventId.value] else turn.eventIds);
    if source.Microphone? then t.(target := target) else t
  }

  /** `_coordinated_turn_ready` */
  predicate Ready(turn: Turn) {
    && turn.required.Some? && turn.microphoneEndedAtMs.Some? && Microphone in turn.completed
    && (turn.required.value ==> SystemAudio in turn.completed)
  }

  /** What `_complete_coordinated_turn_locked` does with the turn it finds. */
  datatype Verdict = Ignore | Discard | Wait | StartTimeout | StartSchedule

  function Judge(turn: Turn, source: Source, eventId: Option<string>, textPresent: bool, valid: bool, target: Target): Verdict {
    if source !in turn.committed then Ignore
    else if !valid || (source.Microphone? && !textPresent) then Discard
    else
      var done := Completed(turn, source, eventId, target);
      if Ready(done) then (if done.scheduleTask.Some? then Wait else StartSchedule)
      else if source.Microphone? && done.required == Some(true) && done.timeoutTask.None? then StartTimeout
      else Wait
  }

  // ---------------------------------------------------------------------------------------
  // All turns of a session, as a state machine
  // ---------------------------------------------------------------------------------------

  datatype Kind = Timeout | Schedule

  /** What a task was started for. */
  datatype Job = Job(kind: Kind, turnId: string, number: nat)

  /** `turns` is the dictionary from turn ids to turn objects; `objects` are all turn objects ever
      made, in order of creation; `tasks` are the tasks that are neither finished nor cancelled. */
  datatype State = State(active: bool, turns: map<string, nat>, objects: seq<Turn>, tasks: map<Task, Job>, nextTask: Task)

  const INITIAL := State(false, map[], [], map[], 0)

  /** The steps under the service's lock. A discard stands for a failed commit or an exhausted
      transcript; `Fire` is a timeout or schedule task coming to life after its sleep; `FailStart` is
      a start whose frame store or provider fails after the session became active. */
  datatype Step =
    | Commit(turnId: string, source: Source, required: bool, endedAtMs: int)
    | Complete(turnId: string, source: Source, eventId: Option<string>, textPresent: bool, valid: bool, target: Target)
    | DiscardTurn(turnId: string)
    | Fire(task: Task)
    | Stop
    | Start
    | FailStart

  function OptionalSet<T>(o: Option<T>): set<T> {
    if o.Some? then {o.value} else {}
  }

  function TasksOf(turn: Turn): set<Task> {
    OptionalSet(turn.timeoutTask) + OptionalSet(turn.scheduleTask)
  }

  function TasksOfAll(s: State): set<Task> {
    set id, task | id in s.turns && s.turns[id] < |s.objects| && task in TasksOf(s.objects[s.turns[id]]) :: task
  }

  function AfterDiscard(s: State, turnId: string): State
    requires turnId in s.turns && s.turns[turnId] < |s.objects|
  {
    s.(turns := s.turns - {turnId}, tasks := s.tasks - TasksOf(s.objects[s.turns[turnId]]))
  }

  function AfterCommit(s: State, turnId: string, source: Source, required: bool, endedAtMs: int): State {
    if turnId !in s.turns then
      s.(turns := s.turns[turnId := |s.objects|], objects := s.objects + [Registered(NEW_TURN, source, required, endedAtMs)])
    else
      var o := s.turns[turnId];
      if o >= |s.objects| || source in s.objects[o].committed then s
      else s.(objects := s.objects[o := Registered(s.objects[o], source, required, endedAtMs)])
  }

  function AfterComplete(s: State, turnId: string, source: Source, eventId: Option<string>, textPresent: bool, valid: bool, target: Target): State {
    if turnId !in s.turns || s.turns[turnId] >= |s.objects| then s
    else
      var o := s.turns[turnId];
      var done := Completed(s.objects[o], source, eventId, target);
      match Judge(s.objects[o], source, eventId, textPresent, valid, target)
      case Ignore => s
      case Discard => AfterDiscard(s, turnId)
      case Wait => s.(objects := s.objects[o := done])
      case StartTimeout =>
        s.(objects := s.objects[o := done.(timeoutTask := Some(s.nextTask))],
           tasks := s.tasks[s.nextTask := Job(Timeout, turnId, o)], nextTask := s.nextTask + 1)
      case StartSchedule =>
        s.(objects := s.objects[o := done.(scheduleTask := Some(s.nextTask))],
           tasks := (s.tasks - OptionalSet(done.timeoutTask))[s.nextTask := Job(Schedule, turnId, o)],
           nextTask := s.nextTask + 1)
  }

  /** The checks a woken task makes before it hands the turn on. */
  predicate Passes(s: State, task: Task) {
    && task in s.tasks
    && var job := s.tasks[task];
       && s.active && job.turnId in s.turns && s.turns[job.turnId] == job.number && job.number < |s.objects|
       && var turn := s.objects[job.number];
          match job.kind
          case Timeout => turn.timeoutTask == Some(task) && Microphone in turn.completed
          case Schedule => turn.scheduleTask == Some(task)
  }

  function AfterFire(s: State, task: Task): State {
    if task !in s.tasks then s
    else if Passes(s, task) then s.(turns := s.turns - {s.tasks[task].turnId}, tasks := s.tasks - {task})
    else s.(tasks := s.tasks - {task})
  }

  function Next(s: State, step: Step): State {
    match step
    case Commit(turnId, source, required, endedAtMs) => AfterCommit(s, turnId, source, required, endedAtMs)
    case Complete(turnId, source, eventId, textPresent, valid, target) =>
      AfterComplete(s, turnId, source, eventId, textPresent, valid, target)
    case DiscardTurn(turnId) => if turnId in s.turns && s.turns[turnId] < |s.objects| then AfterDiscard(s, turnId) else s
    case Fire(task) => AfterFire(s, task)
    case Stop => if s.active then s.(active := false, turns := map[], tasks := s.tasks - TasksOfAll(s)) else s
    case Start => if s.active then s else s.(active := true, turns := map[])
    case FailStart => if s.active then s.(active := false, turns := map[]) else s
  }

  // ---------------------------------------------------------------------------------------
  // What happened
  // ---------------------------------------------------------------------------------------

  datatype Entry =
    | WasCommitted(turnId: string, number: nat, source: Source, required: bool)
    | WasCompleted(number: nat, source: Source, eventId: Option<string>, target: Target, textPresent: bool, valid: bool)
    | WasScheduled(number: nat, turnId: string, eventIds: seq<string>, target: Target, degraded: bool)
    | WasDiscarded(number: nat)

  /** What a step taken in s adds to the history. */
  ghost function Recorded(s: State, step: Step): seq<Entry> {
    match step
    case Commit(turnId, source, required, _) =>
      if turnId !in s.turns then [WasCommitted(turnId, |s.objects|, source, required)]
      else if s.turns[turnId] >= |s.objects| || source in s.objects[s.turns[turnId]].committed then []
      else [WasCommitted(turnId, s.turns[turnId], source, required)]
    case Complete(turnId, source, eventId, textPresent, valid, target) =>
      if turnId !in s.turns || s.turns[turnId] >= |s.objects| then []
      else
        var o := s.turns[turnId];
        (match Judge(s.objects[o], source, eventId, textPresent, valid, target)
         case Ignore => []
         case Discard => [WasDiscarded(o)]
         case _ => [WasCompleted(o, source, eventId, target, textPresent, valid)])
    case DiscardTurn(turnId) => if turnId in s.turns && s.turns[turnId] < |s.objects| then [WasDiscarded(s.turns[turnId])] else []
    case Fire(task) =>
      if !Passes(s, task) then []
      else
        var job := s.tasks[task];
        [WasScheduled(job.number, job.turnId, s.objects[job.number].eventIds, s.objects[job.number].target, job.kind.Timeout?)]
    case Stop => []
    case Start => []
    case FailStart => []
  }

  ghost function After(run: seq<Step>): State {
    if run == [] then INITIAL else Next(After(run[..|run| - 1]), run[|run| - 1])
  }

  ghost function History(run: seq<Step>): seq<Entry> {
    if run == [] then [] else History(run[..|run| - 1]) + Recorded(After(run[..|run| - 1]), run[|run| - 1])
  }

  ghost function CompletedOf(log: seq<Entry>, o: nat): set<Source> {
    if log == [] then {}
    else
      var e := log[|log| - 1];
      CompletedOf(log[..|log| - 1], o) + if e.WasCompleted? && e.number == o then {e.source} else {}
  }

  /** The events of a turn's transcripts, in the order they were completed. */
  ghost function EventsOf(log: seq<Entry>, o: nat): seq<string> {
    if log == [] then []
    else
      var e := log[|log| - 1];
      EventsOf(log[..|log| - 1], o) + if e.WasCompleted? && e.number == o && e.eventId.Some? then [e.eventId.value] else []
  }

  /** The target of the microphone transcript. */
  ghost function TargetOf(log: seq<Entry>, o: nat): Target {
    if log == [] then NO_TARGET
    else
      var e := log[|log| - 1];
      if e.WasCompleted? && e.number == o && e.source.Microphone? then e.target else TargetOf(log[..|log| - 1], o)
  }

  /** Whether the microphone's commit asked for system audio. */
  ghost function RequiredOf(log: seq<Entry>, o: nat): Option<bool> {
    if log == [] then None
    else
      var e := log[|log| - 1];
      if e.WasCommitted? && e.number == o && e.source.Microphone? then Some(e.required) else RequiredOf(log[..|log| - 1], o)
  }

  /** How often a turn object was scheduled or discarded. */
  ghost function EndsOf(log: seq<Entry>, o: nat): nat {
    if log == [] then 0
    else
      var e := log[|log| - 1];
      EndsOf(log[..|log| - 1], o) + if (e.WasScheduled? || e.WasDiscarded?) && e.number == o then 1 else 0
  }

  lemma Extended(log: seq<Entry>, e: Entry, o: nat)
    ensures CompletedOf(log + [e], o) == CompletedOf(log, o) + (if e.WasCompleted? && e.number == o then {e.source} else {})
    ensures EventsOf(log + [e], o) ==
            EventsOf(log, o) + (if e.WasCompleted? && e.number == o && e.eventId.Some? then [e.eventId.value] else [])
    ensures TargetOf(log + [e], o) == if e.WasCompleted? && e.number == o && e.source.Microphone? then e.target else TargetOf(log, o)
    ensures RequiredOf(log + [e], o) == if e.WasCommitted? && e.number == o && e.source.Microphone? then Some(e.required) else RequiredOf(log, o)
    ensures EndsOf(log + [e], o) == EndsOf(log, o) + if (e.WasScheduled? || e.WasDiscarded?) && e.number == o then 1 else 0
  {
    assert (log + [e])[..|log|] == log;
  }

  // ---------------------------------------------------------------------------------------
  // Invariants
  // ---------------------------------------------------------------------------------------

  /** The fields of every turn object say what happened to it; one that does not exist yet was not
      mentioned. */
  ghost predicate FieldsInv(s: State, log: seq<Entry>) {
    forall o: nat :: FieldsAgree(TurnAt(s, o), log, o)
  }

  ghost function TurnAt(s: State, o: nat): Turn {
    if o < |s.objects| then s.objects[o] else NEW_TURN
  }

  ghost predicate FieldsAgree(turn: Turn, log: seq<Entry>, o: nat) {
    && turn.completed == CompletedOf(log, o) && turn.completed <= turn.committed
    && turn.eventIds == EventsOf(log, o) && turn.target == TargetOf(log, o)
    && turn.required == RequiredOf(log, o) && (turn.required.Some? <==> Microphone in turn.committed)
    && (turn.microphoneEndedAtMs.Some? <==> turn.required.Some?)
  }

  /** Every turn ends at most once, and not while it is in the dictionary. */
  ghost predicate EndsInv(s: State, log: seq<Entry>) {
    match s
    case State(_, turns, objects, _, _) =>
      && (forall id :: id in turns ==> turns[id] < |objects|)
      && (forall a, b :: a in turns && b in turns && turns[a] == turns[b] ==> a == b)
      && (forall o: nat :: EndsOf(log, o) <= 1)
      && (forall id :: id in turns ==> EndsOf(log, turns[id]) == 0)
      && (forall o: nat :: o >= |objects| ==> EndsOf(log, o) == 0)
  }

  /** The turn object the job was started for is in the dictionary. */
  ghost predicate Owned(s: State, job: Job) {
    job.turnId in s.turns && s.turns[job.turnId] == job.number && job.number < |s.objects|
  }

  ghost predicate JobFits(turn: Turn, task: Task, job: Job) {
    match job.kind
    case Timeout => turn.timeoutTask == Some(task) && turn.scheduleTask.None? && Microphone in turn.completed && !Ready(turn)
    case Schedule => turn.scheduleTask == Some(task) && Ready(turn)
  }

  /** A live task of a turn in the dictionary is one the turn names; the turn is ready if the task
      schedules it and lacks its system audio if the task is its timeout. */
  ghost predicate TasksInv(s: State) {
    match s
    case State(_, _, objects, tasks, nextTask) =>
      && (forall t :: t in tasks ==>
            t < nextTask && tasks[t].number < |objects| && (Owned(s, tasks[t]) ==> JobFits(objects[tasks[t].number], t, tasks[t])))
      && (forall o: nat :: o < |objects| && objects[o].scheduleTask.Some? ==> Ready(objects[o]))
  }

  /** Once a turn id was scheduled, the id denotes only a turn object committed later. */
  ghost predicate RecommitInv(s: State, log: seq<Entry>) {
    match s
    case State(_, turns, _, _, _) =>
      forall i: nat, k: nat ::
        (&& i < |log| && k < |log| && log[i].WasScheduled? && log[i].turnId in turns
         && log[k].WasCommitted? && log[k].number == turns[log[i].turnId])
        ==> i < k
  }

  /** The commits of a turn object name the id under which it is kept. */
  ghost predicate CommitsInv(s: State, log: seq<Entry>) {
    match s
    case State(_, turns, objects, _, _) =>
      && (forall k: nat :: k < |log| && log[k].WasCommitted? ==> log[k].number < |objects|)
      && (forall id, source :: id in turns && turns[id] < |objects| && source in objects[turns[id]].committed ==>
            exists k: nat :: CommittedAt(log, k, id, turns[id], source))
  }

  ghost predicate CommittedAt(log: seq<Entry>, k: nat, id: string, o: nat, source: Source) {
    k < |log| && log[k].WasCommitted? && log[k].turnId == id && log[k].number == o && log[k].source == source
  }

  ghost predicate Inv(s: State, log: seq<Entry>) {
    match s
    case State(_, _, _, _, _) =>
      FieldsInv(s, log) && EndsInv(s, log) && TasksInv(s) && RecommitInv(s, log) && CommitsInv(s, log)
  }
}

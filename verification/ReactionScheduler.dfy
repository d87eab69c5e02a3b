/** The reaction scheduler as a transition system: each step is one critical section.

    The records are values; where the code compares objects (`is schedule`, `is scheduled`),
    schedules and items carry a fresh identity.  Futures, tasks, items and schedules draw their
    identities from one counter.
  */
module ReactionScheduler {
  import opened Observations
  import opened ObservationMerging
  import opened Options
  import opened Sequences

  type Id = nat

  /** What a reaction produced; the scheduler never looks inside. */
  datatype Reaction = Reaction(token: nat)

  datatype Future = Waiting(session: string) | Done(session: string, value: Option<Reaction>)

  datatype Item = Item(
    id: Id,
    observation: Observation,
    completions: seq<Id>,
    mergeWindowMs: nat,
    mergeDeadlineMs: int,
    superseded: bool)

  datatype Schedule = Schedule(
    ident: Id,
    worker: Option<Id>,
    pending: Option<Item>,
    running: Option<Item>,
    preserved: map<Id, Item>)

  /** Where a worker task is: at the top of its loop, or executing an item. */
  datatype Phase = Top | Executing(item: Id, completions: seq<Id>)

  datatype Task =
    | Worker(session: string, schedule: Id, phase: Phase)
    | Preserving(session: string, schedule: Id, item: Item)

  datatype State = State(
    sessions: map<string, Schedule>,
    tasks: map<Id, Task>,
    futures: map<Id, Future>,
    next: Id)

  datatype Config = Config(ttlMs: int, maxSessions: nat, maxPending: nat)

  ghost predicate ValidConfig(c: Config) {
    c.ttlMs >= 1 && c.maxSessions >= 1 && c.maxPending >= 1
  }

  /** A call of `submit`: the clock at the expiry check and inside the lock, the merge window in
      force, and whether the session's task scope accepts a new task. */
  datatype Submission = Submission(
    observation: Observation,
    checkedAtMs: int,
    nowMs: int,
    mergeWindowMs: nat,
    starts: bool)

  datatype Step =
    | Submit(submission: Submission)
    | WorkerTurn(task: Id)
    | WorkerFinish(task: Id, result: Option<Reaction>)
    | PreservedFinish(task: Id, result: Option<Reaction>)
    | CancelSession(session: string)
    | Abandon(task: Id)

  const INITIAL := State(map[], map[], map[], 0)

  // ---------------------------------------------------------------------------------------
  // Steps
  // ---------------------------------------------------------------------------------------

  /** Set the result of those listed futures that are not done yet. */
  function ResolveAll(futures: map<Id, Future>, ids: seq<Id>, value: Option<Reaction>): map<Id, Future> {
    map f | f in futures ::
      if f in ids && futures[f].Waiting? then Done(futures[f].session, value) else futures[f]
  }

  predicate Tracked(s: State, session: string, ident: Id) {
    session in s.sessions && s.sessions[session].ident == ident
  }

  predicate Idle(sch: Schedule) {
    sch.worker.None? && sch.pending.None? && sch.running.None? && sch.preserved == map[]
  }

  /** Store a schedule, or forget the session when the schedule is idle. */
  function Keep(sessions: map<string, Schedule>, session: string, sch: Schedule): map<string, Schedule> {
    if Idle(sch) then sessions - {session} else sessions[session := sch]
  }

  function NewItem(sub: Submission, id: Id, completion: Id): Item {
    Item(id, sub.observation, [completion], sub.mergeWindowMs, sub.nowMs + sub.mergeWindowMs, false)
  }

  predicate Expired(sub: Submission, config: Config) {
    sub.checkedAtMs >= sub.observation.createdAtMs + config.ttlMs
  }

  /** The newcomer outranks the running item. */
  predicate Supersedes(o: Observation, sch: Schedule) {
    sch.running.Some? && Rank(sch.running.value.observation) < Rank(o)
  }

  /** The newcomer ranks below pending, or is not ambient and ranks below running. */
  predicate Drops(o: Observation, sch: Schedule) {
    || (sch.pending.Some? && Rank(o) < Rank(sch.pending.value.observation))
    || (sch.running.Some? && !IsAmbient(o) && Rank(o) < Rank(sch.running.value.observation))
  }

  /** The newcomer is merged into pending: same rank and ambient flag, inside the merge window. */
  predicate Joins(sub: Submission, sch: Schedule) {
    && sch.pending.Some?
    && var p := sch.pending.value;
       && Rank(sub.observation) == Rank(p.observation)
       && IsAmbient(sub.observation) == IsAmbient(p.observation)
       && p.mergeWindowMs != 0
       && sub.nowMs < p.mergeDeadlineMs
       && sub.observation.createdAtMs < p.observation.createdAtMs + p.mergeWindowMs
  }

  function MarkSuperseded(sch: Schedule): Schedule
    requires sch.running.Some?
  {
    sch.(running := Some(sch.running.value.(superseded := true)))
  }

  /** The state in which the newcomer's future is resolved at once and nothing else changes. */
  function Rejected(s: State, completion: Id): State {
    s.(futures := ResolveAll(s.futures, [completion], None))
  }

  function CurrentSchedule(s: State, session: string, ident: Id): Schedule {
    if session in s.sessions then s.sessions[session] else Schedule(ident, None, None, None, map[])
  }

  /** `submit`; the new future is the counter's value before the step. */
  function AfterSubmit(s: State, config: Config, sub: Submission): State {
    var o, completion := sub.observation, s.next;
    var entered := s.(futures := s.futures[completion := Waiting(o.sessionId)], next := s.next + 4);
    var sch := CurrentSchedule(s, o.sessionId, s.next + 3);
    if Expired(sub, config) then Rejected(entered, completion)
    else if o.sessionId !in s.sessions && |s.sessions| >= config.maxSessions then Rejected(entered, completion)
    else if Priority(o) == 3 then AfterUserSubmit(entered, sub, sch, completion)
    else if Drops(o, sch) then Rejected(entered, completion)
    else AfterRankedSubmit(entered, config, sub, if Supersedes(o, sch) then MarkSuperseded(sch) else sch, completion)
  }

  function AfterUserSubmit(s: State, sub: Submission, sch: Schedule, completion: Id): State {
    var o, task, item := sub.observation, completion + 2, NewItem(sub, completion + 1, completion);
    if !sub.starts then Rejected(s, completion)
    else s.(
      sessions := s.sessions[o.sessionId := sch.(preserved := sch.preserved[task := item])],
      tasks := s.tasks[task := Preserving(o.sessionId, sch.ident, item)])
  }

  /** The completion a full pending item gives up to admit another. */
  function Displaced(p: Item, config: Config): seq<Id> {
    if |p.completions| >= config.maxPending && p.completions != [] then [p.completions[0]] else []
  }

  /** The pending item after the newcomer joined it. */
  function Joined(sub: Submission, p: Item, config: Config, completion: Id): Item {
    p.(observation := if p.observation.sessionId == sub.observation.sessionId
                      then Merge(p.observation, sub.observation) else p.observation,
       completions := p.completions[|Displaced(p, config)|..] + [completion])
  }

  function AfterRankedSubmit(s: State, config: Config, sub: Submission, sch: Schedule, completion: Id): State {
    var session, task := sub.observation.sessionId, completion + 2;
    if Joins(sub, sch) then
      var p := sch.pending.value;
      s.(
        sessions := s.sessions[session := sch.(pending := Some(Joined(sub, p, config, completion)))],
        futures := ResolveAll(s.futures, Displaced(p, config), None))
    else
      var futures := if sch.pending.Some? then ResolveAll(s.futures, sch.pending.value.completions, None) else s.futures;
      var item := NewItem(sub, completion + 1, completion);
      if sch.worker.Some? then
        s.(sessions := s.sessions[session := sch.(pending := Some(item))], futures := futures)
      else if sub.starts then
        s.(sessions := s.sessions[session := sch.(pending := Some(item), worker := Some(task))],
           tasks := s.tasks[task := Worker(session, sch.ident, Top)],
           futures := futures)
      else Rejected(s, completion)
  }

  /** A worker at the top of its loop: it takes the pending item, or it leaves. */
  function AfterWorkerTurn(s: State, task: Id): State
    requires task in s.tasks && s.tasks[task].Worker? && s.tasks[task].phase.Top?
  {
    var w := s.tasks[task];
    if !Tracked(s, w.session, w.schedule) then s.(tasks := s.tasks - {task})
    else
      var sch := s.sessions[w.session];
      if sch.pending.None? then
        s.(sessions := Keep(s.sessions, w.session, sch.(worker := None)), tasks := s.tasks - {task})
      else
        var p := sch.pending.value;
        s.(sessions := s.sessions[w.session := sch.(pending := None, running := Some(p))],
           tasks := s.tasks[task := w.(phase := Executing(p.id, p.completions))])
  }

  /** The item a worker executes is still its schedule's running item and not superseded. */
  predicate StillCurrent(s: State, w: Task)
    requires w.Worker? && w.phase.Executing?
  {
    && Tracked(s, w.session, w.schedule)
    && s.sessions[w.session].running.Some?
    && s.sessions[w.session].running.value.id == w.phase.item
    && !s.sessions[w.session].running.value.superseded
  }

  function AfterWorkerFinish(s: State, task: Id, result: Option<Reaction>): State
    requires task in s.tasks && s.tasks[task].Worker? && s.tasks[task].phase.Executing?
  {
    var w := s.tasks[task];
    s.(
      sessions := if Tracked(s, w.session, w.schedule)
                  then s.sessions[w.session := s.sessions[w.session].(running := None)] else s.sessions,
      tasks := s.tasks[task := w.(phase := Top)],
      futures := ResolveAll(s.futures, w.phase.completions, if StillCurrent(s, w) then result else None))
  }

  predicate StillPreserved(s: State, task: Id)
    requires task in s.tasks && s.tasks[task].Preserving?
  {
    var t := s.tasks[task];
    Tracked(s, t.session, t.schedule) && task in s.sessions[t.session].preserved
  }

  function AfterPreservedFinish(s: State, task: Id, result: Option<Reaction>): State
    requires task in s.tasks && s.tasks[task].Preserving?
  {
    var t := s.tasks[task];
    s.(
      sessions := if StillPreserved(s, task)
                  then Keep(s.sessions, t.session,
                            s.sessions[t.session].(preserved := s.sessions[t.session].preserved - {task}))
                  else s.sessions,
      tasks := s.tasks - {task},
      futures := ResolveAll(s.futures, t.item.completions, if StillPreserved(s, task) then result else None))
  }

  predicate Holds(sch: Schedule, f: Id) {
    || (sch.pending.Some? && f in sch.pending.value.completions)
    || (sch.running.Some? && f in sch.running.value.completions)
    || exists t :: t in sch.preserved && f in sch.preserved[t].completions
  }

  /** `cancel_session`: the session is forgotten and everything it owned resolves to nothing; its
      tasks live on until they notice. */
  function AfterCancel(s: State, session: string): State {
    if session !in s.sessions then s
    else s.(
      sessions := s.sessions - {session},
      futures := map f | f in s.futures ::
        if s.futures[f].Waiting? && Holds(s.sessions[session], f) then Done(s.futures[f].session, None)
        else s.futures[f])
  }

  ghost predicate Enabled(s: State, step: Step, world: World) {
    match step
    case Submit(sub) => Mergeable(sub.observation, world)
    case WorkerTurn(t) => t in s.tasks && s.tasks[t].Worker? && s.tasks[t].phase.Top?
    case WorkerFinish(t, _) => t in s.tasks && s.tasks[t].Worker? && s.tasks[t].phase.Executing?
    case PreservedFinish(t, _) => t in s.tasks && s.tasks[t].Preserving?
    case CancelSession(_) => true
    case Abandon(t) => t in s.tasks && !Tracked(s, s.tasks[t].session, s.tasks[t].schedule)
  }

  ghost function After(s: State, config: Config, step: Step, world: World): State
    requires Enabled(s, step, world)
  {
    match step
    case Submit(sub) => AfterSubmit(s, config, sub)
    case WorkerTurn(t) => AfterWorkerTurn(s, t)
    case WorkerFinish(t, r) => AfterWorkerFinish(s, t, r)
    case PreservedFinish(t, r) => AfterPreservedFinish(s, t, r)
    case CancelSession(session) => AfterCancel(s, session)
    case Abandon(t) => s.(tasks := s.tasks - {t})
  }

  // ---------------------------------------------------------------------------------------
  // Invariant
  // ---------------------------------------------------------------------------------------

  datatype Slot = PendingSlot | RunningSlot | PreservedSlot(task: Id)

  ghost function At(sch: Schedule, slot: Slot): Option<Item> {
    match slot
    case PendingSlot => sch.pending
    case RunningSlot => sch.running
    case PreservedSlot(t) => if t in sch.preserved then Some(sch.preserved[t]) else None
  }

  ghost predicate Owns(sch: Schedule, slot: Slot, f: Id) {
    At(sch, slot).Some? && f in At(sch, slot).value.completions
  }

  ghost predicate ItemOk(item: Item, slot: Slot, session: string, s: State, world: World) {
    && item.id < s.next
    && item.observation.sessionId == session
    && Mergeable(item.observation, world)
    && item.completions != []
    && NoDuplicates(item.completions)
    && (forall f :: f in item.completions ==> f in s.futures && s.futures[f] == Waiting(session))
    && (Priority(item.observation) == 3 <==> slot.PreservedSlot?)
  }

  /** The items of a schedule are well formed and no future belongs to two of them. */
  ghost predicate ItemsOk(session: string, sch: Schedule, s: State, world: World) {
    && (forall slot :: At(sch, slot).Some? ==> ItemOk(At(sch, slot).value, slot, session, s, world))
    && (forall x, y, f: Id :: Owns(sch, x, f) && Owns(sch, y, f) ==> x == y)
  }

  ghost predicate RankOk(sch: Schedule) {
    sch.running.Some? && !sch.running.value.superseded && sch.pending.Some?
    ==> Rank(sch.pending.value.observation) <= Rank(sch.running.value.observation)
  }

  ghost predicate WorkerOk(session: string, sch: Schedule, s: State) {
    match sch.worker
    case None => sch.pending.None? && sch.running.None? && sch.preserved != map[]
    case Some(t) =>
      && t in s.tasks
      && s.tasks[t] == Worker(session, sch.ident, if sch.running.None? then Top
                              else Executing(sch.running.value.id, sch.running.value.completions))
  }

  ghost predicate ScheduleOk(session: string, sch: Schedule, s: State, world: World) {
    match sch
    case Schedule(ident, _, _, _, _) =>
      && ident < s.next
      && ItemsOk(session, sch, s, world)
      && RankOk(sch)
      && WorkerOk(session, sch, s)
      && PreservedOk(session, sch, s)
  }

  ghost predicate PreservedOk(session: string, sch: Schedule, s: State) {
    forall t :: t in sch.preserved ==> t in s.tasks && s.tasks[t] == Preserving(session, sch.ident, sch.preserved[t])
  }

  ghost predicate FutureOk(f: Id, s: State)
    requires f in s.futures
  {
    && f < s.next
    && (s.futures[f].Waiting? ==>
          var session := s.futures[f].session;
          session in s.sessions && exists slot :: Owns(s.sessions[session], slot, f))
  }

  ghost function Carried(t: Task): seq<Id> {
    match t
    case Worker(_, _, Top) => []
    case Worker(_, _, Executing(_, c)) => c
    case Preserving(_, _, item) => item.completions
  }

  ghost predicate TaskOk(t: Id, s: State)
    requires t in s.tasks
  {
    var task := s.tasks[t];
    && t < s.next
    && task.schedule < s.next
    && (if Tracked(s, task.session, task.schedule) then
          (if task.Worker? then s.sessions[task.session].worker == Some(t) else t in s.sessions[task.session].preserved)
        else
          forall f :: f in Carried(task) ==> f in s.futures && s.futures[f].Done?)
  }

  /** The inductive invariant of the scheduler. */
  ghost predicate Inv(s: State, config: Config, world: World) {
    match s
    case State(sessions, tasks, futures, _) =>
      && (forall session :: session in sessions ==> ScheduleOk(session, sessions[session], s, world))
      && (forall f :: f in futures ==> FutureOk(f, s))
      && (forall t :: t in tasks ==> TaskOk(t, s))
      && |sessions| <= config.maxSessions
  }
}

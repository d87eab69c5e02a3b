/** The cooldown between voice observations, and the delta that gathers what arrives during it. */
module VoiceCooldown {
  import opened Options
  import opened Sets
  import opened Sequences

  datatype TargetKey = Viewer(id: string) | Persona(id: string)

  /** What a finished voice turn asks to be scheduled. */
  datatype Input = Input(eventIds: seq<string>, viewerId: Option<string>, personaId: Option<string>, context: Option<map<string, string>>)

  datatype Delta = Delta(eventIds: seq<string>, targets: set<TargetKey>, context: map<string, string>, turnIds: set<string>)

  const EMPTY := Delta([], {}, map[], {})

  const TURN_ID := "turn_id"

  // ---------------------------------------------------------------------------------------
  // Accumulation
  // ---------------------------------------------------------------------------------------

  /** Keys of an ordered dictionary after adding more keys: known ones keep their place. */
  function Remembered(ids: seq<string>, more: seq<string>): seq<string> {
    if more == [] then ids
    else
      var front, last := Remembered(ids, more[..|more| - 1]), more[|more| - 1];
      if last in front then front else front + [last]
  }

  /** `_trim_ordered_ids` */
  function Trimmed(ids: seq<string>, cap: nat): seq<string> {
    if |ids| > cap then ids[|ids| - cap..] else ids
  }

  /** A set that stops growing at two elements. */
  function Capped<T>(s: set<T>, x: Option<T>): set<T> {
    if x.Some? && (x.value in s || |s| < 2) then s + {x.value} else s
  }

  function Uncapped<T>(s: set<T>, x: Option<T>): set<T> {
    if x.Some? then s + {x.value} else s
  }

  function ViewerKey(input: Input): Option<TargetKey> {
    if input.viewerId.Some? then Some(Viewer(input.viewerId.value)) else None
  }

  function PersonaKey(input: Input): Option<TargetKey> {
    if input.personaId.Some? then Some(Persona(input.personaId.value)) else None
  }

  function TurnIdOf(input: Input): Option<string> {
    if input.context.Some? && TURN_ID in input.context.value then Some(input.context.value[TURN_ID]) else None
  }

  ghost function Only<T>(s: set<T>): T
    requires |s| == 1
  {
    var x :| x in s;
    x
  }

  lemma OnlyIs<T>(s: set<T>, x: T)
    requires |s| == 1 && x in s
    ensures s == {x} && Only(s) == x
  {
    assert |s - {x}| == 0;
    assert s == {x};
  }

  /** The context with the one turn id there is, or without a turn id. */
  ghost function WithTurnId(context: map<string, string>, turnIds: set<string>): map<string, string> {
    if |turnIds| == 1 then context[TURN_ID := Only(turnIds)] else context - {TURN_ID}
  }

  /** `_accumulate_voice_cooldown_delta` */
  ghost function Accumulated(d: Delta, input: Input, cap: nat): Delta {
    var eventIds := Trimmed(Remembered(d.eventIds, input.eventIds), cap);
    var targets := Capped(Capped(d.targets, ViewerKey(input)), PersonaKey(input));
    if input.context.None? then Delta(eventIds, targets, d.context, d.turnIds)
    else
      var turnIds := Capped(d.turnIds, TurnIdOf(input));
      Delta(eventIds, targets, WithTurnId(d.context + (input.context.value - {TURN_ID}), turnIds), turnIds)
  }

  /** The same with sets that remember everything. */
  ghost function Unbounded(d: Delta, input: Input): Delta {
    var eventIds := Remembered(d.eventIds, input.eventIds);
    var targets := Uncapped(Uncapped(d.targets, ViewerKey(input)), PersonaKey(input));
    if input.context.None? then Delta(eventIds, targets, d.context, d.turnIds)
    else
      var turnIds := Uncapped(d.turnIds, TurnIdOf(input));
      Delta(eventIds, targets, WithTurnId(d.context + (input.context.value - {TURN_ID}), turnIds), turnIds)
  }

  /** `_target_from_accumulated_targets` */
  ghost function TargetFrom(targets: set<TargetKey>): (Option<string>, Option<string>) {
    if |targets| != 1 then (None, None)
    else match Only(targets)
      case Viewer(id) => (Some(id), None)
      case Persona(id) => (None, Some(id))
  }

  /** capped tells as much about all as its size below two allows. */
  ghost predicate Stands<T>(capped: set<T>, all: set<T>) {
    && capped <= all
    && (|all| <= 1 ==> capped == all)
    && (|all| >= 2 ==> |capped| == 2)
  }

  lemma CappedStands<T>(capped: set<T>, all: set<T>, x: Option<T>)
    requires Stands(capped, all)
    ensures Stands(Capped(capped, x), Uncapped(all, x))
  {
    if x.Some? {
      SubsetSize(capped, all);
      SubsetSize(all, all + {x.value});
      if |all| >= 2 {
        assert x.value !in capped ==> Capped(capped, x) == capped;
        assert x.value in capped ==> capped + {x.value} == capped;
      }
    }
  }

  lemma StandsOnly<T>(capped: set<T>, all: set<T>)
    requires Stands(capped, all)
    ensures |capped| == 1 <==> |all| == 1
    ensures |capped| == 1 ==> Only(capped) == Only(all)
  {
    SubsetSize(capped, all);
  }

  /** The bounded delta yields the same target and the same context as one that keeps every target
      and every turn id. */
  ghost predicate Represents(d: Delta, full: Delta) {
    Stands(d.targets, full.targets) && Stands(d.turnIds, full.turnIds) && d.context == full.context
  }

  lemma AccumulatedRepresents(d: Delta, full: Delta, input: Input, cap: nat)
    requires Represents(d, full)
    ensures Represents(Accumulated(d, input, cap), Unbounded(full, input))
  {
    CappedStands(d.targets, full.targets, ViewerKey(input));
    CappedStands(Capped(d.targets, ViewerKey(input)), Uncapped(full.targets, ViewerKey(input)), PersonaKey(input));
    CappedStands(d.turnIds, full.turnIds, TurnIdOf(input));
    StandsOnly(Capped(d.turnIds, TurnIdOf(input)), Uncapped(full.turnIds, TurnIdOf(input)));
  }

  lemma RepresentsTarget(d: Delta, full: Delta)
    requires Represents(d, full)
    ensures TargetFrom(d.targets) == TargetFrom(full.targets)
  {
    StandsOnly(d.targets, full.targets);
  }

  // ---------------------------------------------------------------------------------------
  // The cooldown as a state machine
  // ---------------------------------------------------------------------------------------

  type Task = nat

  /** A flush task and the time its sleep ends. */
  datatype Flush = Flush(task: Task, deadlineMs: int)

  /** An observation handed to the scheduler. */
  datatype Scheduled = Scheduled(atMs: int, eventIds: seq<string>, viewerId: Option<string>, personaId: Option<string>, context: Option<map<string, string>>)

  /** `full` is what a delta without bounds would hold, `submitted` all events in the order they came. */
  datatype State = State(lastMs: Option<int>, delta: Delta, flush: Option<Flush>, nextTask: Task, full: Delta,
                         submitted: seq<string>, schedules: seq<Scheduled>)

  const INITIAL := State(None, EMPTY, None, 0, EMPTY, [], [])

  datatype Config = Config(cooldownMs: nat, cap: nat)

  /** A call with the clock reading it made, or a flush task waking up at nowMs. */
  datatype Step = Submit(input: Input, nowMs: int) | Wake(task: Task, nowMs: int)

  ghost function FromDelta(d: Delta, nowMs: int): Scheduled {
    var (viewerId, personaId) := TargetFrom(d.targets);
    Scheduled(nowMs, d.eventIds, viewerId, personaId, if d.context == map[] then None else Some(d.context))
  }

  /** What is handed on now, if anything, and what is left behind. */
  ghost function AfterSubmit(s: State, c: Config, input: Input, nowMs: int): State {
    var t := s.(submitted := s.submitted + input.eventIds);
    if s.lastMs.None? then
      t.(lastMs := Some(nowMs),
         schedules := s.schedules + [Scheduled(nowMs, input.eventIds, input.viewerId, input.personaId, input.context)])
    else if nowMs < s.lastMs.value + c.cooldownMs then
      var gathered := t.(delta := Accumulated(s.delta, input, c.cap), full := Unbounded(s.full, input));
      if s.flush.Some? then gathered
      else gathered.(flush := Some(Flush(s.nextTask, s.lastMs.value + c.cooldownMs)), nextTask := s.nextTask + 1)
    else
      var d := Accumulated(s.delta, input, c.cap);
      t.(lastMs := Some(nowMs), delta := EMPTY, full := EMPTY, flush := None,
         schedules := s.schedules + [FromDelta(d, nowMs)])
  }

  /** A flush task does nothing unless it is the current one; its sleep lasts to its deadline. */
  ghost predicate Wakes(s: State, task: Task, nowMs: int) {
    s.flush.Some? && s.flush.value.task == task && nowMs >= s.flush.value.deadlineMs
  }

  ghost function AfterWake(s: State, task: Task, nowMs: int): State {
    if !Wakes(s, task, nowMs) then s
    else
      var t := s.(delta := EMPTY, full := EMPTY, flush := None);
      if s.delta.eventIds == [] then t
      else t.(lastMs := Some(nowMs), schedules := s.schedules + [FromDelta(s.delta, nowMs)])
  }

  ghost function Next(s: State, c: Config, step: Step): State {
    match step
    case Submit(input, nowMs) => AfterSubmit(s, c, input, nowMs)
    case Wake(task, nowMs) => AfterWake(s, task, nowMs)
  }

  ghost function After(run: seq<Step>, c: Config): State {
    if run == [] then INITIAL else Next(After(run[..|run| - 1], c), c, run[|run| - 1])
  }

  // ---------------------------------------------------------------------------------------
  // Invariants
  // ---------------------------------------------------------------------------------------

  ghost predicate FlushInv(s: State, c: Config) {
    && (s.delta != EMPTY ==> s.flush.Some?)
    && (s.flush.Some? ==> s.lastMs.Some? && s.flush.value.deadlineMs == s.lastMs.value + c.cooldownMs)
    && Represents(s.delta, s.full)
    && (TURN_ID in s.full.context <==> |s.full.turnIds| == 1)
    && (TURN_ID in s.full.context ==> s.full.context[TURN_ID] == Only(s.full.turnIds))
  }

  ghost predicate SpacingInv(s: State, c: Config) {
    && (s.lastMs.None? <==> s.schedules == [])
    && (s.schedules != [] ==> s.lastMs == Some(s.schedules[|s.schedules| - 1].atMs))
    && (forall i :: 0 <= i < |s.schedules| - 1 ==> s.schedules[i].atMs + c.cooldownMs <= s.schedules[i + 1].atMs)
  }

  lemma StepKeepsFlush(s: State, c: Config, step: Step)
    requires FlushInv(s, c)
    ensures FlushInv(Next(s, c, step), c)
  {
    match step
    case Submit(input, nowMs) => AccumulatedRepresents(s.delta, s.full, input, c.cap);
    case Wake(_, _) =>
  }

  lemma StepKeepsSpacing(s: State, c: Config, step: Step)
    requires s.flush.Some? ==> s.lastMs.Some? && s.flush.value.deadlineMs == s.lastMs.value + c.cooldownMs
    requires SpacingInv(s, c)
    ensures SpacingInv(Next(s, c, step), c)
  {
    var s' := Next(s, c, step);
    if |s'.schedules| > |s.schedules| {
      SpacingGrows(s, s', c, s'.schedules[|s.schedules|]);
    }
  }

  lemma SpacingGrows(s: State, s': State, c: Config, x: Scheduled)
    requires SpacingInv(s, c) && s'.schedules == s.schedules + [x] && s'.lastMs == Some(x.atMs)
    requires s.lastMs.Some? ==> s.lastMs.value + c.cooldownMs <= x.atMs
    ensures SpacingInv(s', c)
  {
    assert s'.schedules[..|s.schedules|] == s.schedules;
  }

  lemma {:induction false} RunKeepsInv(run: seq<Step>, c: Config)
    ensures FlushInv(After(run, c), c) && SpacingInv(After(run, c), c)
  {
    if run != [] {
      RunKeepsInv(run[..|run| - 1], c);
      StepKeepsFlush(After(run[..|run| - 1], c), c, run[|run| - 1]);
      StepKeepsSpacing(After(run[..|run| - 1], c), c, run[|run| - 1]);
    }
  }

  /** Voice observations are at least the cooldown apart, whatever the order in which calls and
      flush tasks get the lock. */
  lemma {:induction false} CooldownBetween(run: seq<Step>, c: Config, i: nat, j: nat)
    requires i < j < |After(run, c).schedules|
    ensures After(run, c).schedules[i].atMs + (j - i) * c.cooldownMs <= After(run, c).schedules[j].atMs
    decreases j - i
  {
    RunKeepsInv(run, c);
    if i + 1 < j {
      CooldownBetween(run, c, i, j - 1);
      assert (j - i) * c.cooldownMs == (j - 1 - i) * c.cooldownMs + c.cooldownMs;
      assert After(run, c).schedules[j - 1].atMs + c.cooldownMs <= After(run, c).schedules[j - 1 + 1].atMs;
    }
  }

  /** What waits has a live flush task whose deadline is the end of the present cooldown. */
  lemma WaitingIsFlushed(run: seq<Step>, c: Config)
    requires After(run, c).delta != EMPTY
    ensures var s := After(run, c);
            s.flush.Some? && s.lastMs.Some? && s.flush.value.deadlineMs == s.lastMs.value + c.cooldownMs
  {
    RunKeepsInv(run, c);
  }

  /** What is handed on while the delta is emptied carries the target and the context that unbounded
      sets would give; in particular a turn id exactly when all gathered contexts agree on one. */
  lemma BoundsDoNotShow(run: seq<Step>, c: Config, input: Input, nowMs: int)
    ensures var s := After(run, c);
            && FromDelta(s.delta, nowMs).(eventIds := []) == FromDelta(s.full, nowMs).(eventIds := [])
            && FromDelta(Accumulated(s.delta, input, c.cap), nowMs).(eventIds := []) ==
               FromDelta(Unbounded(s.full, input), nowMs).(eventIds := [])
            && (TURN_ID in s.full.context <==> |s.full.turnIds| == 1)
            && (TURN_ID in s.full.context ==> s.full.context[TURN_ID] == Only(s.full.turnIds))
  {
    RunKeepsInv(run, c);
    var s := After(run, c);
    RepresentsTarget(s.delta, s.full);
    AccumulatedRepresents(s.delta, s.full, input, c.cap);
    RepresentsTarget(Accumulated(s.delta, input, c.cap), Unbounded(s.full, input));
  }

  // ---------------------------------------------------------------------------------------
  // Events
  // ---------------------------------------------------------------------------------------

  /** The events of all observations handed on, in order. */
  ghost function HandedOn(schedules: seq<Scheduled>): seq<string> {
    if schedules == [] then [] else HandedOn(schedules[..|schedules| - 1]) + schedules[|schedules| - 1].eventIds
  }

  /** Everything that was not left behind: handed on, or waiting. */
  ghost function Accounted(s: State): seq<string> {
    HandedOn(s.schedules) + s.delta.eventIds
  }

  lemma LastApart<T>(a: seq<T>, b: seq<T>)
    requires b != []
    ensures a + b == a + b[..|b| - 1] + [b[|b| - 1]]
  {
  }

  lemma FreshLast(ids: seq<string>, last: string)
    requires NoDuplicates(ids + [last])
    ensures NoDuplicates(ids) && last !in ids
  {
    var all := ids + [last];
    assert all[|ids|] == last;
    assert forall i :: 0 <= i < |ids| ==> all[i] == ids[i];
  }

  lemma {:induction false} RememberedIsAppended(ids: seq<string>, more: seq<string>)
    requires NoDuplicates(ids + more)
    ensures Remembered(ids, more) == ids + more
  {
    if more != [] {
      var front, last := more[..|more| - 1], more[|more| - 1];
      LastApart(ids, more);
      FreshLast(ids + front, last);
      RememberedIsAppended(ids, front);
    } else {
      assert ids + more == ids;
    }
  }

  lemma HandedOnMore(schedules: seq<Scheduled>, last: Scheduled)
    ensures HandedOn(schedules + [last]) == HandedOn(schedules) + last.eventIds
  {
    assert (schedules + [last])[..|schedules|] == schedules;
  }

  /** What a step accounts for, before anything is trimmed. */
  ghost function Before(s: State, step: Step): seq<string> {
    if step.Submit? then Accounted(s) + step.input.eventIds else Accounted(s)
  }

  ghost predicate Roomy(s: State, c: Config, step: Step) {
    step.Submit? ==> |s.delta.eventIds| + |step.input.eventIds| <= c.cap
  }

  /** A step hands on or keeps all it had, except for the oldest waiting events when there are too
      many. */
  lemma StepAccounts(s: State, c: Config, step: Step)
    requires FlushInv(s, c) && NoDuplicates(Before(s, step))
    ensures exists a, b, d :: Before(s, step) == a + b + d && Accounted(Next(s, c, step)) == a + d
    ensures Roomy(s, c, step) ==> Accounted(Next(s, c, step)) == Before(s, step)
  {
    var handed, waiting := HandedOn(s.schedules), s.delta.eventIds;
    match step
    case Submit(input, nowMs) =>
      if s.lastMs.None? {
        assert s.delta == EMPTY;
        HandedOnMore(s.schedules, Scheduled(nowMs, input.eventIds, input.viewerId, input.personaId, input.context));
        assert Accounted(Next(s, c, step)) == Before(s, step);
        assert Before(s, step) == Before(s, step) + [] + [];
      } else {
        SubmitAccounts(s, c, input, nowMs);
      }
    case Wake(_, nowMs) =>
      HandedOnMore(s.schedules, FromDelta(s.delta, nowMs));
      assert Accounted(Next(s, c, step)) == Before(s, step);
      assert Before(s, step) == Before(s, step) + [] + [];
  }

  lemma SubmitAccounts(s: State, c: Config, input: Input, nowMs: int)
    requires s.lastMs.Some? && NoDuplicates(Before(s, Submit(input, nowMs)))
    ensures var step := Submit(input, nowMs);
            && (exists a, b, d :: Before(s, step) == a + b + d && Accounted(Next(s, c, step)) == a + d)
            && (Roomy(s, c, step) ==> Accounted(Next(s, c, step)) == Before(s, step))
  {
    var handed, all := HandedOn(s.schedules), s.delta.eventIds + input.eventIds;
    var kept := Trimmed(all, c.cap);
    SubmitKeeps(s, c, input, nowMs);
    assert Before(s, Submit(input, nowMs)) == handed + all;
    TrimmedOff(handed, all, c.cap);
  }

  lemma TrimmedOff(handed: seq<string>, all: seq<string>, cap: nat)
    ensures handed + all == handed + all[..|all| - |Trimmed(all, cap)|] + Trimmed(all, cap)
  {
  }

  lemma NoDuplicatesSuffix(front: seq<string>, ids: seq<string>)
    requires NoDuplicates(front + ids)
    ensures NoDuplicates(ids)
  {
    assert forall i :: 0 <= i < |ids| ==> ids[i] == (front + ids)[|front| + i];
  }

  lemma SubmitKeeps(s: State, c: Config, input: Input, nowMs: int)
    requires s.lastMs.Some? && NoDuplicates(Before(s, Submit(input, nowMs)))
    ensures Accounted(AfterSubmit(s, c, input, nowMs)) == HandedOn(s.schedules) + Trimmed(s.delta.eventIds + input.eventIds, c.cap)
  {
    assert Before(s, Submit(input, nowMs)) == HandedOn(s.schedules) + (s.delta.eventIds + input.eventIds);
    NoDuplicatesSuffix(HandedOn(s.schedules), s.delta.eventIds + input.eventIds);
    RememberedIsAppended(s.delta.eventIds, input.eventIds);
    HandedOnMore(s.schedules, FromDelta(Accumulated(s.delta, input, c.cap), nowMs));
  }

  lemma NoDuplicatesPart(part: seq<string>, all: seq<string>)
    requires Subsequence(part, all) && NoDuplicates(all)
    ensures NoDuplicates(part)
  {
    PartOfDistinct(part, all);
  }

  lemma SubmittedGrows(s: State, c: Config, step: Step)
    ensures Next(s, c, step).submitted == s.submitted + if step.Submit? then step.input.eventIds else []
  {
  }

  /** If no event is submitted twice, every event is handed on at most once and in order, also with
      respect to those still waiting. */
  lemma {:induction false} HandedOnOnce(run: seq<Step>, c: Config)
    requires NoDuplicates(After(run, c).submitted)
    ensures Subsequence(Accounted(After(run, c)), After(run, c).submitted)
    ensures NoDuplicates(Accounted(After(run, c)))
  {
    if run == [] {
      Empty<string>([]);
      assert Accounted(INITIAL) == [];
    } else {
      var s, step := After(run[..|run| - 1], c), run[|run| - 1];
      SubmittedGrows(s, c, step);
      var more := if step.Submit? then step.input.eventIds else [];
      assert NoDuplicates(s.submitted) by {
        assert forall i :: 0 <= i < |s.submitted| ==> s.submitted[i] == (s.submitted + more)[i];
      }
      HandedOnOnce(run[..|run| - 1], c);
      ExtendAll(Accounted(s), s.submitted, more);
      assert Before(s, step) == Accounted(s) + more;
      NoDuplicatesPart(Before(s, step), s.submitted + more);
      RunKeepsInv(run[..|run| - 1], c);
      StepAccounts(s, c, step);
      var a, b, d :| Before(s, step) == a + b + d && Accounted(Next(s, c, step)) == a + d;
      WithoutRange(a, b, d, s.submitted + more);
      NoDuplicatesPart(Accounted(Next(s, c, step)), s.submitted + more);
    }
  }

  ghost predicate AlwaysRoomy(run: seq<Step>, c: Config) {
    run != [] ==> Roomy(After(run[..|run| - 1], c), c, run[|run| - 1]) && AlwaysRoomy(run[..|run| - 1], c)
  }

  /** And as long as no more events wait than the cap allows, none is lost. */
  lemma {:induction false} NothingLost(run: seq<Step>, c: Config)
    requires NoDuplicates(After(run, c).submitted) && AlwaysRoomy(run, c)
    ensures Accounted(After(run, c)) == After(run, c).submitted
  {
    if run == [] {
      assert Accounted(INITIAL) == [];
    } else {
      var s, step := After(run[..|run| - 1], c), run[|run| - 1];
      SubmittedGrows(s, c, step);
      var more := if step.Submit? then step.input.eventIds else [];
      assert NoDuplicates(s.submitted) by {
        assert forall i :: 0 <= i < |s.submitted| ==> s.submitted[i] == (s.submitted + more)[i];
      }
      NothingLost(run[..|run| - 1], c);
      assert Before(s, step) == s.submitted + more;
      RunKeepsInv(run[..|run| - 1], c);
      StepAccounts(s, c, step);
    }
  }
}

/** What the cooldown hands on, in terms of the voice turns it gathered. */
module VoiceCooldownHandover {
  import opened Options
  import opened Sequences
  import opened VoiceCooldown

  // ---------------------------------------------------------------------------------------
  // What was gathered
  // ---------------------------------------------------------------------------------------

  /** The clock reading of the last observation handed on before this moment is less than a cooldown
      ago. */
  ghost predicate Cooling(schedules: seq<Scheduled>, c: Config, nowMs: int) {
    schedules != [] && nowMs - schedules[|schedules| - 1].atMs < c.cooldownMs
  }

  /** The voice turns that came during a cooldown and are still waiting. */
  ghost function Gathered(run: seq<Step>, c: Config): seq<Input> {
    if run == [] then []
    else
      var front, s := run[..|run| - 1], After(run[..|run| - 1], c);
      match run[|run| - 1]
      case Submit(input, nowMs) => if Cooling(s.schedules, c, nowMs) then Gathered(front, c) + [input] else []
      case Wake(task, nowMs) => if Wakes(s, task, nowMs) then [] else Gathered(front, c)
  }

  ghost predicate NamesViewer(inputs: seq<Input>, viewer: string) {
    exists k :: 0 <= k < |inputs| && inputs[k].viewerId == Some(viewer)
  }

  ghost predicate NamesPersona(inputs: seq<Input>, persona: string) {
    exists k :: 0 <= k < |inputs| && inputs[k].personaId == Some(persona)
  }

  /** The target is the only one that the turns name, or none if they name several or none. */
  ghost predicate TargetIs(viewerId: Option<string>, personaId: Option<string>, inputs: seq<Input>) {
    && (forall v :: viewerId == Some(v) <==>
          NamesViewer(inputs, v) && (forall w :: NamesViewer(inputs, w) ==> w == v) && (forall p :: !NamesPersona(inputs, p)))
    && (forall p :: personaId == Some(p) <==>
          NamesPersona(inputs, p) && (forall q :: NamesPersona(inputs, q) ==> q == p) && (forall v :: !NamesViewer(inputs, v)))
  }

  ghost predicate HasKey(input: Input, key: string) {
    input.context.Some? && key in input.context.value
  }

  /** The last of the turns whose context has the key has this value under it. */
  ghost predicate LastValue(inputs: seq<Input>, key: string, value: string) {
    exists k :: 0 <= k < |inputs| && HasKey(inputs[k], key) && inputs[k].context.value[key] == value
                && forall j :: k < j < |inputs| ==> !HasKey(inputs[j], key)
  }

  ghost predicate NamesTurn(inputs: seq<Input>, turnId: string) {
    exists k :: 0 <= k < |inputs| && HasKey(inputs[k], TURN_ID) && inputs[k].context.value[TURN_ID] == turnId
  }

  /** The context has for every key the last value given, and a turn id only if all agree on one. */
  ghost predicate ContextIs(context: map<string, string>, inputs: seq<Input>) {
    && (forall key, value :: key != TURN_ID ==> (key in context && context[key] == value <==> LastValue(inputs, key, value)))
    && (forall t :: TURN_ID in context && context[TURN_ID] == t <==>
          NamesTurn(inputs, t) && forall u :: NamesTurn(inputs, u) ==> u == t)
  }

  // ---------------------------------------------------------------------------------------
  // The unbounded delta
  // ---------------------------------------------------------------------------------------

  ghost function FullOf(inputs: seq<Input>): Delta {
    if inputs == [] then EMPTY else Unbounded(FullOf(inputs[..|inputs| - 1]), inputs[|inputs| - 1])
  }

  lemma SplitLast<T>(s: seq<T>)
    requires s != []
    ensures s == s[..|s| - 1] + [s[|s| - 1]]
  {
  }

  lemma NamesMore(front: seq<Input>, last: Input)
    ensures forall v :: NamesViewer(front + [last], v) <==> NamesViewer(front, v) || last.viewerId == Some(v)
    ensures forall p :: NamesPersona(front + [last], p) <==> NamesPersona(front, p) || last.personaId == Some(p)
    ensures forall t :: NamesTurn(front + [last], t) <==>
                        NamesTurn(front, t) || (HasKey(last, TURN_ID) && last.context.value[TURN_ID] == t)
  {
    var all := front + [last];
    assert all[|front|] == last;
    assert forall k :: 0 <= k < |front| ==> all[k] == front[k];
  }

  lemma {:induction false} FullTargets(inputs: seq<Input>)
    ensures forall v :: Viewer(v) in FullOf(inputs).targets <==> NamesViewer(inputs, v)
    ensures forall p :: Persona(p) in FullOf(inputs).targets <==> NamesPersona(inputs, p)
    ensures forall t :: t in FullOf(inputs).turnIds <==> NamesTurn(inputs, t)
  {
    if inputs != [] {
      SplitLast(inputs);
      FullTargets(inputs[..|inputs| - 1]);
      NamesMore(inputs[..|inputs| - 1], inputs[|inputs| - 1]);
    }
  }

  lemma LastValueMore(front: seq<Input>, last: Input, key: string, value: string)
    ensures LastValue(front + [last], key, value) <==>
            if HasKey(last, key) then last.context.value[key] == value else LastValue(front, key, value)
  {
    var all := front + [last];
    assert all[|front|] == last;
    assert forall k :: 0 <= k < |front| ==> all[k] == front[k];
    if LastValue(front, key, value) && !HasKey(last, key) {
      var k :| 0 <= k < |front| && HasKey(front[k], key) && front[k].context.value[key] == value
               && forall j :: k < j < |front| ==> !HasKey(front[j], key);
      assert HasKey(all[k], key);
    }
  }

  lemma {:induction false} FullContext(inputs: seq<Input>, key: string, value: string)
    requires key != TURN_ID
    ensures key in FullOf(inputs).context && FullOf(inputs).context[key] == value <==> LastValue(inputs, key, value)
  {
    if inputs != [] {
      SplitLast(inputs);
      FullContext(inputs[..|inputs| - 1], key, value);
      LastValueMore(inputs[..|inputs| - 1], inputs[|inputs| - 1], key, value);
    }
  }

  lemma {:induction false} FullTurn(inputs: seq<Input>)
    ensures var d := FullOf(inputs);
            && (TURN_ID in d.context <==> |d.turnIds| == 1)
            && (TURN_ID in d.context ==> d.context[TURN_ID] == Only(d.turnIds))
  {
    if inputs != [] {
      FullTurn(inputs[..|inputs| - 1]);
    }
  }

  lemma SingleIff<T>(s: set<T>, x: T)
    ensures |s| == 1 && Only(s) == x <==> x in s && forall y :: y in s ==> y == x
  {
    if |s| == 1 {
      OnlyIs(s, Only(s));
    }
    if x in s && forall y :: y in s ==> y == x {
      assert s == {x};
    }
  }

  lemma FullContextIs(inputs: seq<Input>)
    ensures ContextIs(FullOf(inputs).context, inputs)
  {
    var d := FullOf(inputs);
    FullTurn(inputs);
    FullTargets(inputs);
    forall key, value | key != TURN_ID
      ensures key in d.context && d.context[key] == value <==> LastValue(inputs, key, value)
    {
      FullContext(inputs, key, value);
    }
    forall t
      ensures TURN_ID in d.context && d.context[TURN_ID] == t <==> NamesTurn(inputs, t) && forall u :: NamesTurn(inputs, u) ==> u == t
    {
      SingleIff(d.turnIds, t);
    }
  }

  lemma FullTargetIs(inputs: seq<Input>)
    ensures var (viewerId, personaId) := TargetFrom(FullOf(inputs).targets); TargetIs(viewerId, personaId, inputs)
  {
    var targets := FullOf(inputs).targets;
    var (viewerId, personaId) := TargetFrom(targets);
    FullTargets(inputs);
    forall v
      ensures viewerId == Some(v) <==> |targets| == 1 && Only(targets) == Viewer(v)
      ensures viewerId == Some(v) <==> Viewer(v) in targets && forall y :: y in targets ==> y == Viewer(v)
    {
      SingleIff(targets, Viewer(v));
    }
    forall p
      ensures personaId == Some(p) <==> Persona(p) in targets && forall y :: y in targets ==> y == Persona(p)
    {
      SingleIff(targets, Persona(p));
    }
    NamedTargets(targets, inputs);
  }

  /** A set of targets in terms of the names it stands for. */
  lemma NamedTargets(targets: set<TargetKey>, inputs: seq<Input>)
    requires forall v :: Viewer(v) in targets <==> NamesViewer(inputs, v)
    requires forall p :: Persona(p) in targets <==> NamesPersona(inputs, p)
    ensures forall v :: (Viewer(v) in targets && forall y :: y in targets ==> y == Viewer(v)) <==>
              NamesViewer(inputs, v) && (forall w :: NamesViewer(inputs, w) ==> w == v) && (forall p :: !NamesPersona(inputs, p))
    ensures forall p :: (Persona(p) in targets && forall y :: y in targets ==> y == Persona(p)) <==>
              NamesPersona(inputs, p) && (forall q :: NamesPersona(inputs, q) ==> q == p) && (forall v :: !NamesViewer(inputs, v))
  {
    forall y: TargetKey
      ensures y in targets <==> match y case Viewer(v) => NamesViewer(inputs, v) case Persona(p) => NamesPersona(inputs, p)
    {
    }
  }

  // ---------------------------------------------------------------------------------------
  // Events
  // ---------------------------------------------------------------------------------------

  ghost function EventsIn(inputs: seq<Input>): seq<string> {
    if inputs == [] then [] else EventsIn(inputs[..|inputs| - 1]) + inputs[|inputs| - 1].eventIds
  }

  /** part is what is left of all when only the newest, as many as the cap allows, are kept. */
  ghost predicate Newest(part: seq<string>, all: seq<string>, cap: nat) {
    && |part| <= |all| && part == all[|all| - |part|..]
    && |part| <= cap && (|part| == cap || |part| == |all|)
  }

  lemma NewestMore(part: seq<string>, all: seq<string>, more: seq<string>, cap: nat)
    requires Newest(part, all, cap)
    ensures Newest(Trimmed(part + more, cap), all + more, cap)
  {
  }

  lemma EventsMore(front: seq<Input>, last: Input)
    ensures EventsIn(front + [last]) == EventsIn(front) + last.eventIds
  {
    assert (front + [last])[..|front|] == front;
  }

  // ---------------------------------------------------------------------------------------
  // Runs
  // ---------------------------------------------------------------------------------------

  /** The waiting delta stands for the gathered turns, whose events are the end of all submitted. */
  ghost predicate GatheredInv(s: State, c: Config, inputs: seq<Input>) {
    && s.full.(eventIds := []) == FullOf(inputs).(eventIds := [])
    && (s.schedules == [] ==> inputs == [])
    && |EventsIn(inputs)| <= |s.submitted| && EventsIn(inputs) == s.submitted[|s.submitted| - |EventsIn(inputs)|..]
    && (NoDuplicates(s.submitted) ==> Newest(s.delta.eventIds, EventsIn(inputs), c.cap))
  }

  lemma UnboundedLike(d: Delta, e: Delta, input: Input)
    requires d.(eventIds := []) == e.(eventIds := [])
    ensures Unbounded(d, input).(eventIds := []) == Unbounded(e, input).(eventIds := [])
  {
  }

  lemma FullMore(inputs: seq<Input>, input: Input)
    ensures FullOf(inputs + [input]) == Unbounded(FullOf(inputs), input)
  {
    assert (inputs + [input])[..|inputs|] == inputs;
  }

  lemma SuffixMore(part: seq<string>, all: seq<string>, more: seq<string>)
    requires |part| <= |all| && part == all[|all| - |part|..]
    ensures part + more == (all + more)[|all + more| - |part + more|..]
  {
  }

  /** Another turn is gathered: the events it adds to the waiting ones. */
  lemma GatherEvents(s: State, c: Config, inputs: seq<Input>, input: Input)
    requires GatheredInv(s, c, inputs)
    ensures NoDuplicates(s.submitted + input.eventIds) ==>
              Newest(Accumulated(s.delta, input, c.cap).eventIds, EventsIn(inputs + [input]), c.cap)
    ensures EventsIn(inputs + [input]) == (s.submitted + input.eventIds)[|s.submitted + input.eventIds| - |EventsIn(inputs + [input])|..]
    ensures |EventsIn(inputs + [input])| <= |s.submitted + input.eventIds|
  {
    EventsMore(inputs, input);
    SuffixMore(EventsIn(inputs), s.submitted, input.eventIds);
    if NoDuplicates(s.submitted + input.eventIds) {
      assert NoDuplicates(s.submitted) by {
        assert forall i :: 0 <= i < |s.submitted| ==> (s.submitted + input.eventIds)[i] == s.submitted[i];
      }
      SuffixMore(s.delta.eventIds, s.submitted, input.eventIds);
      WaitingIsNew(s.delta.eventIds, s.submitted, input.eventIds);
      RememberedIsAppended(s.delta.eventIds, input.eventIds);
      NewestMore(s.delta.eventIds, EventsIn(inputs), input.eventIds, c.cap);
    }
  }

  lemma WaitingIsNew(waiting: seq<string>, all: seq<string>, more: seq<string>)
    requires |waiting| <= |all| && waiting == all[|all| - |waiting|..] && NoDuplicates(all + more)
    ensures NoDuplicates(waiting + more)
  {
    SuffixMore(waiting, all, more);
    NoDuplicatesSuffix((all + more)[..|all| - |waiting|], waiting + more);
    assert (all + more)[..|all| - |waiting|] + (waiting + more) == all + more;
  }

  lemma StepGathers(s: State, c: Config, step: Step, inputs: seq<Input>, inputs': seq<Input>)
    requires FlushInv(s, c) && SpacingInv(s, c) && GatheredInv(s, c, inputs)
    requires match step
             case Submit(input, nowMs) => inputs' == if Cooling(s.schedules, c, nowMs) then inputs + [input] else []
             case Wake(task, nowMs) => inputs' == if Wakes(s, task, nowMs) then [] else inputs
    ensures GatheredInv(Next(s, c, step), c, inputs')
  {
    match step
    case Submit(input, nowMs) =>
      if Cooling(s.schedules, c, nowMs) {
        GathersOne(s, c, input, nowMs, inputs);
      } else {
        StartsEmpty(s, c, input, nowMs);
      }
    case Wake(task, nowMs) => WakeGathers(s, c, task, nowMs, inputs);
  }

  lemma GathersOne(s: State, c: Config, input: Input, nowMs: int, inputs: seq<Input>)
    requires SpacingInv(s, c) && GatheredInv(s, c, inputs) && Cooling(s.schedules, c, nowMs)
    ensures GatheredInv(AfterSubmit(s, c, input, nowMs), c, inputs + [input])
  {
    GatherEvents(s, c, inputs, input);
    FullMore(inputs, input);
    UnboundedLike(s.full, FullOf(inputs), input);
  }

  lemma WakeGathers(s: State, c: Config, task: Task, nowMs: int, inputs: seq<Input>)
    requires GatheredInv(s, c, inputs)
    ensures GatheredInv(AfterWake(s, task, nowMs), c, if Wakes(s, task, nowMs) then [] else inputs)
  {
  }

  lemma StartsEmpty(s: State, c: Config, input: Input, nowMs: int)
    requires FlushInv(s, c) && SpacingInv(s, c) && !Cooling(s.schedules, c, nowMs)
    requires s.schedules == [] ==> s.full.(eventIds := []) == EMPTY
    ensures GatheredInv(AfterSubmit(s, c, input, nowMs), c, [])
  {
  }

  lemma {:induction false} RunGathers(run: seq<Step>, c: Config)
    ensures GatheredInv(After(run, c), c, Gathered(run, c))
  {
    if run != [] {
      var front := run[..|run| - 1];
      RunKeepsInv(front, c);
      RunGathers(front, c);
      StepGathers(After(front, c), c, run[|run| - 1], Gathered(front, c), Gathered(run, c));
    }
  }

  // ---------------------------------------------------------------------------------------
  // What is handed on
  // ---------------------------------------------------------------------------------------

  /** x hands on what these turns say together. */
  ghost predicate HandsOn(x: Scheduled, inputs: seq<Input>) {
    && TargetIs(x.viewerId, x.personaId, inputs)
    && ContextIs(if x.context.Some? then x.context.value else map[], inputs) && x.context != Some(map[])
  }

  lemma FromDeltaHandsOn(d: Delta, full: Delta, inputs: seq<Input>, nowMs: int)
    requires Represents(d, full) && full.(eventIds := []) == FullOf(inputs).(eventIds := [])
    ensures HandsOn(FromDelta(d, nowMs), inputs) && FromDelta(d, nowMs).atMs == nowMs && FromDelta(d, nowMs).eventIds == d.eventIds
  {
    RepresentsTarget(d, full);
    FullTargetIs(inputs);
    FullContextIs(inputs);
  }

  /** Over every run: a voice turn waits while the last observation is less than a cooldown ago. A
      first turn is handed on as it is; a later one together with all that waited: with the one target
      they name, the last value of every context key, their turn id if they agree on one, and their
      events, as many of the newest as the cap allows. */
  lemma SubmitHandsOn(run: seq<Step>, c: Config, input: Input, nowMs: int)
    ensures var before, now := After(run, c).schedules, After(run + [Submit(input, nowMs)], c).schedules;
            if Cooling(before, c, nowMs) then now == before
            else now != [] && now == before + [now[|now| - 1]]
                 && SubmitResult(now[|now| - 1], before, Gathered(run, c), input, nowMs, c, After(run, c).submitted + input.eventIds)
  {
    assert (run + [Submit(input, nowMs)])[..|run|] == run;
    RunKeepsInv(run, c);
    RunGathers(run, c);
    if !Cooling(After(run, c).schedules, c, nowMs) {
      SubmitOpens(After(run, c), c, Gathered(run, c), input, nowMs);
    }
  }

  ghost predicate SubmitResult(x: Scheduled, before: seq<Scheduled>, inputs: seq<Input>, input: Input, nowMs: int, c: Config, submitted: seq<string>) {
    if before == [] then x == Scheduled(nowMs, input.eventIds, input.viewerId, input.personaId, input.context)
    else
      && x.atMs == nowMs && HandsOn(x, inputs + [input])
      && (NoDuplicates(submitted) ==> Newest(x.eventIds, EventsIn(inputs + [input]), c.cap))
  }

  lemma SubmitOpens(s: State, c: Config, inputs: seq<Input>, input: Input, nowMs: int)
    requires FlushInv(s, c) && SpacingInv(s, c) && GatheredInv(s, c, inputs) && !Cooling(s.schedules, c, nowMs)
    ensures var now := AfterSubmit(s, c, input, nowMs).schedules;
            && now != [] && now == s.schedules + [now[|now| - 1]]
            && SubmitResult(now[|now| - 1], s.schedules, inputs, input, nowMs, c, s.submitted + input.eventIds)
  {
    if s.schedules != [] {
      GatherEvents(s, c, inputs, input);
      FullMore(inputs, input);
      UnboundedLike(s.full, FullOf(inputs), input);
      AccumulatedRepresents(s.delta, s.full, input, c.cap);
      FromDeltaHandsOn(Accumulated(s.delta, input, c.cap), Unbounded(s.full, input), inputs + [input], nowMs);
    }
  }

  /** The flush task hands on what waits in the same way, once the cooldown is over, if any event
      waits. */
  lemma WakeHandsOn(run: seq<Step>, c: Config, task: Task, nowMs: int)
    ensures var s, now := After(run, c), After(run + [Wake(task, nowMs)], c).schedules;
            var before := s.schedules;
            if !(s.flush.Some? && s.flush.value.task == task && !Cooling(before, c, nowMs)) || s.delta.eventIds == [] then now == before
            else
              && |now| == |before| + 1 && now[..|before|] == before && now[|before|].atMs == nowMs
              && HandsOn(now[|before|], Gathered(run, c)) && now[|before|].eventIds == s.delta.eventIds
    ensures NoDuplicates(After(run, c).submitted) ==> Newest(After(run, c).delta.eventIds, EventsIn(Gathered(run, c)), c.cap)
  {
    assert (run + [Wake(task, nowMs)])[..|run|] == run;
    RunKeepsInv(run, c);
    RunGathers(run, c);
    FromDeltaHandsOn(After(run, c).delta, After(run, c).full, Gathered(run, c), nowMs);
  }

  /** The task was started and is not the current flush task. */
  ghost predicate Stale(s: State, task: Task) {
    task < s.nextTask && (s.flush.Some? ==> s.flush.value.task != task)
  }

  /** A flush task that is no longer the current one hands nothing on, ever again. */
  lemma {:induction false} StaleTaskIsOver(run: seq<Step>, c: Config, more: seq<Step>, task: Task, nowMs: int)
    requires Stale(After(run, c), task)
    ensures Stale(After(run + more, c), task)
    ensures After(run + more + [Wake(task, nowMs)], c) == After(run + more, c)
  {
    assert (run + more + [Wake(task, nowMs)])[..|run + more|] == run + more;
    if more == [] {
      assert run + more == run;
    } else {
      var front := more[..|more| - 1];
      assert (run + more)[..|run + more| - 1] == run + front;
      StaleTaskIsOver(run, c, front, task, nowMs);
    }
  }
}

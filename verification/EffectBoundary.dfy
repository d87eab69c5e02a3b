/** The re-entrant boundary that keeps a durable effect atomic with the fence it passed. */
module EffectBoundary {
  import opened Options
  import opened RuntimeState

  type Task = nat

  /** The three dictionaries' entries for one session: whether the effect lock is taken, and the
      recorded owner and depth. */
  datatype Cell = Cell(locked: bool, owner: Option<Task>, depth: Option<int>)

  const FREE := Cell(false, None, None)

  /** How a task came into the boundary, which decides what it undoes on the way out. */
  datatype Frame = Outer | Inner

  /** `frames` holds the boundaries every task has entered and not left, innermost last; `waiting`
      the tasks that await the lock. */
  datatype World = World(cell: Cell, frames: map<Task, seq<Frame>>, waiting: set<Task>, session: Session)

  const START := World(FREE, map[], {}, NO_SESSION)

  ghost function FramesOf(w: World, t: Task): seq<Frame> {
    if t in w.frames then w.frames[t] else []
  }

  ghost predicate Inside(w: World, t: Task) {
    FramesOf(w, t) != []
  }

  // ---------------------------------------------------------------------------------------
  // Steps
  // ---------------------------------------------------------------------------------------

  /** `Enter` runs up to the first await; `Acquire` is a waiting task getting the lock; `Abandon` a
      waiting task being cancelled; `Leave` leaves the innermost boundary, on whatever path.
      `Mutate` is what replace, stop, claim, update, add and activate do once inside. */
  datatype Step =
    | Enter(task: Task)
    | Acquire(task: Task)
    | Abandon(task: Task)
    | Leave(task: Task)
    | Mutate(task: Task, command: Command)

  ghost predicate Enabled(w: World, step: Step) {
    match step
    case Enter(t) => t !in w.waiting
    case Acquire(t) => t in w.waiting && !w.cell.locked
    case Abandon(t) => t in w.waiting
    case Leave(t) => t !in w.waiting && Inside(w, t)
    case Mutate(t, _) => t !in w.waiting && Inside(w, t)
  }

  function Reentered(cell: Cell): Cell
    requires cell.depth.Some?
  {
    cell.(depth := Some(cell.depth.value + 1))
  }

  function Left(cell: Cell, frame: Frame): Cell
    requires frame.Inner? ==> cell.depth.Some?
  {
    if frame.Inner? then cell.(depth := Some(cell.depth.value - 1)) else FREE
  }

  /** A step that is not enabled changes nothing. */
  ghost function Next(w: World, step: Step): World {
    if !Enabled(w, step) then w
    else
      match step
      case Enter(t) =>
        if w.cell.owner == Some(t) && w.cell.depth.Some? then
          w.(cell := Reentered(w.cell), frames := w.frames[t := FramesOf(w, t) + [Inner]])
        else w.(waiting := w.waiting + {t})
      case Acquire(t) =>
        w.(cell := Cell(true, Some(t), Some(1)), frames := w.frames[t := FramesOf(w, t) + [Outer]], waiting := w.waiting - {t})
      case Abandon(t) => w.(waiting := w.waiting - {t})
      case Leave(t) =>
        var fs := FramesOf(w, t);
        var last := fs[|fs| - 1];
        if last.Inner? && w.cell.depth.None? then w
        else w.(cell := Left(w.cell, last), frames := w.frames[t := fs[..|fs| - 1]])
      case Mutate(_, c) => w.(session := Apply(w.session, c))
  }

  ghost function After(run: seq<Step>): World {
    if run == [] then START else Next(After(run[..|run| - 1]), run[|run| - 1])
  }

  // ---------------------------------------------------------------------------------------
  // The invariant
  // ---------------------------------------------------------------------------------------

  /** One outer frame with inner frames above it. */
  ghost predicate Nested(fs: seq<Frame>) {
    fs != [] && fs[0].Outer? && forall i :: 0 < i < |fs| ==> fs[i].Inner?
  }

  /** Owner and depth are recorded exactly while the lock is held; the owner is the one task inside
      the boundary, and the depth counts the boundaries it has entered. */
  ghost predicate Inv(w: World) {
    && (w.cell.locked <==> w.cell.owner.Some?)
    && (w.cell.locked <==> w.cell.depth.Some?)
    && (w.cell.locked ==> Nested(FramesOf(w, w.cell.owner.value)) && w.cell.depth.value == |FramesOf(w, w.cell.owner.value)|)
    && (forall t: Task :: Inside(w, t) ==> w.cell.owner == Some(t))
    && (forall t: Task :: t in w.waiting ==> w.cell.owner != Some(t))
  }

  lemma OtherFrames(w: World, t: Task, fs: seq<Frame>)
    ensures forall u: Task :: FramesOf(w.(frames := w.frames[t := fs]), u) == (if u == t then fs else FramesOf(w, u))
  {
    var w' := w.(frames := w.frames[t := fs]);
    forall u: Task
      ensures FramesOf(w', u) == (if u == t then fs else FramesOf(w, u))
    {
      assert u in w'.frames <==> u == t || u in w.frames;
    }
  }

  lemma StepKeepsInv(w: World, step: Step)
    requires Inv(w)
    ensures Inv(Next(w, step))
  {
    if Enabled(w, step) {
      match step
      case Enter(t) => OtherFrames(w, t, FramesOf(w, t) + [Inner]);
      case Acquire(t) => OtherFrames(w, t, FramesOf(w, t) + [Outer]);
      case Leave(t) => LeaveKeepsInv(w, t);
      case _ =>
    }
  }

  lemma LeaveKeepsInv(w: World, t: Task)
    requires Inv(w) && Enabled(w, Leave(t))
    ensures Inv(Next(w, Leave(t)))
  {
    var fs := FramesOf(w, t);
    OtherFrames(w, t, fs[..|fs| - 1]);
    assert w.cell.owner == Some(t);
  }

  lemma {:induction false} RunKeepsInv(run: seq<Step>)
    ensures Inv(After(run))
  {
    if run != [] {
      RunKeepsInv(run[..|run| - 1]);
      StepKeepsInv(After(run[..|run| - 1]), run[|run| - 1]);
    }
  }

  // ---------------------------------------------------------------------------------------
  // What the boundary promises
  // ---------------------------------------------------------------------------------------

  /** At most one task is inside; the lock is free, and nothing is recorded, exactly when none is. */
  lemma MutuallyExclusive(run: seq<Step>, t: Task, u: Task)
    ensures Inside(After(run), t) && Inside(After(run), u) ==> t == u
    ensures (forall x: Task :: !Inside(After(run), x)) <==> After(run).cell == FREE
  {
    RunKeepsInv(run);
    var w := After(run);
    if w.cell.locked {
      assert Inside(w, w.cell.owner.value);
    }
  }

  /** A task that is inside enters again at once, and leaving again restores owner and depth. */
  lemma ReentryBalances(run: seq<Step>, t: Task)
    requires Inside(After(run), t)
    ensures After(run + [Enter(t)]).waiting == After(run).waiting
    ensures |FramesOf(After(run + [Enter(t)]), t)| == |FramesOf(After(run), t)| + 1
    ensures After(run + [Enter(t)] + [Leave(t)]).cell == After(run).cell
  {
    RunKeepsInv(run);
    var w := After(run);
    assert (run + [Enter(t)])[..|run|] == run;
    var w' := After(run + [Enter(t)]);
    assert w' == Next(w, Enter(t));
    assert (run + [Enter(t)] + [Leave(t)])[..|run| + 1] == run + [Enter(t)];
    assert FramesOf(w', t) == FramesOf(w, t) + [Inner];
  }

  lemma OneMore(run: seq<Step>, step: Step)
    ensures After(run + [step]) == Next(After(run), step)
  {
    assert (run + [step])[..|run|] == run;
  }

  /** A task from outside waits, whoever is inside; it can stop waiting at any time; and as soon as
      nobody is inside it can come in. */
  lemma OutsiderWaitsItsTurn(run: seq<Step>, t: Task)
    requires !Inside(After(run), t)
    ensures t in After(run + [Enter(t)]).waiting && After(run + [Enter(t)]).cell == After(run).cell
    ensures t !in After(run + [Abandon(t)]).waiting && !Inside(After(run + [Abandon(t)]), t)
    ensures t in After(run).waiting ==>
              (Inside(After(run + [Acquire(t)]), t) <==> forall u: Task :: !Inside(After(run), u))
  {
    RunKeepsInv(run);
    MutuallyExclusive(run, t, t);
    OneMore(run, Enter(t));
    OneMore(run, Abandon(t));
    OneMore(run, Acquire(t));
  }

  /** A task leaves as many boundaries as it entered, and with the last one the boundary is free; only
      while it is inside can it change the session. */
  lemma LeavingFrees(run: seq<Step>, t: Task, c: Command)
    requires t !in After(run).waiting
    ensures Inside(After(run), t) ==> |FramesOf(After(run + [Leave(t)]), t)| == |FramesOf(After(run), t)| - 1
    ensures Inside(After(run), t) ==> (After(run + [Leave(t)]).cell == FREE <==> |FramesOf(After(run), t)| == 1)
    ensures After(run + [Mutate(t, c)]).session == if Inside(After(run), t) then Apply(After(run).session, c) else After(run).session
  {
    RunKeepsInv(run);
    OneMore(run, Leave(t));
    OneMore(run, Mutate(t, c));
    if Inside(After(run), t) {
      var fs := FramesOf(After(run), t);
      OtherFrames(After(run), t, fs[..|fs| - 1]);
    }
  }

  /** t stays inside the boundary after every step of more, and changes nothing itself. */
  ghost predicate Holding(run: seq<Step>, more: seq<Step>, t: Task) {
    && Inside(After(run + more), t)
    && (more != [] ==>
         && !(more[|more| - 1].Mutate? && more[|more| - 1].task == t)
         && Holding(run, more[..|more| - 1], t))
  }

  /** While a task is inside the boundary, no other task can change the session. */
  lemma {:induction false} HoldingFreezes(run: seq<Step>, more: seq<Step>, t: Task)
    requires Holding(run, more, t)
    ensures After(run + more).session == After(run).session
  {
    if more == [] {
      assert run + more == run;
    } else {
      var front, last := more[..|more| - 1], more[|more| - 1];
      assert (run + more)[..|run + more| - 1] == run + front;
      HoldingFreezes(run, front, t);
      RunKeepsInv(run + front);
      if last.Mutate? && Enabled(After(run + front), last) {
        MutuallyExclusive(run + front, t, last.task);
      }
    }
  }

  /** `execute_if_accepting`: what was accepted when the operation began is still accepted when it
      ends, in the same epoch, unless the operation itself changed the session. */
  lemma EffectCompletesAccepted(run: seq<Step>, operation: seq<Step>, t: Task, result: Result)
    requires Holding(run, operation, t) && Accepts(After(run).session, result)
    ensures Accepts(After(run + operation).session, result)
    ensures After(run + operation).session.runtime.value.epoch == result.epoch
  {
    HoldingFreezes(run, operation, t);
  }

  // ---------------------------------------------------------------------------------------
  // The code
  // ---------------------------------------------------------------------------------------

  class EffectBoundaries {
    var locked: set<string>
    var effectOwners: map<string, Task>
    var effectDepths: map<string, int>

    ghost function CellOf(id: string): Cell
      reads this
    {
      Cell(id in locked, if id in effectOwners then Some(effectOwners[id]) else None,
           if id in effectDepths then Some(effectDepths[id]) else None)
    }

    ghost predicate Valid()
      reads this
    {
      locked == effectOwners.Keys == effectDepths.Keys
    }

    constructor ()
      ensures Valid() && forall id :: CellOf(id) == FREE
    {
      locked, effectOwners, effectDepths := {}, map[], map[];
    }

    /** The start of `effect_boundary`: the owner goes straight in, any other task must wait. */
    method Enter(id: string, task: Task) returns (inside: bool)
      requires Valid()
      modifies this
      ensures Valid()
      ensures inside <==> old(CellOf(id)).owner == Some(task)
      ensures CellOf(id) == if inside then Reentered(old(CellOf(id))) else old(CellOf(id))
      ensures forall other :: other != id ==> CellOf(other) == old(CellOf(other))
    {
      inside := id in effectOwners && effectOwners[id] == task;
      if inside {
        effectDepths := effectDepths[id := effectDepths[id] + 1];
      }
    }

    method Acquire(id: string, task: Task)
      requires Valid() && id !in locked
      modifies this
      ensures Valid() && CellOf(id) == Cell(true, Some(task), Some(1))
      ensures forall other :: other != id ==> CellOf(other) == old(CellOf(other))
    {
      locked := locked + {id};
      effectOwners := effectOwners[id := task];
      effectDepths := effectDepths[id := 1];
    }

    /** The `finally` of either kind of frame; the lock is released last. */
    method Leave(id: string, frame: Frame)
      requires Valid() && id in locked
      modifies this
      ensures Valid() && CellOf(id) == Left(old(CellOf(id)), frame)
      ensures forall other :: other != id ==> CellOf(other) == old(CellOf(other))
    {
      if frame.Inner? {
        effectDepths := effectDepths[id := effectDepths[id] - 1];
      } else {
        effectDepths := effectDepths - {id};
        effectOwners := effectOwners - {id};
        locked := locked - {id};
      }
    }
  }
}

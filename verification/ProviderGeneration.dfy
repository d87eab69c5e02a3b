/** A generation of model providers: leased by tasks, retired once, closed exactly once. */
module ProviderGeneration {

  /** `owed` counts the tasks that were told to close the components and have not done so yet;
      `memoryCloses` and `viewerCloses` count the calls made to either component's `aclose`. */
  datatype State = State(leases: int, retired: bool, closed: bool, owed: nat, memoryCloses: nat, viewerCloses: nat)

  const INITIAL := State(0, false, false, 0, 0, 0)

  /** One atomic step of some task. `Leave` is the end of a granted lease; `CloseComponents` is
      carried out, outside the lock, by a task that was told to. */
  datatype Step = Enter | Leave | Retire | CloseComponents(memoryFails: bool)

  ghost predicate Enabled(s: State, step: Step) {
    match step
    case Enter => true
    case Leave => s.leases > 0
    case Retire => true
    case CloseComponents(_) => s.owed > 0
  }

  ghost predicate Granted(s: State) { !s.retired && !s.closed }

  /** The close is owed by whoever makes the generation both retired and free of leases. */
  ghost function Settle(s: State): State {
    if s.retired && s.leases == 0 && !s.closed then s.(closed := true, owed := s.owed + 1) else s
  }

  /** A step that is not enabled in s changes nothing. */
  ghost function Next(s: State, step: Step): State {
    if !Enabled(s, step) then s
    else
      match step
      case Enter => if Granted(s) then s.(leases := s.leases + 1) else s
      case Leave => Settle(s.(leases := s.leases - 1))
      case Retire => Settle(s.(retired := true))
      case CloseComponents(_) =>
        s.(owed := s.owed - 1, memoryCloses := s.memoryCloses + 1, viewerCloses := s.viewerCloses + 1)
  }

  ghost function After(run: seq<Step>): State {
    if run == [] then INITIAL else Next(After(run[..|run| - 1]), run[|run| - 1])
  }

  ghost predicate Inv(s: State) {
    && s.leases >= 0
    && (s.closed <==> s.retired && s.leases == 0)
    && s.owed + s.viewerCloses == (if s.closed then 1 else 0)
    && s.memoryCloses == s.viewerCloses
  }

  lemma {:induction false} RunKeepsInv(run: seq<Step>)
    ensures Inv(After(run))
  {
    if run != [] {
      RunKeepsInv(run[..|run| - 1]);
    }
  }

  /** Retirement and closing are permanent, and after retirement leases only go down. */
  lemma {:induction false} RetiredForGood(run: seq<Step>, more: seq<Step>)
    ensures After(run).retired ==> After(run + more).retired && After(run + more).leases <= After(run).leases
    ensures After(run).closed ==> After(run + more).closed && After(run + more).leases == 0
    ensures After(run).viewerCloses <= After(run + more).viewerCloses
  {
    RunKeepsInv(run + more);
    if more == [] {
      assert run + more == run;
    } else {
      RetiredForGood(run, more[..|more| - 1]);
      RunKeepsInv(run + more[..|more| - 1]);
      assert (run + more)[..|run + more| - 1] == run + more[..|more| - 1];
    }
  }

  /** A step that closes the components happens at most once, and when it does, the generation is
      retired and nobody holds a lease, now or later. */
  lemma ClosesOnce(run: seq<Step>, close: Step, more: seq<Step>, step: Step)
    requires close.CloseComponents? && Enabled(After(run), close)
    ensures After(run).retired && After(run).leases == 0
    ensures After(run + [close] + more).leases == 0 && !Granted(After(run + [close] + more))
    ensures step.CloseComponents? ==> !Enabled(After(run + [close] + more), step)
  {
    AfterClose(run, close);
    RetiredForGood(run + [close], more);
    RunKeepsInv(run + [close] + more);
  }

  lemma AfterClose(run: seq<Step>, close: Step)
    requires close.CloseComponents? && Enabled(After(run), close)
    ensures After(run).retired && After(run).leases == 0
    ensures After(run + [close]).closed && After(run + [close]).viewerCloses > 0
  {
    RunKeepsInv(run);
    assert (run + [close])[..|run|] == run;
  }

  /** Once retired, with every lease returned and every task through with what it was told to do,
      both components have been closed once; and they are never closed earlier. */
  lemma ClosedIffDrained(run: seq<Step>)
    ensures var s := After(run);
            && (s.viewerCloses == 1 <==> s.retired && s.leases == 0 && s.owed == 0)
            && s.viewerCloses <= 1 && s.memoryCloses == s.viewerCloses
  {
    RunKeepsInv(run);
  }

  /** The lease grants less the lease ends of a run. */
  ghost function Outstanding(run: seq<Step>): int {
    if run == [] then 0
    else
      var before, step := run[..|run| - 1], run[|run| - 1];
      Outstanding(before) +
      if step.Enter? && Granted(After(before)) then 1
      else if step.Leave? && Enabled(After(before), step) then -1
      else 0
  }

  lemma {:induction false} LeasesAreOutstanding(run: seq<Step>)
    ensures After(run).leases == Outstanding(run)
  {
    if run != [] {
      LeasesAreOutstanding(run[..|run| - 1]);
    }
  }

  lemma {:induction false} RetiredIff(run: seq<Step>)
    ensures After(run).retired <==> Step.Retire in run
  {
    if run != [] {
      RetiredIff(run[..|run| - 1]);
      assert run == run[..|run| - 1] + [run[|run| - 1]];
    }
  }

  /** A lease is granted exactly as long as nobody has retired the generation. */
  lemma GrantedUnlessRetired(run: seq<Step>)
    ensures After(run + [Enter]).leases == After(run).leases + if Step.Retire in run then 0 else 1
  {
    assert (run + [Enter])[..|run|] == run;
    RetiredIff(run);
    RunKeepsInv(run);
  }

  /** A task that was told to close and does so closes both components, even if the first one fails. */
  lemma CloseReachesBoth(run: seq<Step>, memoryFails: bool)
    requires After(run).owed > 0
    ensures var s, s' := After(run), After(run + [CloseComponents(memoryFails)]);
            s'.memoryCloses == s.memoryCloses + 1 && s'.viewerCloses == s.viewerCloses + 1 && s'.owed == s.owed - 1
  {
    assert (run + [CloseComponents(memoryFails)])[..|run|] == run;
  }

  // ---------------------------------------------------------------------------------------
  // The code
  // ---------------------------------------------------------------------------------------

  class RuntimeProviderGeneration {
    var leases: int
    var retired: bool
    var closed: bool
    ghost var owed: nat
    var memoryCloses: nat
    var viewerCloses: nat

    ghost function View(): State
      reads this
    {
      State(leases, retired, closed, owed, memoryCloses, viewerCloses)
    }

    constructor ()
      ensures View() == INITIAL
    {
      leases, retired, closed, owed, memoryCloses, viewerCloses := 0, false, false, 0, 0, 0;
    }

    /** The start of `lease`: false stands for the error that the generation is retired. */
    method EnterLease() returns (granted: bool)
      modifies this
      ensures granted == Granted(old(View())) && View() == Next(old(View()), Enter)
    {
      if retired || closed {
        return false;
      }
      leases := leases + 1;
      return true;
    }

    /** The end of `lease` up to the decision whether this task must close the components. */
    method LeaveLease() returns (shouldClose: bool)
      requires leases > 0
      modifies this
      ensures View() == Next(old(View()), Leave)
      ensures shouldClose <==> owed == old(owed) + 1
    {
      leases := leases - 1;
      shouldClose := retired && leases == 0 && !closed;
      if shouldClose {
        closed := true;
        owed := owed + 1;
      }
    }

    method Retire() returns (shouldClose: bool)
      modifies this
      ensures View() == Next(old(View()), Step.Retire)
      ensures shouldClose <==> owed == old(owed) + 1
    {
      retired := true;
      shouldClose := leases == 0 && !closed;
      if shouldClose {
        closed := true;
        owed := owed + 1;
      }
    }

    /** Both components are closed even when closing the first one fails. */
    method CloseComponents(memoryFails: bool) returns (failed: bool)
      requires owed > 0
      modifies this
      ensures View() == Next(old(View()), Step.CloseComponents(memoryFails))
      ensures failed == memoryFails
    {
      owed := owed - 1;
      memoryCloses := memoryCloses + 1;
      failed := memoryFails;
      viewerCloses := viewerCloses + 1;
    }
  }
}

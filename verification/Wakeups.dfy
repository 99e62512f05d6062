/**
 * The wake event.  A notifier waits for it with a time limit of a second, so it can lose no more
 * than that second; it does not lose even that, and it is not woken more often than waiters leave.
 */
module Wakeups {
  import opened CondVar

  ghost predicate SomebodySignals(s: State) {
    exists u :: u in s.pc && s.pc[u].Signalling?
  }

  /** A notifier that waits for the event has waiters to wait for, or will be woken. */
  ghost predicate Attended(s: State, pc: Pc) {
    match pc
    case AllEventWait => s.waiters > 0 || s.event || SomebodySignals(s)
    case OneEventWait(target, _) => s.waiters > target || s.event || SomebodySignals(s)
    case _ => true
  }

  ghost predicate WakeInv(s: State) {
    Inv(s) && forall t :: t in s.pc ==> Attended(s, s.pc[t])
  }

  lemma OtherEffect(s: State, u: Thread, a: Action)
    requires Enabled(s, u, a) && !s.pc[u].AllEventWait? && !s.pc[u].OneEventWait?
    ensures var s' := Step(s, u, a);
      (s.event || s.pc[u].Signalling? ==> s'.event) && (u in s'.pc && !s'.pc[u].Signalling? ==> s'.waiters >= s.waiters)
  {
    hide Registered;
  }

  /** A step of another thread: the event stays set, and a waiter that leaves is about to set it. */
  lemma OtherAttends(s: State, u: Thread, a: Action, pc: Pc)
    requires Enabled(s, u, a) && !s.pc[u].AllEventWait? && !s.pc[u].OneEventWait? && Attended(s, pc)
    ensures Attended(Step(s, u, a), pc)
  {
    hide Registered, Step, Enabled;
    var s' := Step(s, u, a);
    StepRegistered(s, u, a);
    OtherEffect(s, u, a);
    if s'.pc[u].Signalling? {
      assert SomebodySignals(s');
    } else if v :| v in s.pc && v != u && s.pc[v].Signalling? {
      assert v in s'.pc && s'.pc[v].Signalling?;
    }
  }

  lemma CallerAttends(s: State, t: Thread, a: Action)
    requires Enabled(s, t, a)
    ensures t in Step(s, t, a).pc && Attended(Step(s, t, a), Step(s, t, a).pc[t])
  {
    hide Registered, SomebodySignals;
    var s' := Step(s, t, a);
    if s'.pc[t].AllEventWait? {
      assert s'.waiters > 0;
    } else if s'.pc[t].OneEventWait? {
      assert s'.waiters > s'.pc[t].target;
    }
  }

  lemma StepKeepsWake(s: State, u: Thread, a: Action)
    requires WakeInv(s) && Enabled(s, u, a)
    ensures WakeInv(Step(s, u, a))
  {
    var s' := Step(s, u, a);
    StepKeepsInv(s, u, a);
    CallerAttends(s, u, a);
    StepRegistered(s, u, a);
    forall t | t in s'.pc && t != u
      ensures Attended(s', s'.pc[t])
    {
      if s.pc[u].AllEventWait? || s.pc[u].OneEventWait? {
        assert Holding(s.pc[u]) && (Holding(s.pc[t]) ==> s.mutex == Held(t));
      } else {
        OtherAttends(s, u, a, s.pc[t]);
      }
    }
  }

  lemma {:induction false} RunsKeepWake(run: seq<State>, i: nat)
    requires IsRun(run) && i < |run|
    ensures WakeInv(run[i])
  {
    hide Inv, Attended, Step, Enabled;
    RunsKeepInv(run, i);
    if i == 0 {
      FirstIsAttended(run[0]);
    } else {
      RunsKeepWake(run, i - 1);
      assert Next(run[i - 1], run[i]);
      var t, a :| Enabled(run[i - 1], t, a) && run[i] == Step(run[i - 1], t, a);
      StepKeepsWake(run[i - 1], t, a);
    }
  }

  lemma FirstIsAttended(s: State)
    requires Init(s)
    ensures forall t :: t in s.pc ==> Attended(s, s.pc[t])
  {
  }

  /**
   * No wake-up is lost: whenever a notifier waits for the event although the count is where it
   * wants it, the event is set, or a thread that has left is about to set it.
   */
  lemma NoWakeupIsLost(run: seq<State>, i: nat, t: Thread)
    requires IsRun(run) && i < |run| && t in run[i].pc
    ensures run[i].pc[t].AllEventWait? && run[i].waiters == 0 ==> run[i].event || SomebodySignals(run[i])
    ensures run[i].pc[t].OneEventWait? && run[i].waiters <= run[i].pc[t].target ==>
      run[i].event || SomebodySignals(run[i])
  {
    RunsKeepWake(run, i);
    hide Inv, SomebodySignals;
    assert Attended(run[i], run[i].pc[t]);
  }

  // ----- wake-ups and signals -----------------------------------------------------------------------------

  /** A thread that has left its wait sets the event. */
  ghost predicate Signals(s: State, s': State) {
    exists t :: t in s.pc && t in s'.pc && s.pc[t].Signalling? && s'.pc[t].Outside?
  }

  /** A notifier finds the event set. */
  ghost predicate Wakes(s: State, s': State) {
    s.event && exists t :: t in s.pc && t in s'.pc && (s.pc[t].AllEventWait? || s.pc[t].OneEventWait?) &&
                          (s'.pc[t].AllLoop? || s'.pc[t].OneLoop?)
  }

  ghost function Signalled(run: seq<State>): nat {
    if |run| < 2 then 0
    else Signalled(run[..|run| - 1]) + One(Signals(run[|run| - 2], run[|run| - 1]))
  }

  ghost function Woken(run: seq<State>): nat {
    if |run| < 2 then 0
    else Woken(run[..|run| - 1]) + One(Wakes(run[|run| - 2], run[|run| - 1]))
  }

  lemma StepPays(s: State, u: Thread, a: Action)
    requires Enabled(s, u, a)
    ensures var s' := Step(s, u, a);
      One(Wakes(s, s')) + One(s'.event) <= One(s.event) + One(Signals(s, s'))
  {
    var s' := Step(s, u, a);
    StepRegistered(s, u, a);
    hide Registered;
    if s.pc[u].Signalling? {
      assert s'.pc[u].Outside?;
      assert Signals(s, s');
      assert !Wakes(s, s');
    }
  }

  lemma LastStepPays(run: seq<State>)
    requires IsRun(run) && |run| >= 2
    ensures IsRun(run[..|run| - 1])
    ensures var s, s' := run[|run| - 2], run[|run| - 1];
      One(Wakes(s, s')) + One(s'.event) <= One(s.event) + One(Signals(s, s'))
  {
    assert Next(run[|run| - 2], run[|run| - 1]);
    var t, a :| Enabled(run[|run| - 2], t, a) && run[|run| - 1] == Step(run[|run| - 2], t, a);
    StepPays(run[|run| - 2], t, a);
    hide Next, Step, Enabled, Signals, Wakes;
  }

  /** A notifier is woken by the event at most as often as a waiter has left: it does not spin. */
  lemma {:induction false} WakeupsArePaid(run: seq<State>)
    requires IsRun(run)
    ensures Woken(run) + One(run[|run| - 1].event) <= Signalled(run)
  {
    hide Next, Signals, Wakes;
    if |run| >= 2 {
      LastStepPays(run);
      WakeupsArePaid(run[..|run| - 1]);
    }
  }
}

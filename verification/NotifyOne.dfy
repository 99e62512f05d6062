/**
 * When `notify_one` keeps its promise.  At the moment when a call has the mutex and is about to
 * look at the waiter count, timeouts still to come, the promise is kept in every continuation
 * exactly if nobody waits, or no token is left over and all who wait do so without a timeout.
 */
module NotifyOne {
  import opened CondVar
  import opened CallPaths
  import opened CleanNotify

  // ----- a call that finds nobody ------------------------------------------------------------------------

  /** The count was read as zero, so the call waits for it to fall to minus one. */
  ghost predicate Stuck(s: State, t: Thread) {
    Inv(s) && s.mutex == Held(t) && t in s.pc &&
    match s.pc[t]
    case OneLoading => s.waiters == 0
    case OneReleasing(target, _) => target == -1
    case OneLoop(target, _) => target == -1
    case OneEventWait(target, _) => target == -1
    case _ => false
  }

  /** No step of any thread gets the call out of its loop, and the mutex stays held. */
  lemma StuckForever(s: State, t: Thread, s': State)
    requires Stuck(s, t) && Next(s, s')
    ensures Stuck(s', t)
  {
    var u, a :| Enabled(s, u, a) && s' == Step(s, u, a);
    StepKeepsInv(s, u, a);
    assert CountInv(s) && CountInv(s');
    if u != t {
      OthersStayOut(s, t, u, a);
      OutsiderStep(s, u, a);
    } else {
      assert Holding(s.pc[t]);
    }
    hide Registered, Holding;
  }

  lemma {:induction false} StuckInEveryRun(run: seq<State>, t: Thread, n: nat, i: nat)
    requires IsRun(run) && n <= i < |run| && Stuck(run[n], t)
    ensures Stuck(run[i], t)
  {
    hide Stuck;
    if n < i {
      StuckInEveryRun(run, t, n, i - 1);
      assert Next(run[i - 1], run[i]);
      StuckForever(run[i - 1], t, run[i]);
    }
  }

  lemma StuckCannotReturn(s: State, t: Thread)
    requires Stuck(s, t)
    ensures !CanReturn(s, t)
  {
    forall e | During(s, t, e)
      ensures Stuck(e, t)
    {
      forall x, y | Stuck(x, t) && Next(x, y)
        ensures Stuck(y, t)
      {
        StuckForever(x, t, y);
      }
      hide Stuck, During, Next;
      DuringKeeps(x => Stuck(x, t), s, t, e);
    }
  }

  // ----- a call that leaves a token ------------------------------------------------------------------------

  /** A registered thread that may leave although the call's own release is not used up. */
  ghost predicate MayLeave(s: State, u: Thread) {
    u in Registered(s) && (s.pc[u].Awake? || s.pc[u] == Blocked(true) || s.sem > 0)
  }

  /** The call has released its token and waits; the other threads are where they were. */
  ghost function AfterRelease(s: State, t: Thread): State {
    Put(s, t, OneLoop(s.waiters - 1, Registered(s))).(sem := Release(s.sem, 1))
  }

  lemma CallReleases(s: State, t: Thread)
    requires Inv(s) && t in s.pc && s.pc[t].OneLoading?
    ensures During(s, t, AfterRelease(s, t))
  {
    DuringSelf(s, t);
    var target, seen := s.waiters - 1, Registered(s);
    var s1 := Put(s, t, OneReleasing(target, seen));
    assert Step(s, t, Go) == s1;
    DuringThen(s, t, s, t, Go);
    assert Step(s1, t, Go) == AfterRelease(s, t);
    DuringThen(s, t, s1, t, Go);
  }

  /** That thread wakes up, by its timeout or by a token, if it is not awake already. */
  lemma ThreadWakes(s: State, t: Thread, u: Thread) returns (b: bool, e: State)
    requires Inv(s) && t in s.pc && s.pc[t].OneLoading? && MayLeave(s, u)
    ensures During(s, t, e) && e.sem > 0 && u != t && u in s.pc
    ensures e == Put(AfterRelease(s, t), u, Awake(b)).(sem := e.sem)
  {
    CallReleases(s, t);
    e := AfterRelease(s, t);
    assert Holding(s.pc[u]) ==> s.mutex == Held(u);
    assert s.mutex == Held(t);
    hide Registered;
    if s.pc[u].Awake? {
      b := s.pc[u].token;
    } else {
      var a := if s.pc[u].timed then Timeout else Go;
      b := a == Go;
      assert Enabled(e, u, a);
      DuringThen(s, t, e, u, a);
      e := Step(e, u, a);
    }
  }

  /** Once the count is at the target, the call goes on to its return and leaves the semaphore alone. */
  lemma CallReturns(s: State, t: Thread, e: State) returns (r: State)
    requires During(s, t, e) && AtCall(e, t) && e.pc[t].OneLoop? && e.waiters == e.pc[t].target
    ensures During(s, t, r) && AtCall(r, t) && r.pc[t].OneUnlocking? && r.sem == e.sem
  {
    DuringThen(s, t, e, t, Go);
    r := Step(e, t, Go);
    DuringThen(s, t, r, t, Go);
    r := Step(r, t, Go);
    hide During;
  }

  /** It leaves, the count reaches the target, and the call returns: the mutex is free, and a token is left. */
  lemma TokenIsLeft(s: State, t: Thread, u: Thread) returns (e: State)
    requires Inv(s) && t in s.pc && s.pc[t].OneLoading? && MayLeave(s, u)
    ensures During(s, t, e) && AtCall(e, t) && e.pc[t].OneUnlocking? && e.sem > 0 && Enabled(e, t, Go)
    ensures var after := Step(e, t, Go);
      after.mutex.Free? && after.sem > 0 && t in after.pc && after.pc[t].Outside?
  {
    var b;
    b, e := ThreadWakes(s, t, u);
    var target, seen, sem := s.waiters - 1, Registered(s), e.sem;
    hide Registered, During, Inv, MayLeave;
    DuringThen(s, t, e, u, Go);
    e := Step(e, u, Go);
    assert e.waiters == target && e.pc[t] == OneLoop(target, seen) && e.sem == sem;
    e := CallReturns(s, t, e);
  }

  lemma SomebodyMayLeave(s: State, t: Thread) returns (u: Thread)
    requires Inv(s) && t in s.pc && s.pc[t].OneLoading? && s.waiters >= 1 && !Clean(s)
    ensures MayLeave(s, u)
  {
    assert CountInv(s);
    assert Registered(s) != {};
    assert s.mutex == Held(t) by {
      assert Holding(s.pc[t]);
    }
    if s.sem > 0 {
      u :| u in Registered(s);
    } else {
      u :| u in Registered(s) && s.pc[u] != Blocked(false);
      assert Holding(s.pc[u]) ==> s.mutex == Held(u);
    }
  }

  // ----- the exact conditions ------------------------------------------------------------------------------

  /** A registered thread that may leave breaks the promise of a call about to read the count. */
  lemma TokenBreaksPromise(s: State, t: Thread)
    requires Inv(s) && t in s.pc && s.pc[t].OneLoading? && s.waiters >= 1 && !Clean(s)
    ensures exists e :: During(s, t, e) && AtCall(e, t) && e.pc[t].OneUnlocking? && Outstanding(e) > 0
  {
    var u := SomebodyMayLeave(s, t);
    var e := TokenIsLeft(s, t, u);
    hide Inv, Clean, During, MayLeave, Step, Enabled;
    assert Outstanding(e) > 0;
  }

  /**
   * A call about to read the count keeps its promise in every continuation exactly when at that
   * moment there is no token, somebody waits, and everybody who waits does so without a timeout.
   */
  lemma NotifyOneDeliversExactly(s: State, t: Thread)
    requires Inv(s) && t in s.pc && s.pc[t].OneLoading?
    ensures Delivers(s, t) <==> Clean(s)
  {
    if Clean(s) {
      CleanCallDelivers(s, t);
    } else if s.waiters >= 1 {
      TokenBreaksPromise(s, t);
      hide Inv, Clean, During, CanReturn, Outstanding, AtCall;
    } else {
      DuringSelf(s, t);
      NobodyIsStuck(s, t);
      StuckCannotReturn(s, t);
    }
  }

  /** A call that looks at the count while nobody is registered, and then returns. */
  ghost predicate FindsNobody(s: State, t: Thread) {
    Inv(s) && s.mutex == Held(t) && t in s.pc && (s.pc[t].OneChecking? || s.pc[t].OneEarly?) && s.waiters == 0
  }

  lemma StillNobody(s: State, t: Thread, s': State)
    requires FindsNobody(s, t) && AtCall(s', t) && Next(s, s')
    ensures FindsNobody(s', t)
  {
    var u, a :| Enabled(s, u, a) && s' == Step(s, u, a);
    StepKeepsInv(s, u, a);
    assert CountInv(s) && CountInv(s');
    if u != t {
      OthersStayOut(s, t, u, a);
      OutsiderStep(s, u, a);
    }
    hide Registered;
  }

  lemma NobodyReturns(s: State, t: Thread)
    requires FindsNobody(s, t)
    ensures AtCall(s, t) && Promised(s, t, s) && Registered(s) == {}
  {
    assert CountInv(s);
    DuringSelf(s, t);
    if s.pc[t].OneChecking? {
      DuringThen(s, t, s, t, Go);
      assert Step(s, t, Go).pc[t].OneEarly?;
    }
    hide During;
  }

  lemma EmptyCallDelivers(s: State, t: Thread)
    requires FindsNobody(s, t)
    ensures Delivers(s, t)
  {
    forall e | During(s, t, e)
      ensures Promised(s, t, e)
    {
      forall x, y | FindsNobody(x, t) && AtCall(y, t) && Next(x, y)
        ensures FindsNobody(y, t)
      {
        StillNobody(x, t, y);
      }
      assert !FindsNobody(e, t) || !e.pc[t].OneUnlocking?;
      hide FindsNobody, During, Next, AtCall, CanReturn, Delivered;
      DuringKeeps(x => FindsNobody(x, t), s, t, e);
      NobodyReturns(e, t);
    }
  }

  /**
   * Seen from the moment the call gets the mutex, before it looks at anything: the promise is
   * kept in every continuation exactly when nobody waits, or the state is clean.
   */
  lemma NotifyOneKeepsPromiseExactly(s: State, t: Thread)
    requires Inv(s) && t in s.pc && s.pc[t].OneChecking?
    ensures Delivers(s, t) <==> s.waiters == 0 || Clean(s)
  {
    assert CountInv(s);
    CallHoldsMutex(s, t);
    if s.waiters == 0 {
      EmptyCallDelivers(s, t);
    } else if Clean(s) {
      CleanCallDelivers(s, t);
    } else {
      LookingIsNothing(s, t);
      var s1 := Step(s, t, Go);
      TokenBreaksPromise(s1, t);
      var e :| During(s1, t, e) && AtCall(e, t) && e.pc[t].OneUnlocking? && Outstanding(e) > 0;
      DuringAfter(s, t, t, Go, e);
      hide Inv, Clean, During, CanReturn, Outstanding, AtCall, Step;
    }
  }

  lemma CleanFollows(s: State, t: Thread, pc: Pc)
    requires t in s.pc && !Counted(s.pc[t]) && !Counted(pc)
    ensures Registered(Put(s, t, pc)) == Registered(s) && (Clean(Put(s, t, pc)) <==> Clean(s))
  {
    assert Registered(Put(s, t, pc)) == Registered(s) && t !in Registered(s);
    hide Registered;
  }

  /** The look at the count changes nothing but the program point. */
  lemma LookingIsNothing(s: State, t: Thread)
    requires Inv(s) && t in s.pc && s.pc[t].OneChecking? && s.waiters > 0
    ensures Enabled(s, t, Go) && AtCall(s, t)
    ensures var s1 := Step(s, t, Go);
      Inv(s1) && s1 == Put(s, t, OneLoading) && Registered(s1) == Registered(s) && (Clean(s1) <==> Clean(s))
  {
    hide Registered, Inv, Clean;
    StepKeepsInv(s, t, Go);
    CleanFollows(s, t, OneLoading);
  }

  lemma NobodyIsStuck(s: State, t: Thread)
    requires Inv(s) && t in s.pc && s.pc[t].OneLoading? && s.waiters < 1
    ensures Stuck(s, t)
  {
    assert CountInv(s);
    assert Holding(s.pc[t]);
    hide Registered;
  }

  /** And it can return at all exactly when the count it is about to read is not zero. */
  lemma NotifyOneCanReturnExactly(s: State, t: Thread)
    requires Inv(s) && t in s.pc && s.pc[t].OneLoading?
    ensures CanReturn(s, t) <==> s.waiters >= 1
  {
    if s.waiters < 1 {
      NobodyIsStuck(s, t);
      StuckCannotReturn(s, t);
    } else if Clean(s) {
      CleanIsQuiet(s, t);
      DuringSelf(s, t);
      CleanCallCanReturn(Registered(s), s, s, t);
    } else {
      var u := SomebodyMayLeave(s, t);
      var e := TokenIsLeft(s, t, u);
    }
  }

  /** One timed waiter, and a notifier that has seen it and is about to read the count. */
  ghost function SeenOne(): State {
    State(Held(1), 1, 0, false, map[0 := Blocked(true), 1 := OneLoading])
  }

  lemma ReachSeenOne() returns (run: seq<State>)
    ensures IsRun(run) && run[|run| - 1] == SeenOne()
  {
    var s := State(Free, 0, 0, false, map[0 := Outside, 1 := Outside]);
    run := BeginWait([s], 0, true);
    s := run[|run| - 1];
    run := Extend(run, 1, CallOne, Put(s, 1, OneLocking));
    run := Extend(run, 1, Go, Put(s, 1, OneChecking).(mutex := Held(1)));
    run := Extend(run, 1, Go, Put(s, 1, OneLoading).(mutex := Held(1)));
    assert run[|run| - 1].pc == SeenOne().pc;
  }

  /** The stuck call happens: the only waiter times out between the first look at the count and the reading of it. */
  lemma NotifierCanGetStuck() returns (run: seq<State>)
    ensures IsRun(run) && Stuck(run[|run| - 1], 1)
  {
    run := ReachSeenOne();
    var s := SeenOne();
    run := Extend(run, 0, Timeout, Put(s, 0, Awake(false)));
    run := Extend(run, 0, Go, Put(s, 0, Signalling).(waiters := 0));
    RunsKeepInv(run, |run| - 1);
  }
}

/**
 * When `notify_all` leaves no token.  At the moment when a call has the mutex and is about to look
 * at the waiter count, timeouts still to come, the semaphore is zero at every return that can
 * follow exactly if there are no more tokens than threads that wait without a timeout.
 */
module NotifyAll {
  import opened CondVar
  import opened CallPaths

  predicate InNotifyAll(pc: Pc) {
    pc.AllChecking? || pc.AllLoading? || pc.AllReleasing? || pc.AllLoop? || pc.AllEventWait? || pc.AllAsserting? ||
    pc.AllDraining? || pc.AllUnlocking? || pc.AllEarly? || pc.AllFailed?
  }

  /** Threads that can only leave with a token. */
  ghost function Untimed(s: State): set<Thread> {
    set u | u in s.pc && s.pc[u] == Blocked(false)
  }

  /** Every token will be taken by a thread that waits for one without a timeout. */
  ghost predicate Covered(s: State) { s.sem <= |Untimed(s)| }

  /** The promise: at every return nobody is registered and no token is left. */
  ghost predicate CleansUp(s: State, t: Thread) {
    forall e :: During(s, t, e) && AtCall(e, t) && Returning(e.pc[t]) ==> Registered(e) == {} && e.sem == 0
  }

  // ----- covered tokens are taken ------------------------------------------------------------------------

  /** What the call of `t` relies on: until it looks, the tokens are covered; if it returns early there is none. */
  ghost predicate CallInv(s: State, t: Thread) {
    Inv(s) && AtCall(s, t) && InNotifyAll(s.pc[t]) && (s.pc[t].AllChecking? ==> Covered(s)) &&
    (s.pc[t].AllEarly? ==> s.sem == 0)
  }

  /** What a step of another thread does to the tokens and to the threads that need one. */
  lemma OtherTakes(s: State, t: Thread, u: Thread, a: Action)
    requires Inv(s) && t in s.pc && s.mutex == Held(t) && u != t && Enabled(s, u, a)
    ensures var s' := Step(s, u, a);
      Untimed(s') == Untimed(s) - {u} && s'.sem <= s.sem && (u in Untimed(s) ==> s'.sem == s.sem - 1) &&
      s'.pc[t] == s.pc[t]
  {
    OthersStayOut(s, t, u, a);
    var s' := Step(s, u, a);
    assert Untimed(s') == Untimed(s) - {u};
    hide Registered, Untimed;
    assert u in Untimed(s) ==> s.pc[u] == Blocked(false) by {
      MemberMeans(s, u);
    }
  }

  lemma MemberMeans(s: State, u: Thread)
    ensures u in Untimed(s) <==> u in s.pc && s.pc[u] == Blocked(false)
  {
  }

  lemma OtherKeepsCovered(s: State, t: Thread, u: Thread, a: Action)
    requires Inv(s) && t in s.pc && s.mutex == Held(t) && u != t && Enabled(s, u, a) && Covered(s)
    ensures Covered(Step(s, u, a))
  {
    OtherTakes(s, t, u, a);
    hide Untimed, Inv, Step, Enabled;
  }

  lemma NobodyRegistered(s: State)
    requires Inv(s) && s.waiters <= 0
    ensures Registered(s) == {} && Untimed(s) == {}
  {
    assert CountInv(s);
    forall u | u in Untimed(s)
      ensures u in Registered(s)
    {
    }
  }

  lemma CallerKeepsCall(s: State, t: Thread, a: Action)
    requires CallInv(s, t) && Enabled(s, t, a) && AtCall(Step(s, t, a), t)
    ensures CallInv(Step(s, t, a), t)
  {
    StepKeepsInv(s, t, a);
    if s.waiters <= 0 {
      NobodyRegistered(s);
    }
    hide Registered, Inv, Untimed;
  }

  lemma NextKeepsCall(s: State, t: Thread, s': State)
    requires CallInv(s, t) && AtCall(s', t) && Next(s, s')
    ensures CallInv(s', t)
  {
    var u, a :| Enabled(s, u, a) && s' == Step(s, u, a);
    if u == t {
      CallerKeepsCall(s, t, a);
    } else {
      CallHoldsMutex(s, t);
      StepKeepsInv(s, u, a);
      OtherTakes(s, t, u, a);
      if Covered(s) {
        OtherKeepsCovered(s, t, u, a);
      }
      hide Inv, Untimed, Covered, Step, Enabled;
    }
  }

  lemma ReturnIsClean(s: State, t: Thread)
    requires CallInv(s, t) && Returning(s.pc[t])
    ensures Registered(s) == {} && s.sem == 0
  {
    CallHoldsMutex(s, t);
    assert HolderInv(s, s.pc[t]);
    NobodyRegistered(s);
  }

  lemma CoveredCallCleansUp(s: State, t: Thread)
    requires Inv(s) && t in s.pc && s.pc[t].AllChecking? && Covered(s)
    ensures CleansUp(s, t)
  {
    assert CallInv(s, t);
    forall e | During(s, t, e) && AtCall(e, t) && Returning(e.pc[t])
      ensures Registered(e) == {} && e.sem == 0
    {
      hide CallInv, During, Next, AtCall, Registered;
      forall x, y | CallInv(x, t) && AtCall(y, t) && Next(x, y)
        ensures CallInv(y, t)
      {
        NextKeepsCall(x, t, y);
      }
      DuringKeeps(x => CallInv(x, t), s, t, e);
      ReturnIsClean(e, t);
    }
  }

  // ----- the waiters leave -----------------------------------------------------------------------------------

  /** Tokens that are left when every thread that needs one has taken one; negative if there are too few. */
  ghost function Spare(s: State): int { s.sem - |Untimed(s)| }

  /** During the call of `t`, which has not moved since `e`, and nobody has taken a token without need. */
  ghost predicate Meanwhile(s: State, t: Thread, e: State, r: State) {
    During(s, t, r) && Inv(r) && AtCall(r, t) && AtCall(e, t) && r.pc[t] == e.pc[t] && Spare(r) == Spare(e)
  }

  /** A registered thread is waiting or has woken up, as the mutex is not its own. */
  lemma StaysRegistered(s: State, t: Thread, u: Thread)
    requires Inv(s) && AtCall(s, t) && u in Registered(s)
    ensures u != t && u in s.pc && (s.pc[u].Blocked? || s.pc[u].Awake?)
  {
    CallHoldsMutex(s, t);
    assert Holding(s.pc[u]) ==> s.mutex == Held(u);
  }

  lemma OtherMoves(s: State, t: Thread, e: State, r: State, u: Thread, a: Action)
    requires Meanwhile(s, t, e, r) && u != t && Enabled(r, u, a)
    requires u in Untimed(r) || Step(r, u, a).sem == r.sem
    ensures Meanwhile(s, t, e, Step(r, u, a))
  {
    CallHoldsMutex(r, t);
    StepKeepsInv(r, u, a);
    OtherTakes(r, t, u, a);
    StepRegistered(r, u, a);
    hide Untimed, Inv, Step, Enabled, Registered, During;
    DuringThen(s, t, r, u, a);
  }

  /** A registered thread wakes up: a timed one by its timeout, an untimed one by a token. */
  lemma WaiterWakes(s: State, t: Thread, e: State, r: State, u: Thread) returns (w: State)
    requires Meanwhile(s, t, e, r) && u in Registered(r) && (r.pc[u] == Blocked(false) ==> r.sem > 0)
    ensures Meanwhile(s, t, e, w) && Registered(w) == Registered(r) && u != t && u in w.pc && w.pc[u].Awake?
  {
    StaysRegistered(r, t, u);
    w := r;
    if !r.pc[u].Awake? {
      var a := if r.pc[u].timed then Timeout else Go;
      assert Enabled(r, u, a);
      OtherMoves(s, t, e, r, u, a);
      w := Step(r, u, a);
      StepRegistered(r, u, a);
      assert w.pc[u].Awake?;
      hide Registered, Step, Meanwhile;
    }
  }

  lemma AwakeLeaves(s: State, u: Thread)
    requires u in s.pc && s.pc[u].Awake?
    ensures Enabled(s, u, Go) && Step(s, u, Go).sem == s.sem && Step(s, u, Go).pc == s.pc[u := Signalling]
  {
    hide Registered;
  }

  lemma WaiterLeaves(s: State, t: Thread, e: State, r: State, u: Thread) returns (w: State)
    requires Meanwhile(s, t, e, r) && u in Registered(r) && (r.pc[u] == Blocked(false) ==> r.sem > 0)
    ensures Meanwhile(s, t, e, w) && Registered(w) == Registered(r) - {u}
  {
    var v := WaiterWakes(s, t, e, r, u);
    hide Registered, Step, Meanwhile, Enabled;
    AwakeLeaves(v, u);
    StepRegistered(v, u, Go);
    OtherMoves(s, t, e, v, u, Go);
    w := Step(v, u, Go);
  }

  /** All who can leave do: whoever is left needs a token, and there is none. */
  ghost predicate Emptied(s: State) {
    Registered(s) == Untimed(s) && (s.sem == 0 || Registered(s) == {})
  }

  lemma {:induction false} WaitersLeave(s: State, t: Thread, e: State, r: State) returns (w: State)
    requires Meanwhile(s, t, e, r)
    ensures Meanwhile(s, t, e, w) && Emptied(w) && (Emptied(r) ==> w == r)
    decreases |Registered(r)|
  {
    if u :| u in Registered(r) && (r.pc[u] == Blocked(false) ==> r.sem > 0) {
      var v := WaiterLeaves(s, t, e, r, u);
      MemberMeans(r, u);
      hide Meanwhile, Untimed;
      w := WaitersLeave(s, t, e, v);
    } else {
      w := r;
    }
  }

  // ----- uncovered tokens outlast the waiters ---------------------------------------------------------------

  /** With more tokens than the untimed waiters can take, the call finds nobody and returns early: a token is left. */
  lemma SpilledTokenIsLeft(s: State, t: Thread) returns (e: State)
    requires Inv(s) && t in s.pc && s.pc[t].AllChecking? && !Covered(s)
    ensures During(s, t, e) && AtCall(e, t) && e.pc[t].AllEarly? && e.sem > 0
  {
    DuringSelf(s, t);
    var r := WaitersLeave(s, t, s, s);
    assert CountInv(r);
    hide Registered, Untimed;
    assert Registered(r) == {};
    DuringThen(s, t, r, t, Go);
    e := Step(r, t, Go);
  }

  // ----- the exact condition -------------------------------------------------------------------------------

  /**
   * A call about to look at the count leaves nobody registered and no token at whichever return
   * follows exactly when there are no more tokens than threads waiting without a timeout.
   */
  lemma NotifyAllCleansUpExactly(s: State, t: Thread)
    requires Inv(s) && t in s.pc && s.pc[t].AllChecking?
    ensures CleansUp(s, t) <==> s.sem <= |Untimed(s)|
  {
    if Covered(s) {
      CoveredCallCleansUp(s, t);
    } else {
      var e := SpilledTokenIsLeft(s, t);
      hide Inv, During, Untimed;
      assert Returning(e.pc[t]);
    }
  }

  // ----- the early return with a token ------------------------------------------------------------------------

  /** Two timed waiters, and a `notify_one` that has released a token. */
  ghost function TokenReleased(): State {
    State(Held(2), 2, 1, false, map[0 := Blocked(true), 1 := Blocked(true), 2 := OneLoop(1, {0, 1})])
  }

  lemma ReachTwoTimedWaiters() returns (run: seq<State>)
    ensures IsRun(run)
    ensures run[|run| - 1] == TokenReleased().(mutex := Free, sem := 0, pc := TokenReleased().pc[2 := Outside])
  {
    run := [State(Free, 0, 0, false, map[0 := Outside, 1 := Outside, 2 := Outside])];
    run := BeginWait(run, 0, true);
    run := BeginWait(run, 1, true);
  }

  lemma ReachTokenReleased() returns (run: seq<State>)
    ensures IsRun(run) && run[|run| - 1] == TokenReleased()
  {
    run := ReachTwoTimedWaiters();
    var s := run[|run| - 1];
    run := Extend(run, 2, CallOne, Put(s, 2, OneLocking));
    run := Extend(run, 2, Go, Put(s, 2, OneChecking).(mutex := Held(2)));
    run := Extend(run, 2, Go, Put(s, 2, OneLoading).(mutex := Held(2)));
    assert Registered(run[|run| - 1]) == {0, 1};
    run := Extend(run, 2, Go, Put(s, 2, OneReleasing(1, {0, 1})).(mutex := Held(2)));
    run := Extend(run, 2, Go, TokenReleased());
  }

  /** One waiter times out, and the call takes that for its success: a token and a waiter are left. */
  ghost function TokenLeft(): State {
    State(Free, 1, 1, false, map[0 := Signalling, 1 := Blocked(true), 2 := Outside])
  }

  lemma ReachTokenLeft() returns (run: seq<State>)
    ensures IsRun(run) && run[|run| - 1] == TokenLeft()
  {
    run := ReachTokenReleased();
    var s := TokenReleased();
    run := Extend(run, 0, Timeout, Put(s, 0, Awake(false)));
    run := Extend(run, 0, Go, Put(s, 0, Signalling).(waiters := 1));
    s := run[|run| - 1];
    run := Extend(run, 2, Go, Put(s, 2, OneAsserting(1, {0, 1})));
    run := Extend(run, 2, Go, Put(s, 2, OneUnlocking({0, 1})));
    run := Extend(run, 2, Go, TokenLeft());
  }

  /** The other one times out as well, and a `notify_all` that then finds nobody returns early with the token left. */
  lemma NotifyAllCanLeaveToken() returns (run: seq<State>)
    ensures IsRun(run)
    ensures var s := run[|run| - 1];
      2 in s.pc && s.pc[2].AllEarly? && Registered(s) == {} && s.sem == 1
  {
    run := ReachTokenLeft();
    var s := TokenLeft();
    run := Extend(run, 1, Timeout, Put(s, 1, Awake(false)));
    run := Extend(run, 1, Go, Put(s, 1, Signalling).(waiters := 0));
    s := run[|run| - 1];
    run := Extend(run, 2, CallAll, Put(s, 2, AllLocking));
    run := Extend(run, 2, Go, Put(s, 2, AllChecking).(mutex := Held(2)));
    run := Extend(run, 2, Go, Put(s, 2, AllEarly).(mutex := Held(2)));
  }
}

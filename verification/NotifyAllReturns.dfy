/**
 * When `notify_all` can return.  The call releases a token for each registered thread, unless the
 * semaphore cannot count them; at every point of the call it can be seen whether the threads that
 * need a token will find one, and the call can return exactly if they will.
 */
module NotifyAllReturns {
  import opened CondVar
  import opened CallPaths
  import opened NotifyAll

  /** The most tokens that the call can still release. */
  function ToCome(pc: Pc): nat {
    match pc
    case AllChecking => SEMAPHORE_MAX
    case AllLoading => SEMAPHORE_MAX
    case AllReleasing(count) => if 0 <= count <= SEMAPHORE_MAX then count else 0
    case _ => 0
  }

  /** There is a token, now or later, for every thread that can only leave with one. */
  ghost predicate Enough(s: State, t: Thread)
    requires t in s.pc
  {
    |Untimed(s)| <= s.sem + ToCome(s.pc[t])
  }

  // ----- too few tokens -----------------------------------------------------------------------------------

  ghost predicate Starved(s: State, t: Thread) {
    Inv(s) && AtCall(s, t) && InNotifyAll(s.pc[t]) && !Enough(s, t)
  }

  lemma CallerStarves(s: State, t: Thread, a: Action)
    requires Starved(s, t) && Enabled(s, t, a) && AtCall(Step(s, t, a), t)
    ensures Starved(Step(s, t, a), t)
  {
    StepKeepsInv(s, t, a);
    CallerKeepsUntimed(s, t, a);
    if s.waiters <= 0 {
      NobodyRegistered(s);
    }
    hide Registered, Inv, Untimed;
  }

  lemma CallerKeepsUntimed(s: State, t: Thread, a: Action)
    requires AtCall(s, t) && Enabled(s, t, a)
    ensures t in Step(s, t, a).pc && Untimed(Step(s, t, a)) == Untimed(s)
  {
    var s' := Step(s, t, a);
    StepRegistered(s, t, a);
    assert !s.pc[t].Blocked? && !s'.pc[t].Blocked?;
    hide Registered, Step;
  }

  lemma StarvedNext(s: State, t: Thread, s': State)
    requires Starved(s, t) && AtCall(s', t) && Next(s, s')
    ensures Starved(s', t)
  {
    var u, a :| Enabled(s, u, a) && s' == Step(s, u, a);
    if u == t {
      CallerStarves(s, t, a);
    } else {
      CallHoldsMutex(s, t);
      StepKeepsInv(s, u, a);
      OtherTakes(s, t, u, a);
      hide Inv, Untimed, Step, Enabled;
    }
  }

  lemma StarvedCannotReturn(s: State, t: Thread)
    requires Starved(s, t)
    ensures !CanReturn(s, t)
  {
    forall e | During(s, t, e)
      ensures AtCall(e, t) && !Returning(e.pc[t])
    {
      forall x, y | Starved(x, t) && AtCall(y, t) && Next(x, y)
        ensures Starved(y, t)
      {
        StarvedNext(x, t, y);
      }
      assert Starved(e, t) ==> !Returning(e.pc[t]) by {
        if Starved(e, t) {
          StarvedIsInside(e, t);
        }
      }
      hide Starved, During, Next, AtCall;
      DuringKeeps(x => Starved(x, t), s, t, e);
    }
  }

  lemma StarvedIsInside(s: State, t: Thread)
    requires Starved(s, t)
    ensures !Returning(s.pc[t])
  {
    CallHoldsMutex(s, t);
    assert HolderInv(s, s.pc[t]);
    if s.waiters <= 0 {
      NobodyRegistered(s);
    }
    hide Untimed, Registered;
  }

  // ----- enough tokens --------------------------------------------------------------------------------------

  function Phase(pc: Pc): nat {
    match pc
    case AllChecking => 7
    case AllLoading => 6
    case AllReleasing(_) => 5
    case AllEventWait => 4
    case AllLoop => 3
    case AllAsserting => 2
    case AllDraining => 1
    case _ => 0
  }

  predicate Closer(s: State, t: Thread, s': State)
    requires t in s.pc && t in s'.pc
  {
    Phase(s'.pc[t]) < Phase(s.pc[t]) || (s.pc[t].AllDraining? && s'.pc[t] == s.pc[t] && s'.sem < s.sem)
  }

  lemma CallerIsCloser(s: State, t: Thread)
    requires AtCall(s, t) && InNotifyAll(s.pc[t]) && !Returning(s.pc[t]) && !s.pc[t].AllFailed?
    requires s.pc[t].AllAsserting? || s.pc[t].AllLoop? ==> s.waiters == 0
    ensures Enabled(s, t, Go) && AtCall(Step(s, t, Go), t) && InNotifyAll(Step(s, t, Go).pc[t])
    ensures Closer(s, t, Step(s, t, Go))
  {
    hide Registered;
  }

  /** A caller that is not short of tokens, after all who can leave have left, is not short of them after its step. */
  lemma CallerKeepsEnough(s: State, t: Thread)
    requires Inv(s) && AtCall(s, t) && Enough(s, t) && Emptied(s) && Enabled(s, t, Go)
    requires AtCall(Step(s, t, Go), t) && (s.pc[t].AllDraining? ==> s.waiters == 0)
    ensures Enough(Step(s, t, Go), t)
  {
    CallerKeepsUntimed(s, t, Go);
    assert CountInv(s);
    hide Registered, Untimed, Inv;
  }

  lemma CallerMoves(s: State, t: Thread)
    requires Inv(s) && AtCall(s, t) && InNotifyAll(s.pc[t]) && !Returning(s.pc[t]) && Enough(s, t) && Emptied(s)
    ensures Enabled(s, t, Go)
    ensures var s' := Step(s, t, Go);
      Inv(s') && AtCall(s', t) && InNotifyAll(s'.pc[t]) && Enough(s', t) && Closer(s, t, s')
    ensures s.pc[t].AllAsserting? || s.pc[t].AllDraining? ==> Registered(s) == Registered(Step(s, t, Go)) == {}
  {
    CallHoldsMutex(s, t);
    assert CountInv(s) && HolderInv(s, s.pc[t]);
    hide Registered, Untimed, Inv, Step, Enabled;
    CallerIsCloser(s, t);
    StepKeepsInv(s, t, Go);
    CallerKeepsEnough(s, t);
    StepRegistered(s, t, Go);
    if s.waiters <= 0 {
      NobodyRegistered(s);
    }
  }

  lemma {:induction false} ReturnsFrom(s: State, t: Thread, e: State)
    requires During(s, t, e) && Inv(e) && AtCall(e, t) && InNotifyAll(e.pc[t]) && Enough(e, t)
    requires e.pc[t].AllDraining? ==> Registered(e) == {}
    ensures CanReturn(s, t)
    decreases Phase(e.pc[t]), e.sem
  {
    if !Returning(e.pc[t]) {
      var r := WaitersLeave(s, t, e, e);
      assert Registered(e) == {} ==> r == e;
      CallerMoves(r, t);
      DuringThen(s, t, r, t, Go);
      ReturnsFrom(s, t, Step(r, t, Go));
    }
  }

  // ----- the exact condition ---------------------------------------------------------------------------------

  /**
   * At every point of a call of `notify_all`: it can return exactly when every thread that waits
   * without a timeout has a token, or will have one that the semaphore can count.
   */
  lemma NotifyAllCanReturnExactly(s: State, t: Thread)
    requires Inv(s) && AtCall(s, t) && InNotifyAll(s.pc[t])
    ensures CanReturn(s, t) <==> |Untimed(s)| <= s.sem + ToCome(s.pc[t])
  {
    if Enough(s, t) {
      DuringSelf(s, t);
      ReturnsFrom(s, t, s);
    } else {
      StarvedCannotReturn(s, t);
    }
  }

  // ----- never stuck -----------------------------------------------------------------------------------------

  /** Threads that wait for a token, with or without a timeout. */
  ghost function Waiting(s: State): set<Thread> {
    set u | u in s.pc && s.pc[u].Blocked?
  }

  /** Whoever takes a token, there will be one for each thread that needs it. */
  ghost predicate Provided(s: State, t: Thread)
    requires t in s.pc
  {
    || Untimed(s) == {}
    || |Waiting(s)| <= s.sem
    || match s.pc[t]
       case AllChecking => s.sem + s.waiters <= SEMAPHORE_MAX
       case AllLoading => s.sem + s.waiters <= SEMAPHORE_MAX
       case AllReleasing(count) => s.waiters <= count && s.sem + count <= SEMAPHORE_MAX
       case _ => false
  }

  ghost predicate Supplied(s: State, t: Thread) {
    Inv(s) && AtCall(s, t) && InNotifyAll(s.pc[t]) && Provided(s, t)
  }

  lemma WaitersAreRegistered(s: State)
    requires CountInv(s)
    ensures |Untimed(s)| <= |Waiting(s)| <= s.waiters
  {
    SubsetIsSmaller(Untimed(s), Waiting(s));
    SubsetIsSmaller(Waiting(s), Registered(s));
  }

  lemma SuppliedIsEnough(s: State, t: Thread)
    requires Supplied(s, t)
    ensures CanReturn(s, t)
  {
    WaitersAreRegistered(s);
    hide Untimed, Waiting, Inv;
    NotifyAllCanReturnExactly(s, t);
  }

  lemma OtherTakesOne(s: State, t: Thread, u: Thread, a: Action)
    requires Inv(s) && t in s.pc && s.mutex == Held(t) && u != t && Enabled(s, u, a)
    ensures var s' := Step(s, u, a);
      Waiting(s') == Waiting(s) - {u} && s'.sem <= s.sem && s'.sem >= s.sem - (if u in Waiting(s) then 1 else 0) &&
      s'.waiters <= s.waiters
  {
    OthersStayOut(s, t, u, a);
    assert CountInv(s);
    OutsiderStep(s, u, a);
    var s' := Step(s, u, a);
    assert Waiting(s') == Waiting(s) - {u};
    hide Registered, Waiting;
    assert u in Waiting(s) <==> s.pc[u].Blocked? by {
      WaitingMeans(s, u);
    }
  }

  lemma WaitingMeans(s: State, u: Thread)
    ensures u in Waiting(s) <==> u in s.pc && s.pc[u].Blocked?
  {
  }

  lemma OtherKeepsSupply(s: State, t: Thread, u: Thread, a: Action)
    requires Supplied(s, t) && u != t && Enabled(s, u, a)
    ensures Supplied(Step(s, u, a), t)
  {
    CallHoldsMutex(s, t);
    StepKeepsInv(s, u, a);
    OtherTakes(s, t, u, a);
    OtherTakesOne(s, t, u, a);
    hide Inv, Untimed, Waiting, Step, Enabled;
  }

  lemma CallerKeepsWaiting(s: State, t: Thread, a: Action)
    requires AtCall(s, t) && Enabled(s, t, a)
    ensures t in Step(s, t, a).pc && Waiting(Step(s, t, a)) == Waiting(s)
  {
    var s' := Step(s, t, a);
    StepRegistered(s, t, a);
    assert !s.pc[t].Blocked? && !s'.pc[t].Blocked?;
    hide Registered, Step;
  }

  lemma CallerKeepsSupply(s: State, t: Thread, a: Action)
    requires Supplied(s, t) && Enabled(s, t, a) && AtCall(Step(s, t, a), t)
    ensures Supplied(Step(s, t, a), t)
  {
    CallHoldsMutex(s, t);
    StepKeepsInv(s, t, a);
    CallerKeepsUntimed(s, t, a);
    CallerKeepsWaiting(s, t, a);
    WaitersAreRegistered(s);
    assert HolderInv(s, s.pc[t]);
    if s.waiters <= 0 {
      NobodyRegistered(s);
    }
    hide Inv, Untimed, Waiting, Registered;
  }

  lemma SuppliedNext(s: State, t: Thread, s': State)
    requires Supplied(s, t) && AtCall(s', t) && Next(s, s')
    ensures Supplied(s', t)
  {
    hide Supplied, AtCall;
    var u, a :| Enabled(s, u, a) && s' == Step(s, u, a);
    if u == t {
      CallerKeepsSupply(s, t, a);
    } else {
      OtherKeepsSupply(s, t, u, a);
    }
  }

  /** Threads with a timeout take tokens until there are too few for the others. */
  lemma {:induction false} TimedTake(s: State, t: Thread, e: State) returns (r: State)
    requires During(s, t, e) && Inv(e) && AtCall(e, t) && e.pc[t].AllLoop?
    requires |Waiting(e)| > e.sem && Untimed(e) != {}
    ensures During(s, t, r) && Starved(r, t)
    decreases e.sem
  {
    r := e;
    if |Untimed(e)| <= e.sem {
      if Waiting(e) <= Untimed(e) {
        SubsetIsSmaller(Waiting(e), Untimed(e));
        assert false;
      }
      var u :| u in Waiting(e) && u !in Untimed(e);
      CallHoldsMutex(e, t);
      OtherTakes(e, t, u, Go);
      OtherTakesOne(e, t, u, Go);
      StepKeepsInv(e, u, Go);
      var e' := Step(e, u, Go);
      assert e'.sem == e.sem - 1;
      hide Waiting, Untimed, Step, Enabled, Inv, During;
      DuringThen(s, t, e, u, Go);
      r := TimedTake(s, t, e');
    }
  }

  /** The release does not fit into the semaphore and changes nothing. */
  lemma ReleaseFails(s: State, t: Thread) returns (e: State)
    requires Inv(s) && t in s.pc && s.pc[t].AllChecking? && s.waiters > 0 && s.sem + s.waiters > SEMAPHORE_MAX
    ensures During(s, t, e) && Inv(e) && e == Put(s, t, AllLoop)
  {
    DuringSelf(s, t);
    StepKeepsInv(s, t, Go);
    var s1 := Step(s, t, Go);
    DuringThen(s, t, s, t, Go);
    StepKeepsInv(s1, t, Go);
    var s2 := Step(s1, t, Go);
    DuringThen(s, t, s1, t, Go);
    StepKeepsInv(s2, t, Go);
    e := Step(s2, t, Go);
    hide During, Inv, Registered;
    DuringThen(s, t, s2, t, Go);
  }

  lemma ShortageComes(s: State, t: Thread) returns (e: State)
    requires Inv(s) && t in s.pc && s.pc[t].AllChecking? && !Provided(s, t)
    ensures During(s, t, e) && !CanReturn(e, t)
  {
    WaitersAreRegistered(s);
    assert |Untimed(s)| > 0;
    var r := ReleaseFails(s, t);
    assert Untimed(r) == Untimed(s) && Waiting(r) == Waiting(s);
    hide Untimed, Waiting, Inv, During, Starved;
    e := TimedTake(s, t, r);
    StarvedCannotReturn(e, t);
  }

  /**
   * Seen from the moment the call gets the mutex: whatever the other threads do, it always can
   * return exactly when the release fits into the semaphore, or nobody needs a token, or there
   * are tokens for all who wait.
   */
  lemma NotifyAllIsNeverStuckExactly(s: State, t: Thread)
    requires Inv(s) && t in s.pc && s.pc[t].AllChecking?
    ensures (forall e :: During(s, t, e) ==> CanReturn(e, t)) <==>
      s.sem + s.waiters <= 65535 || Untimed(s) == {} || |Waiting(s)| <= s.sem
  {
    if Provided(s, t) {
      forall e | During(s, t, e)
        ensures CanReturn(e, t)
      {
        assert Supplied(s, t);
        hide Supplied, During, CanReturn, Next, AtCall;
        forall x, y | Supplied(x, t) && AtCall(y, t) && Next(x, y)
          ensures Supplied(y, t)
        {
          SuppliedNext(x, t, y);
        }
        DuringKeeps(x => Supplied(x, t), s, t, e);
        SuppliedIsEnough(e, t);
      }
    } else {
      var e := ShortageComes(s, t);
    }
  }
}

/**
 * A clean call of `notify_one`: no token is left over, somebody waits, and all who wait do so
 * without a timeout.  No timeout is possible until the call returns, it always can return, and it
 * lets exactly one waiter go.
 */
module CleanNotify {
  import opened CondVar
  import opened CallPaths

  /** Program points of a call that has not found the count to be zero. */
  predicate InNotifyOne(pc: Pc) {
    pc.OneChecking? || pc.OneLoading? || pc.OneReleasing? || pc.OneLoop? || pc.OneEventWait? || pc.OneAsserting? ||
    pc.OneUnlocking?
  }

  /** What can be seen before the count is read: no token, and only waiters without a timeout, at least one. */
  ghost predicate Clean(s: State) {
    s.sem == 0 && s.waiters >= 1 && forall u :: u in Registered(s) ==> s.pc[u] == Blocked(false)
  }

  /** One of the threads that were registered has left, and no release is outstanding. */
  ghost predicate Delivered(s: State, e: State) {
    Outstanding(e) == 0 && Registered(e) <= Registered(s) && |Registered(s) - Registered(e)| == 1
  }

  /**
   * The promise: the assertion never fails, the call always can return, and when it does it has
   * delivered, or has found nobody registered.
   */
  ghost predicate Delivers(s: State, t: Thread) {
    forall e :: During(s, t, e) ==> Promised(s, t, e)
  }

  ghost predicate Promised(s: State, t: Thread, e: State) {
    AtCall(e, t) && !e.pc[t].OneFailed? && CanReturn(e, t) && (e.pc[t].OneUnlocking? ==> Delivered(s, e)) &&
    (e.pc[t].OneEarly? ==> Registered(e) == {})
  }

  // ----- a clean call --------------------------------------------------------------------------------

  /** During a clean call of `t` that found the threads of `all` waiting. */
  ghost predicate CallInv(all: set<Thread>, s: State, t: Thread) {
    QuietInv(s) && s.mutex == Held(t) && AtCall(s, t) && InNotifyOne(s.pc[t]) && all != {} &&
    (forall u :: u in s.pc ==> s.pc[u] != Blocked(true)) && Seen(s, s.pc[t]) == all
  }

  /** The threads that the call has found, or would find now. */
  ghost function Seen(s: State, pc: Pc): set<Thread> {
    match pc
    case OneReleasing(_, seen) => seen
    case OneLoop(_, seen) => seen
    case OneEventWait(_, seen) => seen
    case OneAsserting(_, seen) => seen
    case OneUnlocking(seen) => seen
    case _ => Registered(s)
  }

  lemma CleanIsQuiet(s: State, t: Thread)
    requires Inv(s) && t in s.pc && (s.pc[t].OneChecking? || s.pc[t].OneLoading?) && Clean(s)
    ensures CallInv(Registered(s), s, t)
  {
    CallHoldsMutex(s, t);
    forall u | u in s.pc
      ensures !s.pc[u].Awake? && s.pc[u] != Blocked(true)
    {
      if Counted(s.pc[u]) {
        assert u in Registered(s);
      }
    }
    assert Tokened(s) == {};
  }

  lemma OtherKeepsCall(all: set<Thread>, s: State, t: Thread, u: Thread, a: Action)
    requires CallInv(all, s, t) && u != t && Enabled(s, u, a)
    ensures CallInv(all, Step(s, u, a), t)
  {
    var s' := Step(s, u, a);
    assert a != Timeout;
    OthersStayOut(s, t, u, a);
    StepKeepsQuiet(s, u, a);
    OutsiderQuiet(s, u, a);
    if s.pc[t].OneChecking? || s.pc[t].OneLoading? {
      assert Outstanding(s) == 0;
      assert CountInv(s) && CountInv(s');
      SameSize(Registered(s'), Registered(s));
    }
    hide Registered, Step, Outstanding, QuietInv, Holding, Enabled;
  }

  /** Within its call, a thread remembers whom it found. */
  lemma CallerRemembers(s: State, t: Thread, a: Action)
    requires AtCall(s, t) && InNotifyOne(s.pc[t]) && (s.pc[t].OneChecking? ==> s.waiters > 0) && Enabled(s, t, a)
    requires AtCall(Step(s, t, a), t) && !Step(s, t, a).pc[t].OneFailed?
    ensures var s' := Step(s, t, a);
      InNotifyOne(s'.pc[t]) && Seen(s', s'.pc[t]) == Seen(s, s.pc[t])
  {
    HolderRegisters(s, t, a);
    hide Registered;
  }

  lemma QuietCallHolds(s: State, t: Thread)
    requires QuietInv(s) && AtCall(s, t)
    ensures s.mutex == Held(t) && !s.pc[t].OneFailed?
  {
    CallHoldsMutex(s, t);
  }

  lemma SomebodyWaits(all: set<Thread>, s: State, t: Thread)
    requires CallInv(all, s, t) && (s.pc[t].OneChecking? || s.pc[t].OneLoading?)
    ensures s.waiters > 0
  {
    assert CountInv(s) && Registered(s) == all;
    hide Registered;
  }

  lemma CallerKeepsCall(all: set<Thread>, s: State, t: Thread, a: Action)
    requires CallInv(all, s, t) && Enabled(s, t, a) && AtCall(Step(s, t, a), t)
    ensures CallInv(all, Step(s, t, a), t)
  {
    if s.pc[t].OneChecking? {
      SomebodyWaits(all, s, t);
    }
    var s' := Step(s, t, a);
    assert a != Timeout && !s'.pc[t].Blocked?;
    hide Registered, QuietInv, Step, Seen, Enabled, Holding, InCall, InNotifyOne;
    StepKeepsQuiet(s, t, a);
    QuietCallHolds(s', t);
    CallerRemembers(s, t, a);
    StepRegistered(s, t, a);
  }

  lemma NextKeepsCall(all: set<Thread>, s: State, t: Thread, s': State)
    requires CallInv(all, s, t) && AtCall(s', t) && Next(s, s')
    ensures CallInv(all, s', t)
  {
    hide CallInv, AtCall;
    var u, a :| Enabled(s, u, a) && s' == Step(s, u, a);
    if u == t {
      CallerKeepsCall(all, s, t, a);
    } else {
      OtherKeepsCall(all, s, t, u, a);
    }
  }

  /** In every state of a clean call the assertion holds, and a call about to return has delivered. */
  lemma CallDelivers(s: State, t: Thread, e: State)
    requires CallInv(Registered(s), e, t)
    ensures InNotifyOne(e.pc[t]) && (e.pc[t].OneUnlocking? ==> Delivered(s, e))
  {
    if e.pc[t].OneUnlocking? {
      OneLeft(Registered(s), Registered(e));
    }
  }

  // ----- a clean call can always return ----------------------------------------------------------------

  /** How far the release of the call is from being used up. */
  ghost function Pending(s: State): nat {
    if Tokened(s) != {} then 3 else if s.sem > 0 then 4 else 0
  }

  /** How far the call is from its return. */
  ghost function Distance(s: State, t: Thread): nat
    requires t in s.pc
  {
    match s.pc[t]
    case OneChecking => 10
    case OneLoading => 9
    case OneReleasing(_, _) => 8
    case OneEventWait(_, _) => 3 + Pending(s)
    case OneLoop(_, _) => 2 + Pending(s)
    case OneAsserting(_, _) => 1
    case _ => 0
  }

  lemma NothingPending(s: State)
    ensures Pending(s) == 0 <==> Outstanding(s) == 0
  {
  }

  /** The waiter count is where the call wants it. */
  predicate AtTarget(s: State, pc: Pc) {
    match pc
    case OneLoop(target, _) => s.waiters == target
    case OneAsserting(target, _) => s.waiters == target
    case _ => true
  }

  lemma CallerMoves(s: State, t: Thread)
    requires AtCall(s, t) && InNotifyOne(s.pc[t]) && !s.pc[t].OneUnlocking? && AtTarget(s, s.pc[t])
    requires s.pc[t].OneChecking? ==> s.waiters > 0
    requires s.pc[t].OneLoop? || s.pc[t].OneEventWait? ==> Pending(s) == 0
    ensures Enabled(s, t, Go) && AtCall(Step(s, t, Go), t) && Distance(Step(s, t, Go), t) < Distance(s, t)
  {
    StepTokened(s, t, Go);
    hide Registered, Tokened;
  }

  /** The caller's own step brings it closer, unless it waits for a release to be used up. */
  lemma CallerAdvances(all: set<Thread>, s: State, t: Thread)
    requires CallInv(all, s, t) && !s.pc[t].OneUnlocking?
    requires s.pc[t].OneLoop? || s.pc[t].OneEventWait? ==> Outstanding(s) == 0
    ensures Enabled(s, t, Go) && AtCall(Step(s, t, Go), t) && Distance(Step(s, t, Go), t) < Distance(s, t)
  {
    if s.pc[t].OneChecking? {
      SomebodyWaits(all, s, t);
    }
    assert HolderQuiet(s, s.pc[t]) && InNotifyOne(s.pc[t]);
    assert AtTarget(s, s.pc[t]);
    hide CallInv, QuietInv, HolderQuiet, Registered, Tokened, Step, Enabled, AtTarget, Distance, Pending, Outstanding;
    NothingPending(s);
    CallerMoves(s, t);
  }

  /** The thread that uses up the release: one that has its token, or one that still waits. */
  lemma WhoIsNext(all: set<Thread>, s: State, t: Thread) returns (u: Thread)
    requires CallInv(all, s, t) && (s.pc[t].OneLoop? || s.pc[t].OneEventWait?) && Outstanding(s) > 0
    ensures u != t && u in s.pc && Enabled(s, u, Go)
    ensures if Tokened(s) != {} then s.pc[u] == Awake(true) else s.pc[u].Blocked? && s.sem > 0
  {
    if Tokened(s) != {} {
      u :| u in Tokened(s);
    } else {
      assert s.waiters >= 1 && CountInv(s);
      assert Registered(s) != {};
      u :| u in Registered(s);
      assert u !in Tokened(s) && s.pc[u] != Awake(false);
      assert Holding(s.pc[u]) ==> s.mutex == Held(u);
    }
  }

  /** What that step does to the tokens. */
  lemma ReleaseIsUsed(s: State, u: Thread)
    requires u in s.pc && Enabled(s, u, Go) && Outstanding(s) <= 1
    requires if Tokened(s) != {} then s.pc[u] == Awake(true) else s.pc[u].Blocked? && s.sem > 0
    ensures Pending(Step(s, u, Go)) < Pending(s)
  {
    var s' := Step(s, u, Go);
    StepTokened(s, u, Go);
    if s.pc[u] == Awake(true) {
      OnlyOne(Tokened(s), u);
      assert s'.sem == s.sem == 0 && s'.pc[u] == Signalling;
    } else {
      assert s'.pc[u] == Awake(true);
    }
    hide Registered, Tokened, Step;
  }

  lemma OtherAdvances(all: set<Thread>, s: State, t: Thread, u: Thread)
    requires CallInv(all, s, t) && (s.pc[t].OneLoop? || s.pc[t].OneEventWait?)
    requires u != t && u in s.pc && Enabled(s, u, Go)
    requires if Tokened(s) != {} then s.pc[u] == Awake(true) else s.pc[u].Blocked? && s.sem > 0
    ensures AtCall(Step(s, u, Go), t) && Distance(Step(s, u, Go), t) < Distance(s, t)
  {
    hide *;
    AtMostOneRelease(all, s, t);
    ReleaseIsUsed(s, u);
    StepRegistered(s, u, Go);
    CloserByRelease(s, t, Step(s, u, Go));
  }

  lemma AtMostOneRelease(all: set<Thread>, s: State, t: Thread)
    requires CallInv(all, s, t) && (s.pc[t].OneLoop? || s.pc[t].OneEventWait?)
    ensures t in s.pc && AtCall(s, t) && Outstanding(s) <= 1
  {
    assert HolderQuiet(s, s.pc[t]);
    hide Registered, Outstanding;
  }

  lemma CloserByRelease(s: State, t: Thread, s': State)
    requires AtCall(s, t) && (s.pc[t].OneLoop? || s.pc[t].OneEventWait?) && t in s'.pc && s'.pc[t] == s.pc[t]
    requires Pending(s') < Pending(s)
    ensures AtCall(s', t) && Distance(s', t) < Distance(s, t)
  {
    hide Pending;
  }

  lemma OnlyOne(x: set<Thread>, u: Thread)
    requires u in x && |x| <= 1
    ensures x == {u}
  {
    SameSize({u}, x);
  }

  lemma {:induction false} CleanCallCanReturn(all: set<Thread>, s: State, e: State, t: Thread)
    requires CallInv(all, e, t) && During(s, t, e)
    ensures CanReturn(s, t)
    decreases Distance(e, t)
  {
    assert AtCall(e, t);
    if !e.pc[t].OneUnlocking? {
      var u := t;
      if (e.pc[t].OneLoop? || e.pc[t].OneEventWait?) && Outstanding(e) > 0 {
        u := WhoIsNext(all, e, t);
        OtherAdvances(all, e, t, u);
        OtherKeepsCall(all, e, t, u, Go);
      } else {
        CallerAdvances(all, e, t);
        CallerKeepsCall(all, e, t, Go);
      }
      hide CallInv, Distance, Step, Outstanding, Enabled, AtCall;
      DuringThen(s, t, e, u, Go);
      CleanCallCanReturn(all, s, Step(e, u, Go), t);
    }
  }

  lemma CleanCallDelivers(s: State, t: Thread)
    requires Inv(s) && t in s.pc && (s.pc[t].OneChecking? || s.pc[t].OneLoading?) && Clean(s)
    ensures Delivers(s, t)
  {
    var all := Registered(s);
    CleanIsQuiet(s, t);
    hide CallInv, Inv, Clean, Delivered, CanReturn, Registered, AtCall, During, Next;
    forall e | During(s, t, e)
      ensures Promised(s, t, e)
    {
      forall x, y | CallInv(all, x, t) && AtCall(y, t) && Next(x, y)
        ensures CallInv(all, y, t)
      {
        NextKeepsCall(all, x, t, y);
      }
      DuringKeeps(x => CallInv(all, x, t), s, t, e);
      CallDelivers(s, t, e);
      DuringSelf(e, t);
      CleanCallCanReturn(all, e, e, t);
    }
  }
}

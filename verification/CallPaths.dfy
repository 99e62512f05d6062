/**
 * What can happen while one thread is inside its call of a notifier: paths of steps of all
 * threads, timeouts included.
 */
module CallPaths {
  import opened CondVar

  /** Program points of the notifiers from the first look at the waiter count to the return. */
  predicate InCall(pc: Pc) { Holding(pc) && !pc.WaitCounting? && !pc.WaitUnlocking? }

  predicate AtCall(s: State, t: Thread) { t in s.pc && InCall(s.pc[t]) }

  /** Steps of all threads throughout which `t` is inside its call. */
  ghost predicate IsCallPath(path: seq<State>, s: State, t: Thread, e: State) {
    path != [] && path[0] == s && path[|path| - 1] == e &&
    (forall i :: 0 <= i < |path| ==> AtCall(path[i], t)) &&
    (forall i :: 0 < i < |path| ==> Next(path[i - 1], path[i]))
  }

  /** The state `e` can follow `s` during the call of `t`. */
  ghost predicate During(s: State, t: Thread, e: State) {
    exists path :: IsCallPath(path, s, t, e)
  }

  /** About to let go of the mutex and return. */
  predicate Returning(pc: Pc) { pc.OneUnlocking? || pc.OneEarly? || pc.AllUnlocking? || pc.AllEarly? }

  /** The threads can act so that the call returns. */
  ghost predicate CanReturn(s: State, t: Thread) {
    exists e :: During(s, t, e) && AtCall(e, t) && Returning(e.pc[t])
  }

  lemma DuringSelf(s: State, t: Thread)
    requires AtCall(s, t)
    ensures During(s, t, s)
  {
    assert IsCallPath([s], s, t, s);
  }

  lemma DuringThen(s: State, t: Thread, e: State, u: Thread, a: Action)
    requires During(s, t, e) && Enabled(e, u, a) && AtCall(Step(e, u, a), t)
    ensures During(s, t, Step(e, u, a))
  {
    var path :| IsCallPath(path, s, t, e);
    var e' := Step(e, u, a);
    hide Step, Enabled, AtCall;
    assert Next(e, e');
    hide Next;
    assert IsCallPath(path + [e'], s, t, e');
  }

  lemma DuringAfter(s: State, t: Thread, u: Thread, a: Action, e: State)
    requires AtCall(s, t) && Enabled(s, u, a) && During(Step(s, u, a), t, e)
    ensures During(s, t, e)
  {
    var s' := Step(s, u, a);
    var path :| IsCallPath(path, s', t, e);
    hide Step, Enabled, AtCall;
    assert Next(s, s');
    hide Next;
    var longer := [s] + path;
    assert longer[|longer| - 1] == path[|path| - 1];
    assert IsCallPath(longer, s, t, e);
  }

  lemma {:induction false} PathKeeps(P: State -> bool, path: seq<State>, s: State, t: Thread, e: State, n: nat)
    requires IsCallPath(path, s, t, e) && P(s) && n < |path|
    requires forall x, y :: P(x) && AtCall(y, t) && Next(x, y) ==> P(y)
    ensures P(path[n])
  {
    hide Next, AtCall;
    if n > 0 {
      PathKeeps(P, path, s, t, e, n - 1);
      assert Next(path[n - 1], path[n]);
    }
  }

  /** What every step inside the call keeps holds in every state of the call. */
  lemma DuringKeeps(P: State -> bool, s: State, t: Thread, e: State)
    requires During(s, t, e) && P(s)
    requires forall x, y :: P(x) && AtCall(y, t) && Next(x, y) ==> P(y)
    ensures P(e) && AtCall(e, t)
  {
    var path :| IsCallPath(path, s, t, e);
    hide Next, AtCall;
    PathKeeps(P, path, s, t, e, |path| - 1);
    assert AtCall(path[|path| - 1], t);
  }

  /** A wait before it blocks. */
  predicate BeforeWait(pc: Pc) { pc.WaitLocking? || pc.WaitCounting? || pc.WaitUnlocking? }

  /** A wait is left only after it blocked, by a token that it takes or by its timeout. */
  lemma WaitsTakeTheirCourse(s: State, t: Thread, a: Action)
    requires Enabled(s, t, a)
    ensures var s' := Step(s, t, a);
      var pc, pc' := s.pc[t], s'.pc[t];
      (a.CallWait? || BeforeWait(pc) ==> BeforeWait(pc') || pc'.Blocked?) &&
      (pc.Blocked? && a == Timeout ==> pc.timed && pc' == Awake(false) && s'.sem == s.sem) &&
      (pc.Blocked? && a != Timeout ==> pc' == Awake(true) && s'.sem == s.sem - 1) &&
      (pc.Awake? ==> pc'.Signalling?) && (pc.Signalling? ==> pc'.Outside?)
  {
    hide Registered;
  }

  /** A call of a notifier begins with the free mutex. */
  lemma NotifiersBegin(s: State, t: Thread, a: Action)
    requires Enabled(s, t, a)
    ensures var pc, pc' := s.pc[t], Step(s, t, a).pc[t];
      (a.CallAll? ==> pc'.AllLocking?) && (pc.AllLocking? ==> s.mutex.Free? && pc'.AllChecking?) &&
      (a.CallOne? ==> pc'.OneLocking?) && (pc.OneLocking? ==> s.mutex.Free? && pc'.OneChecking?)
  {
    hide Registered;
  }

  /** It ends at one of its two ends, by freeing the mutex. */
  lemma NotifiersEnd(s: State, t: Thread, a: Action)
    requires Enabled(s, t, a) && AtCall(s, t) && !AtCall(Step(s, t, a), t)
    ensures Returning(s.pc[t]) && Step(s, t, a) == Put(s, t, Outside).(mutex := Free)
  {
    hide Registered;
  }

  lemma CallHoldsMutex(s: State, t: Thread)
    requires Inv(s) && AtCall(s, t)
    ensures s.mutex == Held(t)
  {
    assert Holding(s.pc[t]);
  }

  /** While the mutex is held by `t`, another thread neither takes it nor begins to wait. */
  lemma OthersStayOut(s: State, t: Thread, u: Thread, a: Action)
    requires Inv(s) && t in s.pc && s.mutex == Held(t) && u != t && Enabled(s, u, a)
    ensures var s' := Step(s, u, a);
      u in s'.pc && !Holding(s.pc[u]) && !Holding(s'.pc[u]) && s'.mutex == Held(t) && s'.pc == s.pc[u := s'.pc[u]] &&
      !s'.pc[u].Blocked?
  {
    hide Registered;
    assert !Holding(s.pc[u]);
    StepRegistered(s, u, a);
  }

  /** A set that shrinks without getting smaller stays the same. */
  lemma SameSize(x: set<Thread>, y: set<Thread>)
    requires x <= y && |x| == |y|
    ensures x == y
  {
    assert y == x + (y - x);
  }
}

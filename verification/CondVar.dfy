/**
 * The condition variable over a semaphore: a waiter count, a semaphore and a wake event, with a
 * mutex that keeps new waiters out while a notifier works.  Each access to one of these is one
 * step of one thread; the steps of any number of threads interleave freely.
 */
module CondVar {

  type Thread = nat

  /** The largest count of the semaphore. */
  const SEMAPHORE_MAX: nat := 0xFFFF

  /**
   * Where a thread stands.  `seen` records which threads were registered when a `notify_one`
   * read the waiter count; it is only there to state what the call achieves.
   */
  datatype Pc =
    | Outside
    // wait_impl
    | WaitLocking(timed: bool)
    | WaitCounting(timed: bool)
    | WaitUnlocking(timed: bool)
    | Blocked(timed: bool)
    | Awake(token: bool)
    | Signalling
    // notify_all
    | AllLocking
    | AllChecking
    | AllLoading
    | AllReleasing(count: int)
    | AllLoop
    | AllEventWait
    | AllAsserting
    | AllDraining
    | AllUnlocking
    | AllEarly
    | AllFailed
    // notify_one
    | OneLocking
    | OneChecking
    | OneLoading
    | OneReleasing(target: int, seen: set<Thread>)
    | OneLoop(target: int, seen: set<Thread>)
    | OneEventWait(target: int, seen: set<Thread>)
    | OneAsserting(target: int, seen: set<Thread>)
    | OneUnlocking(seen: set<Thread>)
    | OneEarly
    | OneFailed

  datatype Mutex = Free | Held(owner: Thread)

  datatype State = State(mutex: Mutex, waiters: int, sem: nat, event: bool, pc: map<Thread, Pc>)

  /** A thread outside may call; inside, `Go` is its next step, except that a timed wait may time out. */
  datatype Action = CallWait(timed: bool) | CallAll | CallOne | Go | Timeout

  predicate Enabled(s: State, t: Thread, a: Action) {
    t in s.pc &&
    var pc := s.pc[t];
    match a
    case CallWait(_) => pc.Outside?
    case CallAll => pc.Outside?
    case CallOne => pc.Outside?
    case Timeout => pc == Blocked(true)
    case Go =>
      if pc.WaitLocking? || pc.AllLocking? || pc.OneLocking? then s.mutex.Free?
      else if pc.Blocked? then s.sem > 0
      else !pc.Outside? && !pc.AllFailed? && !pc.OneFailed?
  }

  /** `ReleaseSemaphore`, which changes nothing when the maximum would be exceeded. */
  function Release(sem: nat, n: int): nat {
    if n > 0 && sem + n <= SEMAPHORE_MAX then sem + n else sem
  }

  /** Threads that are counted as waiters. */
  ghost function Registered(s: State): set<Thread> {
    set t | t in s.pc && (s.pc[t].WaitUnlocking? || s.pc[t].Blocked? || s.pc[t].Awake?)
  }

  ghost function Put(s: State, t: Thread, pc: Pc): State {
    s.(pc := s.pc[t := pc])
  }

  ghost function Step(s: State, t: Thread, a: Action): State
    requires Enabled(s, t, a)
  {
    match a
    case CallWait(timed) => Put(s, t, WaitLocking(timed))
    case CallAll => Put(s, t, AllLocking)
    case CallOne => Put(s, t, OneLocking)
    case Timeout => Put(s, t, Awake(false))
    case Go =>
      match s.pc[t]
      case WaitLocking(timed) => Put(s, t, WaitCounting(timed)).(mutex := Held(t))
      case WaitCounting(timed) => Put(s, t, WaitUnlocking(timed)).(waiters := s.waiters + 1)
      case WaitUnlocking(timed) => Put(s, t, Blocked(timed)).(mutex := Free)
      case Blocked(_) => Put(s, t, Awake(true)).(sem := s.sem - 1)
      case Awake(_) => Put(s, t, Signalling).(waiters := s.waiters - 1)
      case Signalling => Put(s, t, Outside).(event := true)

      case AllLocking => Put(s, t, AllChecking).(mutex := Held(t))
      case AllChecking => Put(s, t, if s.waiters <= 0 then AllEarly else AllLoading)
      case AllLoading => Put(s, t, AllReleasing(s.waiters))
      case AllReleasing(count) => Put(s, t, AllLoop).(sem := Release(s.sem, count))
      case AllLoop => Put(s, t, if s.waiters > 0 then AllEventWait else AllAsserting)
      case AllEventWait => Put(s, t, AllLoop).(event := false)
      case AllAsserting => Put(s, t, if s.waiters == 0 then AllDraining else AllFailed)
      case AllDraining => if s.sem > 0 then s.(sem := s.sem - 1) else Put(s, t, AllUnlocking)
      case AllUnlocking => Put(s, t, Outside).(mutex := Free)
      case AllEarly => Put(s, t, Outside).(mutex := Free)

      case OneLocking => Put(s, t, OneChecking).(mutex := Held(t))
      case OneChecking => Put(s, t, if s.waiters == 0 then OneEarly else OneLoading)
      case OneLoading => Put(s, t, OneReleasing(s.waiters - 1, Registered(s)))
      case OneReleasing(target, seen) => Put(s, t, OneLoop(target, seen)).(sem := Release(s.sem, 1))
      case OneLoop(target, seen) =>
        Put(s, t, if s.waiters > target then OneEventWait(target, seen) else OneAsserting(target, seen))
      case OneEventWait(target, seen) => Put(s, t, OneLoop(target, seen)).(event := false)
      case OneAsserting(target, seen) => Put(s, t, if s.waiters == target then OneUnlocking(seen) else OneFailed)
      case OneUnlocking(_) => Put(s, t, Outside).(mutex := Free)
      case OneEarly => Put(s, t, Outside).(mutex := Free)
  }

  ghost predicate Init(s: State) {
    s == State(Free, 0, 0, false, s.pc) && forall t :: t in s.pc ==> s.pc[t].Outside?
  }

  ghost predicate Next(s: State, s': State) {
    exists t, a :: Enabled(s, t, a) && s' == Step(s, t, a)
  }

  /** A step other than a timeout of a wait. */
  ghost predicate NextUntimed(s: State, s': State) {
    exists t, a :: Enabled(s, t, a) && a != Timeout && s' == Step(s, t, a)
  }

  ghost predicate IsRun(run: seq<State>) {
    run != [] && Init(run[0]) && forall i :: 0 < i < |run| ==> Next(run[i - 1], run[i])
  }

  /** A run in which no wait times out, as when all waits are untimed. */
  ghost predicate IsUntimedRun(run: seq<State>) {
    run != [] && Init(run[0]) && forall i :: 0 < i < |run| ==> NextUntimed(run[i - 1], run[i])
  }

  /** Program points at which a thread holds the mutex. */
  predicate Holding(pc: Pc) {
    !(pc.Outside? || pc.WaitLocking? || pc.Blocked? || pc.Awake? || pc.Signalling? || pc.AllLocking? || pc.OneLocking?)
  }

  predicate Counted(pc: Pc) { pc.WaitUnlocking? || pc.Blocked? || pc.Awake? }

  // ----- every run ---------------------------------------------------------------------------------

  /** What the holder of the mutex may rely on at its program point. */
  ghost predicate HolderInv(s: State, pc: Pc) {
    (pc.AllAsserting? || pc.AllDraining? || pc.AllUnlocking? || pc.AllEarly? ==> s.waiters == 0) &&
    (pc.AllUnlocking? ==> s.sem == 0) && !pc.AllFailed?
  }

  ghost predicate CountInv(s: State) {
    s.waiters == |Registered(s)|
  }

  ghost predicate MutexInv(s: State) {
    (forall t :: t in s.pc ==> (Holding(s.pc[t]) <==> s.mutex == Held(t))) &&
    (s.mutex.Held? ==> s.mutex.owner in s.pc)
  }

  ghost predicate Inv(s: State) {
    CountInv(s) && MutexInv(s) && (s.mutex.Held? ==> HolderInv(s, s.pc[s.mutex.owner]))
  }

  lemma StepRegistered(s: State, t: Thread, a: Action)
    requires Enabled(s, t, a)
    ensures var s' := Step(s, t, a);
      t in s'.pc && s'.pc == s.pc[t := s'.pc[t]] &&
      Registered(s') == Registered(s) - {t} + if Counted(s'.pc[t]) then {t} else {}
    ensures t in Registered(s) <==> Counted(s.pc[t])
  {
    var s' := Step(s, t, a);
    assert s'.pc == s.pc[t := s'.pc[t]];
  }

  function One(b: bool): int { if b then 1 else 0 }

  /** The counter changes exactly when the stepping thread becomes or stops being registered. */
  lemma StepWaiters(s: State, t: Thread, a: Action)
    requires Enabled(s, t, a)
    ensures var s' := Step(s, t, a);
      s'.waiters - s.waiters == One(Counted(s'.pc[t])) - One(Counted(s.pc[t]))
  {
    hide Registered;
    if !s.pc[t].WaitCounting? && !s.pc[t].Awake? {
      assert Step(s, t, a).waiters == s.waiters;
    }
  }

  lemma StepKeepsCount(s: State, t: Thread, a: Action)
    requires CountInv(s) && Enabled(s, t, a)
    ensures CountInv(Step(s, t, a))
  {
    StepRegistered(s, t, a);
    StepWaiters(s, t, a);
    hide Registered, Step, Counted;
  }

  lemma StepKeepsMutex(s: State, t: Thread, a: Action)
    requires MutexInv(s) && Enabled(s, t, a)
    ensures MutexInv(Step(s, t, a))
  {
    hide Registered;
    var s' := Step(s, t, a);
    StepRegistered(s, t, a);
    assert Holding(s.pc[t]) ==> s.mutex == Held(t);
    assert s'.mutex == if Holding(s'.pc[t]) then Held(t) else if Holding(s.pc[t]) then Free else s.mutex;
  }

  /** A thread without the mutex registers nobody, and takes a token only if somebody is registered. */
  lemma OutsiderStep(s: State, t: Thread, a: Action)
    requires CountInv(s) && Enabled(s, t, a) && !Holding(s.pc[t])
    ensures var s' := Step(s, t, a);
      s'.waiters <= s.waiters && (s'.sem == s.sem || s.waiters > 0)
  {
    StepRegistered(s, t, a);
    StepWaiters(s, t, a);
    hide Registered;
  }

  lemma HolderStep(s: State, t: Thread, a: Action)
    requires Enabled(s, t, a) && s.waiters >= 0 && HolderInv(s, s.pc[t]) && Holding(s.pc[t])
    ensures HolderInv(Step(s, t, a), Step(s, t, a).pc[t])
  {
    hide Registered;
  }

  lemma Entering(s: State, t: Thread, a: Action)
    requires Enabled(s, t, a) && !Holding(s.pc[t])
    ensures HolderInv(Step(s, t, a), Step(s, t, a).pc[t])
  {
    hide Registered;
  }

  lemma StepKeepsInv(s: State, t: Thread, a: Action)
    requires Inv(s) && Enabled(s, t, a)
    ensures Inv(Step(s, t, a))
  {
    var s' := Step(s, t, a);
    StepKeepsCount(s, t, a);
    StepKeepsMutex(s, t, a);
    StepRegistered(s, t, a);
    hide Registered, Step;
    if s'.mutex.Held? {
      if s'.mutex.owner != t {
        OutsiderStep(s, t, a);
      } else if Holding(s.pc[t]) {
        HolderStep(s, t, a);
      } else {
        Entering(s, t, a);
      }
    }
  }

  lemma {:induction false} RunsKeepInv(run: seq<State>, i: nat)
    requires IsRun(run) && i < |run|
    ensures Inv(run[i])
  {
    if i == 0 {
      assert Registered(run[0]) == {};
    } else {
      RunsKeepInv(run, i - 1);
      assert Next(run[i - 1], run[i]);
      var t, a :| Enabled(run[i - 1], t, a) && run[i] == Step(run[i - 1], t, a);
      StepKeepsInv(run[i - 1], t, a);
    }
  }

  /**
   * In every run, timed or not: the counter counts the registered waiters; at the end of a
   * `notify_all` that found waiters nobody is registered and no token is left; one that found
   * none leaves nobody registered either; and the assertion of `notify_all` never fails.
   */
  lemma NotifyAllReleasesEverybody(run: seq<State>, i: nat, t: Thread)
    requires IsRun(run) && i < |run| && t in run[i].pc
    ensures run[i].waiters == |Registered(run[i])|
    ensures run[i].pc[t].AllUnlocking? ==> Registered(run[i]) == {} && run[i].sem == 0
    ensures run[i].pc[t].AllEarly? ==> Registered(run[i]) == {}
    ensures !run[i].pc[t].AllFailed?
  {
    RunsKeepInv(run, i);
    assert Holding(run[i].pc[t]) <==> run[i].mutex == Held(t);
    assert run[i].waiters == 0 ==> Registered(run[i]) == {};
  }

  // ----- runs without timeouts -----------------------------------------------------------------------

  /** Threads that have taken a token and are still counted. */
  ghost function Tokened(s: State): set<Thread> {
    set t | t in s.pc && s.pc[t] == Awake(true)
  }

  /** Releases that have not yet led to a waiter leaving. */
  ghost function Outstanding(s: State): nat {
    s.sem + |Tokened(s)|
  }

  /** A `notify_one` that read the counter has exactly the threads of `seen` to choose from. */
  ghost predicate Choosing(s: State, target: int, seen: set<Thread>) {
    Registered(s) <= seen && |seen| == target + 1
  }

  /** There is a release for each registered thread, or none at all as they would not have fitted in. */
  ghost predicate Served(s: State) {
    Outstanding(s) == s.waiters || (Outstanding(s) == 0 && s.waiters > SEMAPHORE_MAX)
  }

  ghost predicate HolderQuiet(s: State, pc: Pc) {
    match pc
    case AllReleasing(count) => Outstanding(s) == 0 && count == s.waiters
    case AllLoop => Served(s)
    case AllEventWait => Served(s)
    case OneLoading => Outstanding(s) == 0 && s.waiters >= 1
    case OneReleasing(target, seen) => Outstanding(s) == 0 && s.waiters == target + 1 && Choosing(s, target, seen)
    case OneLoop(target, seen) =>
      Outstanding(s) <= 1 && s.waiters == target + Outstanding(s) && Choosing(s, target, seen)
    case OneEventWait(target, seen) =>
      Outstanding(s) <= 1 && s.waiters == target + Outstanding(s) && Choosing(s, target, seen)
    case OneAsserting(target, seen) => Outstanding(s) == 0 && s.waiters == target && Choosing(s, target, seen)
    case OneUnlocking(seen) => Outstanding(s) == 0 && Choosing(s, s.waiters, seen)
    case OneFailed => false
    case _ => Outstanding(s) == 0
  }

  ghost predicate QuietInv(s: State) {
    Inv(s) && (forall t :: t in s.pc ==> s.pc[t] != Awake(false)) &&
    (s.mutex.Free? ==> Outstanding(s) == 0) &&
    (s.mutex.Held? ==> HolderQuiet(s, s.pc[s.mutex.owner]))
  }

  lemma StepTokened(s: State, t: Thread, a: Action)
    requires Enabled(s, t, a)
    ensures var s' := Step(s, t, a);
      t in s'.pc && Tokened(s') == Tokened(s) - {t} + if s'.pc[t] == Awake(true) then {t} else {}
    ensures t in Tokened(s) <==> s.pc[t] == Awake(true)
  {
    StepRegistered(s, t, a);
  }

  lemma OutsiderEffect(s: State, t: Thread, a: Action)
    requires Enabled(s, t, a) && a != Timeout && !Holding(s.pc[t]) && s.pc[t] != Awake(false)
    ensures var s' := Step(s, t, a);
      t in s'.pc && s'.pc[t] != Awake(false) && (Counted(s'.pc[t]) ==> Counted(s.pc[t])) &&
      s'.sem == s.sem - One(s'.pc[t] == Awake(true)) && s'.waiters == s.waiters - One(s.pc[t] == Awake(true)) &&
      (s.pc[t] == Awake(true) ==> s'.pc[t] != Awake(true))
  {
    hide Registered;
  }

  /** Without timeouts a waiter leaves only by using up a release. */
  lemma OutsiderQuiet(s: State, t: Thread, a: Action)
    requires Enabled(s, t, a) && a != Timeout && !Holding(s.pc[t]) && s.pc[t] != Awake(false)
    ensures var s' := Step(s, t, a);
      t in s'.pc && s'.pc[t] != Awake(false) && Registered(s') <= Registered(s) &&
      Outstanding(s') - Outstanding(s) == s'.waiters - s.waiters <= 0
  {
    StepRegistered(s, t, a);
    StepTokened(s, t, a);
    OutsiderEffect(s, t, a);
    hide Registered, Tokened, Step, Counted;
  }

  lemma HolderEffect(s: State, t: Thread, a: Action)
    requires Enabled(s, t, a) && Holding(s.pc[t])
    ensures var s' := Step(s, t, a);
      t in s'.pc && !s'.pc[t].Awake? && !s.pc[t].Awake? &&
      (!s.pc[t].WaitCounting? ==> Counted(s'.pc[t]) == Counted(s.pc[t]))
  {
    hide Registered;
  }

  lemma HolderTokens(s: State, t: Thread, a: Action)
    requires Enabled(s, t, a) && Holding(s.pc[t])
    ensures var s' := Step(s, t, a);
      t in s'.pc && s'.pc[t] != Awake(false) && Outstanding(s') - Outstanding(s) == s'.sem - s.sem
  {
    StepTokened(s, t, a);
    HolderEffect(s, t, a);
    hide Registered, Tokened, Step, Holding;
  }

  lemma HolderRegisters(s: State, t: Thread, a: Action)
    requires Enabled(s, t, a) && Holding(s.pc[t]) && !s.pc[t].WaitCounting?
    ensures Registered(Step(s, t, a)) == Registered(s)
  {
    StepRegistered(s, t, a);
    HolderEffect(s, t, a);
    hide Registered, Step, Counted, Holding;
  }

  lemma HolderQuietStep(s: State, t: Thread, a: Action)
    requires Enabled(s, t, a) && Holding(s.pc[t]) && CountInv(s) && HolderQuiet(s, s.pc[t])
    ensures var s' := Step(s, t, a);
      if Holding(s'.pc[t]) then HolderQuiet(s', s'.pc[t]) else Outstanding(s') == 0
  {
    HolderTokens(s, t, a);
    if !s.pc[t].WaitCounting? {
      HolderRegisters(s, t, a);
    }
    hide Registered, Outstanding, CountInv;
    assert s.waiters == |Registered(s)| by {
      assert CountInv(s);
    }
  }

  lemma EnteringQuiet(s: State, t: Thread, a: Action)
    requires Enabled(s, t, a) && !Holding(s.pc[t]) && Outstanding(s) == 0 && Outstanding(Step(s, t, a)) == 0
    requires Holding(Step(s, t, a).pc[t])
    ensures HolderQuiet(Step(s, t, a), Step(s, t, a).pc[t])
  {
    hide Registered, Outstanding;
  }

  /** A waiter that leaves keeps what the holder of the mutex relies on. */
  lemma QuietFrame(s: State, s': State, pc: Pc)
    requires HolderQuiet(s, pc) && Registered(s') <= Registered(s)
    requires Outstanding(s') - Outstanding(s) == s'.waiters - s.waiters <= 0
    ensures HolderQuiet(s', pc)
  {
    hide Registered, Outstanding;
  }

  lemma QuietAfter(s: State, s': State, t: Thread)
    requires QuietInv(s) && Inv(s') && t in s.pc && t in s'.pc && s'.pc == s.pc[t := s'.pc[t]]
    requires s'.pc[t] != Awake(false) && (s'.mutex.Free? ==> Outstanding(s') == 0)
    requires s'.mutex.Held? ==> s'.mutex.owner in s'.pc && HolderQuiet(s', s'.pc[s'.mutex.owner])
    ensures QuietInv(s')
  {
    hide Inv, Outstanding, HolderQuiet;
  }

  lemma HolderKeepsQuiet(s: State, t: Thread, a: Action)
    requires QuietInv(s) && Enabled(s, t, a) && Holding(s.pc[t])
    ensures QuietInv(Step(s, t, a))
  {
    assert t in s.pc;
    hide Registered, Outstanding, HolderQuiet, Step, Enabled, CountInv, HolderInv, Holding;
    StepKeepsInv(s, t, a);
    StepRegistered(s, t, a);
    HolderTokens(s, t, a);
    HolderQuietStep(s, t, a);
    MutexAfterHolder(s, t, a);
    QuietAfter(s, Step(s, t, a), t);
  }

  lemma OutsiderKeepsQuiet(s: State, t: Thread, a: Action)
    requires QuietInv(s) && Enabled(s, t, a) && a != Timeout && !Holding(s.pc[t])
    ensures QuietInv(Step(s, t, a))
  {
    assert t in s.pc;
    hide Registered, Outstanding, HolderQuiet, Step, Enabled, CountInv, HolderInv, Holding;
    var s' := Step(s, t, a);
    StepKeepsInv(s, t, a);
    StepRegistered(s, t, a);
    OutsiderQuiet(s, t, a);
    if Holding(s'.pc[t]) {
      MutexWasFree(s, t, a);
      EnteringQuiet(s, t, a);
    } else {
      MutexUntouched(s, t, a);
      if s.mutex.Held? {
        QuietFrame(s, s', s.pc[s.mutex.owner]);
      }
    }
    QuietAfter(s, s', t);
  }

  lemma StepKeepsQuiet(s: State, t: Thread, a: Action)
    requires QuietInv(s) && Enabled(s, t, a) && a != Timeout
    ensures QuietInv(Step(s, t, a))
  {
    hide Step, QuietInv, Holding;
    if Holding(s.pc[t]) {
      HolderKeepsQuiet(s, t, a);
    } else {
      OutsiderKeepsQuiet(s, t, a);
    }
  }

  lemma MutexAfterHolder(s: State, t: Thread, a: Action)
    requires Enabled(s, t, a) && Holding(s.pc[t]) && s.mutex == Held(t)
    ensures Step(s, t, a).mutex == if Holding(Step(s, t, a).pc[t]) then Held(t) else Free
  {
    hide Registered;
  }

  lemma MutexUntouched(s: State, t: Thread, a: Action)
    requires Enabled(s, t, a) && !Holding(s.pc[t]) && !Holding(Step(s, t, a).pc[t])
    ensures Step(s, t, a).mutex == s.mutex
  {
    hide Registered;
  }

  lemma MutexWasFree(s: State, t: Thread, a: Action)
    requires Enabled(s, t, a) && !Holding(s.pc[t]) && Holding(Step(s, t, a).pc[t])
    ensures s.mutex.Free?
  {
    hide Registered;
  }

  lemma {:induction false} RunsKeepQuiet(run: seq<State>, i: nat)
    requires IsUntimedRun(run) && i < |run|
    ensures QuietInv(run[i])
  {
    if i == 0 {
      assert Registered(run[0]) == {} && Tokened(run[0]) == {};
    } else {
      RunsKeepQuiet(run, i - 1);
      assert NextUntimed(run[i - 1], run[i]);
      var t, a :| Enabled(run[i - 1], t, a) && a != Timeout && run[i] == Step(run[i - 1], t, a);
      StepKeepsQuiet(run[i - 1], t, a);
    }
  }

  /**
   * In every run without timeouts: no token is left while the mutex is free; the assertion of
   * `notify_one` never fails; and when it is about to return, exactly one of the threads that
   * were registered when it read the counter has left.
   */
  lemma NotifyOneReleasesExactlyOne(run: seq<State>, i: nat, t: Thread)
    requires IsUntimedRun(run) && i < |run| && t in run[i].pc
    ensures run[i].mutex.Free? ==> run[i].sem == 0 && Tokened(run[i]) == {}
    ensures !run[i].pc[t].OneFailed?
    ensures run[i].pc[t].OneUnlocking? ==>
      run[i].sem == 0 && Registered(run[i]) <= run[i].pc[t].seen && |run[i].pc[t].seen - Registered(run[i])| == 1
  {
    var s := run[i];
    RunsKeepQuiet(run, i);
    assert Holding(s.pc[t]) <==> s.mutex == Held(t);
    hide Registered, Tokened, Holding;
    if s.pc[t].OneUnlocking? {
      OneLeft(s.pc[t].seen, Registered(s));
    }
  }

  lemma FewThreads(s: State)
    requires CountInv(s)
    ensures s.waiters <= |s.pc|
  {
    SubsetIsSmaller(Registered(s), s.pc.Keys);
  }

  lemma SubsetIsSmaller(x: set<Thread>, y: set<Thread>)
    requires x <= y
    ensures |x| <= |y|
  {
    assert y == x + (y - x);
  }

  /**
   * In every run without timeouts, a `notify_all` that waits for its waiters has released them
   * all: there are as many releases as registered threads, unless there are more threads than the
   * semaphore can count.
   */
  lemma NotifyAllServesEverybody(run: seq<State>, i: nat, t: Thread)
    requires IsUntimedRun(run) && i < |run| && t in run[i].pc && (run[i].pc[t].AllLoop? || run[i].pc[t].AllEventWait?)
    ensures Outstanding(run[i]) == run[i].waiters || (Outstanding(run[i]) == 0 && run[i].waiters > SEMAPHORE_MAX)
    ensures |run[i].pc| <= 65535 ==> Outstanding(run[i]) == |Registered(run[i])|
  {
    var s := run[i];
    RunsKeepQuiet(run, i);
    assert Holding(s.pc[t]) <==> s.mutex == Held(t);
    hide Outstanding, Registered, Holding;
    FewThreads(s);
  }

  lemma OneLeft(seen: set<Thread>, rest: set<Thread>)
    requires rest <= seen && |seen| == |rest| + 1
    ensures |seen - rest| == 1
  {
    assert seen == rest + (seen - rest);
  }

  // ----- what timeouts do to notify_one ----------------------------------------------------------------

  /** Two waiters, the second with a timeout, and a notifier that has released one token. */
  ghost function Released(): State {
    State(Held(2), 2, 1, false, map[0 := Blocked(false), 1 := Blocked(true), 2 := OneLoop(1, {0, 1})])
  }

  lemma Extend(run: seq<State>, t: Thread, a: Action, s': State) returns (longer: seq<State>)
    requires IsRun(run) && Enabled(run[|run| - 1], t, a) && s' == Step(run[|run| - 1], t, a)
    ensures longer == run + [s'] && IsRun(longer)
  {
    longer := run + [s'];
    assert Next(run[|run| - 1], s');
    forall i | 0 < i < |longer|
      ensures Next(longer[i - 1], longer[i])
    {
      if i < |run| {
        assert longer[i - 1] == run[i - 1] && longer[i] == run[i];
      }
    }
  }

  /** One thread's four steps from outside into its wait. */
  lemma BeginWait(run: seq<State>, t: Thread, timed: bool) returns (longer: seq<State>)
    requires IsRun(run) && t in run[|run| - 1].pc && run[|run| - 1].pc[t].Outside? && run[|run| - 1].mutex.Free?
    ensures IsRun(longer)
    ensures var s := run[|run| - 1];
      longer[|longer| - 1] == s.(waiters := s.waiters + 1, pc := s.pc[t := Blocked(timed)])
  {
    var s := run[|run| - 1];
    longer := Extend(run, t, CallWait(timed), Put(s, t, WaitLocking(timed)));
    longer := Extend(longer, t, Go, Put(s, t, WaitCounting(timed)).(mutex := Held(t)));
    longer := Extend(longer, t, Go, Put(s, t, WaitUnlocking(timed)).(mutex := Held(t), waiters := s.waiters + 1));
    longer := Extend(longer, t, Go, Put(s, t, Blocked(timed)).(waiters := s.waiters + 1));
  }

  lemma ReachTwoWaiters() returns (run: seq<State>)
    ensures IsRun(run) && run[|run| - 1] == Released().(mutex := Free, sem := 0, pc := Released().pc[2 := Outside])
  {
    run := [State(Free, 0, 0, false, map[0 := Outside, 1 := Outside, 2 := Outside])];
    run := BeginWait(run, 0, false);
    run := BeginWait(run, 1, true);
  }

  lemma ReachReleased() returns (run: seq<State>)
    ensures IsRun(run) && run[|run| - 1] == Released()
  {
    run := ReachTwoWaiters();
    var s := run[|run| - 1];
    run := Extend(run, 2, CallOne, Put(s, 2, OneLocking));
    run := Extend(run, 2, Go, Put(s, 2, OneChecking).(mutex := Held(2)));
    run := Extend(run, 2, Go, Put(s, 2, OneLoading).(mutex := Held(2)));
    assert Registered(run[|run| - 1]) == {0, 1};
    run := Extend(run, 2, Go, Put(s, 2, OneReleasing(1, {0, 1})).(mutex := Held(2)));
    run := Extend(run, 2, Go, Released());
  }

  /** With a timed wait the assertion of `notify_one` can fail: one waiter takes the token, one times out. */
  lemma TimeoutCanBreakAssertion() returns (run: seq<State>)
    ensures IsRun(run) && 2 in run[|run| - 1].pc && run[|run| - 1].pc[2].OneFailed?
  {
    run := ReachReleased();
    var s := Released();
    run := Extend(run, 0, Go, Put(s, 0, Awake(true)).(sem := 0));
    run := Extend(run, 1, Timeout, Put(Put(s, 0, Awake(true)), 1, Awake(false)).(sem := 0));
    run := Extend(run, 0, Go, Put(Put(s, 0, Signalling), 1, Awake(false)).(sem := 0, waiters := 1));
    run := Extend(run, 1, Go, Put(Put(s, 0, Signalling), 1, Signalling).(sem := 0, waiters := 0));
    s := run[|run| - 1];
    run := Extend(run, 2, Go, Put(s, 2, OneAsserting(1, {0, 1})));
    run := Extend(run, 2, Go, Put(s, 2, OneFailed));
  }

  /** And a token can outlive the call: the timed waiter leaves, the other one stays, the token is left. */
  lemma TimeoutCanLeaveToken() returns (run: seq<State>)
    ensures IsRun(run) && run[|run| - 1].mutex.Free? && run[|run| - 1].sem == 1
    ensures 2 in run[|run| - 1].pc && run[|run| - 1].pc[2].Outside?
  {
    run := ReachReleased();
    var s := Released();
    run := Extend(run, 1, Timeout, Put(s, 1, Awake(false)));
    run := Extend(run, 1, Go, Put(s, 1, Signalling).(waiters := 1));
    s := run[|run| - 1];
    run := Extend(run, 2, Go, Put(s, 2, OneAsserting(1, {0, 1})));
    run := Extend(run, 2, Go, Put(s, 2, OneUnlocking({0, 1})));
    run := Extend(run, 2, Go, Put(s, 2, Outside).(mutex := Free));
  }
}

/**
 * The reader/writer spin lock: one atomic counter whose top bit is the write bit.  Every access
 * to the counter is one step of one thread, and the steps of any number of threads interleave
 * freely.  `w` is the write bit, so the counter runs from 0 to 2 * w - 1.
 */
module SharedMutex {

  type Thread = nat

  /** Where a thread stands inside the methods of the lock, with its local copy of the counter. */
  datatype Pc =
    | Outside
    | ReadLoop(expected: nat)      // lock_shared, after a load
    | TryRead(expected: nat)       // try_lock_shared, after its load without the write bit
    | Reading
    | WriteLoop                    // lock, before fetch_or
    | Draining(current: nat)       // lock, has set the write bit, waits for the readers
    | Writing
    | Unlocking                    // unlock, has passed its check
    | Thrown                       // an error check has fired

  datatype State = State(counter: nat, pc: map<Thread, Pc>)

  datatype Action =
    | CallLockShared | ReloadShared | CasShared(spurious: bool)
    | CallTryLockShared | CasTryShared
    | UnlockShared
    | CallLock | FetchOr | ReloadLock | EnterLock
    | TryLock
    | CheckUnlock | StoreUnlock

  // ----- the counter's arithmetic ---------------------------------------------------------------

  predicate WriteBitSet(c: nat, w: nat) { c >= w }

  function WithWriteBit(c: nat, w: nat): nat { if c >= w then c else c + w }

  function WithoutWriteBit(c: nat, w: nat): nat { if c >= w then c - w else c }

  /** `fetch_sub(1)` on an unsigned counter. */
  function Minus1(c: nat, w: nat): nat
    requires w > 0
  {
    if c == 0 then 2 * w - 1 else c - 1
  }

  lemma SettingTheWriteBit(c: bv16)
    ensures c & 0x8000 != 0 <==> c >= 0x8000
    ensures c | 0x8000 == if c >= 0x8000 then c else c + 0x8000
  {
  }

  lemma MaskingTheWriteBit(c: bv16)
    ensures c & !0x8000 == if c >= 0x8000 then c - 0x8000 else c
  {
  }

  /** On 16-bit words these are the three bit operations of the code. */
  lemma WriteBitOperations(c: bv16)
    ensures c & 0x8000 != 0 <==> c >= 0x8000
    ensures c | 0x8000 == if c >= 0x8000 then c else c + 0x8000
    ensures c & !0x8000 == if c >= 0x8000 then c - 0x8000 else c
  {
    SettingTheWriteBit(c);
    MaskingTheWriteBit(c);
  }

  // ----- the steps ------------------------------------------------------------------------------

  function Move(s: State, t: Thread, counter: nat, pc: Pc): State {
    State(counter, s.pc[t := pc])
  }

  /** Which action thread `t` may take next; a thread releases only what it holds. */
  predicate Enabled(s: State, t: Thread, a: Action, w: nat) {
    t in s.pc &&
    var pc := s.pc[t];
    match a
    case CallLockShared => pc.Outside?
    case ReloadShared => pc.ReadLoop? && pc.expected + 1 >= w
    case CasShared(_) => pc.ReadLoop? && pc.expected + 1 < w
    case CallTryLockShared => pc.Outside?
    case CasTryShared => pc.TryRead?
    case UnlockShared => pc.Reading?
    case CallLock => pc.Outside?
    case FetchOr => pc.WriteLoop?
    case ReloadLock => pc.Draining? && pc.current != w
    case EnterLock => pc.Draining? && pc.current == w
    case TryLock => pc.Outside?
    case CheckUnlock => pc.Writing?
    case StoreUnlock => pc.Unlocking?
  }

  function Step(s: State, t: Thread, a: Action, w: nat): State
    requires w > 0 && Enabled(s, t, a, w)
  {
    var c := s.counter;
    match a
    case CallLockShared => Move(s, t, c, ReadLoop(c))
    case ReloadShared => Move(s, t, c, ReadLoop(c))
    case CasShared(spurious) =>
      if c == s.pc[t].expected && !spurious then Move(s, t, c + 1, Reading) else Move(s, t, c, ReadLoop(c))
    case CallTryLockShared => Move(s, t, c, TryRead(WithoutWriteBit(c, w)))
    case CasTryShared =>
      if s.pc[t].expected + 1 != w && c == s.pc[t].expected then Move(s, t, c + 1, Reading) else Move(s, t, c, Outside)
    case UnlockShared =>
      Move(s, t, Minus1(c, w), if WithoutWriteBit(c, w) == 0 then Thrown else Outside)
    case CallLock => Move(s, t, c, WriteLoop)
    case FetchOr =>
      Move(s, t, WithWriteBit(c, w), if WriteBitSet(c, w) then WriteLoop else Draining(c))
    case ReloadLock => Move(s, t, c, Draining(c))
    case EnterLock => Move(s, t, c, Writing)
    case TryLock => if c == 0 then Move(s, t, w, Writing) else s
    case CheckUnlock => Move(s, t, c, if c != w then Thrown else Unlocking)
    case StoreUnlock => Move(s, t, 0, Outside)
  }

  ghost predicate Next(s: State, s': State, w: nat)
    requires w > 0
  {
    exists t, a :: Enabled(s, t, a, w) && s' == Step(s, t, a, w)
  }

  ghost predicate Init(s: State) {
    s.counter == 0 && forall t :: t in s.pc ==> s.pc[t].Outside?
  }

  ghost predicate IsRun(run: seq<State>, w: nat)
    requires w > 0
  {
    run != [] && Init(run[0]) && forall i :: 0 < i < |run| ==> Next(run[i - 1], run[i], w)
  }

  // ----- who holds and who waits -----------------------------------------------------------------

  ghost function Readers(s: State): set<Thread> {
    set t | t in s.pc && s.pc[t].Reading?
  }

  /** Threads inside the exclusive section. */
  ghost function Writers(s: State): set<Thread> {
    set t | t in s.pc && (s.pc[t].Writing? || s.pc[t].Unlocking?)
  }

  /** Threads that own the write bit: waiting for readers or holding. */
  ghost function Claimants(s: State): set<Thread> {
    set t | t in s.pc && (s.pc[t].Draining? || s.pc[t].Writing? || s.pc[t].Unlocking?)
  }

  /** Threads that own the write bit and have seen the readers gone. */
  ghost function Sole(s: State, w: nat): set<Thread> {
    set t | t in s.pc && (s.pc[t] == Draining(w) || s.pc[t].Writing? || s.pc[t].Unlocking?)
  }

  ghost predicate Inv(s: State, w: nat) {
    s.counter == |Readers(s)| + (if Claimants(s) == {} then 0 else w) &&
    |Readers(s)| < w && |Claimants(s)| <= 1 &&
    (Sole(s, w) != {} ==> Readers(s) == {}) &&
    (forall t :: t in s.pc && s.pc[t].TryRead? ==> s.pc[t].expected < w) &&
    (forall t :: t in s.pc ==> !s.pc[t].Thrown?)
  }

  predicate IsClaim(pc: Pc) { pc.Draining? || pc.Writing? || pc.Unlocking? }

  predicate IsSole(pc: Pc, w: nat) { pc == Draining(w) || pc.Writing? || pc.Unlocking? }

  predicate IsWriter(pc: Pc) { pc.Writing? || pc.Unlocking? }

  ghost function Put(x: set<Thread>, t: Thread, member: bool): set<Thread> {
    if member then x + {t} else x - {t}
  }

  /** How one thread's move changes the sets. */
  lemma MoveSets(s: State, t: Thread, c: nat, pc: Pc, w: nat)
    requires t in s.pc
    ensures var s' := Move(s, t, c, pc);
      Readers(s') == Put(Readers(s), t, pc.Reading?) && Writers(s') == Put(Writers(s), t, IsWriter(pc)) &&
      Claimants(s') == Put(Claimants(s), t, IsClaim(pc)) && Sole(s', w) == Put(Sole(s, w), t, IsSole(pc, w))
  {
  }

  lemma PutNothing(x: set<Thread>, t: Thread)
    requires t !in x
    ensures Put(x, t, false) == x
  {
  }

  /** A move of a thread that neither was nor becomes a reader or claimant. */
  lemma PlainMove(s: State, t: Thread, pc: Pc, w: nat)
    requires Inv(s, w) && t in s.pc && !s.pc[t].Reading? && !IsClaim(s.pc[t])
    requires !pc.Reading? && !IsClaim(pc) && !pc.Thrown? && (pc.TryRead? ==> pc.expected < w)
    ensures Inv(Move(s, t, s.counter, pc), w)
  {
    MoveSets(s, t, s.counter, pc, w);
    var s' := Move(s, t, s.counter, pc);
    assert t !in Readers(s) && t !in Claimants(s) && t !in Sole(s, w);
    PutNothing(Readers(s), t);
    PutNothing(Claimants(s), t);
    PutNothing(Sole(s, w), t);
    hide Readers, Claimants, Sole, Put;
    assert Readers(s') == Readers(s) && Claimants(s') == Claimants(s) && Sole(s', w) == Sole(s, w);
  }

  lemma EnterReading(s: State, t: Thread, w: nat)
    requires Inv(s, w) && t in s.pc && !s.pc[t].Reading? && !IsClaim(s.pc[t]) && s.counter + 1 < w
    ensures Inv(Move(s, t, s.counter + 1, Reading), w)
  {
    MoveSets(s, t, s.counter + 1, Reading, w);
    assert t !in Readers(s) && Claimants(s) == {};
    assert Sole(s, w) <= Claimants(s);
  }

  lemma LeaveReading(s: State, t: Thread, w: nat)
    requires w > 0 && Inv(s, w) && t in s.pc && s.pc[t].Reading?
    ensures WithoutWriteBit(s.counter, w) > 0 && Inv(Move(s, t, Minus1(s.counter, w), Outside), w)
  {
    MoveSets(s, t, Minus1(s.counter, w), Outside, w);
    assert t in Readers(s) && t !in Claimants(s) && t !in Sole(s, w);
  }

  /** Setting the write bit when it was not set. */
  lemma TakeWriteBit(s: State, t: Thread, pc: Pc, w: nat)
    requires w > 0 && Inv(s, w) && t in s.pc && !s.pc[t].Reading? && s.counter < w && IsClaim(pc)
    requires IsSole(pc, w) ==> s.counter == 0
    ensures Inv(Move(s, t, s.counter + w, pc), w)
  {
    MoveSets(s, t, s.counter + w, pc, w);
    assert t !in Readers(s) && Claimants(s) == {};
    assert Sole(s, w) <= Claimants(s);
  }

  /** A claimant moves on; it becomes sole only when the counter shows the bare write bit. */
  lemma KeepWriteBit(s: State, t: Thread, pc: Pc, w: nat)
    requires Inv(s, w) && t in s.pc && IsClaim(s.pc[t]) && IsClaim(pc)
    requires IsSole(pc, w) ==> IsSole(s.pc[t], w) || s.counter == w
    ensures Inv(Move(s, t, s.counter, pc), w)
  {
    MoveSets(s, t, s.counter, pc, w);
    var s' := Move(s, t, s.counter, pc);
    assert t in Claimants(s) && t !in Readers(s);
    assert IsSole(s.pc[t], w) ==> t in Sole(s, w);
    hide Readers, Claimants, Sole;
    assert Readers(s') == Readers(s) && Claimants(s') == Claimants(s);
    OnlyMember(Claimants(s), t);
  }

  lemma DropWriteBit(s: State, t: Thread, w: nat)
    requires Inv(s, w) && t in s.pc && IsWriter(s.pc[t])
    ensures s.counter == w && Inv(Move(s, t, 0, Outside), w)
  {
    MoveSets(s, t, 0, Outside, w);
    assert t in Claimants(s) && t in Sole(s, w) && Sole(s, w) <= Claimants(s);
    OnlyMember(Claimants(s), t);
  }

  lemma OnlyMember(x: set<Thread>, t: Thread)
    requires t in x && |x| <= 1
    ensures x == {t}
  {
    assert |x - {t}| == |x| - 1;
  }

  lemma StepKeepsInv(s: State, t: Thread, a: Action, w: nat)
    requires w > 0 && Inv(s, w) && Enabled(s, t, a, w)
    ensures Inv(Step(s, t, a, w), w)
  {
    var c, pc := s.counter, s.pc[t];
    match a
    case CallLockShared => PlainMove(s, t, ReadLoop(c), w);
    case ReloadShared => PlainMove(s, t, ReadLoop(c), w);
    case CasShared(spurious) =>
      if c == pc.expected && !spurious {
        EnterReading(s, t, w);
      } else {
        PlainMove(s, t, ReadLoop(c), w);
      }
    case CallTryLockShared => PlainMove(s, t, TryRead(WithoutWriteBit(c, w)), w);
    case CasTryShared =>
      if pc.expected + 1 != w && c == pc.expected {
        EnterReading(s, t, w);
      } else {
        PlainMove(s, t, Outside, w);
      }
    case UnlockShared => LeaveReading(s, t, w);
    case CallLock => PlainMove(s, t, WriteLoop, w);
    case FetchOr =>
      if WriteBitSet(c, w) {
        PlainMove(s, t, WriteLoop, w);
      } else {
        TakeWriteBit(s, t, Draining(c), w);
      }
    case ReloadLock => KeepWriteBit(s, t, Draining(c), w);
    case EnterLock => KeepWriteBit(s, t, Writing, w);
    case TryLock =>
      if c == 0 {
        TakeWriteBit(s, t, Writing, w);
      }
    case CheckUnlock =>
      DropWriteBit(s, t, w);
      KeepWriteBit(s, t, Unlocking, w);
    case StoreUnlock => DropWriteBit(s, t, w);
  }

  /** Every state of every run satisfies the invariant. */
  lemma {:induction false} RunsKeepInv(run: seq<State>, w: nat, i: nat)
    requires w > 0 && IsRun(run, w) && i < |run|
    ensures Inv(run[i], w)
  {
    if i == 0 {
      assert Readers(run[0]) == {} && Claimants(run[0]) == {};
    } else {
      RunsKeepInv(run, w, i - 1);
      assert Next(run[i - 1], run[i], w);
      var t, a :| Enabled(run[i - 1], t, a, w) && run[i] == Step(run[i - 1], t, a, w);
      StepKeepsInv(run[i - 1], t, a, w);
    }
  }

  // ----- the promises of the lock ------------------------------------------------------------------

  /** In every state of every run the lock excludes as it should and no error check has fired. */
  lemma MutualExclusion(run: seq<State>, w: nat, i: nat)
    requires w > 0 && IsRun(run, w) && i < |run|
    ensures |Writers(run[i])| <= 1 && |Claimants(run[i])| <= 1
    ensures Writers(run[i]) != {} ==> Readers(run[i]) == {}
    ensures run[i].counter == |Readers(run[i])| + if Claimants(run[i]) == {} then 0 else w
    ensures |Readers(run[i])| < w
    ensures forall t :: t in run[i].pc ==> !run[i].pc[t].Thrown?
  {
    var s := run[i];
    RunsKeepInv(run, w, i);
    assert Writers(s) <= Claimants(s) && Writers(s) <= Sole(s, w);
    if t :| t in Writers(s) {
      OnlyMember(Claimants(s), t);
      assert Writers(s) == {t};
    }
  }

  /** `try_lock` succeeds exactly when nobody holds the lock and no writer waits for it. */
  lemma TryLockIsExact(s: State, t: Thread, w: nat)
    requires w > 0 && Inv(s, w) && Enabled(s, t, TryLock, w)
    ensures Step(s, t, TryLock, w).pc[t].Writing? <==> Readers(s) == {} && Claimants(s) == {}
    ensures Step(s, t, TryLock, w).pc[t].Writing? || Step(s, t, TryLock, w) == s
  {
    assert t !in Readers(s) && t !in Claimants(s);
  }

  /**
   * The exchange of `try_lock_shared` lets the thread in exactly when no writer waits or holds,
   * the readers are as many as it has read, and one more can be counted.
   */
  lemma TryLockSharedIsExact(s: State, t: Thread, w: nat)
    requires w > 0 && Inv(s, w) && Enabled(s, t, CasTryShared, w)
    ensures Step(s, t, CasTryShared, w).pc[t].Reading? <==>
      Claimants(s) == {} && |Readers(s)| == s.pc[t].expected && |Readers(s)| + 1 < w
  {
    hide Readers, Claimants, Sole;
  }

  /** Undisturbed between its load and its exchange, it succeeds exactly when one more reader may come. */
  lemma UndisturbedTryLockShared(s: State, t: Thread, w: nat)
    requires w > 0 && Inv(s, w) && Enabled(s, t, CallTryLockShared, w)
    ensures var s1 := Step(s, t, CallTryLockShared, w);
      Enabled(s1, t, CasTryShared, w) &&
      (Step(s1, t, CasTryShared, w).pc[t].Reading? <==> Claimants(s) == {} && |Readers(s)| + 1 < w) &&
      (Step(s1, t, CasTryShared, w).pc[t].Reading? || Step(s1, t, CasTryShared, w) == s)
  {
    hide Readers, Claimants, Sole;
    assert s.pc[t := Outside] == s.pc;
  }

  /** The exchange of `lock_shared`: unless it fails spuriously, the same condition. */
  lemma LockSharedIsExact(s: State, t: Thread, spurious: bool, w: nat)
    requires w > 0 && Inv(s, w) && Enabled(s, t, CasShared(spurious), w)
    ensures Step(s, t, CasShared(spurious), w).pc[t].Reading? <==>
      !spurious && Claimants(s) == {} && |Readers(s)| == s.pc[t].expected
  {
    hide Readers, Claimants, Sole;
  }

  /** `lock` gets the write bit exactly when no writer has it, and may enter exactly when it sees no reader left. */
  lemma LockIsExact(s: State, t: Thread, w: nat)
    requires w > 0 && Inv(s, w)
    ensures Enabled(s, t, FetchOr, w) ==>
      (Step(s, t, FetchOr, w).pc[t].Draining? <==> Claimants(s) == {}) &&
      (Step(s, t, FetchOr, w).pc[t].Draining? ==> Step(s, t, FetchOr, w).pc[t].current == |Readers(s)|)
    ensures Enabled(s, t, ReloadLock, w) ==> (Step(s, t, ReloadLock, w).pc[t] == Draining(w) <==> Readers(s) == {})
  {
    if Enabled(s, t, ReloadLock, w) {
      assert t in Claimants(s);
    }
    hide Readers, Claimants, Sole;
  }

  /** `lock_shared` is left only with a share of the lock, and `lock` only with the lock. */
  lemma CallsEndWithTheLock(s: State, t: Thread, a: Action, w: nat)
    requires w > 0 && Inv(s, w) && Enabled(s, t, a, w)
    ensures var pc, pc' := s.pc[t], Step(s, t, a, w).pc[t];
      (pc.ReadLoop? || a.CallLockShared? ==> pc'.ReadLoop? || pc'.Reading?) &&
      (pc.WriteLoop? || pc.Draining? || a.CallLock? ==> pc'.WriteLoop? || pc'.Draining? || pc'.Writing?) &&
      (pc.Reading? ==> pc'.Outside?) && (IsWriter(pc) ==> pc'.Unlocking? || pc'.Outside?)
  {
    if IsWriter(s.pc[t]) {
      DropWriteBit(s, t, w);
    } else if s.pc[t].Reading? {
      LeaveReading(s, t, w);
    }
    hide Readers, Claimants, Sole;
  }

  /** While a writer waits or holds, no thread becomes a reader. */
  lemma ClaimKeepsReadersOut(s: State, t: Thread, a: Action, w: nat)
    requires w > 0 && Inv(s, w) && Enabled(s, t, a, w) && Claimants(s) != {}
    ensures Readers(Step(s, t, a, w)) <= Readers(s)
  {
  }

  /** When every thread has left, the counter is back to zero, as the destructor asserts. */
  lemma IdleLockIsFree(s: State, w: nat)
    requires w > 0 && Inv(s, w) && forall t :: t in s.pc ==> s.pc[t].Outside?
    ensures s.counter == 0
  {
    assert Readers(s) == {} && Claimants(s) == {};
  }

  // ----- refinement -----------------------------------------------------------------------------------

  /** A reader/writer lock without any counter. */
  datatype Lock = Lock(readers: set<Thread>, writer: set<Thread>)

  ghost function Abstract(s: State): Lock {
    Lock(Readers(s), Writers(s))
  }

  /** It changes only by letting one thread in or out, and never lets a writer and another thread in together. */
  ghost predicate LockStep(l: Lock, l': Lock, t: Thread) {
    || l' == l
    || (t !in l.readers && l.writer == {} && l' == l.(readers := l.readers + {t}))
    || (t in l.readers && l' == l.(readers := l.readers - {t}))
    || (l.readers == {} && l.writer == {} && l' == l.(writer := {t}))
    || (l.writer == {t} && l' == l.(writer := {}))
  }

  lemma Invisible(s: State, t: Thread, c: nat, pc: Pc)
    requires t in s.pc && (pc.Reading? <==> s.pc[t].Reading?) && (IsWriter(pc) <==> IsWriter(s.pc[t]))
    ensures Abstract(Move(s, t, c, pc)) == Abstract(s)
  {
    assert Readers(Move(s, t, c, pc)) == Readers(s);
    assert Writers(Move(s, t, c, pc)) == Writers(s);
  }

  lemma ReaderComes(s: State, t: Thread, w: nat)
    requires Inv(s, w) && t in s.pc && !s.pc[t].Reading? && !IsWriter(s.pc[t]) && s.counter < w
    ensures LockStep(Abstract(s), Abstract(Move(s, t, s.counter + 1, Reading)), t)
  {
    MoveSets(s, t, s.counter + 1, Reading, w);
    assert t !in Readers(s) && t !in Writers(s) && Writers(s) <= Claimants(s) == {};
  }

  lemma ReaderGoes(s: State, t: Thread, c: nat, pc: Pc, w: nat)
    requires t in s.pc && s.pc[t].Reading? && !pc.Reading? && !IsWriter(pc)
    ensures LockStep(Abstract(s), Abstract(Move(s, t, c, pc)), t)
  {
    MoveSets(s, t, c, pc, w);
    assert t in Readers(s) && t !in Writers(s);
  }

  lemma WriterComes(s: State, t: Thread, c: nat, w: nat)
    requires Inv(s, w) && t in s.pc && !s.pc[t].Reading? && !IsWriter(s.pc[t])
    requires s.counter == 0 || s.pc[t] == Draining(w)
    ensures LockStep(Abstract(s), Abstract(Move(s, t, c, Writing)), t)
  {
    MoveSets(s, t, c, Writing, w);
    assert t !in Readers(s) && t !in Writers(s) && Writers(s) <= Claimants(s);
    if s.pc[t] == Draining(w) {
      assert t in Sole(s, w) && t in Claimants(s);
      OnlyMember(Claimants(s), t);
    }
    assert Readers(s) == {} && Writers(s) == {};
  }

  lemma WriterGoes(s: State, t: Thread, c: nat, w: nat)
    requires Inv(s, w) && t in s.pc && IsWriter(s.pc[t])
    ensures LockStep(Abstract(s), Abstract(Move(s, t, c, Outside)), t)
  {
    MoveSets(s, t, c, Outside, w);
    assert t !in Readers(s) && t in Writers(s) && t in Claimants(s) && Writers(s) <= Claimants(s);
    OnlyMember(Claimants(s), t);
    assert Writers(s) == {t};
  }

  lemma RefinesLock(s: State, t: Thread, a: Action, w: nat)
    requires w > 0 && Inv(s, w) && Enabled(s, t, a, w)
    ensures LockStep(Abstract(s), Abstract(Step(s, t, a, w)), t)
  {
    var s' := Step(s, t, a, w);
    var entersAsReader := s'.pc[t].Reading? && !s.pc[t].Reading?;
    match a
    case CasShared(_) => if entersAsReader { ReaderComes(s, t, w); } else { Invisible(s, t, s'.counter, s'.pc[t]); }
    case CasTryShared => if entersAsReader { ReaderComes(s, t, w); } else { Invisible(s, t, s'.counter, s'.pc[t]); }
    case UnlockShared => ReaderGoes(s, t, s'.counter, s'.pc[t], w);
    case EnterLock => WriterComes(s, t, s'.counter, w);
    case TryLock => if s.counter == 0 { WriterComes(s, t, s'.counter, w); }
    case CheckUnlock =>
      DropWriteBit(s, t, w);
      Invisible(s, t, s'.counter, s'.pc[t]);
    case StoreUnlock => WriterGoes(s, t, s'.counter, w);
    case _ => Invisible(s, t, s'.counter, s'.pc[t]);
  }
}

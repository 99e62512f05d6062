/**
 * The spin lock does not lock itself up: from every state that runs can reach, each thread that
 * waits in `lock` or `lock_shared` can get in, once the threads that hold the lock leave.
 */
module LockProgress {
  import opened SharedMutex

  ghost predicate IsPath(path: seq<State>, s: State, e: State, w: nat)
    requires w > 0
  {
    path != [] && path[0] == s && path[|path| - 1] == e &&
    forall i :: 0 < i < |path| ==> Next(path[i - 1], path[i], w)
  }

  /** Steps of some threads lead from `s` to `e`. */
  ghost predicate Leads(s: State, e: State, w: nat)
    requires w > 0
  {
    exists path :: IsPath(path, s, e, w)
  }

  lemma LeadsSelf(s: State, w: nat)
    requires w > 0
    ensures Leads(s, s, w)
  {
    assert IsPath([s], s, s, w);
  }

  lemma LeadsThen(s: State, e: State, t: Thread, a: Action, w: nat)
    requires w > 0 && Leads(s, e, w) && Enabled(e, t, a, w)
    ensures Leads(s, Step(e, t, a, w), w)
  {
    var path :| IsPath(path, s, e, w);
    var e' := Step(e, t, a, w);
    hide Step, Enabled;
    assert Next(e, e', w);
    hide Next;
    assert IsPath(path + [e'], s, e', w);
  }

  /** Threads that hold the lock, or a share of it, or wait with the write bit set. */
  ghost function Holders(s: State): set<Thread> { Readers(s) + Claimants(s) }

  /** In `e`, reached from `s`, the thread `t` stands where it stood. */
  ghost predicate Unmoved(s: State, t: Thread, e: State, w: nat)
    requires w > 0
  {
    Leads(s, e, w) && Inv(e, w) && t in s.pc && t in e.pc && e.pc[t] == s.pc[t]
  }

  // ----- holders can leave ----------------------------------------------------------------------------

  lemma OneStep(s: State, t: Thread, e: State, u: Thread, a: Action, w: nat)
    requires w > 0 && Unmoved(s, t, e, w) && u != t && Enabled(e, u, a, w)
    ensures Unmoved(s, t, Step(e, u, a, w), w)
  {
    StepKeepsInv(e, u, a, w);
    hide Inv, Leads;
    LeadsThen(s, e, u, a, w);
  }

  lemma ReaderLeaves(s: State, t: Thread, e: State, u: Thread, w: nat) returns (r: State)
    requires w > 0 && Unmoved(s, t, e, w) && u != t && u in Readers(e)
    ensures Unmoved(s, t, r, w) && Holders(r) == Holders(e) - {u}
  {
    LeaveReading(e, u, w);
    OneStep(s, t, e, u, UnlockShared, w);
    r := Step(e, u, UnlockShared, w);
    hide Unmoved, Inv;
    MoveSets(e, u, r.counter, Outside, w);
  }

  lemma Moved(e: State, u: Thread, r: State, pc: Pc, w: nat)
    requires u in e.pc && r == Move(e, u, r.counter, pc)
    ensures Readers(r) == Put(Readers(e), u, pc.Reading?) && Claimants(r) == Put(Claimants(e), u, IsClaim(pc))
  {
    MoveSets(e, u, r.counter, pc, w);
  }

  /** A thread that has the write bit and sees no reader enters and leaves again. */
  lemma WriterLeaves(s: State, t: Thread, e: State, u: Thread, w: nat) returns (r: State)
    requires w > 0 && Unmoved(s, t, e, w) && u != t && u in Claimants(e) && Readers(e) == {}
    ensures Unmoved(s, t, r, w) && Holders(r) == Holders(e) - {u}
  {
    OnlyMember(Claimants(e), u);
    r := e;
    if r.pc[u].Draining? {
      r := WriterEnters(s, t, e, u, w);
    }
    hide Leads;
    if r.pc[u].Writing? {
      DropWriteBit(r, u, w);
      OneStep(s, t, r, u, CheckUnlock, w);
      r := Step(r, u, CheckUnlock, w);
    }
    OneStep(s, t, r, u, StoreUnlock, w);
    assert u in Claimants(r);
    OnlyMember(Claimants(r), u);
    var v := Step(r, u, StoreUnlock, w);
    Moved(r, u, v, Outside, w);
    assert Readers(r) == {};
    r := v;
  }

  lemma WriterEnters(s: State, t: Thread, e: State, u: Thread, w: nat) returns (r: State)
    requires w > 0 && Unmoved(s, t, e, w) && u in e.pc && e.pc[u].Draining? && Readers(e) == {} && u != t
    ensures Unmoved(s, t, r, w) && u in r.pc && r.pc[u].Writing? && Readers(r) == {}
  {
    r := e;
    assert u in Claimants(e);
    assert e.counter == w;
    hide Leads;
    if e.pc[u].current != w {
      OneStep(s, t, e, u, ReloadLock, w);
      r := Step(e, u, ReloadLock, w);
    }
    OneStep(s, t, r, u, EnterLock, w);
    r := Step(r, u, EnterLock, w);
    assert Readers(r) == {};
  }

  lemma OneLeaves(s: State, t: Thread, e: State, w: nat) returns (r: State, u: Thread)
    requires w > 0 && Unmoved(s, t, e, w) && !s.pc[t].Reading? && !(Holders(e) <= {t})
    ensures Unmoved(s, t, r, w) && u in Holders(e) && u != t && Holders(r) == Holders(e) - {u}
  {
    assert t !in Readers(e);
    u :| u in Holders(e) && u != t;
    hide Inv, Leads;
    if v :| v in Readers(e) {
      u := v;
      r := ReaderLeaves(s, t, e, u, w);
    } else {
      assert Readers(e) == {};
      r := WriterLeaves(s, t, e, u, w);
    }
  }

  /** All other threads that hold the lock or have its write bit can leave, one after the other. */
  lemma {:induction false} OthersLeave(s: State, t: Thread, e: State, w: nat) returns (r: State)
    requires w > 0 && Unmoved(s, t, e, w) && !s.pc[t].Reading?
    ensures Unmoved(s, t, r, w) && Holders(r) <= {t}
    decreases |Holders(e)|
  {
    hide Unmoved, Holders;
    r := e;
    if !(Holders(e) <= {t}) {
      var u;
      r, u := OneLeaves(s, t, e, w);
      r := OthersLeave(s, t, r, w);
    }
  }

  // ----- waiting threads can get in ---------------------------------------------------------------------

  /** A waiting thread's own step. */
  lemma OwnStep(s: State, e: State, t: Thread, a: Action, w: nat)
    requires w > 0 && Leads(s, e, w) && Inv(e, w) && Enabled(e, t, a, w)
    ensures Leads(s, Step(e, t, a, w), w) && Inv(Step(e, t, a, w), w)
  {
    StepKeepsInv(e, t, a, w);
    hide Inv, Leads;
    LeadsThen(s, e, t, a, w);
  }

  /** The lock is free: the thread reads the counter again if it must, and comes in. */
  lemma ReaderEnters(s: State, e: State, t: Thread, w: nat) returns (r: State)
    requires w > 1 && Leads(s, e, w) && Inv(e, w) && t in e.pc && e.pc[t].ReadLoop? && Holders(e) == {}
    ensures Leads(s, r, w) && t in r.pc && r.pc[t].Reading?
  {
    assert e.counter == 0;
    r := e;
    hide Leads, Inv;
    if r.pc[t].expected != 0 {
      var a := if r.pc[t].expected + 1 < w then CasShared(false) else ReloadShared;
      OwnStep(s, r, t, a, w);
      r := Step(r, t, a, w);
    }
    OwnStep(s, r, t, CasShared(false), w);
    r := Step(r, t, CasShared(false), w);
  }

  /** The writer takes the write bit if it has not got it, sees it alone, and comes in. */
  lemma WriterComesIn(s: State, e: State, t: Thread, w: nat) returns (r: State)
    requires w > 1 && Leads(s, e, w) && Inv(e, w) && t in e.pc && Holders(e) <= {t}
    requires e.pc[t].WriteLoop? || e.pc[t].Draining?
    ensures Leads(s, r, w) && t in r.pc && r.pc[t].Writing?
  {
    r := e;
    hide Leads;
    assert t !in Readers(e);
    if e.pc[t].WriteLoop? {
      assert t !in Claimants(e);
      assert Claimants(e) == {} && Readers(e) == {};
      OwnStep(s, e, t, FetchOr, w);
      r := Step(e, t, FetchOr, w);
    } else {
      assert t in Claimants(e);
    }
    assert Readers(r) == {} && r.counter == w;
    hide Inv;
    if r.pc[t].current != w {
      OwnStep(s, r, t, ReloadLock, w);
      r := Step(r, t, ReloadLock, w);
    }
    OwnStep(s, r, t, EnterLock, w);
    r := Step(r, t, EnterLock, w);
  }

  /**
   * From every state with the invariant: a thread that waits in `lock_shared` can become a reader,
   * and one that waits in `lock`, for the write bit or for the readers, can become the writer.
   */
  lemma WaiterCanEnter(s: State, t: Thread, w: nat) returns (e: State)
    requires w > 1 && Inv(s, w) && t in s.pc && (s.pc[t].ReadLoop? || s.pc[t].WriteLoop? || s.pc[t].Draining?)
    ensures Leads(s, e, w) && t in e.pc
    ensures if s.pc[t].ReadLoop? then e.pc[t].Reading? else e.pc[t].Writing?
  {
    LeadsSelf(s, w);
    var r := OthersLeave(s, t, s, w);
    if s.pc[t].ReadLoop? {
      assert t !in Holders(r);
      assert Holders(r) == {};
      e := ReaderEnters(s, r, t, w);
    } else {
      e := WriterComesIn(s, r, t, w);
    }
  }
}

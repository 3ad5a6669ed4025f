/**
 The lazy-update protocol of MutableS2ShapeIndex: any number of threads call
 MaybeApplyUpdates, and one of them applies the pending updates.  Every access
 to shared memory is one atomic step of a thread.
 */
module LazyUpdate {
  import opened Common

  datatype Status = STALE | UPDATING | FRESH

  // The heap object that waiting threads share.
  datatype UpdateState = UpdateState(mutex: Option<nat>, numWaiting: nat)

  // What a thread does next.  The parameter of the last steps is its local copy
  // of the number of waiting threads.
  datatype Pc =
    | Idle              // not in a call
    | LockA             // lock_.Lock()
    | Branch            // look at the status
    | UnlockFresh       // lock_.Unlock() and return
    | UnlockWait        // registered; lock_.Unlock()
    | WaitMutex         // wait_mutex.Lock()
    | LockB             // lock_.Lock()
    | Unregister        // --num_waiting
    | Allocate          // update_state_ = new UpdateState
    | LockMutex         // wait_mutex.Lock()
    | UnlockWork        // lock_.Unlock()
    | Apply             // ApplyUpdatesInternal()
    | LockC             // lock_.Lock()
    | StoreFresh        // index_status_ = FRESH
    | ReadWaiting       // UnlockAndSignal begins
    | UnlockSignal(n: nat)   // lock_.Unlock()
    | UnlockMutex(n: nat)    // wait_mutex.Unlock()
    | Reset(n: nat)          // update_state_.reset() if n == 0
    | Returned          // back in the caller, which may read the index

  // The changes to the shapes that the index contains, those that are pending,
  // and all that have been made.  Changes are numbered by their callers.
  datatype Data = Data(index: seq<nat>, pending: seq<nat>, made: seq<nat>)

  // How often an update has been claimed, applied and announced.
  datatype Rounds = Rounds(claimed: nat, applied: nat, announced: nat)

  // "fault" is set by every access to an update state that does not exist, by
  // unlocking what is not held, and by every violated check of the code.
  datatype State = State(status: Status, lock: Option<nat>, update: Option<UpdateState>, pcs: seq<Pc>,
                         created: nat, destroyed: nat, fault: bool, data: Data, rounds: Rounds)

  // ----- steps -----

  predicate InCall(pc: Pc)
  {
    !pc.Idle? && !pc.Returned?
  }

  // Can the thread take its next step now?
  predicate Enabled(s: State, t: nat)
    requires t < |s.pcs|
  {
    match s.pcs[t]
    case LockA | LockB | LockC => s.lock.None?
    case WaitMutex => s.update.None? || s.update.value.mutex.None?
    case _ => true
  }

  function Goto(s: State, t: nat, pc: Pc): State
    requires t < |s.pcs|
  {
    s.(pcs := s.pcs[t := pc])
  }

  function Fault(s: State): State
  {
    s.(fault := true)
  }

  function Lock(s: State, t: nat): State
  {
    s.(lock := Some(t))
  }

  function Unlock(s: State, t: nat): State
  {
    if s.lock == Some(t) then s.(lock := None) else Fault(s)
  }

  function LockWaitMutex(s: State, t: nat): State
  {
    if s.update.None? || s.update.value.mutex.Some? then Fault(s)
    else s.(update := Some(s.update.value.(mutex := Some(t))))
  }

  function UnlockWaitMutex(s: State, t: nat): State
  {
    if s.update.None? || s.update.value.mutex != Some(t) then Fault(s)
    else s.(update := Some(s.update.value.(mutex := None)))
  }

  function AddWaiting(s: State, d: int): State
  {
    if s.update.None? || s.update.value.numWaiting + d < 0 then Fault(s)
    else s.(update := Some(s.update.value.(numWaiting := s.update.value.numWaiting + d)))
  }

  predicate IsWaiter(pc: Pc)
  {
    pc.LockA? || pc.Branch? || pc.UnlockFresh? || pc.UnlockWait? || pc.WaitMutex? || pc.LockB?
    || pc.Unregister?
  }

  predicate IsUpdater(pc: Pc)
  {
    pc.Allocate? || pc.LockMutex? || pc.UnlockWork? || pc.Apply? || pc.LockC? || pc.StoreFresh?
  }

  predicate IsSignal(pc: Pc)
  {
    pc.ReadWaiting? || pc.UnlockSignal? || pc.UnlockMutex? || pc.Reset?
  }

  // One step of thread t.
  function Step(s: State, t: nat): State
    requires t < |s.pcs|
  {
    // MaybeApplyUpdates
    if s.pcs[t].Idle? then Goto(s, t, if s.status == FRESH then Returned else LockA)
    // the caller is done with the index
    else if s.pcs[t].Returned? then Goto(s, t, Idle)
    else if IsWaiter(s.pcs[t]) then WaiterStep(s, t)
    else if IsUpdater(s.pcs[t]) then UpdaterStep(s, t)
    else SignalStep(s, t)
  }

  // ApplyUpdatesThreadSafe up to the decision, and its branch for a thread that
  // finds an update under way.
  function WaiterStep(s: State, t: nat): State
    requires t < |s.pcs| && IsWaiter(s.pcs[t])
  {
    match s.pcs[t]
    case LockA => Goto(Lock(s, t), t, Branch)
    case Branch =>
      if s.status == FRESH then Goto(s, t, UnlockFresh)
      else if s.status == UPDATING then Goto(AddWaiting(s, 1), t, UnlockWait)
      else Goto(s.(status := UPDATING, rounds := s.rounds.(claimed := s.rounds.claimed + 1)), t, Allocate)
    case UnlockFresh => Goto(Unlock(s, t), t, Returned)
    case UnlockWait => Goto(Unlock(s, t), t, WaitMutex)
    case WaitMutex => Goto(LockWaitMutex(s, t), t, LockB)
    case LockB => Goto(Lock(s, t), t, Unregister)
    case Unregister => Goto(AddWaiting(s, -1), t, ReadWaiting)
  }

  // Its branch for the thread that applies the updates.
  function UpdaterStep(s: State, t: nat): State
    requires t < |s.pcs| && IsUpdater(s.pcs[t])
  {
    match s.pcs[t]
    case Allocate =>
      // Assigning to the pointer would destroy an older object.
      var s1 := if s.update.Some? then Fault(s) else s;
      Goto(s1.(update := Some(UpdateState(None, 0)), created := s.created + 1), t, LockMutex)
    case LockMutex => Goto(LockWaitMutex(s, t), t, UnlockWork)
    case UnlockWork => Goto(Unlock(s, t), t, Apply)
    case Apply =>
      // All pending changes are added to the index.
      Goto(s.(data := Data(s.data.index + s.data.pending, [], s.data.made),
              rounds := s.rounds.(applied := s.rounds.applied + 1)), t, LockC)
    case LockC => Goto(Lock(s, t), t, StoreFresh)
    case StoreFresh =>
      Goto(s.(status := FRESH, rounds := s.rounds.(announced := s.rounds.announced + 1)), t, ReadWaiting)
  }

  // UnlockAndSignal
  function SignalStep(s: State, t: nat): State
    requires t < |s.pcs| && IsSignal(s.pcs[t])
  {
    match s.pcs[t]
    case ReadWaiting =>
      if s.update.None? || s.status != FRESH then Goto(Fault(s), t, Returned)
      else Goto(s, t, UnlockSignal(s.update.value.numWaiting))
    case UnlockSignal(n) => Goto(Unlock(s, t), t, UnlockMutex(n))
    case UnlockMutex(n) => Goto(UnlockWaitMutex(s, t), t, Reset(n))
    case Reset(n) =>
      if n != 0 then Goto(s, t, Returned)
      else
        // The destructor checks that nobody is waiting or holds the mutex.
        var ok := s.update.Some? && s.update.value == UpdateState(None, 0);
        Goto((if ok then s else Fault(s)).(update := None, destroyed := s.destroyed + 1), t, Returned)
  }

  // MarkIndexStale: the caller makes sure that no thread is using the index.
  predicate CanChange(s: State)
  {
    forall t :: 0 <= t < |s.pcs| ==> s.pcs[t] == Idle
  }

  function Change(s: State, c: nat): State
  {
    var s1 := s.(data := s.data.(pending := s.data.pending + [c], made := s.data.made + [c]));
    if s1.status == UPDATING then s1 else s1.(status := STALE)
  }

  ghost predicate Init(s: State)
  {
    && s.status != UPDATING && s.lock == None && s.update == None && s.created == s.destroyed == 0 && !s.fault
    && (forall t :: 0 <= t < |s.pcs| ==> s.pcs[t] == Idle)
    && s.data.made == s.data.index + s.data.pending && (s.status == FRESH ==> s.data.pending == [])
    && s.rounds == Rounds(0, 0, 0)
  }

  ghost predicate Next(s: State, s': State)
  {
    || (exists t :: 0 <= t < |s.pcs| && Enabled(s, t) && s' == Step(s, t))
    || (CanChange(s) && exists c :: s' == Change(s, c))
  }

  // ----- the invariant -----

  predicate HoldsLock(pc: Pc)
  {
    pc.Branch? || pc.UnlockFresh? || pc.UnlockWait? || pc.Unregister? || pc.Allocate? || pc.LockMutex?
    || pc.UnlockWork? || pc.StoreFresh? || pc.ReadWaiting? || pc.UnlockSignal?
  }

  predicate HoldsMutex(pc: Pc)
  {
    pc.LockB? || pc.Unregister? || pc.UnlockWork? || pc.Apply? || pc.LockC? || pc.StoreFresh?
    || pc.ReadWaiting? || pc.UnlockSignal? || pc.UnlockMutex?
  }

  // Counted in num_waiting.
  predicate Registered(pc: Pc)
  {
    pc.UnlockWait? || pc.WaitMutex? || pc.LockB? || pc.Unregister?
  }

  predicate Updates(pc: Pc)
  {
    pc.Allocate? || pc.LockMutex? || pc.UnlockWork? || pc.Apply? || pc.LockC? || pc.StoreFresh?
  }

  predicate Resets(pc: Pc)
  {
    pc.Reset? && pc.n == 0
  }

  // Will still access the update state.
  predicate Uses(pc: Pc)
  {
    HoldsMutex(pc) || Registered(pc) || pc.LockMutex? || Resets(pc)
  }

  // After the update is known to be complete.
  predicate SeesFresh(pc: Pc)
  {
    pc.LockB? || pc.Unregister? || pc.ReadWaiting? || pc.UnlockFresh? || pc.Returned? || pc.UnlockSignal?
    || pc.UnlockMutex? || pc.Reset?
  }

  function Waiting(pcs: seq<Pc>): (n: nat)
  {
    if pcs == [] then 0
    else Waiting(pcs[..|pcs| - 1]) + if Registered(pcs[|pcs| - 1]) then 1 else 0
  }

  ghost predicate Inv(s: State)
  {
    && !s.fault
    && LockInv(s) && MutexInv(s) && StatusInv(s) && LifeInv(s) && CountInv(s)
  }

  // The spinlock is held by the thread that thinks so.
  ghost predicate LockInv(s: State)
  {
    && (forall t :: 0 <= t < |s.pcs| && HoldsLock(s.pcs[t]) ==> s.lock == Some(t))
    && (s.lock.Some? ==> s.lock.value < |s.pcs| && HoldsLock(s.pcs[s.lock.value]))
  }

  ghost predicate MutexInv(s: State)
  {
    && (forall t :: 0 <= t < |s.pcs| && HoldsMutex(s.pcs[t]) ==> s.update.Some? && s.update.value.mutex == Some(t))
    && (s.update.Some? && s.update.value.mutex.Some? ==>
          s.update.value.mutex.value < |s.pcs| && HoldsMutex(s.pcs[s.update.value.mutex.value]))
  }

  ghost predicate StatusInv(s: State)
  {
    && (forall t :: 0 <= t < |s.pcs| && Updates(s.pcs[t]) ==> s.status == UPDATING)
    && (forall t, u :: 0 <= t < |s.pcs| && 0 <= u < |s.pcs| && Updates(s.pcs[t]) && Updates(s.pcs[u]) ==> t == u)
    && (s.status == UPDATING ==> SomeoneUpdates(s.pcs))
    && (forall t :: 0 <= t < |s.pcs| && SeesFresh(s.pcs[t]) ==> s.status == FRESH)
    && (forall t :: 0 <= t < |s.pcs| && Registered(s.pcs[t]) ==> s.status != STALE)
  }

  // The update state lives exactly as long as somebody will still access it.
  ghost predicate LifeInv(s: State)
  {
    && (forall t :: 0 <= t < |s.pcs| && Uses(s.pcs[t]) ==> s.update.Some?)
    && (s.update.Some? ==> SomeoneUses(s.pcs))
    && s.created == s.destroyed + (if s.update.Some? then 1 else 0)
    && (forall t, u :: 0 <= t < |s.pcs| && 0 <= u < |s.pcs| && t != u && OnlyUser(s.pcs[t]) ==> !Uses(s.pcs[u]))
  }

  ghost predicate SomeoneUses(pcs: seq<Pc>)
  {
    exists t :: 0 <= t < |pcs| && Uses(pcs[t])
  }

  ghost predicate SomeoneUpdates(pcs: seq<Pc>)
  {
    exists t :: 0 <= t < |pcs| && Updates(pcs[t])
  }

  // A thread that must be the only one concerned with the update state.
  predicate OnlyUser(pc: Pc)
  {
    pc.Allocate? || pc.LockMutex? || Resets(pc)
  }

  ghost predicate CountInv(s: State)
  {
    && (s.update.Some? ==> s.update.value.numWaiting == Waiting(s.pcs))
    && (forall t :: 0 <= t < |s.pcs| && (s.pcs[t].UnlockSignal? || s.pcs[t].UnlockMutex?) ==> s.pcs[t].n == Waiting(s.pcs))
  }

  // ----- counting -----

  lemma {:induction false} WaitingUpdate(pcs: seq<Pc>, t: nat, pc: Pc)
    requires t < |pcs|
    ensures Waiting(pcs[t := pc])
            == Waiting(pcs) + (if Registered(pc) then 1 else 0) - if Registered(pcs[t]) then 1 else 0
  {
    var n := |pcs| - 1;
    var q := pcs[t := pc];
    if t == n {
      assert q[..n] == pcs[..n];
    } else {
      assert q[..n] == pcs[..n][t := pc];
      WaitingUpdate(pcs[..n], t, pc);
    }
  }

  lemma {:induction false} WaitingPositive(pcs: seq<Pc>)
    ensures Waiting(pcs) > 0 <==> exists t :: 0 <= t < |pcs| && Registered(pcs[t])
  {
    if pcs != [] {
      var n := |pcs| - 1;
      WaitingPositive(pcs[..n]);
      if exists t :: 0 <= t < |pcs| && Registered(pcs[t]) {
        var t :| 0 <= t < |pcs| && Registered(pcs[t]);
        if t < n {
          assert Registered(pcs[..n][t]);
        }
      }
    }
  }

  // ----- every step keeps the invariant -----

  // While the status is UPDATING and some other thread holds the lock, the
  // updating thread has made its update state.
  lemma UpdaterLives(s: State, t: nat)
    requires LockInv(s) && StatusInv(s) && LifeInv(s)
    requires t < |s.pcs| && s.pcs[t] == Branch && s.status == UPDATING
    ensures s.update.Some?
  {
    var u :| 0 <= u < |s.pcs| && Updates(s.pcs[u]);
    assert Uses(s.pcs[u]);
  }

  // A registered thread can get the mutex only after the update.
  lemma MutexFreeMeansFresh(s: State, t: nat)
    requires MutexInv(s) && StatusInv(s) && LifeInv(s)
    requires t < |s.pcs| && s.pcs[t] == WaitMutex && Enabled(s, t)
    ensures s.update.Some? && s.status == FRESH
  {
    assert Uses(s.pcs[t]);
  }

  // Whoever else uses the update state, or updates, still does.
  lemma OthersStay(pcs: seq<Pc>, t: nat, pc: Pc)
    requires t < |pcs|
    ensures SomeoneUses(pcs) && (Uses(pcs[t]) ==> Uses(pc)) ==> SomeoneUses(pcs[t := pc])
    ensures SomeoneUpdates(pcs) && (Updates(pcs[t]) ==> Updates(pc)) ==> SomeoneUpdates(pcs[t := pc])
    ensures Uses(pc) ==> SomeoneUses(pcs[t := pc])
    ensures Updates(pc) ==> SomeoneUpdates(pcs[t := pc])
    ensures Waiting(pcs) > 0 && !Registered(pcs[t]) ==> SomeoneUses(pcs[t := pc])
  {
    var q := pcs[t := pc];
    assert q[t] == pc;
    WaitingPositive(pcs);
    if SomeoneUses(pcs) {
      var u :| 0 <= u < |pcs| && Uses(pcs[u]);
      assert u != t ==> q[u] == pcs[u];
    }
    if SomeoneUpdates(pcs) {
      var u :| 0 <= u < |pcs| && Updates(pcs[u]);
      assert u != t ==> q[u] == pcs[u];
    }
    if Waiting(pcs) > 0 {
      var u :| 0 <= u < |pcs| && Registered(pcs[u]);
      assert u != t ==> q[u] == pcs[u] && Uses(q[u]);
    }
  }

  // The thread still uses, waits for or updates what it did before.
  predicate SameDuties(from: Pc, pc: Pc)
  {
    && HoldsMutex(pc) == HoldsMutex(from) && Registered(pc) == Registered(from) && Updates(pc) == Updates(from)
    && Uses(pc) == Uses(from) && !OnlyUser(pc)
  }

  // The spinlock is taken, given up or kept.
  predicate LockFits(from: Pc, pc: Pc, lock: Option<nat>, newLock: Option<nat>, t: nat)
  {
    if HoldsLock(pc) then newLock == Some(t) && (lock == Some(t) || lock == None)
    else newLock == if HoldsLock(from) then None else lock
  }

  lemma LockMoves(s: State, t: nat, pc: Pc, lock: Option<nat>)
    requires LockInv(s) && t < |s.pcs| && LockFits(s.pcs[t], pc, s.lock, lock, t)
    ensures LockInv(s.(lock := lock, pcs := s.pcs[t := pc]))
  {
    hide HoldsLock;
  }

  // A step that changes at most who holds the spinlock.
  lemma ControlKeeps(s: State, t: nat, pc: Pc, lock: Option<nat>)
    requires Inv(s) && t < |s.pcs| && SameDuties(s.pcs[t], pc) && LockFits(s.pcs[t], pc, s.lock, lock, t)
    requires SeesFresh(pc) ==> s.status == FRESH
    requires pc.UnlockSignal? || pc.UnlockMutex? ==> pc.n == Waiting(s.pcs)
    ensures Inv(s.(lock := lock, pcs := s.pcs[t := pc]))
  {
    hide Waiting, SomeoneUses, SomeoneUpdates, HoldsLock, HoldsMutex, Registered, Updates, Uses, OnlyUser, SeesFresh;
    LockMoves(s, t, pc, lock);
    OthersStay(s.pcs, t, pc);
    WaitingUpdate(s.pcs, t, pc);
    hide LockInv, LockFits;
  }

  // What the thread may rely on in such a step.
  lemma ControlKnows(s: State, t: nat)
    requires Inv(s) && t < |s.pcs|
    ensures HoldsLock(s.pcs[t]) ==> s.lock == Some(t)
    ensures SeesFresh(s.pcs[t]) ==> s.status == FRESH
    ensures HoldsMutex(s.pcs[t]) ==> s.update.Some? && s.update.value.numWaiting == Waiting(s.pcs)
    ensures s.pcs[t].UnlockSignal? ==> s.pcs[t].n == Waiting(s.pcs)
  {
    hide HoldsLock, SeesFresh, HoldsMutex, Waiting, Uses, Updates, Registered;
  }

  // Entering a call and returning.
  lemma OutsideKeeps(s: State, t: nat)
    requires Inv(s) && t < |s.pcs| && !InCall(s.pcs[t])
    ensures Inv(Step(s, t))
  {
    hide Inv, Waiting, WaiterStep, UpdaterStep, SignalStep;
    ControlKeeps(s, t, if s.pcs[t].Returned? then Idle else if s.status == FRESH then Returned else LockA, s.lock);
  }

  lemma NobodyUses(pcs: seq<Pc>, t: nat)
    requires t < |pcs| && !Uses(pcs[t]) && forall u :: 0 <= u < |pcs| && u != t ==> !Uses(pcs[u])
    ensures !SomeoneUses(pcs)
  {
  }

  // The thread that resets is the last one, and the object is unused.
  lemma LastOne(s: State, t: nat)
    requires Inv(s) && t < |s.pcs| && s.pcs[t].Reset? && s.pcs[t].n == 0
    ensures s.update == Some(UpdateState(None, 0))
    ensures forall u :: 0 <= u < |s.pcs| && u != t ==> !Uses(s.pcs[u])
  {
    hide Waiting, SomeoneUses, SomeoneUpdates, StatusInv, LockInv;
    assert forall u :: 0 <= u < |s.pcs| ==> !Registered(s.pcs[u]);
    WaitingPositive(s.pcs);
    assert Uses(s.pcs[t]);
    assert s.update.value.mutex.None?;
  }

  lemma WaiterDuties()
    ensures SameDuties(LockA, Branch) && SameDuties(Branch, UnlockFresh) && SameDuties(UnlockFresh, Returned)
    ensures SameDuties(UnlockWait, WaitMutex) && SameDuties(LockB, Unregister)
    ensures !HoldsLock(LockA) && HoldsLock(Branch) && HoldsLock(UnlockFresh) && !HoldsLock(Returned)
    ensures HoldsLock(UnlockWait) && !HoldsLock(WaitMutex) && !HoldsLock(LockB) && HoldsLock(Unregister)
    ensures !SeesFresh(Branch) && SeesFresh(UnlockFresh) && !SeesFresh(WaitMutex) && SeesFresh(LockB)
  {
  }

  lemma WaiterControl(s: State, t: nat)
    requires Inv(s) && t < |s.pcs| && Enabled(s, t)
    requires match s.pcs[t]
             case Branch => s.status == FRESH
             case LockA | UnlockFresh | UnlockWait | LockB => true
             case _ => false
    ensures Inv(WaiterStep(s, t))
  {
    hide Inv, Waiting, SameDuties, HoldsLock, SeesFresh, HoldsMutex;
    ControlKnows(s, t);
    WaiterDuties();
    match s.pcs[t]
    case LockA => ControlKeeps(s, t, Branch, Some(t));
    case Branch => ControlKeeps(s, t, UnlockFresh, s.lock);
    case UnlockFresh => ControlKeeps(s, t, Returned, None);
    case UnlockWait => ControlKeeps(s, t, WaitMutex, None);
    case LockB => ControlKeeps(s, t, Unregister, Some(t));
  }

  // The decision to wait or to update.
  lemma RegisterKeeps(s: State, t: nat)
    requires Inv(s) && t < |s.pcs| && s.pcs[t].Branch? && s.status == UPDATING
    ensures Inv(WaiterStep(s, t))
  {
    hide Waiting, SomeoneUses, SomeoneUpdates;
    UpdaterLives(s, t);
    OthersStay(s.pcs, t, UnlockWait);
    WaitingUpdate(s.pcs, t, UnlockWait);
  }

  lemma StartKeeps(s: State, t: nat)
    requires Inv(s) && t < |s.pcs| && s.pcs[t].Branch? && s.status == STALE
    ensures Inv(WaiterStep(s, t))
  {
    hide Waiting, SomeoneUses, SomeoneUpdates;
    OthersStay(s.pcs, t, Allocate);
    WaitingUpdate(s.pcs, t, Allocate);
  }

  lemma WaitMutexKeeps(s: State, t: nat)
    requires Inv(s) && t < |s.pcs| && Enabled(s, t) && s.pcs[t].WaitMutex?
    ensures Inv(WaiterStep(s, t))
  {
    hide Waiting, SomeoneUses, SomeoneUpdates;
    MutexFreeMeansFresh(s, t);
    OthersStay(s.pcs, t, LockB);
    WaitingUpdate(s.pcs, t, LockB);
  }

  lemma UnregisterKeeps(s: State, t: nat)
    requires Inv(s) && t < |s.pcs| && s.pcs[t].Unregister?
    ensures Inv(WaiterStep(s, t))
  {
    hide Waiting, SomeoneUses, SomeoneUpdates;
    WaitingPositive(s.pcs);
    OthersStay(s.pcs, t, ReadWaiting);
    WaitingUpdate(s.pcs, t, ReadWaiting);
  }

  // The invariant does not look at the data.
  lemma InvIgnoresData(s: State, data: Data, rounds: Rounds)
    requires Inv(s)
    ensures Inv(s.(data := data, rounds := rounds))
  {
    hide Waiting, SomeoneUses, SomeoneUpdates, HoldsLock, HoldsMutex, Registered, Updates, Uses, OnlyUser, SeesFresh;
  }

  lemma UpdaterControl(s: State, t: nat)
    requires Inv(s) && t < |s.pcs| && Enabled(s, t) && (s.pcs[t].UnlockWork? || s.pcs[t].Apply? || s.pcs[t].LockC?)
    ensures Inv(UpdaterStep(s, t))
  {
    ControlKnows(s, t);
    hide Inv, Waiting;
    match s.pcs[t]
    case UnlockWork => ControlKeeps(s, t, Apply, None);
    case Apply =>
      ControlKeeps(s, t, LockC, s.lock);
      var r := UpdaterStep(s, t);
      InvIgnoresData(s.(pcs := s.pcs[t := LockC]), r.data, r.rounds);
    case LockC => ControlKeeps(s, t, StoreFresh, Some(t));
  }

  lemma AllocateKeeps(s: State, t: nat)
    requires Inv(s) && t < |s.pcs| && s.pcs[t].Allocate?
    ensures Inv(UpdaterStep(s, t))
  {
    hide Waiting, SomeoneUses, SomeoneUpdates;
    NobodyUses(s.pcs, t);
    WaitingPositive(s.pcs);
    OthersStay(s.pcs, t, LockMutex);
    WaitingUpdate(s.pcs, t, LockMutex);
  }

  lemma UpdaterChanges(s: State, t: nat)
    requires Inv(s) && t < |s.pcs| && (s.pcs[t].LockMutex? || s.pcs[t].StoreFresh?)
    ensures Inv(UpdaterStep(s, t))
  {
    hide Waiting, SomeoneUses, SomeoneUpdates;
    OthersStay(s.pcs, t, UpdaterStep(s, t).pcs[t]);
    WaitingUpdate(s.pcs, t, UpdaterStep(s, t).pcs[t]);
  }

  lemma SignalControl(s: State, t: nat)
    requires Inv(s) && t < |s.pcs|
    requires s.pcs[t].ReadWaiting? || s.pcs[t].UnlockSignal? || (s.pcs[t].Reset? && s.pcs[t].n != 0)
    ensures Inv(SignalStep(s, t))
  {
    ControlKnows(s, t);
    hide Inv, Waiting;
    match s.pcs[t]
    case ReadWaiting => ControlKeeps(s, t, UnlockSignal(s.update.value.numWaiting), s.lock);
    case UnlockSignal(n) => ControlKeeps(s, t, UnlockMutex(n), None);
    case Reset(_) => ControlKeeps(s, t, Returned, s.lock);
  }

  lemma UnlockMutexKeeps(s: State, t: nat)
    requires Inv(s) && t < |s.pcs| && s.pcs[t].UnlockMutex?
    ensures Inv(SignalStep(s, t))
  {
    hide Waiting, SomeoneUses, SomeoneUpdates;
    OthersStay(s.pcs, t, Reset(s.pcs[t].n));
    WaitingUpdate(s.pcs, t, Reset(s.pcs[t].n));
    WaitingPositive(s.pcs);
  }

  // Destroying the update state.
  lemma ResetKeeps(s: State, t: nat)
    requires Inv(s) && t < |s.pcs| && s.pcs[t].Reset? && s.pcs[t].n == 0
    ensures Inv(SignalStep(s, t))
  {
    LastOne(s, t);
    assert SignalStep(s, t) == s.(pcs := s.pcs[t := Returned], update := None, destroyed := s.destroyed + 1);
    hide Waiting, SomeoneUses, SomeoneUpdates, SignalStep;
    OthersStay(s.pcs, t, Returned);
    WaitingUpdate(s.pcs, t, Returned);
  }

  lemma StepKeepsInv(s: State, t: nat)
    requires Inv(s) && t < |s.pcs| && Enabled(s, t)
    ensures Inv(Step(s, t))
  {
    hide Inv, WaiterStep, UpdaterStep, SignalStep, Enabled;
    match s.pcs[t]
    case Idle | Returned => OutsideKeeps(s, t);
    case LockA | UnlockFresh | UnlockWait | LockB => WaiterControl(s, t);
    case Branch =>
      match s.status {
        case FRESH => WaiterControl(s, t);
        case UPDATING => RegisterKeeps(s, t);
        case STALE => StartKeeps(s, t);
      }
    case WaitMutex => WaitMutexKeeps(s, t);
    case Unregister => UnregisterKeeps(s, t);
    case UnlockWork | Apply | LockC => UpdaterControl(s, t);
    case Allocate => AllocateKeeps(s, t);
    case LockMutex | StoreFresh => UpdaterChanges(s, t);
    case ReadWaiting => SignalControl(s, t);
    case UnlockSignal(_) => SignalControl(s, t);
    case UnlockMutex(_) => UnlockMutexKeeps(s, t);
    case Reset(n) => if n == 0 { ResetKeeps(s, t); } else { SignalControl(s, t); }
  }

  lemma ChangeKeepsInv(s: State, c: nat)
    requires Inv(s) && CanChange(s)
    ensures Inv(Change(s, c))
  {
    hide Waiting;
  }

  lemma InitInv(s: State)
    requires Init(s)
    ensures Inv(s)
  {
    WaitingPositive(s.pcs);
  }

  // ----- the updates themselves -----

  // Between applying the updates and announcing it.
  predicate HasApplied(pc: Pc)
  {
    pc.LockC? || pc.StoreFresh?
  }

  ghost predicate SomeoneHasApplied(pcs: seq<Pc>)
  {
    exists t :: 0 <= t < |pcs| && HasApplied(pcs[t])
  }

  // Every change is in the index or pending, in the order in which they were
  // made; nothing is pending in a fresh index, or when the updates have been
  // applied; and each claim leads to one application and one announcement.
  ghost predicate DataInv(s: State)
  {
    && s.data.made == s.data.index + s.data.pending
    && (s.status == FRESH || SomeoneHasApplied(s.pcs) ==> s.data.pending == [])
    && s.rounds.claimed == s.rounds.announced + (if s.status == UPDATING then 1 else 0)
    && s.rounds.applied == s.rounds.announced + (if SomeoneHasApplied(s.pcs) then 1 else 0)
  }

  lemma AppliedMoves(pcs: seq<Pc>, t: nat, pc: Pc)
    requires t < |pcs|
    ensures HasApplied(pc) == HasApplied(pcs[t]) ==> SomeoneHasApplied(pcs[t := pc]) == SomeoneHasApplied(pcs)
    ensures HasApplied(pc) ==> SomeoneHasApplied(pcs[t := pc])
  {
    var q := pcs[t := pc];
    assert q[t] == pc;
    if u :| 0 <= u < |pcs| && HasApplied(pcs[u]) {
      assert u != t ==> q[u] == pcs[u];
    }
    if u :| 0 <= u < |q| && HasApplied(q[u]) {
      assert u != t ==> q[u] == pcs[u];
    }
  }

  // The updating thread is the only one that can have applied the updates.
  lemma OnlyUpdater(s: State, t: nat, pc: Pc)
    requires StatusInv(s) && t < |s.pcs| && Updates(s.pcs[t]) && !HasApplied(pc)
    ensures SomeoneHasApplied(s.pcs) == HasApplied(s.pcs[t])
    ensures !SomeoneHasApplied(s.pcs[t := pc])
  {
    forall u | 0 <= u < |s.pcs| && HasApplied(s.pcs[u])
      ensures u == t
    {
      assert Updates(s.pcs[u]);
    }
  }

  lemma AppendedNothing(d: Data)
    requires d.made == d.index + d.pending
    ensures d.made == (d.index + d.pending) + []
  {
  }

  lemma StepKeepsData(s: State, t: nat)
    requires Inv(s) && DataInv(s) && t < |s.pcs| && Enabled(s, t)
    ensures DataInv(Step(s, t))
  {
    hide LockInv, MutexInv, LifeInv, CountInv, SomeoneHasApplied, Waiting, Enabled;
    var pc := Step(s, t).pcs[t];
    AppliedMoves(s.pcs, t, pc);
    AppendedNothing(s.data);
    if Updates(s.pcs[t]) && !HasApplied(pc) {
      OnlyUpdater(s, t, pc);
    }
    if s.pcs[t].Apply? {
      OnlyUpdater(s, t, Idle);
    }
    StepPcs(s, t);
    match s.pcs[t]
    case Branch =>
    case Apply =>
    case StoreFresh =>
    case Reset(_) =>
    case _ =>
  }

  lemma StepPcs(s: State, t: nat)
    requires t < |s.pcs|
    ensures Step(s, t).pcs == s.pcs[t := Step(s, t).pcs[t]]
  {
    match s.pcs[t]
    case Reset(_) =>
    case _ =>
  }

  lemma NextKeepsData(s: State, s': State)
    requires Inv(s) && DataInv(s) && Next(s, s')
    ensures DataInv(s')
  {
    hide Inv, DataInv;
    if CanChange(s) && exists c :: s' == Change(s, c) {
      var c :| s' == Change(s, c);
      ChangeKeepsData(s, c);
    } else {
      var t :| 0 <= t < |s.pcs| && Enabled(s, t) && s' == Step(s, t);
      StepKeepsData(s, t);
    }
  }

  lemma ChangeKeepsData(s: State, c: nat)
    requires Inv(s) && DataInv(s) && CanChange(s)
    ensures DataInv(Change(s, c))
  {
    hide LockInv, MutexInv, LifeInv, CountInv, Waiting;
    AppendAssoc(s.data.index, s.data.pending, [c]);
  }

  // ----- whole runs -----

  ghost predicate Run(states: seq<State>)
  {
    states != [] && Init(states[0]) && forall i :: 0 <= i < |states| - 1 ==> Next(states[i], states[i + 1])
  }

  lemma NextKeepsInv(s: State, s': State)
    requires Inv(s) && Next(s, s')
    ensures Inv(s') && |s'.pcs| == |s.pcs|
  {
    hide Inv;
    if CanChange(s) && exists c :: s' == Change(s, c) {
      var c :| s' == Change(s, c);
      ChangeKeepsInv(s, c);
    } else {
      var t :| 0 <= t < |s.pcs| && Enabled(s, t) && s' == Step(s, t);
      StepKeepsInv(s, t);
      StepKeepsThreads(s, t);
    }
  }

  lemma StepKeepsThreads(s: State, t: nat)
    requires t < |s.pcs|
    ensures |Step(s, t).pcs| == |s.pcs|
  {
    match s.pcs[t]
    case Reset(_) =>
    case _ =>
  }

  lemma {:induction false} RunKeepsInv(states: seq<State>, i: nat)
    requires Run(states) && i < |states|
    ensures Inv(states[i])
  {
    hide Inv, Init, Next;
    if i == 0 {
      InitInv(states[0]);
    } else {
      RunKeepsInv(states, i - 1);
      assert Next(states[i - 1], states[i - 1 + 1]);
      NextKeepsInv(states[i - 1], states[i]);
    }
  }

  lemma {:induction false} RunKeepsData(states: seq<State>, i: nat)
    requires Run(states) && i < |states|
    ensures DataInv(states[i])
  {
    hide Inv, Init, Next, DataInv;
    if i == 0 {
      InitData(states[0]);
    } else {
      RunKeepsData(states, i - 1);
      RunKeepsInv(states, i - 1);
      assert Next(states[i - 1], states[i - 1 + 1]);
      NextKeepsData(states[i - 1], states[i]);
    }
  }

  lemma InitData(s: State)
    requires Init(s)
    ensures DataInv(s)
  {
  }

  // Whoever returns finds every change that has been made in the index, once and
  // in order, and nothing pending.
  lemma ReturnedSeesAll(states: seq<State>, i: nat, t: nat)
    requires Run(states) && i < |states| && t < |states[i].pcs| && states[i].pcs[t] == Returned
    ensures states[i].data.pending == [] && states[i].data.index == states[i].data.made
  {
    hide Run, Waiting;
    RunKeepsInv(states, i);
    RunKeepsData(states, i);
    AppendNothing(states[i].data.index);
  }

  // What has been made is never forgotten.
  lemma StepKeepsMade(s: State, t: nat)
    requires t < |s.pcs|
    ensures Step(s, t).data.made == s.data.made
  {
    match s.pcs[t]
    case Reset(_) =>
    case _ =>
  }

  lemma NextKeepsMade(s: State, s': State)
    requires Next(s, s')
    ensures s.data.made <= s'.data.made
  {
    hide Enabled, Step;
    if CanChange(s) && exists c :: s' == Change(s, c) {
      var c :| s' == Change(s, c);
    } else {
      var t :| 0 <= t < |s.pcs| && Enabled(s, t) && s' == Step(s, t);
      StepKeepsMade(s, t);
    }
  }

  lemma {:induction false} RunKeepsMade(states: seq<State>, i: nat, j: nat)
    requires Run(states) && i <= j < |states|
    ensures states[i].data.made <= states[j].data.made
    decreases j - i
  {
    hide Init, Next;
    if i < j {
      RunKeepsMade(states, i, j - 1);
      assert Next(states[j - 1], states[j - 1 + 1]);
      NextKeepsMade(states[j - 1], states[j]);
    }
  }

  // A change is in the index whenever a thread returns after it.
  lemma ChangeIsSeen(states: seq<State>, i: nat, c: nat, j: nat, t: nat)
    requires Run(states) && i < j < |states| && states[i + 1] == Change(states[i], c)
    requires t < |states[j].pcs| && states[j].pcs[t] == Returned
    ensures c in states[j].data.index
  {
    hide Run;
    RunKeepsMade(states, i + 1, j);
    ReturnedSeesAll(states, j, t);
    assert states[i + 1].data.made[|states[i].data.made|] == c;
  }

  // A step of a thread that applies the pending changes: to all of them.
  ghost predicate Applies(s: State, s': State)
  {
    exists t :: 0 <= t < |s.pcs| && s.pcs[t] == Apply && s'.pcs == s.pcs[t := LockC]
                && s'.data == Data(s.data.index + s.data.pending, [], s.data.made)
  }

  // How often that happens from position i to position j of a run.
  ghost function Applications(states: seq<State>, i: nat, j: nat): nat
    requires i <= j < |states|
  {
    if i == j then 0 else Applications(states, i, j - 1) + if Applies(states[j - 1], states[j]) then 1 else 0
  }

  lemma {:induction false} ApplicationsAreCounted(states: seq<State>, i: nat, j: nat)
    requires Run(states) && i <= j < |states|
    ensures states[j].rounds.applied == states[i].rounds.applied + Applications(states, i, j)
    decreases j - i
  {
    hide Init, Next, Applies;
    if i < j {
      ApplicationsAreCounted(states, i, j - 1);
      assert Next(states[j - 1], states[j - 1 + 1]);
      RunKeepsInv(states, j - 1);
      StepIsCounted(states[j - 1], states[j]);
    }
  }

  lemma StepIsCounted(s: State, s': State)
    requires Inv(s) && Next(s, s')
    ensures s'.rounds.applied == s.rounds.applied + if Applies(s, s') then 1 else 0
  {
    hide Inv, Enabled;
    if CanChange(s) && exists c :: s' == Change(s, c) {
    } else {
      var t :| 0 <= t < |s.pcs| && Enabled(s, t) && s' == Step(s, t);
      StepPcs(s, t);
      ThreadIsCounted(s, t);
    }
  }

  lemma ThreadIsCounted(s: State, t: nat)
    requires t < |s.pcs| && Step(s, t).pcs == s.pcs[t := Step(s, t).pcs[t]]
    ensures Step(s, t).rounds.applied == s.rounds.applied + if s.pcs[t].Apply? then 1 else 0
    ensures Applies(s, Step(s, t)) <==> s.pcs[t].Apply?
  {
    var s' := Step(s, t);
    if Applies(s, s') {
      var u :| 0 <= u < |s.pcs| && s.pcs[u] == Apply && s'.pcs == s.pcs[u := LockC];
      assert s'.pcs[u] == LockC;
    }
    match s.pcs[t]
    case Reset(_) =>
    case _ =>
  }

  // From a stale index to the next fresh one the updates are applied exactly once.
  lemma AppliedOnce(states: seq<State>, i: nat, j: nat)
    requires Run(states) && i < j < |states| && states[i].status == STALE && states[j].status == FRESH
    requires forall k :: i < k < j ==> states[k].status != FRESH
    ensures Applications(states, i, j) == 1
  {
    hide Run, Waiting, Applications;
    ApplicationsAreCounted(states, i, j);
    AnnouncedOnce(states, i, j);
    RunKeepsData(states, i);
    RunKeepsData(states, j);
    NotAppliedYet(states, i);
    NotAppliedYet(states, j);
  }

  lemma NotAppliedYet(states: seq<State>, i: nat)
    requires Run(states) && i < |states| && states[i].status != UPDATING
    ensures !SomeoneHasApplied(states[i].pcs)
  {
    hide Run, Waiting, LockInv, MutexInv, LifeInv, CountInv;
    RunKeepsInv(states, i);
  }

  // The status becomes FRESH only by an announcement.
  lemma {:induction false} AnnouncedOnce(states: seq<State>, i: nat, j: nat)
    requires Run(states) && i < j < |states| && states[i].status != FRESH
    requires forall k :: i < k < j ==> states[k].status != FRESH
    ensures states[j].rounds.announced == states[i].rounds.announced + if states[j].status == FRESH then 1 else 0
    decreases j - i
  {
    hide Init, Next;
    assert Next(states[j - 1], states[j - 1 + 1]);
    RunKeepsInv(states, j - 1);
    NextAnnounces(states[j - 1], states[j]);
    if i < j - 1 {
      AnnouncedOnce(states, i, j - 1);
    }
  }

  lemma NextAnnounces(s: State, s': State)
    requires Inv(s) && Next(s, s') && s.status != FRESH
    ensures s'.rounds.announced == s.rounds.announced + if s'.status == FRESH then 1 else 0
  {
    if CanChange(s) && exists c :: s' == Change(s, c) {
    } else {
      var t :| 0 <= t < |s.pcs| && Enabled(s, t) && s' == Step(s, t);
      hide Inv, Enabled;
      match s.pcs[t]
      case Reset(_) =>
      case _ =>
    }
  }

  // In every state of every run: nothing that has been destroyed is accessed and
  // no check fails; at most one thread applies updates, and while the status is
  // UPDATING it is the one that holds the mutex of a live update state, once
  // that is made; the waiting threads are counted correctly; every update state
  // is destroyed exactly once, when nobody uses it any more; and whoever returns
  // finds the index fresh, with all changes that have been made.
  lemma ProtocolIsSafe(states: seq<State>, i: nat)
    requires Run(states) && i < |states|
    ensures var s := states[i];
            && !s.fault
            && (forall t, u :: 0 <= t < |s.pcs| && 0 <= u < |s.pcs| && s.pcs[t] == Apply && s.pcs[u] == Apply ==> t == u)
            && (forall t :: 0 <= t < |s.pcs| && s.pcs[t] == Apply ==>
                              s.status == UPDATING && s.update.Some? && s.update.value.mutex == Some(t))
            && (s.update.Some? ==> s.update.value.numWaiting == Waiting(s.pcs))
            && s.created == s.destroyed + (if s.update.Some? then 1 else 0)
            && (s.update.Some? <==> SomeoneUses(s.pcs))
            && (forall t :: 0 <= t < |s.pcs| && s.pcs[t] == Returned ==>
                              s.status == FRESH && s.data.pending == [] && s.data.index == s.data.made)
  {
    RunKeepsInv(states, i);
    hide DataInv;
    forall t | 0 <= t < |states[i].pcs| && states[i].pcs[t] == Returned
      ensures states[i].data.pending == [] && states[i].data.index == states[i].data.made
    {
      ReturnedSeesAll(states, i, t);
    }
  }

  // When all threads are outside, every update state is gone and nothing is held.
  lemma QuiescentIsClean(states: seq<State>, i: nat)
    requires Run(states) && i < |states| && forall t :: 0 <= t < |states[i].pcs| ==> !InCall(states[i].pcs[t])
    ensures var s := states[i];
            s.update == None && s.created == s.destroyed && s.lock == None && s.status != UPDATING
  {
    hide Waiting, CountInv, MutexInv, Run;
    RunKeepsInv(states, i);
  }

  // ----- progress -----

  // A thread is in a call, so some thread in a call can take a step.
  lemma NoDeadlock(states: seq<State>, i: nat, t: nat)
    requires Run(states) && i < |states| && t < |states[i].pcs| && InCall(states[i].pcs[t])
    ensures exists u :: 0 <= u < |states[i].pcs| && InCall(states[i].pcs[u]) && Enabled(states[i], u)
  {
    var s := states[i];
    RunKeepsInv(states, i);
    hide LockInv, MutexInv, StatusInv, LifeInv, CountInv;
    SomeoneCanStep(s, t);
  }

  lemma SomeoneCanStep(s: State, t: nat)
    requires LockInv(s) && MutexInv(s) && t < |s.pcs| && InCall(s.pcs[t])
    ensures exists u :: 0 <= u < |s.pcs| && InCall(s.pcs[u]) && Enabled(s, u)
  {
    if s.lock.Some? {
      var h := s.lock.value;
      assert InCall(s.pcs[h]) && Enabled(s, h);
    } else if s.pcs[t] == WaitMutex && s.update.Some? && s.update.value.mutex.Some? {
      var h := s.update.value.mutex.value;
      assert InCall(s.pcs[h]) && Enabled(s, h);
    } else {
      assert InCall(s.pcs[t]) && Enabled(s, t);
    }
  }

  // The number of steps that a thread has left before it returns, at most.
  function Rank(pc: Pc): nat
  {
    match pc
    case Returned | Idle => 0
    case Reset(_) => 1
    case UnlockMutex(_) => 2
    case UnlockSignal(_) => 3
    case ReadWaiting => 4
    case StoreFresh => 5
    case LockC => 6
    case Apply => 7
    case UnlockWork => 8
    case LockMutex => 9
    case Allocate => 10
    case Unregister => 5
    case LockB => 6
    case WaitMutex => 7
    case UnlockWait => 8
    case UnlockFresh => 1
    case Branch => 11
    case LockA => 12
  }

  lemma WaiterRank(s: State, t: nat)
    requires t < |s.pcs| && IsWaiter(s.pcs[t])
    ensures Rank(WaiterStep(s, t).pcs[t]) < Rank(s.pcs[t])
  {
  }

  lemma UpdaterRank(s: State, t: nat)
    requires t < |s.pcs| && IsUpdater(s.pcs[t])
    ensures Rank(UpdaterStep(s, t).pcs[t]) < Rank(s.pcs[t])
  {
  }

  lemma SignalRank(s: State, t: nat)
    requires t < |s.pcs| && IsSignal(s.pcs[t])
    ensures Rank(SignalStep(s, t).pcs[t]) < Rank(s.pcs[t])
  {
    match s.pcs[t]
    case Reset(_) =>
    case _ =>
  }

  // Every step inside a call brings its thread closer to returning, so that with
  // the previous lemma all calls return.
  lemma StepsAreBounded(s: State, t: nat)
    requires t < |s.pcs| && InCall(s.pcs[t])
    ensures Rank(Step(s, t).pcs[t]) < Rank(s.pcs[t])
    ensures forall u :: 0 <= u < |s.pcs| && u != t ==> Step(s, t).pcs[u] == s.pcs[u]
  {
    hide WaiterStep, UpdaterStep, SignalStep, Rank;
    StepPcs(s, t);
    if IsWaiter(s.pcs[t]) {
      WaiterRank(s, t);
    } else if IsUpdater(s.pcs[t]) {
      UpdaterRank(s, t);
    } else {
      SignalRank(s, t);
    }
  }
}

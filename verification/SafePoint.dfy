// The stop-the-world protocol: any number of evaluation threads, the mutex _m, the pool
// mutex _mm, the condition variable _condgc and the SAFE bits, as a state machine.
module SafePoint {
  import opened Arithmetic
  import opened Wrappers

  type Tid = nat

  // Where a thread stands. `gone` tells ylmt_rm (true) from ylmt_notify_safe (false).
  datatype Pc =
    | Outside                    // not registered: before ylmt_add, after ylmt_rm
    | AddLocked | AddLinked      // ylmt_add, holding _m
    | Running                    // evaluating: may use pool blocks
    | RmLocked | RmUnlinked      // ylmt_rm, holding _m
    | SafeLocked | SafeMarked    // ylmt_notify_safe, holding _m
    | ThdSafe | WaitDecided      // the thd_safe listener, holding _m
    | Blocked                    // in pthread_cond_wait, not signalled
    | Woken                      // out of the wait, not yet holding _m again
    | AllSafe(gone: bool)        // the all_safe listener, holding _m
    | Collecting(gone: bool)     // in _gc, holding _m and _mm
    | Collected(gone: bool)      // about to broadcast, holding _m
    | Unlocking(gone: bool)      // about to release _m
    | SafeZone                   // between ylmt_notify_safe and ylmt_notify_unsafe
    | UnsafeLocked | UnsafeCleared   // ylmt_notify_unsafe, holding _m

  datatype State = State(
    pc: map<Tid, Pc>,
    mutex: Option<Tid>,              // who holds _m
    poolMutex: Option<Tid>,             // who keeps _m of the pool over more than one step
    registered: set<Tid>,              // the registered threads
    safe: set<Tid>,              // whose SAFE bit is set
    used: nat, size: nat, trigger: int, gcEnabled: bool)

  // _usage_ratio() >= ylgctp(), in whole percent
  predicate RatioReaches(used: nat, size: nat, trigger: int)
    requires size > 0
  {
    used * 100 / size >= trigger
  }

  predicate OverTrigger(s: State)
    requires s.size > 0
  {
    RatioReaches(s.used, s.size, s.trigger)
  }

  datatype Action =
    | Spawn(t: Tid)
    | Touch(t: Tid) | Alloc(t: Tid) | GcEnable(t: Tid, v: bool)
    | LockAdd(t: Tid) | Link(t: Tid) | UnlockAdd(t: Tid)
    | LockRm(t: Tid) | Unlink(t: Tid) | CheckRm(t: Tid)
    | LockSafe(t: Tid) | MarkSafe(t: Tid) | CheckSafe(t: Tid)
    | ReadUsage(t: Tid) | Wait(t: Tid) | WakeSpuriously(t: Tid) | Reacquire(t: Tid)
    | ReadAll(t: Tid) | Reclaim(t: Tid, n: nat) | FinishGc(t: Tid) | Broadcast(t: Tid)
    | Unlock(t: Tid)
    | LockUnsafe(t: Tid) | ClearSafe(t: Tid) | UnlockUnsafe(t: Tid)

  function Move(s: State, t: Tid, p: Pc): State {
    s.(pc := s.pc[t := p])
  }

  function Acquire(s: State, t: Tid, p: Pc): Option<State> {
    if s.mutex == None then Some(Move(s, t, p).(mutex := Some(t))) else None
  }

  function Release(s: State, t: Tid, p: Pc): Option<State> {
    Some(Move(s, t, p).(mutex := None))
  }

  function WakeAll(pc: map<Tid, Pc>): map<Tid, Pc> {
    map u | u in pc :: if pc[u] == Blocked then Woken else pc[u]
  }

  // One step of one thread, if it can take it.
  function Step(s: State, a: Action): (r: Option<State>)
    requires s.size > 0
  {
    if a.Spawn? then
      if a.t !in s.pc then Some(Move(s, a.t, Outside)) else None
    else if a.t !in s.pc then None
    else
      var t, p := a.t, s.pc[a.t];
      match a
      // evaluation
      case Touch(_) => if p == Running then Some(s) else None
      case Alloc(_) =>
        if p == Running && s.poolMutex == None && s.used < s.size then Some(s.(used := s.used + 1)) else None
      case GcEnable(_, v) => if p == Running && s.poolMutex == None then Some(s.(gcEnabled := v)) else None
      // ylmt_add
      case LockAdd(_) => if p == Outside then Acquire(s, t, AddLocked) else None
      case Link(_) =>
        if p == AddLocked && s.poolMutex == None then
          Some(Move(s, t, AddLinked).(registered := s.registered + {t}))
        else None
      case UnlockAdd(_) => if p == AddLinked then Release(s, t, Running) else None
      // ylmt_rm
      case LockRm(_) => if p == Running then Acquire(s, t, RmLocked) else None
      case Unlink(_) => if p == RmLocked then Some(Move(s, t, RmUnlinked).(registered := s.registered - {t})) else None
      case CheckRm(_) =>
        if p == RmUnlinked then Some(Move(s, t, if s.registered <= s.safe then AllSafe(true) else Unlocking(true)))
        else None
      // ylmt_notify_safe
      case LockSafe(_) => if p == Running then Acquire(s, t, SafeLocked) else None
      case MarkSafe(_) => if p == SafeLocked then Some(Move(s, t, SafeMarked).(safe := s.safe + {t})) else None
      case CheckSafe(_) =>
        if p == SafeMarked then Some(Move(s, t, if s.registered <= s.safe then AllSafe(false) else ThdSafe)) else None
      // _mt_listener_thd_safe
      case ReadUsage(_) =>
        if p == ThdSafe && s.poolMutex == None then
          Some(Move(s, t, if OverTrigger(s) then WaitDecided else Unlocking(false)))
        else None
      case Wait(_) => if p == WaitDecided then Release(s, t, Blocked) else None
      case WakeSpuriously(_) => if p == Blocked then Some(Move(s, t, Woken)) else None
      case Reacquire(_) => if p == Woken then Acquire(s, t, Unlocking(false)) else None
      // _mt_listener_all_safe
      case ReadAll(_) =>
        if p.AllSafe? && s.poolMutex == None then
          Some(if !OverTrigger(s) then Move(s, t, Unlocking(p.gone))
               else if s.gcEnabled then Move(s, t, Collecting(p.gone)).(poolMutex := Some(t))
               else Move(s, t, Collected(p.gone)))
        else None
      case Reclaim(_, n) => if p.Collecting? && n <= s.used then Some(s.(used := s.used - n)) else None
      case FinishGc(_) => if p.Collecting? then Some(Move(s, t, Collected(p.gone)).(poolMutex := None)) else None
      case Broadcast(_) =>
        if p.Collected? then Some(s.(pc := WakeAll(s.pc)[t := Unlocking(p.gone)])) else None
      case Unlock(_) => if p.Unlocking? then Release(s, t, if p.gone then Outside else SafeZone) else None
      // ylmt_notify_unsafe
      case LockUnsafe(_) => if p == SafeZone then Acquire(s, t, UnsafeLocked) else None
      case ClearSafe(_) => if p == UnsafeLocked then Some(Move(s, t, UnsafeCleared).(safe := s.safe - {t})) else None
      case UnlockUnsafe(_) => if p == UnsafeCleared then Release(s, t, Running) else None
  }

  predicate Init(s: State) {
    s.pc == map[] && s.mutex == None && s.poolMutex == None && s.registered == {} && s.safe == {} &&
    s.used == 0 && s.size > 0
  }

  // ---------------------------------------------------------------- the invariant

  predicate HoldsMutex(p: Pc) {
    !p.Outside? && !p.Running? && !p.Blocked? && !p.Woken? && !p.SafeZone?
  }

  predicate IsRegistered(p: Pc) {
    match p
    case Outside | AddLocked | RmUnlinked => false
    case AllSafe(gone) => !gone
    case Collecting(gone) => !gone
    case Collected(gone) => !gone
    case Unlocking(gone) => !gone
    case _ => true
  }

  // Between the marking in ylmt_notify_safe and the clearing in ylmt_notify_unsafe.
  predicate IsSafe(p: Pc) {
    match p
    case SafeMarked | ThdSafe | WaitDecided | Blocked | Woken | SafeZone | UnsafeLocked => true
    case AllSafe(gone) => !gone
    case Collecting(gone) => !gone
    case Collected(gone) => !gone
    case Unlocking(gone) => !gone
    case _ => false
  }

  // The mutexes, the list and the bits agree with where each thread stands.
  ghost predicate Agrees(s: State, t: Tid) {
    if t in s.pc then
      && (s.mutex == Some(t) <==> HoldsMutex(s.pc[t]))
      && (s.poolMutex == Some(t) <==> s.pc[t].Collecting?)
      && (t in s.registered <==> IsRegistered(s.pc[t]))
      && (t in s.safe <==> IsSafe(s.pc[t]))
    else
      s.mutex != Some(t) && s.poolMutex != Some(t) && t !in s.registered && t !in s.safe
  }

  ghost predicate Consistent(s: State) {
    s.size > 0 && s.used <= s.size && forall t :: Agrees(s, t)
  }

  ghost predicate AllAreSafe(s: State) {
    s.registered <= s.safe
  }

  // In the all_safe listener everybody is safe; in thd_safe somebody is not.
  ghost predicate Informed(s: State, t: Tid)
    requires s.size > 0 && t in s.pc
  {
    && (s.pc[t].AllSafe? || s.pc[t].Collecting? || s.pc[t].Collected? ==> AllAreSafe(s))
    && (s.pc[t].ThdSafe? || s.pc[t].WaitDecided? ==> !AllAreSafe(s))
    && (s.pc[t].WaitDecided? ==> OverTrigger(s))
  }

  // The holder of _m is about to test whether all are safe, or to broadcast.
  predicate WillCheck(s: State) {
    s.mutex.Some? && s.mutex.value in s.pc &&
    var p := s.pc[s.mutex.value];
    p.SafeMarked? || p.RmUnlinked? || p.AllSafe? || p.Collecting? || p.Collected?
  }

  predicate WillBroadcast(s: State) {
    s.mutex.Some? && s.mutex.value in s.pc &&
    var p := s.pc[s.mutex.value];
    p.Collecting? || p.Collected?
  }

  predicate IsBlocked(s: State, t: Tid) {
    t in s.pc && s.pc[t] == Blocked
  }

  // A thread waits only while the pool is over the trigger, or the broadcast is on its
  // way; and only while somebody is unsafe, or the test that finds nobody is.
  ghost predicate WaitJustified(s: State)
    requires s.size > 0
  {
    (OverTrigger(s) || WillBroadcast(s)) && (!AllAreSafe(s) || WillCheck(s))
  }

  ghost predicate Inv(s: State) {
    && Consistent(s)
    && (forall t :: t in s.pc ==> Informed(s, t))
    && (forall t :: IsBlocked(s, t) ==> WaitJustified(s))
  }

  lemma InitInv(s: State)
    requires Init(s)
    ensures Inv(s)
  {}

  lemma SizeKept(s: State, a: Action)
    requires s.size > 0 && Step(s, a).Some?
    ensures Step(s, a).value.size == s.size
    ensures s.used <= s.size ==> Step(s, a).value.used <= s.size
  {
    hide RatioReaches;
  }

  // The actions by the function they belong to.
  predicate ByItself(a: Action) {
    a.Spawn? || a.Touch? || a.Alloc? || a.GcEnable?
  }

  predicate Membership(a: Action) {
    a.LockAdd? || a.Link? || a.UnlockAdd? || a.LockRm? || a.Unlink? || a.CheckRm?
  }

  predicate NotifySafe(a: Action) {
    a.LockSafe? || a.MarkSafe? || a.CheckSafe? || a.ReadUsage? || a.Wait? || a.WakeSpuriously? || a.Reacquire?
  }

  predicate Listener(a: Action) {
    a.ReadAll? || a.Reclaim? || a.FinishGc? || a.Broadcast? || a.Unlock?
  }

  predicate NotifyUnsafe(a: Action) {
    a.LockUnsafe? || a.ClearSafe? || a.UnlockUnsafe?
  }

  lemma ByItselfAgrees(s: State, a: Action)
    requires Consistent(s) && Step(s, a).Some? && ByItself(a)
    ensures Agrees(Step(s, a).value, a.t)
  {
    hide RatioReaches;
    assert Agrees(s, a.t);
  }

  lemma MembershipAgrees(s: State, a: Action)
    requires Consistent(s) && Step(s, a).Some? && Membership(a)
    ensures Agrees(Step(s, a).value, a.t)
  {
    hide RatioReaches;
    assert Agrees(s, a.t);
  }

  lemma NotifySafeAgrees(s: State, a: Action)
    requires Consistent(s) && Step(s, a).Some? && NotifySafe(a)
    ensures Agrees(Step(s, a).value, a.t)
  {
    hide RatioReaches;
    assert Agrees(s, a.t);
  }

  lemma ListenerAgrees(s: State, a: Action)
    requires Consistent(s) && Step(s, a).Some? && Listener(a)
    ensures Agrees(Step(s, a).value, a.t)
  {
    hide RatioReaches;
    assert Agrees(s, a.t);
  }

  lemma NotifyUnsafeAgrees(s: State, a: Action)
    requires Consistent(s) && Step(s, a).Some? && NotifyUnsafe(a)
    ensures Agrees(Step(s, a).value, a.t)
  {
    hide RatioReaches;
    assert Agrees(s, a.t);
  }

  // The thread that moves agrees with the mutexes, the list and the bits afterwards.
  lemma MoverAgrees(s: State, a: Action)
    requires Consistent(s) && Step(s, a).Some?
    ensures Agrees(Step(s, a).value, a.t)
  {
    hide Step, Agrees, Consistent;
    if ByItself(a) { ByItselfAgrees(s, a); }
    else if Membership(a) { MembershipAgrees(s, a); }
    else if NotifySafe(a) { NotifySafeAgrees(s, a); }
    else if Listener(a) { ListenerAgrees(s, a); }
    else { NotifyUnsafeAgrees(s, a); }
  }

  // What one thread does to another: it can only be woken.
  lemma OthersKeepStanding(s: State, a: Action, u: Tid)
    requires s.size > 0 && Step(s, a).Some? && u != a.t
    ensures u in s.pc <==> u in Step(s, a).value.pc
    ensures u in s.pc ==>
              var p := Step(s, a).value.pc[u];
              p == s.pc[u] || (a.Broadcast? && s.pc[u] == Blocked && p == Woken)
  {
    if a.Broadcast? {
      assert Step(s, a).value.pc == WakeAll(s.pc)[a.t := Unlocking(s.pc[a.t].gone)];
    } else {
      OthersStay(s, a, u);
    }
  }

  lemma OthersStay(s: State, a: Action, u: Tid)
    requires s.size > 0 && Step(s, a).Some? && u != a.t && !a.Broadcast?
    ensures u in s.pc <==> u in Step(s, a).value.pc
    ensures u in s.pc ==> Step(s, a).value.pc[u] == s.pc[u]
  {
    hide RatioReaches, WakeAll;
  }

  lemma OthersKeepLocks(s: State, a: Action, u: Tid)
    requires s.size > 0 && Step(s, a).Some? && u != a.t && Agrees(s, a.t)
    ensures Step(s, a).value.mutex == Some(u) <==> s.mutex == Some(u)
    ensures Step(s, a).value.poolMutex == Some(u) <==> s.poolMutex == Some(u)
  {
    hide RatioReaches;
  }

  lemma OthersKeepBits(s: State, a: Action, u: Tid)
    requires s.size > 0 && Step(s, a).Some? && u != a.t
    ensures u in Step(s, a).value.registered <==> u in s.registered
    ensures u in Step(s, a).value.safe <==> u in s.safe
  {
    hide RatioReaches;
  }

  lemma ConsistentKept(s: State, a: Action)
    requires Consistent(s) && Step(s, a).Some?
    ensures Consistent(Step(s, a).value)
  {
    hide Step;
    var s' := Step(s, a).value;
    SizeKept(s, a);
    forall u ensures Agrees(s', u) {
      if u == a.t {
        MoverAgrees(s, a);
      } else {
        assert Agrees(s, u) && Agrees(s, a.t);
        OthersKeepStanding(s, a, u);
        OthersKeepLocks(s, a, u);
        OthersKeepBits(s, a, u);
      }
    }
  }

  lemma OverTriggerGrows(s: State)
    requires s.size > 0 && OverTrigger(s)
    ensures OverTrigger(s.(used := s.used + 1))
  {
    Multiples(s.used * 100 / s.size, (s.used + 1) * 100 / s.size + 1, s.size);
  }

  // A thread without _m leaves the list and the bits alone, and can only fill the pool.
  lemma WithoutMutex(s: State, a: Action)
    requires s.size > 0 && Step(s, a).Some? && (a.t in s.pc ==> !HoldsMutex(s.pc[a.t]))
    ensures var s' := Step(s, a).value;
            s'.registered == s.registered && s'.safe == s.safe && s'.size == s.size &&
            (OverTrigger(s) ==> OverTrigger(s')) &&
            (s'.mutex == s.mutex || s.mutex == None) &&
            (forall u :: u in s.pc && u != a.t ==> u in s'.pc && s'.pc[u] == s.pc[u])
  {
    hide RatioReaches;
    if a.Alloc? && OverTrigger(s) { OverTriggerGrows(s); }
  }

  // The thread that moves knows what its last test told it...
  lemma MoverInformed(s: State, a: Action)
    requires Inv(s) && Step(s, a).Some? && a.t in s.pc
    ensures Step(s, a).value.size > 0 && a.t in Step(s, a).value.pc && Informed(Step(s, a).value, a.t)
  {
    hide RatioReaches, HoldsMutex, IsRegistered, IsSafe, Agrees;
    assert Informed(s, a.t);
  }

  // ... and nobody else can make it out of date.
  lemma OthersInformed(s: State, a: Action, t: Tid)
    requires Inv(s) && Step(s, a).Some? && t in Step(s, a).value.pc && t != a.t
    ensures Step(s, a).value.size > 0 && Informed(Step(s, a).value, t)
  {
    hide RatioReaches, IsRegistered, IsSafe, Step;
    OthersKeepStanding(s, a, t);
    SizeKept(s, a);
    assert Agrees(s, t) && Agrees(s, a.t) && Informed(s, t);
    if s.mutex == Some(t) { WithoutMutex(s, a); }
  }

  lemma NewcomerInformed(s: State, a: Action)
    requires Inv(s) && Step(s, a).Some? && a.t !in s.pc
    ensures Step(s, a).value.size > 0 && a.t in Step(s, a).value.pc && Informed(Step(s, a).value, a.t)
  {
    hide RatioReaches;
  }

  lemma InformedKept(s: State, a: Action, t: Tid)
    requires Inv(s) && Step(s, a).Some? && t in Step(s, a).value.pc
    ensures Step(s, a).value.size > 0 && Informed(Step(s, a).value, t)
  {
    hide RatioReaches, Agrees, Informed, Step;
    if t != a.t {
      OthersInformed(s, a, t);
    } else if a.t in s.pc {
      MoverInformed(s, a);
    } else {
      NewcomerInformed(s, a);
    }
  }

  lemma WaitStaysJustified(s: State, a: Action, t: Tid)
    requires Inv(s) && Step(s, a).Some? && IsBlocked(Step(s, a).value, t)
    ensures Step(s, a).value.size > 0 && WaitJustified(Step(s, a).value)
  {
    hide RatioReaches, IsRegistered, IsSafe, Step;
    assert Agrees(s, a.t);
    if a.t in s.pc && HoldsMutex(s.pc[a.t]) {
      HolderKeepsWaitJustified(s, a, t);
    } else {
      SizeKept(s, a);
      WithoutMutex(s, a);
      BlockedBefore(s, a, t);
      if s.mutex.Some? { assert Agrees(s, s.mutex.value); }
    }
  }

  lemma BlockedBefore(s: State, a: Action, t: Tid)
    requires s.size > 0 && Step(s, a).Some? && IsBlocked(Step(s, a).value, t)
    requires !a.Wait? || (a.t in s.pc ==> !HoldsMutex(s.pc[a.t]))
    ensures IsBlocked(s, t)
  {
    hide RatioReaches;
  }

  lemma HolderKeepsWaitJustified(s: State, a: Action, t: Tid)
    requires Inv(s) && Step(s, a).Some? && IsBlocked(Step(s, a).value, t)
    requires a.t in s.pc && HoldsMutex(s.pc[a.t])
    ensures Step(s, a).value.size > 0 && WaitJustified(Step(s, a).value)
  {
    hide RatioReaches, IsRegistered, IsSafe;
    assert Agrees(s, a.t) && Informed(s, a.t);
    if !a.Wait? { BlockedBefore(s, a, t); }
  }

  // Every step of every thread keeps the invariant.
  lemma StepKeepsInv(s: State, a: Action)
    requires Inv(s) && Step(s, a).Some?
    ensures Inv(Step(s, a).value)
  {
    hide RatioReaches, Step, Agrees, Informed, WaitJustified, IsBlocked;
    var s' := Step(s, a).value;
    ConsistentKept(s, a);
    forall t | t in s'.pc ensures Informed(s', t) { InformedKept(s, a, t); }
    forall t | IsBlocked(s', t) ensures WaitJustified(s') { WaitStaysJustified(s, a, t); }
  }

  // ---------------------------------------------------------------- whole runs

  ghost predicate IsRun(states: seq<State>, acts: seq<Action>) {
    && |states| == |acts| + 1 && Init(states[0])
    && forall i :: 0 <= i < |acts| ==> states[i].size > 0 && Step(states[i], acts[i]) == Some(states[i + 1])
  }

  lemma {:induction false} RunKeepsInv(states: seq<State>, acts: seq<Action>, i: nat)
    requires IsRun(states, acts) && i < |states|
    ensures Inv(states[i])
  {
    hide Inv, Step, Init;
    if i == 0 {
      InitInv(states[0]);
    } else {
      RunKeepsInv(states, acts, i - 1);
      assert Step(states[i - 1], acts[i - 1]) == Some(states[i - 1 + 1]);
      StepKeepsInv(states[i - 1], acts[i - 1]);
    }
  }

  // No lost wake-up: when _m is free, a thread that waits and has not been signalled
  // waits with good reason: the pool is over the trigger, and some registered thread is
  // still evaluating.
  lemma NoLostWakeup(states: seq<State>, acts: seq<Action>, i: nat, t: Tid) returns (u: Tid)
    requires IsRun(states, acts) && i < |states|
    requires IsBlocked(states[i], t) && states[i].mutex == None
    ensures states[i].size > 0 && OverTrigger(states[i])
    ensures u in states[i].registered && u !in states[i].safe && u in states[i].pc && states[i].pc[u] == Running
  {
    hide RatioReaches, Step, IsRun;
    RunKeepsInv(states, acts, i);
    var s := states[i];
    assert !AllAreSafe(s);
    u :| u in s.registered && u !in s.safe;
    assert Agrees(s, u);
  }

  // Stop the world: while some thread collects, every registered thread has its SAFE bit
  // set, no thread is evaluating, and no other thread can change the list, the bits or
  // the pool, or end the collection.
  lemma WorldStopped(states: seq<State>, acts: seq<Action>, i: nat, t: Tid)
    requires IsRun(states, acts) && i < |states| && t in states[i].pc && states[i].pc[t].Collecting?
    ensures var s := states[i]; forall u :: u in s.registered ==> u in s.safe && u in s.pc && IsSafe(s.pc[u])
    ensures var s := states[i]; forall u :: u in s.pc ==> s.pc[u] != Running
    ensures var s := states[i];
            s.size > 0 &&
            forall a: Action :: a.t != t && Step(s, a).Some? ==>
              var s' := Step(s, a).value;
              s'.registered == s.registered && s'.safe == s.safe && s'.used == s.used && s'.gcEnabled == s.gcEnabled &&
              t in s'.pc && s'.pc[t] == s.pc[t] && !a.Touch?
  {
    hide IsRun, RatioReaches, Step, OverTrigger;
    RunKeepsInv(states, acts, i);
    var s := states[i];
    assert Agrees(s, t) && Informed(s, t);
    forall u | u in s.pc ensures s.pc[u] != Running { assert Agrees(s, u); }
    forall u | u in s.registered ensures u in s.safe && u in s.pc && IsSafe(s.pc[u]) { assert Agrees(s, u); }
    forall a: Action | a.t != t && Step(s, a).Some?
      ensures var s' := Step(s, a).value;
              s'.registered == s.registered && s'.safe == s.safe && s'.used == s.used && s'.gcEnabled == s.gcEnabled &&
              t in s'.pc && s'.pc[t] == s.pc[t] && !a.Touch?
    {
      StepWhileCollecting(s, a, t);
    }
  }

  lemma StepWhileCollecting(s: State, a: Action, t: Tid)
    requires Inv(s) && t in s.pc && s.pc[t].Collecting? && a.t != t && Step(s, a).Some?
    requires forall u :: u in s.pc ==> s.pc[u] != Running
    ensures var s' := Step(s, a).value;
            s'.registered == s.registered && s'.safe == s.safe && s'.used == s.used && s'.gcEnabled == s.gcEnabled &&
            t in s'.pc && s'.pc[t] == s.pc[t] && !a.Touch?
  {
    hide RatioReaches;
    assert Agrees(s, t) && Agrees(s, a.t);
  }

  // Never all wait: while some thread waits unsignalled, another one, which does not
  // wait, can take a step of its own.
  lemma SomebodyMoves(states: seq<State>, acts: seq<Action>, i: nat, t: Tid) returns (a: Action)
    requires IsRun(states, acts) && i < |states| && IsBlocked(states[i], t)
    ensures states[i].size > 0 && Step(states[i], a).Some? && a.t != t && !IsBlocked(states[i], a.t)
    ensures !ByItself(a)
  {
    hide IsRun, RatioReaches;
    RunKeepsInv(states, acts, i);
    var s := states[i];
    if s.mutex == None {
      var u := NoLostWakeup(states, acts, i, t);
      a := LockSafe(u);
    } else {
      assert Agrees(s, s.mutex.value) && Agrees(s, t);
      a := HolderStep(s, s.mutex.value);
    }
  }

  // Whoever holds _m is never stuck.
  lemma HolderStep(s: State, h: Tid) returns (a: Action)
    requires Consistent(s) && s.mutex == Some(h)
    ensures Step(s, a).Some? && a.t == h && !ByItself(a)
  {
    hide RatioReaches;
    assert Agrees(s, h);
    if s.poolMutex.Some? { assert Agrees(s, s.poolMutex.value); }
    a := match s.pc[h]
         case AddLocked => Link(h)
         case AddLinked => UnlockAdd(h)
         case RmLocked => Unlink(h)
         case RmUnlinked => CheckRm(h)
         case SafeLocked => MarkSafe(h)
         case SafeMarked => CheckSafe(h)
         case ThdSafe => ReadUsage(h)
         case WaitDecided => Wait(h)
         case AllSafe(_) => ReadAll(h)
         case Collecting(_) => FinishGc(h)
         case Collected(_) => Broadcast(h)
         case Unlocking(_) => Unlock(h)
         case UnsafeLocked => ClearSafe(h)
         case _ => UnlockUnsafe(h);
  }

  predicate OnTheWay(s: State, h: Tid) {
    s.mutex == Some(h) && h in s.pc && (s.pc[h].Collecting? || s.pc[h].Collected?)
  }

  // The last thread to become safe, or to leave, finds the pool over the trigger when
  // anybody waits...
  lemma FindsOverTrigger(states: seq<State>, acts: seq<Action>, i: nat, t: Tid)
    requires IsRun(states, acts) && i < |acts| && IsBlocked(states[i], t) && acts[i].ReadAll?
    ensures OnTheWay(states[i + 1], acts[i].t)
  {
    hide RatioReaches;
    RunKeepsInv(states, acts, i);
    assert Agrees(states[i], acts[i].t) && WaitJustified(states[i]);
    assert Step(states[i], acts[i]) == Some(states[i + 1]);
  }

  // ... and once it is on the way, only its own broadcast takes it off.
  lemma StaysOnTheWay(s: State, a: Action, h: Tid)
    requires Inv(s) && Step(s, a).Some? && OnTheWay(s, h)
    ensures a == Broadcast(h) || OnTheWay(Step(s, a).value, h)
  {
    hide RatioReaches;
    assert Agrees(s, a.t) && Agrees(s, h);
  }

  // From the all_safe listener there is no way past the broadcast: in every later state
  // of the run, that thread has broadcast in between, or it still holds _m and is on its
  // way there.
  lemma {:induction false} LastOneBroadcasts(states: seq<State>, acts: seq<Action>, i: nat, j: nat, t: Tid)
    returns (k: nat)
    requires IsRun(states, acts) && i < j < |states| && IsBlocked(states[i], t) && acts[i].ReadAll?
    ensures OnTheWay(states[j], acts[i].t) || (i < k < j && acts[k] == Broadcast(acts[i].t))
    decreases j
  {
    hide RatioReaches, Step, Inv;
    k := i;
    if j == i + 1 {
      FindsOverTrigger(states, acts, i, t);
    } else {
      k := LastOneBroadcasts(states, acts, i, j - 1, t);
      if OnTheWay(states[j - 1], acts[i].t) {
        RunKeepsInv(states, acts, j - 1);
        assert Step(states[j - 1], acts[j - 1]) == Some(states[j - 1 + 1]);
        StaysOnTheWay(states[j - 1], acts[j - 1], acts[i].t);
        k := j - 1;
      }
    }
  }

  // The broadcast leaves nobody waiting.
  lemma BroadcastWakesAll(s: State, a: Action, u: Tid)
    requires s.size > 0 && Step(s, a).Some? && a.Broadcast?
    ensures !IsBlocked(Step(s, a).value, u)
  {
    assert Step(s, a).value.pc == WakeAll(s.pc)[a.t := Unlocking(s.pc[a.t].gone)];
  }

  // A thread that waits at i, in a run that later finds all threads safe and _m free, is
  // woken in between.
  lemma {:induction false} WokenBeforeAllSafe(states: seq<State>, acts: seq<Action>, i: nat, j: nat, t: Tid)
    returns (k: nat)
    requires IsRun(states, acts) && i < j < |states| && IsBlocked(states[i], t)
    requires AllAreSafe(states[j]) && states[j].mutex == None
    ensures i <= k < j && (acts[k] == WakeSpuriously(t) || acts[k].Broadcast?)
    decreases j - i
  {
    hide RatioReaches;
    if IsBlocked(states[i + 1], t) {
      if i + 1 == j {
        var u := NoLostWakeup(states, acts, j, t);
      } else {
        k := WokenBeforeAllSafe(states, acts, i + 1, j, t);
      }
    } else {
      k := i;
      OnlyWokenUp(states[i], acts[i], t);
    }
  }

  lemma OnlyWokenUp(s: State, a: Action, t: Tid)
    requires s.size > 0 && Step(s, a).Some? && IsBlocked(s, t) && !IsBlocked(Step(s, a).value, t)
    ensures a == WakeSpuriously(t) || a.Broadcast?
  {
    hide RatioReaches;
  }

  // ---------------------------------------------------------------- when to collect

  lemma WholePercent(s: State)
    requires s.size > 0
    ensures OverTrigger(s) <==> s.used * 100 >= s.trigger * s.size
  {
    Quotient(s.used * 100, s.size, s.trigger);
  }

  // The all_safe listener: from the trigger on it collects, or, with the collector
  // disabled, goes on to the broadcast without collecting; below the trigger it does
  // neither.
  lemma ListenerDecides(s: State, t: Tid)
    requires s.size > 0 && t in s.pc && s.pc[t].AllSafe? && s.poolMutex == None
    ensures Step(s, ReadAll(t)).Some?
    ensures var u, gone := Step(s, ReadAll(t)).value, s.pc[t].gone;
            if s.used * 100 >= s.trigger * s.size then
              if s.gcEnabled then u == s.(pc := s.pc[t := Collecting(gone)], poolMutex := Some(t))
              else u == s.(pc := s.pc[t := Collected(gone)])
            else u == s.(pc := s.pc[t := Unlocking(gone)])
  {
    hide OverTrigger;
    WholePercent(s);
  }

  // The test whether all are safe, by a thread that has become safe or has left the list.
  lemma TestDecides(s: State, t: Tid)
    requires s.size > 0 && t in s.pc
    ensures s.pc[t].SafeMarked? ==>
              Step(s, CheckSafe(t)) == Some(s.(pc := s.pc[t :=
                if forall u :: u in s.registered ==> u in s.safe then AllSafe(false) else ThdSafe]))
    ensures s.pc[t].RmUnlinked? ==>
              Step(s, CheckRm(t)) == Some(s.(pc := s.pc[t :=
                if forall u :: u in s.registered ==> u in s.safe then AllSafe(true) else Unlocking(true)]))
  {
    hide OverTrigger;
  }

  // The thd_safe listener waits from the trigger on.
  lemma WaiterDecides(s: State, t: Tid)
    requires s.size > 0 && t in s.pc && s.pc[t].ThdSafe? && s.poolMutex == None
    ensures Step(s, ReadUsage(t)).Some?
    ensures Step(s, ReadUsage(t)).value ==
            s.(pc := s.pc[t := if s.used * 100 >= s.trigger * s.size then WaitDecided else Unlocking(false)])
  {
    hide OverTrigger;
    WholePercent(s);
  }

  // A collection goes back to the decision of the same thread, in a state in which all
  // threads were safe, the pool was filled to the trigger and the collector was enabled;
  // it still is.
  lemma {:induction false} CollectionDecided(states: seq<State>, acts: seq<Action>, i: nat, t: Tid) returns (j: nat)
    requires IsRun(states, acts) && i < |states| && t in states[i].pc && states[i].pc[t].Collecting?
    ensures states[i].gcEnabled
    ensures j < i && acts[j] == ReadAll(t) && states[j].gcEnabled
    ensures states[j].used * 100 >= states[j].trigger * states[j].size && states[j].registered <= states[j].safe
    decreases i
  {
    hide Step, Inv, OverTrigger;
    assert i > 0;
    RunKeepsInv(states, acts, i - 1);
    assert Step(states[i - 1], acts[i - 1]) == Some(states[i - 1 + 1]);
    CollectingBefore(states[i - 1], acts[i - 1], t);
    if t in states[i - 1].pc && states[i - 1].pc[t].Collecting? {
      j := CollectionDecided(states, acts, i - 1, t);
    } else {
      j := i - 1;
      WholePercent(states[j]);
    }
  }

  lemma CollectingBefore(s: State, a: Action, t: Tid)
    requires Inv(s) && Step(s, a).Some? && t in Step(s, a).value.pc && Step(s, a).value.pc[t].Collecting?
    ensures t in s.pc
    ensures s.pc[t].Collecting? ==> Step(s, a).value.gcEnabled == s.gcEnabled
    ensures !s.pc[t].Collecting? ==>
              a == ReadAll(t) && s.gcEnabled && Step(s, a).value.gcEnabled && OverTrigger(s) && s.registered <= s.safe
  {
    hide OverTrigger, IsRegistered, IsSafe, HoldsMutex;
    assert Agrees(s, a.t) && Agrees(s, t);
    OthersKeep(s, a, t);
    if t in s.pc { assert Informed(s, t); }
  }

  lemma OthersKeep(s: State, a: Action, t: Tid)
    requires s.size > 0 && Step(s, a).Some?
    ensures t != a.t && t in Step(s, a).value.pc && Step(s, a).value.pc[t].Collecting? ==>
              t in s.pc && s.pc[t].Collecting?
  {
    hide Step;
    if t != a.t { OthersKeepStanding(s, a, t); }
  }

  // While the collector is disabled nothing can be reclaimed.
  lemma DisabledReclaimsNothing(states: seq<State>, acts: seq<Action>, i: nat, t: Tid, n: nat)
    requires IsRun(states, acts) && i < |states| && !states[i].gcEnabled
    ensures states[i].size > 0 && Step(states[i], Reclaim(t, n)) == None
  {
    hide IsRun, OverTrigger;
    RunKeepsInv(states, acts, i);
    if t in states[i].pc && states[i].pc[t].Collecting? {
      var j := CollectionDecided(states, acts, i, t);
    }
  }
}

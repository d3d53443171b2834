/** Slots, wakeups, counters and the mutex of the parked-request protocol.
    Nothing here depends on who owns a sender. */
module ParkFlow {
  import opened Wrappers
  import opened ParkMachine
  import opened Counting

  // ----- the mutex ----------------------------------------------------------

  predicate TaskLocks(pc: TaskPc) { pc.PushLoad? || pc.PushPrune? }

  predicate ThreadLocks(pc: ThreadPc) {
    pc.Pruning? || pc.HeldNotify? || pc.Held? || pc.TakePop? || pc.DrainHeld?
  }

  ghost predicate LockOk(s: State) {
    && (forall t :: t in s.tasks ==> (TaskLocks(s.tasks[t].pc) <==> s.lock == Some(ByTask(t))))
    && (forall th :: ThreadLocks(Pc(s, th)) <==> s.lock == Some(ByThread(th)))
    && (s.lock.Some? && s.lock.value.ByTask? ==> s.lock.value.t in s.tasks)
  }

  // ----- slots and wakeups --------------------------------------------------

  /** A push that pruned something has room, so it takes the path that notifies. */
  ghost predicate RoomOk(s: State) {
    && 1 <= s.cap
    && |s.q| <= s.cap
    && (forall t :: t in s.tasks && s.tasks[t].pc.PushPrune? && s.tasks[t].pc.freed ==> |s.q| < s.cap)
  }

  /** A refusal saw the server down, or `cap` entries that survived pruning. */
  predicate RefusalFounded(s: State, pc: TaskPc) {
    match pc
    case PushFull(n) => n == s.cap
    case PushAsleep(n) => n == s.cap
    case Refused(why) => why == SawFull(s.cap) || (why.SawDown? && s.down)
    case _ => true
  }

  ghost predicate RefusalOk(s: State) {
    forall t :: t in s.tasks ==> RefusalFounded(s, s.tasks[t].pc)
  }

  predicate TaskOwes(k: Task) {
    k.pc == PushSignal(true) || k.pc == PushPushed(true) || (k.pc.PushPrune? && k.pc.freed)
  }

  predicate ThreadOwes(pc: ThreadPc) {
    || (pc.Pruning? && pc.freed) || pc.HeldNotify? || pc == TakePop(true)
    || (pc.TakeNotify? && pc.owes) || pc.Draining?
  }

  /** Someone that freed slots has not called notify_waiters yet. */
  ghost predicate Owed(s: State) {
    || (exists t :: t in s.tasks && TaskOwes(s.tasks[t]))
    || (exists th :: th in s.threads && ThreadOwes(s.threads[th]))
  }

  /** A push that found the queue full and has not been notified since. */
  predicate Unwoken(k: Task) {
    (k.pc.PushFull? || k.pc.PushAsleep?) && !k.notified
  }

  ghost predicate WakeOk(s: State) {
    (exists t :: t in s.tasks && Unwoken(s.tasks[t])) ==> |s.q| == s.cap || Owed(s)
  }

  // ----- counters -----------------------------------------------------------

  predicate HoldsPermit(k: Task) {
    match k.pc
    case WantPermit(granted) => granted
    case Arrived => false
    case RefusedLast => false
    case Waiting => false
    case Ended(_) => false
    case _ => true
  }

  /** Counted in in_flight by a thread: no handle yet, or the reply is out of it. */
  predicate Counted(pc: ThreadPc) {
    pc.TakeBuild? || pc.RespCount? || pc.FreeSend? || pc.FreeCount?
  }

  predicate Unreplied(b: bool) { b }

  ghost predicate PermitsOk(s: State) {
    s.permits + Count(s.tasks, HoldsPermit) == s.cap
  }

  ghost predicate FlightOk(s: State) {
    s.inFlight == Count(s.handles, Unreplied) + Count(s.threads, Counted)
  }

  // ----- stopping -----------------------------------------------------------

  predicate Stopping(pc: ThreadPc) {
    pc.WantDrain? || pc.DrainHeld? || pc.Draining?
  }

  ghost predicate StopOk(s: State) {
    forall th :: Stopping(Pc(s, th)) ==> s.down
  }

  ghost predicate Inv(s: State) {
    LockOk(s) && RoomOk(s) && RefusalOk(s) && WakeOk(s) && PermitsOk(s) && FlightOk(s) && StopOk(s)
  }

  lemma InitFlow(queue: nat)
    ensures Inv(Init(queue))
  {
    var s := Init(queue);
    assert Where(s.tasks, HoldsPermit) == {};
    assert Where(s.handles, Unreplied) == {};
    assert Where(s.threads, Counted) == {};
  }

  // ----- what one step may change -------------------------------------------

  /** Only task t moved; notify_waiters may have marked the others. */
  ghost predicate OnlyTask(s: State, s': State, t: Id) {
    && s'.threads == s.threads && s'.cap == s.cap && s'.down == s.down
    && s'.handles == s.handles && s'.inFlight == s.inFlight
    && s'.tasks.Keys == s.tasks.Keys + {t}
    && (forall x :: x in s.tasks && x != t ==> s'.tasks[x].pc == s.tasks[x].pc)
  }

  ghost predicate OnlyThread(s: State, s': State, th: Tid) {
    && s'.cap == s.cap && (s.down ==> s'.down) && s'.permits == s.permits
    && (s'.threads == s.threads || s'.threads == s.threads[th := Pc(s', th)])
    && s'.tasks.Keys == s.tasks.Keys
    && (forall x :: x in s.tasks ==> s'.tasks[x].pc == s.tasks[x].pc)
  }

  /** The mutex around one step of the actor `me`. */
  predicate LockChange(was: bool, now: bool, lock: Option<Holder>, lock': Option<Holder>, me: Holder) {
    || (was == now && lock' == lock)
    || (!was && now && lock.None? && lock' == Some(me))
    || (was && !now && lock' == None)
  }

  lemma LockTask(s: State, s': State, t: Id)
    requires LockOk(s) && OnlyTask(s, s', t)
    requires LockChange(t in s.tasks && TaskLocks(s.tasks[t].pc), TaskLocks(s'.tasks[t].pc), s.lock, s'.lock, ByTask(t))
    ensures LockOk(s')
  {
  }

  lemma LockThread(s: State, s': State, th: Tid)
    requires LockOk(s) && OnlyThread(s, s', th)
    requires LockChange(ThreadLocks(Pc(s, th)), ThreadLocks(Pc(s', th)), s.lock, s'.lock, ByThread(th))
    ensures LockOk(s')
  {
  }

  lemma RoomTask(s: State, s': State, t: Id)
    requires LockOk(s) && RoomOk(s) && OnlyTask(s, s', t) && |s'.q| <= s.cap
    requires |s'.q| <= |s.q| || (t in s.tasks && TaskLocks(s.tasks[t].pc))
    requires s'.tasks[t].pc.PushPrune? && s'.tasks[t].pc.freed ==> |s'.q| < s.cap
    ensures RoomOk(s')
  {
    forall x | x in s'.tasks && x != t && s'.tasks[x].pc.PushPrune? && s'.tasks[x].pc.freed
      ensures |s'.q| < s'.cap
    {
      assert s.lock == Some(ByTask(x));
    }
  }

  lemma RoomThread(s: State, s': State, th: Tid)
    requires RoomOk(s) && OnlyThread(s, s', th) && |s'.q| <= |s.q|
    ensures RoomOk(s')
  {
  }

  lemma RefusalTask(s: State, s': State, t: Id)
    requires RefusalOk(s) && OnlyTask(s, s', t) && RefusalFounded(s', s'.tasks[t].pc)
    ensures RefusalOk(s')
  {
    forall x | x in s'.tasks && x != t ensures RefusalFounded(s', s'.tasks[x].pc) {
      assert RefusalFounded(s, s.tasks[x].pc);
    }
  }

  lemma RefusalThread(s: State, s': State, th: Tid)
    requires RefusalOk(s) && OnlyThread(s, s', th)
    ensures RefusalOk(s')
  {
    forall x | x in s'.tasks ensures RefusalFounded(s', s'.tasks[x].pc) {
      assert RefusalFounded(s, s.tasks[x].pc);
    }
  }

  lemma NotifiedWakes(s: State)
    ensures WakeOk(NotifyWaiters(s))
  {
  }

  /** No new sleeper on a queue with room, and no slot freed without a debt. */
  lemma WakeKept(s: State, s': State)
    requires WakeOk(s) && s'.cap == s.cap && |s'.q| <= s.cap
    requires |s'.q| == s.cap || (forall x :: x in s'.tasks && Unwoken(s'.tasks[x]) ==> x in s.tasks && Unwoken(s.tasks[x]))
    requires |s'.q| >= |s.q| || Owed(s')
    requires Owed(s) ==> Owed(s')
    ensures WakeOk(s')
  {
  }

  lemma OwedTask(s: State, s': State, t: Id)
    requires Owed(s) && OnlyTask(s, s', t)
    requires t in s.tasks && TaskOwes(s.tasks[t]) ==> TaskOwes(s'.tasks[t])
    ensures Owed(s')
  {
    if x :| x in s.tasks && TaskOwes(s.tasks[x]) {
      assert TaskOwes(s'.tasks[x]);
    }
  }

  lemma OwedThread(s: State, s': State, th: Tid)
    requires Owed(s) && OnlyThread(s, s', th)
    requires ThreadOwes(Pc(s, th)) ==> ThreadOwes(Pc(s', th))
    ensures Owed(s')
  {
    if x :| x in s.tasks && TaskOwes(s.tasks[x]) {
      assert TaskOwes(s'.tasks[x]);
    } else {
      var g :| g in s.threads && ThreadOwes(s.threads[g]);
      assert g in s'.threads && ThreadOwes(s'.threads[g]);
    }
  }

  lemma PermitsTask(s: State, s': State, t: Id)
    requires PermitsOk(s) && OnlyTask(s, s', t)
    requires s'.permits + One(HoldsPermit(s'.tasks[t])) == s.permits + One(t in s.tasks && HoldsPermit(s.tasks[t]))
    ensures PermitsOk(s')
  {
    var m := s.tasks[t := s'.tasks[t]];
    CountUpdate(s.tasks, t, s'.tasks[t], HoldsPermit);
    CountSame(m, s'.tasks, HoldsPermit);
  }

  lemma PermitsThread(s: State, s': State, th: Tid)
    requires PermitsOk(s) && OnlyThread(s, s', th)
    ensures PermitsOk(s')
  {
    CountSame(s.tasks, s'.tasks, HoldsPermit);
  }

  lemma FlightThread(s: State, s': State, th: Tid)
    requires FlightOk(s) && OnlyThread(s, s', th) && !Counted(Idle)
    requires s'.inFlight - Count(s'.handles, Unreplied) - One(Counted(Pc(s', th)))
          == s.inFlight - Count(s.handles, Unreplied) - One(Counted(Pc(s, th)))
    ensures FlightOk(s')
  {
    CountUpdate(s.threads, th, Pc(s', th), Counted);
  }
}

/** Nobody is stuck: whoever is not done can step, or waits for the mutex of
    somebody who can; and an answer that was sent can be received. */
module ParkProgress {
  import opened Wrappers
  import opened ParkMachine
  import O = ParkOwnership
  import F = ParkFlow
  import T = ParkTheorems

  function Actor(step: Step): Holder {
    match step
    case TaskMoves(t, _) => ByTask(t)
    case TaskActs(t, _) => ByTask(t)
    case ThreadMoves(th, _) => ByThread(th)
    case ThreadActs(th, _) => ByThread(th)
  }

  ghost predicate CanStep(s: State, h: Holder) {
    exists s', step :: Actor(step) == h && NextStep(s, s', step)
  }

  lemma TaskMoveCan(s: State, t: Id, m: TaskMove)
    requires TaskMoveEffect(s, t, m).Goes?
    ensures CanStep(s, ByTask(t))
  {
    var e := TaskMoveEffect(s, t, m);
    var s1 := MoveTask(s, t, e.pc).(lock := e.lock, permits := e.permits, cv := TaskMoveCv(s, t, m));
    assert NextStep(s, if e.notify then NotifyWaiters(s1) else s1, TaskMoves(t, m));
  }

  lemma TaskActCan(s: State, s': State, t: Id, a: TaskAct)
    requires TaskActStep(s, s', t, a)
    ensures CanStep(s, ByTask(t))
  {
    assert NextStep(s, s', TaskActs(t, a));
  }

  lemma ThreadMoveCan(s: State, th: Tid, n: ThreadMove)
    requires ThreadMoveEffect(s, th, n).Moves?
    ensures CanStep(s, ByThread(th))
  {
    var e := ThreadMoveEffect(s, th, n);
    var s1 := MoveThread(s, th, e.pc).(lock := e.lock, down := e.down, inFlight := e.inFlight,
                                       cv := ThreadMoveCv(s, th, n), told := ThreadMoveTold(s, th, n));
    assert NextStep(s, if e.notify then NotifyWaiters(s1) else s1, ThreadMoves(th, n));
  }

  lemma ThreadActCan(s: State, s': State, th: Tid, b: ThreadAct)
    requires ThreadActStep(s, s', th, b)
    ensures CanStep(s, ByThread(th))
  {
    assert NextStep(s, s', ThreadActs(th, b));
  }

  /** A push under the lock, at its check of `down` or in its pruning loop. */
  lemma LockedTaskCan(s: State, t: Id)
    requires t in s.tasks && F.TaskLocks(s.tasks[t].pc)
    ensures CanStep(s, ByTask(t))
  {
    var pc := s.tasks[t].pc;
    if pc.PushLoad? {
      TaskMoveCan(s, t, ReadDown);
    } else if pc.k < |s.q| {
      if RxGone(s, s.q[pc.k]) {
        TaskActCan(s, MoveTask(PruneAt(s, pc.k), t, PushPrune(pc.k, true)), t, DropOne);
      } else {
        TaskMoveCan(s, t, KeepOne);
      }
    } else if |s.q| < s.cap {
      TaskActCan(s, MoveTask(s, t, PushSignal(pc.freed)).(lock := None, q := s.q + [t], own := s.own[t := AtQueue]), t, Park);
    } else {
      TaskMoveCan(s, t, FindFull);
    }
  }

  lemma LockedThreadCan(s: State, th: Tid)
    requires F.ThreadLocks(Pc(s, th))
    ensures CanStep(s, ByThread(th))
  {
    match Pc(s, th)
    case Pruning(op, k, freed) =>
      if k >= |s.q| {
        ThreadMoveCan(s, th, PruneEndOp);
      } else if RxGone(s, s.q[k]) {
        ThreadActCan(s, MoveThread(PruneAt(s, k), th, Pruning(op, k, true)), th, DropOneOp);
      } else {
        ThreadMoveCan(s, th, KeepOneOp);
      }
    case HeldNotify(_) => ThreadMoveCan(s, th, NotifyHeld);
    case Held(_) => ThreadMoveCan(s, th, Unlock);
    case TakePop(_) =>
      if s.q == [] {
        ThreadMoveCan(s, th, PopNone);
      } else {
        var s' := MoveThread(s, th, TakeNotify(Some(s.q[0]), true)).(lock := None, q := s.q[1..], own := s.own[s.q[0] := AtThread(th)]);
        ThreadActCan(s, s', th, Pop);
      }
    case DrainHeld =>
      var s' := MoveThread(s, th, Draining(s.q)).(lock := None, q := [],
                  own := OwnAll(s.own, s.q, AtThread(th)), chans := MarkDrained(s.chans, s.q));
      ThreadActCan(s, s', th, DrainAll);
  }

  /** Whoever holds the mutex can go on. */
  lemma HolderCan(s: State)
    requires F.LockOk(s) && s.lock.Some?
    ensures CanStep(s, s.lock.value)
  {
    match s.lock.value
    case ByTask(t) => LockedTaskCan(s, t);
    case ByThread(th) => LockedThreadCan(s, th);
  }

  /** A waiter that was answered can take its answer, and that is what it gets. */
  lemma AnsweredCan(s: State, t: Id)
    requires O.Inv(s) && t in s.tasks && s.tasks[t].pc.Waiting? && t in s.chans && s.chans[t].sent.Some?
    ensures exists s' :: NextStep(s, s', TaskActs(t, Receive)) && t in s'.tasks && s'.tasks[t].pc == Ended(Got(s.chans[t].sent.value))
  {
    assert O.At(s, t);
    var s' := MoveTask(DropRx(s, t), t, Ended(Got(s.chans[t].inbox.value)));
    assert NextStep(s, s', TaskActs(t, Receive));
  }

  lemma TaskCan(s: State, t: Id)
    requires t in s.tasks && !s.tasks[t].pc.Ended? && !s.tasks[t].pc.Waiting?
    ensures CanStep(s, ByTask(t)) || (s.tasks[t].pc.PushLock? && s.lock.Some?)
  {
    match s.tasks[t].pc
    case Arrived => TaskMoveCan(s, t, CheckDown);
    case WantPermit(_) => TaskMoveCan(s, t, PermitLate);
    case Reading => TaskMoveCan(s, t, BodyLate);
    case PushEnable => TaskMoveCan(s, t, Enable);
    case PushLock => if s.lock.None? { TaskMoveCan(s, t, Lock); }
    case PushLoad => LockedTaskCan(s, t);
    case PushPrune(_, _) => LockedTaskCan(s, t);
    case PushSignal(_) =>
      if th :| th in s.cv && s.cv[th].Unsignalled? {
        TaskMoveCan(s, t, NotifyOne(Some(th)));
      } else {
        TaskMoveCan(s, t, NotifyOne(None));
      }
    case PushPushed(_) => TaskMoveCan(s, t, NotifyPushed);
    case PushFull(_) => TaskMoveCan(s, t, Sleep);
    case PushAsleep(_) => TaskMoveCan(s, t, Wake);
    case Accepted => TaskMoveCan(s, t, GivePermit);
    case Refused(_) => TaskMoveCan(s, t, GivePermit);
    case RefusedLast => TaskActCan(s, MoveTask(DropRx(DropSender(s, t), t), t, Ended(Busy)), t, ReturnRefused);
  }

  predicate WantsLock(pc: ThreadPc) { pc.WantLock? || pc.CvAsleep? || pc.WantDrain? }

  lemma ThreadCan(s: State, th: Tid)
    ensures CanStep(s, ByThread(th)) || (WantsLock(Pc(s, th)) && s.lock.Some?)
  {
    match Pc(s, th)
    case Idle => ThreadMoveCan(s, th, BeginPending);
    case LoadDown(_) => ThreadMoveCan(s, th, ReadDownOp);
    case WantLock(_) => if s.lock.None? { ThreadMoveCan(s, th, TakeLock); }
    case CvAsleep => if s.lock.None? { ThreadMoveCan(s, th, CvWake); }
    case WantDrain => if s.lock.None? { ThreadMoveCan(s, th, LockDrain); }
    case TakeNotify(_, _) => ThreadMoveCan(s, th, NotifyTaken);
    case TakeCount(_) => ThreadMoveCan(s, th, CountTaken);
    case TakeBuild(id) =>
      ThreadActCan(s, MoveThread(s, th, Idle).(handles := s.handles[id := true], own := s.own[id := AtHandle]), th, Build);
    case Draining(list) =>
      if list == [] {
        ThreadMoveCan(s, th, DrainDone);
      } else {
        ThreadActCan(s, MoveThread(Send(s, list[0], Unavailable), th, Draining(list[1..])), th, DrainSend);
      }
    case RespCount(_, _) => ThreadMoveCan(s, th, CountReply);
    case RespSend(id, r) => ThreadActCan(s, MoveThread(Send(s, id, r), th, Idle), th, SendReply);
    case FreeSend(id) => ThreadActCan(s, MoveThread(Send(s, id, Unanswered), th, FreeCount), th, SendDropped);
    case FreeCount => ThreadMoveCan(s, th, CountDropped);
    case _ => LockedThreadCan(s, th);
  }

  /** No deadlock: in every reachable state every thread, and every task that has
      not ended and does not wait for its answer, can step, or wants the mutex
      and its holder can step. */
  lemma NobodyStuck(queue: nat, states: seq<State>, steps: seq<Step>, i: nat, h: Holder)
    requires T.RunFrom(queue, states, steps) && i < |states|
    requires h.ByTask? ==> h.t in states[i].tasks && !states[i].tasks[h.t].pc.Ended? && !states[i].tasks[h.t].pc.Waiting?
    ensures CanStep(states[i], h) || (states[i].lock.Some? && CanStep(states[i], states[i].lock.value))
  {
    var s := states[i];
    T.Reached(queue, states, steps, i);
    if s.lock.Some? { HolderCan(s); }
    match h
    case ByTask(t) => TaskCan(s, t);
    case ByThread(th) => ThreadCan(s, th);
  }

  /** A task that waits for its answer can take it once it was sent; until then
      its sender is in the queue, with a thread, or in a handle. */
  lemma AnsweredIsServed(queue: nat, states: seq<State>, steps: seq<Step>, i: nat, t: Id)
    requires T.RunFrom(queue, states, steps) && i < |states|
    requires t in states[i].tasks && states[i].tasks[t].pc.Waiting?
    ensures t in states[i].chans
    ensures match states[i].chans[t].sent
            case Some(r) => exists s' :: NextStep(states[i], s', TaskActs(t, Receive)) && t in s'.tasks && s'.tasks[t].pc == Ended(Got(r))
            case None => exists p :: O.Has(states[i], p, t) && p != AtPusher
  {
    T.Reached(queue, states, steps, i);
    T.WaiterIsServed(queue, states, steps, i, t);
    assert O.At(states[i], t);
    if states[i].chans[t].sent.Some? { AnsweredCan(states[i], t); }
  }
}

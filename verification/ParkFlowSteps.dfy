/** Every step of the protocol keeps the flow invariant. */
module ParkFlowSteps {
  import opened ParkMachine
  import opened ParkFlow
  import opened Counting

  // ----- moves of a task ----------------------------------------------------

  lemma TaskMoveLocal(s: State, t: Id, m: TaskMove)
    requires RoomOk(s) && RefusalOk(s) && TaskMoveEffect(s, t, m).Goes?
    ensures var e := TaskMoveEffect(s, t, m);
            var here := t in s.tasks;
      && LockChange(here && TaskLocks(s.tasks[t].pc), TaskLocks(e.pc), s.lock, e.lock, ByTask(t))
      && RefusalFounded(s, e.pc)
      && (e.pc.PushPrune? && e.pc.freed ==> |s.q| < s.cap)
      && (e.notify || (here && TaskOwes(s.tasks[t]) ==> TaskOwes(Task(e.pc, false))))
      && (e.pc.PushFull? ==> |s.q| == s.cap)
      && (e.pc.PushAsleep? ==> here && s.tasks[t].pc.PushFull?)
      && e.permits + One(HoldsPermit(Task(e.pc, false))) == s.permits + One(here && HoldsPermit(s.tasks[t]))
  {
    if t in s.tasks {
      assert RefusalFounded(s, s.tasks[t].pc);
    }
  }

  lemma TaskMoveFrame(s: State, s': State, t: Id, m: TaskMove)
    requires TaskMoveStep(s, s', t, m)
    ensures OnlyTask(s, s', t) && s'.q == s.q && s'.cv == TaskMoveCv(s, t, m) && s'.told == s.told
    ensures var e := TaskMoveEffect(s, t, m);
            s'.tasks[t].pc == e.pc && s'.lock == e.lock && s'.permits == e.permits
  {
    TaskEffectFrame(s, s', t, TaskMoveEffect(s, t, m), TaskMoveCv(s, t, m));
  }

  lemma TaskEffectFrame(s: State, s': State, t: Id, e: TaskEffect, cv: map<Tid, Call>)
    requires e.Goes?
    requires var s1 := MoveTask(s, t, e.pc).(lock := e.lock, permits := e.permits, cv := cv);
             s' == if e.notify then NotifyWaiters(s1) else s1
    ensures OnlyTask(s, s', t) && s'.q == s.q && s'.cv == cv && s'.told == s.told
    ensures s'.tasks[t].pc == e.pc && s'.lock == e.lock && s'.permits == e.permits
  {
  }

  lemma TaskMoveWake(s: State, s': State, t: Id, m: TaskMove)
    requires RoomOk(s) && RefusalOk(s) && WakeOk(s) && TaskMoveStep(s, s', t, m)
    ensures WakeOk(s')
  {
    var e := TaskMoveEffect(s, t, m);
    TaskMoveLocal(s, t, m);
    TaskMoveFrame(s, s', t, m);
    if e.notify {
      NotifiedWakes(MoveTask(s, t, e.pc).(lock := e.lock, permits := e.permits, cv := TaskMoveCv(s, t, m)));
    } else {
      if Owed(s) { OwedTask(s, s', t); }
      WakeKept(s, s');
    }
  }

  /** What a task's step may do, without the step. */
  ghost predicate TaskMoved(s: State, s': State, t: Id) {
    && OnlyTask(s, s', t)
    && var here := t in s.tasks; var pc' := s'.tasks[t].pc;
    && LockChange(here && TaskLocks(s.tasks[t].pc), TaskLocks(pc'), s.lock, s'.lock, ByTask(t))
    && RefusalFounded(s', pc')
    && |s'.q| <= s.cap && (|s'.q| <= |s.q| || (here && TaskLocks(s.tasks[t].pc)))
    && (pc'.PushPrune? && pc'.freed ==> |s'.q| < s.cap)
    && s'.permits + One(HoldsPermit(s'.tasks[t])) == s.permits + One(here && HoldsPermit(s.tasks[t]))
  }

  lemma TaskMovedFlow(s: State, s': State, t: Id)
    requires Inv(s) && TaskMoved(s, s', t) && WakeOk(s')
    ensures Inv(s')
  {
    LockTask(s, s', t);
    RoomTask(s, s', t);
    RefusalTask(s, s', t);
    PermitsTask(s, s', t);
  }

  lemma TaskMoveShape(s: State, s': State, t: Id, m: TaskMove)
    requires RoomOk(s) && RefusalOk(s) && TaskMoveStep(s, s', t, m)
    ensures TaskMoved(s, s', t)
  {
    TaskMoveLocal(s, t, m);
    TaskMoveFrame(s, s', t, m);
  }

  lemma TaskMoveFlow(s: State, s': State, t: Id, m: TaskMove)
    requires Inv(s) && TaskMoveStep(s, s', t, m)
    ensures Inv(s')
  {
    TaskMoveShape(s, s', t, m);
    TaskMoveWake(s, s', t, m);
    TaskMovedFlow(s, s', t);
  }

  // ----- acts of a task -----------------------------------------------------

  lemma TaskActRest(s: State, s': State, t: Id, a: TaskAct)
    requires TaskActStep(s, s', t, a)
    ensures s'.threads == s.threads && s'.cap == s.cap && s'.down == s.down
    ensures s'.handles == s.handles && s'.inFlight == s.inFlight
  {
  }

  lemma TaskActTasks(s: State, s': State, t: Id, a: TaskAct)
    requires TaskActStep(s, s', t, a)
    ensures t in s.tasks && t in s'.tasks && s'.tasks == s.tasks[t := s'.tasks[t]]
  {
  }

  lemma TaskActFrame(s: State, s': State, t: Id, a: TaskAct)
    requires TaskActStep(s, s', t, a)
    ensures OnlyTask(s, s', t)
  {
    TaskActRest(s, s', t, a);
    TaskActTasks(s, s', t, a);
  }

  lemma TaskActLocal(s: State, s': State, t: Id, a: TaskAct)
    requires RoomOk(s) && TaskActStep(s, s', t, a)
    ensures t in s'.tasks
    ensures var pc := s.tasks[t].pc; var pc' := s'.tasks[t].pc;
      && LockChange(TaskLocks(pc), TaskLocks(pc'), s.lock, s'.lock, ByTask(t))
      && RefusalFounded(s', pc')
      && (pc'.PushPrune? && pc'.freed ==> |s'.q| < s.cap)
      && |s'.q| <= s.cap && (|s'.q| <= |s.q| || TaskLocks(pc))
      && (TaskOwes(s.tasks[t]) || |s'.q| < |s.q| ==> TaskOwes(s'.tasks[t]))
      && !Unwoken(s'.tasks[t])
      && s'.permits + One(HoldsPermit(s'.tasks[t])) == s.permits + One(HoldsPermit(s.tasks[t]))
  {
  }

  lemma TaskActMarks(s: State, s': State, t: Id, a: TaskAct)
    requires TaskActStep(s, s', t, a)
    ensures forall x :: x in s'.tasks && x != t ==> x in s.tasks && s'.tasks[x] == s.tasks[x]
  {
    TaskActTasks(s, s', t, a);
  }

  lemma TaskActWake(s: State, s': State, t: Id, a: TaskAct)
    requires RoomOk(s) && WakeOk(s) && TaskActStep(s, s', t, a)
    ensures WakeOk(s')
  {
    TaskActFrame(s, s', t, a);
    TaskActLocal(s, s', t, a);
    TaskActMarks(s, s', t, a);
    if Owed(s) { OwedTask(s, s', t); }
    if |s'.q| < |s.q| {
      assert TaskOwes(s'.tasks[t]);
      assert Owed(s');
    }
    WakeKept(s, s');
  }

  lemma TaskActFlow(s: State, s': State, t: Id, a: TaskAct)
    requires Inv(s) && TaskActStep(s, s', t, a)
    ensures Inv(s')
  {
    TaskActFrame(s, s', t, a);
    TaskActLocal(s, s', t, a);
    TaskActWake(s, s', t, a);
    TaskMovedFlow(s, s', t);
  }

  // ----- moves of a thread --------------------------------------------------

  lemma ThreadMoveLocal(s: State, th: Tid, n: ThreadMove)
    requires ThreadMoveEffect(s, th, n).Moves?
    ensures var e := ThreadMoveEffect(s, th, n); var pc := Pc(s, th);
      && LockChange(ThreadLocks(pc), ThreadLocks(e.pc), s.lock, e.lock, ByThread(th))
      && (e.notify || (ThreadOwes(pc) ==> ThreadOwes(e.pc)))
      && e.inFlight - One(Counted(e.pc)) == s.inFlight - One(Counted(pc))
      && (s.down ==> e.down)
      && (Stopping(e.pc) ==> e.down || Stopping(pc))
  {
  }

  lemma ThreadMoveFrame(s: State, s': State, th: Tid, n: ThreadMove)
    requires ThreadMoveStep(s, s', th, n)
    ensures OnlyThread(s, s', th) && s'.q == s.q && s'.handles == s.handles
    ensures s'.cv == ThreadMoveCv(s, th, n) && s'.told == ThreadMoveTold(s, th, n)
    ensures var e := ThreadMoveEffect(s, th, n);
            Pc(s', th) == e.pc && s'.lock == e.lock && s'.inFlight == e.inFlight && s'.down == e.down
  {
    ThreadMoveLocal(s, th, n);
    EffectFrame(s, s', th, ThreadMoveEffect(s, th, n), ThreadMoveCv(s, th, n), ThreadMoveTold(s, th, n));
  }

  lemma EffectFrame(s: State, s': State, th: Tid, e: ThreadEffect, cv: map<Tid, Call>, told: set<Id>)
    requires e.Moves? && (s.down ==> e.down)
    requires var s1 := MoveThread(s, th, e.pc).(lock := e.lock, down := e.down, inFlight := e.inFlight, cv := cv, told := told);
             s' == if e.notify then NotifyWaiters(s1) else s1
    ensures OnlyThread(s, s', th) && s'.q == s.q && s'.handles == s.handles && s'.cv == cv && s'.told == told
    ensures Pc(s', th) == e.pc && s'.lock == e.lock && s'.inFlight == e.inFlight && s'.down == e.down
  {
  }

  lemma ThreadMoveWake(s: State, s': State, th: Tid, n: ThreadMove)
    requires RoomOk(s) && WakeOk(s) && ThreadMoveStep(s, s', th, n)
    ensures WakeOk(s')
  {
    var e := ThreadMoveEffect(s, th, n);
    ThreadMoveLocal(s, th, n);
    ThreadMoveFrame(s, s', th, n);
    if e.notify {
      NotifiedWakes(MoveThread(s, th, e.pc).(lock := e.lock, down := e.down, inFlight := e.inFlight,
                                            cv := ThreadMoveCv(s, th, n), told := ThreadMoveTold(s, th, n)));
    } else {
      if Owed(s) { OwedThread(s, s', th); }
      WakeKept(s, s');
    }
  }

  /** What a thread's move may do, without the move. */
  ghost predicate ThreadMoved(s: State, s': State, th: Tid) {
    && OnlyThread(s, s', th) && s'.q == s.q && s'.handles == s.handles
    && LockChange(ThreadLocks(Pc(s, th)), ThreadLocks(Pc(s', th)), s.lock, s'.lock, ByThread(th))
    && s'.inFlight - One(Counted(Pc(s', th))) == s.inFlight - One(Counted(Pc(s, th)))
    && (s.down ==> s'.down)
    && (Stopping(Pc(s', th)) ==> s'.down || Stopping(Pc(s, th)))
  }

  lemma ThreadMoveShape(s: State, s': State, th: Tid, n: ThreadMove)
    requires ThreadMoveStep(s, s', th, n)
    ensures ThreadMoved(s, s', th)
  {
    ThreadMoveLocal(s, th, n);
    ThreadMoveFrame(s, s', th, n);
  }

  lemma ThreadMovedFlow(s: State, s': State, th: Tid)
    requires Inv(s) && ThreadMoved(s, s', th) && WakeOk(s')
    ensures Inv(s')
  {
    LockThread(s, s', th);
    RoomThread(s, s', th);
    RefusalThread(s, s', th);
    PermitsThread(s, s', th);
    FlightThread(s, s', th);
  }

  lemma ThreadMoveFlow(s: State, s': State, th: Tid, n: ThreadMove)
    requires Inv(s) && ThreadMoveStep(s, s', th, n)
    ensures Inv(s')
  {
    ThreadMoveShape(s, s', th, n);
    ThreadMoveWake(s, s', th, n);
    ThreadMovedFlow(s, s', th);
  }

  // ----- acts of a thread ---------------------------------------------------

  lemma ThreadActFrame(s: State, s': State, th: Tid, b: ThreadAct)
    requires ThreadActStep(s, s', th, b)
    ensures OnlyThread(s, s', th) && s'.tasks == s.tasks && s'.down == s.down && s'.inFlight == s.inFlight
  {
  }

  lemma ThreadActLocal(s: State, s': State, th: Tid, b: ThreadAct)
    requires ThreadActStep(s, s', th, b)
    ensures var pc := Pc(s, th); var pc' := Pc(s', th);
      && LockChange(ThreadLocks(pc), ThreadLocks(pc'), s.lock, s'.lock, ByThread(th))
      && |s'.q| <= |s.q|
      && (ThreadOwes(pc) || |s'.q| < |s.q| ==> ThreadOwes(pc') && th in s'.threads)
      && (Stopping(pc') ==> Stopping(pc))
  {
  }

  lemma ThreadActCount(s: State, s': State, th: Tid, b: ThreadAct)
    requires ThreadActStep(s, s', th, b) && (b.Build? ==> Pc(s, th).id !in s.handles || !s.handles[Pc(s, th).id])
    ensures Count(s'.handles, Unreplied) + One(Counted(Pc(s', th)))
         == Count(s.handles, Unreplied) + One(Counted(Pc(s, th)))
  {
    match b
    case Build => CountUpdate(s.handles, Pc(s, th).id, true, Unreplied);
    case TakeReply(id, _) => CountUpdate(s.handles, id, false, Unreplied);
    case DropHandle(id) => CountRemove(s.handles, id, Unreplied);
    case DropAnswered(id) => CountRemove(s.handles, id, Unreplied);
    case _ =>
  }

  lemma ThreadActWake(s: State, s': State, th: Tid, b: ThreadAct)
    requires RoomOk(s) && WakeOk(s) && ThreadActStep(s, s', th, b)
    ensures WakeOk(s')
  {
    ThreadActFrame(s, s', th, b);
    ThreadActLocal(s, s', th, b);
    if Owed(s) { OwedThread(s, s', th); }
    if |s'.q| < |s.q| {
      assert ThreadOwes(s'.threads[th]);
      assert Owed(s');
    }
    WakeKept(s, s');
  }

  /** A handle is built once per request: the extra hypothesis is what the
      ownership invariant provides. */
  lemma ThreadActFlow(s: State, s': State, th: Tid, b: ThreadAct)
    requires Inv(s) && ThreadActStep(s, s', th, b)
    requires b.Build? ==> Pc(s, th).id !in s.handles || !s.handles[Pc(s, th).id]
    ensures Inv(s')
  {
    ThreadActFrame(s, s', th, b);
    ThreadActLocal(s, s', th, b);
    ThreadActCount(s, s', th, b);
    ThreadActWake(s, s', th, b);
    LockThread(s, s', th);
    RoomThread(s, s', th);
    RefusalThread(s, s', th);
    PermitsThread(s, s', th);
    FlightThread(s, s', th);
  }
}

/** The pullers that sleep in `Svc::wait`, and the requests parked meanwhile.

    A push calls one sleeper after it unlocked. `wait` takes nothing from the
    queue: a puller that was called answers that a request is parked, and
    another may go on sleeping while that request is still in the queue. So
    nothing is lost when every parked request has been announced, each by a
    call of its own. */
module ParkPullers {
  import opened Wrappers
  import opened ParkMachine
  import opened ParkTheorems
  import FS = ParkFlowSteps

  predicate Asleep(s: State, th: Tid) { th in s.cv && s.cv[th].Unsignalled? }

  predicate CalledFor(s: State, th: Tid, x: Id) { th in s.cv && s.cv[th] == Called(x) }

  /** The push of x has not called notify_one yet. */
  predicate Signals(s: State, x: Id) { x in s.tasks && s.tasks[x].pc.PushSignal? }

  /** The push of x is past its notify_one. */
  predicate Past(s: State, x: Id) { x in s.tasks && PastPc(s.tasks[x].pc) }

  predicate PastPc(pc: TaskPc) { pc.PushPushed? || pc.Accepted? || pc.Waiting? || pc.Ended? }

  ghost predicate Announced(s: State, x: Id) {
    Signals(s, x) || (exists th :: CalledFor(s, th, x)) || x in s.told
  }

  /** Who is listed is inside `wait`: asleep, or called and on its way out. */
  ghost predicate ListedOk(s: State) {
    && (forall th :: Asleep(s, th) ==> Pc(s, th).CvAsleep?)
    && (forall th, x :: CalledFor(s, th, x) ==> Pc(s, th).CvAsleep? || Pc(s, th) == Held(OpPending))
    && (forall th :: Pc(s, th).CvAsleep? ==> th in s.cv)
  }

  /** One call per request, one answer per call. */
  ghost predicate CallsOk(s: State) {
    && (forall th, x :: CalledFor(s, th, x) ==> Past(s, x) && x !in s.told)
    && (forall th, th', x :: CalledFor(s, th, x) && CalledFor(s, th', x) ==> th == th')
    && (forall x :: x in s.told ==> Past(s, x))
  }

  ghost predicate AnnouncedOk(s: State) {
    (exists th :: Asleep(s, th)) ==> forall x :: x in s.q ==> Announced(s, x)
  }

  ghost predicate PullersOk(s: State) {
    ListedOk(s) && CallsOk(s) && AnnouncedOk(s)
  }

  // ----- steps --------------------------------------------------------------

  /** The pushes stay where they are, or one goes on after its notify_one. */
  ghost predicate PushesGoOn(s: State, s': State) {
    (forall x :: Past(s, x) ==> Past(s', x)) && (forall x :: Signals(s, x) ==> Signals(s', x))
  }

  lemma TaskMovePushes(s: State, s': State, t: Id, m: TaskMove)
    requires TaskMoveStep(s, s', t, m) && !m.NotifyOne?
    ensures PushesGoOn(s, s') && s'.q == s.q && s'.cv == s.cv && s'.told == s.told && s'.threads == s.threads
  {
    if t in s.tasks { TaskMovePc(s, t, m); }
    FS.TaskMoveFrame(s, s', t, m);
  }

  lemma TaskMovePc(s: State, t: Id, m: TaskMove)
    requires t in s.tasks && TaskMoveEffect(s, t, m).Goes?
    ensures var pc := s.tasks[t].pc; var pc' := TaskMoveEffect(s, t, m).pc;
      && (PastPc(pc) ==> PastPc(pc'))
      && (pc.PushSignal? ==> m.NotifyOne? && PastPc(pc'))
  {
  }

  lemma TaskActQuiet(s: State, s': State, t: Id, a: TaskAct)
    requires TaskActStep(s, s', t, a)
    ensures s'.cv == s.cv && s'.told == s.told
    ensures forall x :: x in s'.q ==> x in s.q || Signals(s', x)
  {
  }

  lemma TaskActPushes(s: State, s': State, t: Id, a: TaskAct)
    requires TaskActStep(s, s', t, a)
    ensures PushesGoOn(s, s') && s'.threads == s.threads
  {
    FS.TaskActFrame(s, s', t, a);
  }

  /** Every step but notify_one, waking and answering. */
  lemma QuietStep(s: State, s': State)
    requires PullersOk(s) && PushesGoOn(s, s') && s'.cv == s.cv && s'.told == s.told
    requires forall th :: Pc(s, th).CvAsleep? || Pc(s, th) == Held(OpPending) || Pc(s', th).CvAsleep? ==> Pc(s', th) == Pc(s, th)
    requires forall x :: x in s'.q ==> x in s.q || Signals(s', x)
    ensures PullersOk(s')
  {
    assert forall th :: Asleep(s', th) <==> Asleep(s, th);
    assert forall th, x :: CalledFor(s', th, x) <==> CalledFor(s, th, x);
    forall x | (exists th :: Asleep(s', th)) && x in s'.q ensures Announced(s', x) {
      if x in s.q {
        assert Announced(s, x);
        if th :| CalledFor(s, th, x) { assert CalledFor(s', th, x); }
      }
    }
  }

  lemma NotifyOneStep(s: State, s': State, t: Id, woken: Option<Tid>)
    requires PullersOk(s) && TaskMoveStep(s, s', t, NotifyOne(woken))
    ensures PullersOk(s')
  {
    FS.TaskMoveFrame(s, s', t, NotifyOne(woken));
    assert Signals(s, t) && !Past(s, t) && Past(s', t);
    assert woken.Some? ==> Asleep(s, woken.value);
    assert forall x :: x != t ==> (Past(s', x) <==> Past(s, x)) && (Signals(s', x) <==> Signals(s, x));
    assert forall th: Tid, x: Id :: CalledFor(s', th, x) <==> CalledFor(s, th, x) || (woken == Some(th) && x == t);
    assert forall th :: Asleep(s', th) ==> Asleep(s, th);
    if woken.None? { assert forall th :: !Asleep(s, th); } else { assert CalledFor(s', woken.value, t); }
    forall x | (exists th :: Asleep(s', th)) && x in s'.q ensures Announced(s', x) {
      assert Announced(s, x);
      if th :| CalledFor(s, th, x) { assert CalledFor(s', th, x); }
    }
  }

  lemma SamePushes(s: State, s': State, th: Tid, n: ThreadMove)
    requires ThreadMoveStep(s, s', th, n)
    ensures PushesGoOn(s, s') && s'.q == s.q
    ensures forall g :: g != th ==> Pc(s', g) == Pc(s, g)
    ensures s'.cv == ThreadMoveCv(s, th, n) && s'.told == ThreadMoveTold(s, th, n)
    ensures Pc(s', th) == ThreadMoveEffect(s, th, n).pc
  {
    FS.ThreadMoveFrame(s, s', th, n);
  }

  lemma CvWakeStep(s: State, s': State, th: Tid)
    requires PullersOk(s) && ThreadMoveStep(s, s', th, CvWake)
    ensures PullersOk(s')
  {
    SamePushes(s, s', th, CvWake);
    assert th in s.cv;
    assert forall g :: Asleep(s', g) <==> Asleep(s, g) && g != th;
    assert forall g, x :: CalledFor(s', g, x) <==> CalledFor(s, g, x);
    forall x | (exists g :: Asleep(s', g)) && x in s'.q ensures Announced(s', x) {
      assert Announced(s, x);
      if g :| CalledFor(s, g, x) { assert CalledFor(s', g, x); }
    }
  }

  lemma UnlockStep(s: State, s': State, th: Tid)
    requires PullersOk(s) && ThreadMoveStep(s, s', th, Unlock)
    ensures PullersOk(s')
  {
    SamePushes(s, s', th, Unlock);
    assert !Asleep(s, th);
    assert forall g, x :: CalledFor(s', g, x) <==> CalledFor(s, g, x) && g != th;
    if SleepsNow(s, th) {
      assert forall x :: !CalledFor(s, th, x);
    } else {
      assert forall g :: Asleep(s', g) <==> Asleep(s, g);
      assert th in s.cv && s.cv[th].Called? ==> CalledFor(s, th, s.cv[th].x);
      UnlockAnnounced(s, s', th);
    }
  }

  lemma UnlockAnnounced(s: State, s': State, th: Tid)
    requires PullersOk(s) && PushesGoOn(s, s') && s'.q == s.q && s'.told == ThreadMoveTold(s, th, Unlock)
    requires forall g, x :: CalledFor(s', g, x) <==> CalledFor(s, g, x) && g != th
    requires forall g :: Asleep(s', g) <==> Asleep(s, g)
    ensures AnnouncedOk(s')
  {
    forall x | (exists g :: Asleep(s', g)) && x in s'.q ensures Announced(s', x) {
      assert Announced(s, x);
      if g :| CalledFor(s, g, x) {
        if g != th { assert CalledFor(s', g, x); }
      }
    }
  }

  lemma ThreadMoveQuiet(s: State, s': State, th: Tid, n: ThreadMove)
    requires ThreadMoveStep(s, s', th, n) && !n.Unlock? && !n.CvWake?
    ensures s'.cv == s.cv && s'.told == s.told
    ensures !Pc(s, th).CvAsleep? && Pc(s, th) != Held(OpPending) && !Pc(s', th).CvAsleep?
  {
    SamePushes(s, s', th, n);
  }

  lemma ThreadActQuiet(s: State, s': State, th: Tid, b: ThreadAct)
    requires ThreadActStep(s, s', th, b)
    ensures s'.cv == s.cv && s'.told == s.told && s'.tasks == s.tasks
    ensures forall x :: x in s'.q ==> x in s.q
    ensures !Pc(s, th).CvAsleep? && Pc(s, th) != Held(OpPending) && !Pc(s', th).CvAsleep?
    ensures forall g :: g != th ==> Pc(s', g) == Pc(s, g)
  {
  }

  lemma StepPullers(s: State, s': State, step: Step)
    requires PullersOk(s) && NextStep(s, s', step)
    ensures PullersOk(s')
  {
    match step
    case TaskMoves(t, m) =>
      if m.NotifyOne? { NotifyOneStep(s, s', t, m.woken); } else { TaskMovePushes(s, s', t, m); QuietStep(s, s'); }
    case TaskActs(t, a) => TaskActQuiet(s, s', t, a); TaskActPushes(s, s', t, a); QuietStep(s, s');
    case ThreadMoves(th, n) =>
      if n.Unlock? { UnlockStep(s, s', th); }
      else if n.CvWake? { CvWakeStep(s, s', th); }
      else { SamePushes(s, s', th, n); ThreadMoveQuiet(s, s', th, n); QuietStep(s, s'); }
    case ThreadActs(th, b) => ThreadActQuiet(s, s', th, b); QuietStep(s, s');
  }

  // ----- every run ----------------------------------------------------------

  lemma {:induction false} ReachedPullers(queue: nat, states: seq<State>, steps: seq<Step>, i: nat)
    requires RunFrom(queue, states, steps) && i < |states|
    ensures PullersOk(states[i])
  {
    if i > 0 {
      ReachedPullers(queue, states, steps, i - 1);
      assert StepAt(states, steps, i - 1);
      StepPullers(states[i - 1], states[i], steps[i - 1]);
    }
  }

  /** While a puller sleeps unsignalled, every parked request has its notify_one
      still to come, or called a puller that is on its way to look, or called one
      that was told a request is parked. No puller is called for two requests and
      no request calls two. */
  lemma NoLostCall(queue: nat, states: seq<State>, steps: seq<Step>, i: nat, th: Tid, x: Id)
    requires RunFrom(queue, states, steps) && i < |states|
    requires Asleep(states[i], th) && x in states[i].q
    ensures var s := states[i];
      && Pc(s, th).CvAsleep?
      && (Signals(s, x) || (exists g :: CalledFor(s, g, x)) || x in s.told)
      && (forall g :: CalledFor(s, g, x) ==> g != th && (Pc(s, g).CvAsleep? || Pc(s, g) == Held(OpPending)))
      && (forall g, g' :: CalledFor(s, g, x) && CalledFor(s, g', x) ==> g == g')
  {
    ReachedPullers(queue, states, steps, i);
    assert Announced(states[i], x);
  }

  /** A called puller that comes to look while the request that called it is
      parked answers that one is. */
  lemma CalledIsTold(queue: nat, states: seq<State>, steps: seq<Step>, i: nat, th: Tid, x: Id)
    requires RunFrom(queue, states, steps) && i < |steps| && steps[i] == ThreadMoves(th, Unlock)
    requires CalledFor(states[i], th, x) && x in states[i].q
    ensures x !in states[i].told && states[i + 1].told == states[i].told + {x}
    ensures Pc(states[i + 1], th).Idle? && th !in states[i + 1].cv
  {
    ReachedPullers(queue, states, steps, i);
    assert StepAt(states, steps, i);
    SamePushes(states[i], states[i + 1], th, Unlock);
  }

  /** When only sleeping pullers and idle threads are left and no push is under
      way, each parked request has been told to a puller of its own. */
  lemma SettledAreTold(queue: nat, states: seq<State>, steps: seq<Step>, i: nat, th: Tid)
    requires RunFrom(queue, states, steps) && i < |states| && Asleep(states[i], th)
    requires forall g :: Pc(states[i], g).Idle? || Asleep(states[i], g)
    requires forall t :: t in states[i].tasks ==> !states[i].tasks[t].pc.PushSignal?
    ensures forall x :: x in states[i].q ==> x in states[i].told
  {
    var s := states[i];
    ReachedPullers(queue, states, steps, i);
    forall x | x in s.q ensures x in s.told {
      assert Announced(s, x);
      if g :| CalledFor(s, g, x) {
        assert false;
      }
    }
  }
}

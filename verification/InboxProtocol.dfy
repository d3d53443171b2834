/** The two condition variables of `Inbox<T>`: every interleaving of senders,
    receivers and closers, with notify_one, timeouts and spurious wakes.

    A critical section is one step, since all it touches is behind the mutex.
    A sleeper is `signalled` once a notify chose it; it leaves its sleep when
    it gets the lock back. A sleeper whose timeout fires, or that wakes for no
    reason, stops listening first (Wakes) and runs later. */
module InboxProtocol {
  import opened InboxQueue
  import opened Counting

  type Tid = nat
  type Val = int

  datatype Pc =
    | Idle
    | Sending(v: Val, patient: bool)        // about to lock
    | SendAsleep(v: Val, signalled: bool)   // in not_full.wait
    | OweNotEmpty                           // pushed: notify_one(not_empty) owed
    | Receiving
    | RecvAsleep(signalled: bool)           // in not_empty.wait_timeout
    | OweNotFull                            // popped: notify_one(not_full) owed
    | CloseNotEmpty                         // closed: both notify_all owed
    | CloseNotFull                          // closed: notify_all(not_full) owed

  datatype State = State(cap: nat, st: St<Val>, threads: map<Tid, Pc>)

  datatype Step =
    | BeginSend(th: Tid, v: Val, patient: bool)
    | SendTurn(th: Tid, expired: bool)
    | NotifyNotEmpty(th: Tid, target: Tid)
    | BeginRecv(th: Tid)
    | RecvTurn(th: Tid, expired: bool)
    | NotifyNotFull(th: Tid, target: Tid)
    | Wakes(th: Tid)
    | SetClosed(th: Tid)
    | NotifyAllNotEmpty(th: Tid)
    | NotifyAllNotFull(th: Tid)

  function At(s: State, th: Tid): Pc {
    if th in s.threads then s.threads[th] else Idle
  }

  function Move(s: State, th: Tid, pc: Pc): State {
    s.(threads := s.threads[th := pc])
  }

  function Init(capacity: nat): State {
    State(if capacity == 0 then 1 else capacity, St([], false, [], []), map[])
  }

  predicate RecvSleeps(pc: Pc) { pc == RecvAsleep(false) }
  predicate SendSleeps(pc: Pc) { pc.SendAsleep? && !pc.signalled }

  function Signal(pc: Pc): Pc {
    match pc
    case RecvAsleep(_) => RecvAsleep(true)
    case SendAsleep(v, _) => SendAsleep(v, true)
    case _ => pc
  }

  predicate CanSend(pc: Pc) { pc.Sending? || (pc.SendAsleep? && pc.signalled) }
  predicate CanRecv(pc: Pc) { pc.Receiving? || pc == RecvAsleep(true) }

  /** One turn of the send loop under the lock. */
  function SendPc(s: State, pc: Pc, expired: bool): Pc {
    if s.st.closed then Idle
    else if |s.st.queue| < s.cap then OweNotEmpty
    else if (pc.Sending? && !pc.patient) || expired then Idle
    else if pc.Sending? then SendAsleep(pc.v, false)
    else if pc.SendAsleep? then SendAsleep(pc.v, false)
    else Idle
  }

  /** What one turn of the receive loop answers, if it does not wait. */
  function RecvAnswer(st: St<Val>, expired: bool): RecvResult<Val> {
    if st.queue != [] then Got(st.queue[0])
    else if st.closed then Closed
    else if expired then Nothing
    else RecvWaiting
  }

  function RecvPc(s: State, expired: bool): Pc {
    match RecvAnswer(s.st, expired)
    case Got(_) => OweNotFull
    case Closed => Idle
    case Nothing => Idle
    case RecvWaiting => RecvAsleep(false)
  }

  function AllSignalled(m: map<Tid, Pc>, who: Pc -> bool): map<Tid, Pc> {
    map t | t in m :: if who(m[t]) then Signal(m[t]) else m[t]
  }

  /** `notify_one`: some sleeper that listens, or none when none does. */
  ghost predicate Notify(s: State, s': State, th: Tid, target: Tid, who: Pc -> bool) {
    if exists t :: t in s.threads && who(s.threads[t])
    then target in s.threads && who(s.threads[target]) && target != th
         && s' == s.(threads := s.threads[th := Idle][target := Signal(s.threads[target])])
    else s' == Move(s, th, Idle)
  }

  ghost predicate NextStep(s: State, s': State, step: Step) {
    var pc := At(s, step.th);
    match step
    case BeginSend(th, v, patient) => pc.Idle? && s' == Move(s, th, Sending(v, patient))
    case SendTurn(th, expired) =>
      CanSend(pc)
      && s' == Move(s, th, SendPc(s, pc, expired)).(st := Apply(s.cap, s.st, TrySending(pc.v)))
    case NotifyNotEmpty(th, target) => pc.OweNotEmpty? && Notify(s, s', th, target, RecvSleeps)
    case BeginRecv(th) => pc.Idle? && s' == Move(s, th, Pc.Receiving)
    case RecvTurn(th, expired) =>
      CanRecv(pc) && s' == Move(s, th, RecvPc(s, expired)).(st := Apply(s.cap, s.st, Op.Receiving))
    case NotifyNotFull(th, target) => pc.OweNotFull? && Notify(s, s', th, target, SendSleeps)
    case Wakes(th) =>
      (SendSleeps(pc) && s' == Move(s, th, Sending(pc.v, true)))
      || (RecvSleeps(pc) && s' == Move(s, th, Pc.Receiving))
    case SetClosed(th) => pc.Idle? && s' == Move(s, th, CloseNotEmpty).(st := Apply(s.cap, s.st, Closing))
    case NotifyAllNotEmpty(th) =>
      pc.CloseNotEmpty?
      && s' == s.(threads := AllSignalled(s.threads[th := CloseNotFull], RecvSleeps))
    case NotifyAllNotFull(th) =>
      pc.CloseNotFull? && s' == s.(threads := AllSignalled(s.threads[th := Idle], SendSleeps))
  }

  ghost predicate StepAt(states: seq<State>, steps: seq<Step>, i: nat) {
    i < |steps| && i + 1 < |states| && NextStep(states[i], states[i + 1], steps[i])
  }

  ghost predicate Run(states: seq<State>, steps: seq<Step>) {
    |states| == |steps| + 1 && forall i :: 0 <= i < |steps| ==> StepAt(states, steps, i)
  }

  // ----- the invariant ------------------------------------------------------

  /** A receiver that was chosen and has not run, or a notify still to come. */
  predicate RecvDue(pc: Pc) { pc == RecvAsleep(true) || pc.OweNotEmpty? }
  predicate SendDue(pc: Pc) { (pc.SendAsleep? && pc.signalled) || pc.OweNotFull? }

  predicate ClosingRecv(pc: Pc) { pc.CloseNotEmpty? }
  predicate ClosingSend(pc: Pc) { pc.CloseNotEmpty? || pc.CloseNotFull? }

  ghost predicate Someone(m: map<Tid, Pc>, who: Pc -> bool) {
    exists t :: t in m && who(m[t])
  }

  ghost predicate RecvOk(s: State) {
    Someone(s.threads, RecvSleeps) ==>
      |s.st.queue| <= Count(s.threads, RecvDue) && (s.st.closed ==> Someone(s.threads, ClosingRecv))
  }

  ghost predicate SendOk(s: State) {
    Someone(s.threads, SendSleeps) ==>
      if s.st.closed then Someone(s.threads, ClosingSend)
      else s.cap - |s.st.queue| <= Count(s.threads, SendDue)
  }

  ghost predicate Inv(s: State) {
    Fifo(s.cap, s.st) && RecvOk(s) && SendOk(s)
  }

  // ----- how `Someone` changes ----------------------------------------------

  lemma SomeoneAfter(m: map<Tid, Pc>, th: Tid, pc: Pc, who: Pc -> bool)
    requires Someone(m[th := pc], who)
    ensures who(pc) || Someone(m, who)
  {
    var t :| t in m[th := pc] && who(m[th := pc][t]);
    if t != th {
      assert t in m && who(m[t]);
    }
  }

  lemma SomeoneKept(m: map<Tid, Pc>, th: Tid, pc: Pc, who: Pc -> bool)
    requires Someone(m, who) && (th in m && who(m[th]) ==> who(pc))
    ensures Someone(m[th := pc], who)
  {
    var t :| t in m && who(m[t]);
    var m' := m[th := pc];
    assert t in m' && who(m'[t]);
  }

  // ----- steps that move one thread -----------------------------------------

  /** The receive side, when one thread goes from `was` to `pc`: a new sleeper
      found the queue empty and open, a value in comes with a notify owed, and
      what was due and is not any more took a value out or found none. */
  lemma RecvMove(s: State, s': State, th: Tid)
    requires RecvOk(s) && s'.threads == s.threads[th := At(s', th)]
    requires s.st.closed ==> s'.st.closed
    requires RecvSleeps(At(s', th)) ==> s'.st.queue == [] && !s'.st.closed
    requires |s'.st.queue| - One(RecvDue(At(s', th))) <= |s.st.queue| - One(RecvDue(At(s, th))) || s'.st.queue == []
    requires ClosingRecv(At(s, th)) ==> ClosingRecv(At(s', th))
    requires s'.st.closed && !s.st.closed ==> ClosingRecv(At(s', th))
    ensures RecvOk(s')
  {
    CountUpdate(s.threads, th, At(s', th), RecvDue);
    if Someone(s'.threads, RecvSleeps) {
      SomeoneAfter(s.threads, th, At(s', th), RecvSleeps);
      if s'.st.closed {
        if s.st.closed {
          SomeoneKept(s.threads, th, At(s', th), ClosingRecv);
        } else {
          assert th in s'.threads && ClosingRecv(s'.threads[th]);
        }
      }
    }
  }

  lemma SendMove(s: State, s': State, th: Tid)
    requires SendOk(s) && s'.cap == s.cap && s'.threads == s.threads[th := At(s', th)]
    requires s.st.closed ==> s'.st.closed
    requires SendSleeps(At(s', th)) ==> |s'.st.queue| >= s.cap && !s'.st.closed
    requires !s'.st.closed ==>
      |s.st.queue| - One(SendDue(At(s', th))) <= |s'.st.queue| - One(SendDue(At(s, th))) || |s'.st.queue| >= s.cap
    requires ClosingSend(At(s, th)) ==> ClosingSend(At(s', th))
    requires s'.st.closed && !s.st.closed ==> ClosingSend(At(s', th))
    ensures SendOk(s')
  {
    CountUpdate(s.threads, th, At(s', th), SendDue);
    if Someone(s'.threads, SendSleeps) {
      SomeoneAfter(s.threads, th, At(s', th), SendSleeps);
      if s'.st.closed {
        if s.st.closed {
          SomeoneKept(s.threads, th, At(s', th), ClosingSend);
        } else {
          assert th in s'.threads && ClosingSend(s'.threads[th]);
        }
      }
    }
  }

  lemma TurnKeeps(s: State, s': State, step: Step)
    requires Inv(s) && NextStep(s, s', step)
    requires step.BeginSend? || step.SendTurn? || step.BeginRecv? || step.RecvTurn? || step.Wakes? || step.SetClosed?
    ensures Inv(s')
  {
    RecvMove(s, s', step.th);
    SendMove(s, s', step.th);
  }

  // ----- notify_one ---------------------------------------------------------

  lemma NotifyCounts(s: State, s': State, th: Tid, target: Tid, who: Pc -> bool, due: Pc -> bool)
    requires th in s.threads && Notify(s, s', th, target, who) && !due(Idle)
    ensures !Someone(s.threads, who) ==> Count(s'.threads, due) == Count(s.threads, due) - One(due(s.threads[th]))
    ensures Someone(s.threads, who) ==>
      && target in s.threads && who(s.threads[target])
      && Count(s'.threads, due) == Count(s.threads, due) - One(due(s.threads[th]))
                                 - One(due(s.threads[target])) + One(due(Signal(s.threads[target])))
  {
    CountUpdate(s.threads, th, Idle, due);
    if Someone(s.threads, who) {
      CountUpdate(s.threads[th := Idle], target, Signal(s.threads[target]), due);
    }
  }

  lemma NotifySleepers(s: State, s': State, th: Tid, target: Tid, who: Pc -> bool)
    requires Notify(s, s', th, target, who) && (At(s, th).OweNotEmpty? || At(s, th).OweNotFull?)
    requires forall pc :: who(pc) ==> RecvSleeps(pc) || SendSleeps(pc)
    ensures Someone(s'.threads, RecvSleeps) ==> Someone(s.threads, RecvSleeps)
    ensures Someone(s'.threads, SendSleeps) ==> Someone(s.threads, SendSleeps)
    ensures Someone(s.threads, ClosingRecv) ==> Someone(s'.threads, ClosingRecv)
    ensures Someone(s.threads, ClosingSend) ==> Someone(s'.threads, ClosingSend)
  {
    assert forall t :: t in s'.threads && (RecvSleeps(s'.threads[t]) || SendSleeps(s'.threads[t])) ==>
      t in s.threads && s'.threads[t] == s.threads[t];
    assert forall t :: t in s.threads && ClosingSend(s.threads[t]) ==> t in s'.threads && s'.threads[t] == s.threads[t];
  }

  /** Signalling a sleeper pays for the notify that is spent. */
  lemma NotifyKeeps(s: State, s': State, step: Step)
    requires Inv(s) && NextStep(s, s', step) && (step.NotifyNotEmpty? || step.NotifyNotFull?)
    ensures Inv(s')
  {
    var who := if step.NotifyNotEmpty? then RecvSleeps else SendSleeps;
    NotifySleepers(s, s', step.th, step.target, who);
    NotifyCounts(s, s', step.th, step.target, who, RecvDue);
    NotifyCounts(s, s', step.th, step.target, who, SendDue);
  }

  // ----- notify_all ---------------------------------------------------------

  /** After notify_all nobody listens on that condition variable. */
  lemma AllEmptyKeeps(s: State, s': State, th: Tid)
    requires Inv(s) && NextStep(s, s', NotifyAllNotEmpty(th))
    ensures Inv(s')
  {
    var m := s.threads[th := CloseNotFull];
    assert forall t :: t in s'.threads ==> !RecvSleeps(s'.threads[t]);
    CountUpdate(s.threads, th, CloseNotFull, SendDue);
    CountSame(m, s'.threads, SendDue);
    if Someone(s'.threads, SendSleeps) {
      var t :| t in s'.threads && SendSleeps(s'.threads[t]);
      assert t in s.threads && SendSleeps(s.threads[t]);
      assert th in s'.threads && ClosingSend(s'.threads[th]);
    }
  }

  lemma AllFullKeeps(s: State, s': State, th: Tid)
    requires Inv(s) && NextStep(s, s', NotifyAllNotFull(th))
    ensures Inv(s')
  {
    var m := s.threads[th := Idle];
    assert forall t :: t in s'.threads ==> !SendSleeps(s'.threads[t]);
    CountUpdate(s.threads, th, Idle, RecvDue);
    CountSame(m, s'.threads, RecvDue);
    if Someone(s'.threads, RecvSleeps) {
      var t :| t in s'.threads && RecvSleeps(s'.threads[t]);
      assert t in s.threads && RecvSleeps(s.threads[t]);
      if s.st.closed {
        var g :| g in s.threads && ClosingRecv(s.threads[g]);
        assert g in s'.threads && ClosingRecv(s'.threads[g]);
      }
    }
  }

  lemma StepKeeps(s: State, s': State, step: Step)
    requires Inv(s) && NextStep(s, s', step)
    ensures Inv(s')
  {
    match step
    case NotifyNotEmpty(_, _) => NotifyKeeps(s, s', step);
    case NotifyNotFull(_, _) => NotifyKeeps(s, s', step);
    case NotifyAllNotEmpty(th) => AllEmptyKeeps(s, s', th);
    case NotifyAllNotFull(th) => AllFullKeeps(s, s', th);
    case _ => TurnKeeps(s, s', step);
  }
}

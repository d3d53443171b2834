/** What becomes of a call on an inbox: it stays open, with its own value and
    its own patience, until a turn of its loop answers it. */
module InboxCalls {
  import opened InboxQueue
  import opened InboxProtocol
  import T = InboxTheorems

  /** The call a thread is in. */
  datatype Open = NoCall | SendCall(v: Val, patient: bool) | RecvCall

  /** A turn of a send goes on waiting: the inbox is open and full, the caller
      is ready to wait and its deadline has not passed. */
  predicate SendWaits(s: State, patient: bool, expired: bool) {
    !s.st.closed && |s.st.queue| >= s.cap && patient && !expired
  }

  /** A turn of a receive does: open and empty, and the deadline has not passed. */
  predicate RecvWaits(s: State, expired: bool) { !s.st.closed && s.st.queue == [] && !expired }

  /** The call of thread th after a step. */
  function Opens(open: Open, s: State, step: Step, th: Tid): Open {
    if step.th != th then open else
    match step
    case BeginSend(_, v, patient) => SendCall(v, patient)
    case BeginRecv(_) => RecvCall
    case SendTurn(_, expired) => if open.SendCall? && SendWaits(s, open.patient, expired) then open else NoCall
    case RecvTurn(_, expired) => if RecvWaits(s, expired) then open else NoCall
    case _ => open
  }

  /** The call of thread th in state j of a run. */
  ghost function CallAt(states: seq<State>, steps: seq<Step>, j: nat, th: Tid): Open
    requires j <= |steps| <= |states|
  {
    if j == 0 then NoCall else Opens(CallAt(states, steps, j - 1, th), states[j - 1], steps[j - 1], th)
  }

  /** The program counter of a thread in that call; asleep it is patient. */
  predicate In(pc: Pc, open: Open) {
    match open
    case SendCall(v, patient) => pc == Sending(v, patient) || (pc.SendAsleep? && pc.v == v && patient)
    case RecvCall => pc == Pc.Receiving || pc.RecvAsleep?
    case NoCall => !pc.Sending? && !pc.SendAsleep? && pc != Pc.Receiving && !pc.RecvAsleep?
  }

  lemma StepInCall(s: State, s': State, step: Step, th: Tid, open: Open)
    requires Fifo(s.cap, s.st) && NextStep(s, s', step) && In(At(s, th), open)
    ensures In(At(s', th), Opens(open, s, step, th))
  {
  }

  /** In every state every thread is in the call it began and that no turn has
      answered: with the value it was given, asleep only if it may wait. */
  lemma {:induction false} CallStaysOpen(capacity: nat, states: seq<State>, steps: seq<Step>, j: nat, th: Tid)
    requires T.RunFrom(capacity, states, steps) && j < |states|
    ensures In(At(states[j], th), CallAt(states, steps, j, th))
  {
    if j > 0 {
      CallStaysOpen(capacity, states, steps, j - 1, th);
      T.Reached(capacity, states, steps, j - 1);
      assert StepAt(states, steps, j - 1);
      StepInCall(states[j - 1], states[j], steps[j - 1], th, CallAt(states, steps, j - 1, th));
    }
  }

  /** A turn of a send accepts the value of its own call, or nothing when the
      inbox is closed or full; a turn of a receive accepts nothing. */
  lemma SendsItsValue(capacity: nat, states: seq<State>, steps: seq<Step>, j: nat)
    requires T.RunFrom(capacity, states, steps) && j < |steps|
    ensures var st, st' := states[j].st, states[j + 1].st;
      if steps[j].SendTurn? && !st.closed && |st.queue| < states[j].cap then
        var call := CallAt(states, steps, j, steps[j].th);
        call.SendCall? && st'.accepted == st.accepted + [call.v]
      else st'.accepted == st.accepted
  {
    CallStaysOpen(capacity, states, steps, j, steps[j].th);
    assert StepAt(states, steps, j);
  }
}

/** What every run of the inbox protocol keeps. */
module InboxTheorems {
  import opened InboxQueue
  import opened InboxProtocol
  import opened Counting

  // ----- every run ----------------------------------------------------------

  ghost predicate RunFrom(capacity: nat, states: seq<State>, steps: seq<Step>) {
    Run(states, steps) && states[0] == Init(capacity)
  }

  lemma {:induction false} Reached(capacity: nat, states: seq<State>, steps: seq<Step>, i: nat)
    requires RunFrom(capacity, states, steps) && i < |states|
    ensures Inv(states[i])
  {
    if i > 0 {
      Reached(capacity, states, steps, i - 1);
      assert StepAt(states, steps, i - 1);
      StepKeeps(states[i - 1], states[i], steps[i - 1]);
    }
  }

  /** No lost wakeup. A receiver that sleeps unsignalled: no more values wait
      than receivers are chosen or about to be; a sender likewise with free
      slots while the inbox is open; once closed, a sleeper's notify_all is
      still to come. */
  lemma NoLostWakeup(capacity: nat, states: seq<State>, steps: seq<Step>, i: nat, th: Tid)
    requires RunFrom(capacity, states, steps) && i < |states| && th in states[i].threads
    ensures var s := states[i];
      && (RecvSleeps(s.threads[th]) ==>
            && |s.st.queue| <= Count(s.threads, RecvDue)
            && (s.st.closed ==> Someone(s.threads, ClosingRecv)))
      && (SendSleeps(s.threads[th]) && !s.st.closed ==> s.cap - |s.st.queue| <= Count(s.threads, SendDue))
      && (SendSleeps(s.threads[th]) && s.st.closed ==> Someone(s.threads, ClosingSend))
  {
    Reached(capacity, states, steps, i);
  }

  predicate Settled(pc: Pc) { pc.Idle? || RecvSleeps(pc) || SendSleeps(pc) }

  /** No deadlock: when only idle and unsignalled sleeping threads are left, a
      sleeping receiver means an empty open inbox, a sleeping sender a full
      open one, so never both. */
  lemma SettledIsJustified(capacity: nat, states: seq<State>, steps: seq<Step>, i: nat, th: Tid)
    requires RunFrom(capacity, states, steps) && i < |states| && th in states[i].threads
    requires forall t :: t in states[i].threads ==> Settled(states[i].threads[t])
    ensures var s := states[i];
      && (RecvSleeps(s.threads[th]) ==> s.st.queue == [] && !s.st.closed && !Someone(s.threads, SendSleeps))
      && (SendSleeps(s.threads[th]) ==> |s.st.queue| == s.cap && !s.st.closed && !Someone(s.threads, RecvSleeps))
  {
    Reached(capacity, states, steps, i);
    var s := states[i];
    assert Where(s.threads, RecvDue) == {};
    assert Where(s.threads, SendDue) == {};
  }

  /** In every run, in lock order: received ++ queued = accepted, within capacity. */
  lemma RunIsFifo(capacity: nat, states: seq<State>, steps: seq<Step>, i: nat)
    requires RunFrom(capacity, states, steps) && i < |states|
    ensures Fifo(states[i].cap, states[i].st)
  {
    Reached(capacity, states, steps, i);
  }

  lemma ClosedStep(s: State, s': State, step: Step)
    requires NextStep(s, s', step) && s.st.closed && s.st.queue == []
    ensures s'.cap == s.cap && s'.st == s.st
  {
  }

  /** A receive answers Closed at step i: everything accepted was received,
      that stays so whatever happens after, and every later receive answers
      Closed at its first turn. */
  lemma {:induction false} ClosedForever(capacity: nat, states: seq<State>, steps: seq<Step>, i: nat, j: nat)
    requires RunFrom(capacity, states, steps) && i < |steps| && i <= j < |states|
    requires steps[i].RecvTurn? && RecvAnswer(states[i].st, steps[i].expired) == Closed
    ensures states[j].st == states[i].st && states[j].st.received == states[j].st.accepted
    ensures j < |steps| && steps[j].RecvTurn? ==>
      RecvAnswer(states[j].st, steps[j].expired) == Closed && At(states[j + 1], steps[j].th).Idle?
  {
    Reached(capacity, states, steps, i);
    if i < j {
      ClosedForever(capacity, states, steps, i, j - 1);
      assert StepAt(states, steps, j - 1);
      ClosedStep(states[j - 1], states[j], steps[j - 1]);
    }
    if j < |steps| {
      assert StepAt(states, steps, j);
    }
  }

  /** A receive takes the oldest value that nobody took, in lock order. */
  lemma ReceivesInOrder(capacity: nat, states: seq<State>, steps: seq<Step>, i: nat)
    requires RunFrom(capacity, states, steps) && i < |steps| && steps[i].RecvTurn?
    requires RecvAnswer(states[i].st, steps[i].expired).Got?
    ensures var n := |states[i].st.received|;
      && n < |states[i].st.accepted|
      && RecvAnswer(states[i].st, steps[i].expired) == Got(states[i].st.accepted[n])
      && states[i + 1].st.received == states[i].st.accepted[..n + 1]
  {
    Reached(capacity, states, steps, i);
    assert StepAt(states, steps, i);
  }
}

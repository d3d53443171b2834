/** How a transfer ends: with the error that ended it, which every later reader
    is told, or cleanly with every byte that arrived. */
module FetchVerdict {
  import opened Wrappers
  import opened FetchBody
  import opened FetchStream

  function ItemBytes(step: Step): Bytes {
    if step.Item? then step.bytes else []
  }

  /** The bytes that came in, in order. */
  function Arrived(steps: seq<Step>): Bytes {
    if steps == [] then [] else Arrived(steps[..|steps| - 1]) + ItemBytes(steps[|steps| - 1])
  }

  /** The error that a step ends the transfer with, when n bytes came in before.
      A body is too large exactly when a cap is set and it exceeds it. */
  function Cause(s: State, n: nat, step: Step): Option<string> {
    match step
    case Item(bytes) => if s.cap > 0 && n + |bytes| > s.cap then Some("too-large") else None
    case StreamFails(why) => Some(why)
    case Stall => Some("stalled")
    case LookCancelled => if s.cancelled && !s.body.settled then Some("cancelled") else None
    case _ => None
  }

  /** Step k of the run ends the transfer with an error. */
  ghost predicate CausedAt(states: seq<State>, steps: seq<Step>, k: nat, why: string) {
    k < |steps| <= |states| && Cause(states[k], |Arrived(steps[..k])|, steps[k]) == Some(why)
  }

  /** The transfer was ended with this error. */
  predicate Condemned(s: State, why: string) {
    if s.body.settled then s.body.err == Some(why) && (s.task.Leaving? || s.task.Ending? || s.task.Over?)
    else s.body.err.None? && (s.task == Erred(why) || s.task == Ending(Some(why)))
  }

  ghost predicate Doomed(s: State) { exists why :: Condemned(s, why) }

  /** No error ended it, and `arrived` came in: all of it is pushed or in the
      task's hands, unless it was cancelled and will be found to be. */
  predicate Sound(s: State, arrived: Bytes) {
    && s.received == |arrived| && s.body.err.None? && (s.body.settled <==> s.task.Over?)
    && match s.task
       case Streaming => s.body.pushed == arrived
       case WantSlot(bytes, _) => s.body.pushed + bytes == arrived
       case Pushing(bytes) => s.body.pushed + bytes == arrived
       case Erred(_) => false
       case Leaving => s.cancelled || s.body.pushed == arrived
       case Ending(err) => err.None? && s.body.pushed == arrived
       case Over => s.body.pushed == arrived
  }

  lemma SoundStep(s: State, s': State, step: Step, arrived: Bytes)
    requires Sound(s, arrived) && NextStep(s, s', step)
    ensures match Cause(s, |arrived|, step)
            case None => Sound(s', arrived + ItemBytes(step))
            case Some(why) => Condemned(s', why)
  {
    if !step.Item? { assert arrived + [] == arrived; }
  }

  lemma CondemnedStep(s: State, s': State, step: Step, why: string, n: nat)
    requires Condemned(s, why) && NextStep(s, s', step)
    ensures Condemned(s', why) && Cause(s, n, step).None?
  {
  }

  // ----- every run ----------------------------------------------------------

  lemma ArrivedNext(steps: seq<Step>, j: nat)
    requires j < |steps|
    ensures Arrived(steps[..j + 1]) == Arrived(steps[..j]) + ItemBytes(steps[j])
  {
    assert steps[..j + 1][..j] == steps[..j];
  }

  ghost predicate CausedBefore(states: seq<State>, steps: seq<Step>, j: nat, why: string) {
    exists k :: 0 <= k < j && CausedAt(states, steps, k, why)
  }

  lemma CausedNext(states: seq<State>, steps: seq<Step>, j: nat, why: string)
    ensures CausedBefore(states, steps, j + 1, why) <==>
              CausedBefore(states, steps, j, why) || CausedAt(states, steps, j, why)
  {
  }

  /** The transfer was ended with exactly the errors of the earlier steps. */
  ghost predicate Told(states: seq<State>, steps: seq<Step>, j: nat)
    requires j < |states|
  {
    forall why :: Condemned(states[j], why) <==> CausedBefore(states, steps, j, why)
  }

  lemma ToldCondemned(states: seq<State>, steps: seq<Step>, j: nat, why: string)
    requires |steps| <= |states| && StepAt(states, steps, j) && Told(states, steps, j) && Condemned(states[j], why)
    ensures Told(states, steps, j + 1) && Condemned(states[j + 1], why)
  {
    CondemnedStep(states[j], states[j + 1], steps[j], why, |Arrived(steps[..j])|);
    var s' := states[j + 1];
    forall w ensures Condemned(s', w) <==> CausedBefore(states, steps, j + 1, w) {
      CausedNext(states, steps, j, w);
      assert Condemned(states[j], w) <==> w == why;
    }
  }

  lemma ToldSound(states: seq<State>, steps: seq<Step>, j: nat)
    requires |steps| <= |states| && StepAt(states, steps, j) && Told(states, steps, j) && Sound(states[j], Arrived(steps[..j]))
    ensures Told(states, steps, j + 1)
    ensures Sound(states[j + 1], Arrived(steps[..j + 1])) || Doomed(states[j + 1])
  {
    SoundStep(states[j], states[j + 1], steps[j], Arrived(steps[..j]));
    ArrivedNext(steps, j);
    var s' := states[j + 1];
    forall w ensures Condemned(s', w) <==> CausedBefore(states, steps, j + 1, w) {
      CausedNext(states, steps, j, w);
      assert !Condemned(states[j], w);
    }
  }

  /** In every state: an earlier step ended the transfer with an error, or none
      did and nothing that came in is lost. */
  lemma {:induction false} Story(slots: nat, cap: nat, states: seq<State>, steps: seq<Step>, j: nat)
    requires RunFrom(slots, cap, states, steps) && j < |states|
    ensures Told(states, steps, j)
    ensures Sound(states[j], Arrived(steps[..j])) || Doomed(states[j])
  {
    if j > 0 {
      Story(slots, cap, states, steps, j - 1);
      assert StepAt(states, steps, j - 1);
      var s := states[j - 1];
      if why :| Condemned(s, why) {
        ToldCondemned(states, steps, j - 1, why);
      } else {
        ToldSound(states, steps, j - 1);
      }
    }
  }

  /** An error stands: whatever comes after the step that ended the transfer with
      it, the request is not settled yet or has this error, and then every read
      that finds no chunk reports it. */
  lemma ErrorStands(slots: nat, cap: nat, states: seq<State>, steps: seq<Step>, k: nat, j: nat, why: string, max: nat)
    requires RunFrom(slots, cap, states, steps) && k < j < |states| && CausedAt(states, steps, k, why)
    ensures var b := states[j].body;
      && (b.settled ==> b.err == Some(why)) && (!b.settled ==> b.err.None?)
      && (b.settled && b.chunks == [] ==> ReadAnswer(b, max) == Failed(why))
  {
    Story(slots, cap, states, steps, j);
    assert CausedBefore(states, steps, j, why);
    assert Condemned(states[j], why);
  }

  /** A read reports an error exactly when no chunk is queued, the request has
      settled, and an earlier step ended the transfer with that error. */
  lemma FailsExactly(slots: nat, cap: nat, states: seq<State>, steps: seq<Step>, j: nat, max: nat, why: string)
    requires RunFrom(slots, cap, states, steps) && j < |states|
    ensures var b := states[j].body;
      ReadAnswer(b, max) == Failed(why) <==>
        b.chunks == [] && b.settled && CausedBefore(states, steps, j, why)
  {
    Story(slots, cap, states, steps, j);
    assert states[j].body.settled ==> (Condemned(states[j], why) <==> states[j].body.err == Some(why));
  }

  /** No silent truncation: a settled request without an error pushed every byte
      that came in, and once drained has delivered them all. It is one that no
      step ended with an error. */
  lemma CleanEndIsWhole(slots: nat, cap: nat, states: seq<State>, steps: seq<Step>, j: nat)
    requires RunFrom(slots, cap, states, steps) && j < |states| && states[j].body.settled
    ensures var b := states[j].body;
      && (b.err.None? <==> forall why :: !CausedBefore(states, steps, j, why))
      && (b.err.None? ==> b.pushed == Arrived(steps[..j]))
      && (b.err.None? && Done(b) ==> b.delivered == Arrived(steps[..j]))
  {
    Story(slots, cap, states, steps, j);
    Reached(slots, cap, states, steps, j);
    var b := states[j].body;
    if b.err.Some? {
      assert Condemned(states[j], b.err.value);
    } else {
      forall why ensures !CausedBefore(states, steps, j, why) { assert !Condemned(states[j], why); }
    }
  }

  /** While the stream goes on, the cap is the only thing that refuses an item,
      and it does so exactly when the body then exceeds it. */
  lemma CapExactly(slots: nat, cap: nat, states: seq<State>, steps: seq<Step>, j: nat)
    requires RunFrom(slots, cap, states, steps) && j < |steps| && steps[j].Item?
    ensures states[j + 1].task == if cap > 0 && |Arrived(steps[..j + 1])| > cap then Erred("too-large")
                                  else WantSlot(steps[j].bytes, false)
  {
    assert StepAt(states, steps, j);
    Story(slots, cap, states, steps, j);
    Reached(slots, cap, states, steps, j);
    ArrivedNext(steps, j);
  }

  // ----- cancellation -------------------------------------------------------

  /** Cancelled before the guard looked, so an error is or will be what it settles with. */
  predicate Revoked(s: State) {
    && s.cancelled && (s.body.settled ==> s.body.err.Some?)
    && (s.task.Ending? ==> s.task.err.Some?) && (s.task.Over? ==> s.body.settled)
  }

  lemma RevokedStep(s: State, s': State, step: Step)
    requires Revoked(s) && NextStep(s, s', step)
    ensures Revoked(s')
  {
  }

  /** A request that is cancelled before its guard has looked at the token never
      ends cleanly, whenever the rest happens. */
  lemma {:induction false} CancelledNeverClean(slots: nat, cap: nat, states: seq<State>, steps: seq<Step>, i: nat, j: nat)
    requires RunFrom(slots, cap, states, steps) && i < |steps| && i < j < |states| && steps[i] == Cancel
    requires !states[i].task.Ending? && !states[i].task.Over?
    ensures Revoked(states[j])
    ensures states[j].body.settled ==> states[j].body.err.Some?
  {
    assert StepAt(states, steps, j - 1);
    if j == i + 1 {
      Story(slots, cap, states, steps, i);
    } else {
      CancelledNeverClean(slots, cap, states, steps, i, j - 1);
      RevokedStep(states[j - 1], states[j], steps[j - 1]);
    }
  }

  // ----- a read that waits --------------------------------------------------

  /** Step k begins a read of thread th that finds nothing to give. */
  ghost predicate FoundNothing(states: seq<State>, steps: seq<Step>, k: nat, th: Tid, max: nat) {
    && k < |steps| <= |states| && steps[k] == ReadTurn(th, max)
    && states[k].body.chunks == [] && !states[k].body.settled
  }

  lemma WaitStep(s: State, s': State, step: Step, th: Tid, max: nat)
    requires NextStep(s, s', step) && Pc(s', th) == Waiting(max) && Pc(s, th) != Waiting(max)
    ensures step == ReadTurn(th, max) && s.body.chunks == [] && !s.body.settled
  {
  }

  /** A read waits only if it found no chunk and no settlement when it began. */
  lemma {:induction false} WaitsForNothing(slots: nat, cap: nat, states: seq<State>, steps: seq<Step>, j: nat, th: Tid, max: nat)
    requires RunFrom(slots, cap, states, steps) && j < |states| && Pc(states[j], th) == Waiting(max)
    ensures exists k :: 0 <= k < j && FoundNothing(states, steps, k, th, max)
  {
    assert StepAt(states, steps, j - 1);
    if Pc(states[j - 1], th) == Waiting(max) {
      WaitsForNothing(slots, cap, states, steps, j - 1, th, max);
    } else {
      WaitStep(states[j - 1], states[j], steps[j - 1], th, max);
      assert FoundNothing(states, steps, j - 1, th, max);
    }
  }
}

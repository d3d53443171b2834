/** What a client is told, and by which step: 503, 408, 413, 504, a reply, or
    nothing because it left. */
module ParkOutcomes {
  import opened Wrappers
  import opened ParkMachine
  import P = ParkMachine
  import O = ParkOwnership
  import T = ParkTheorems
  import FS = ParkFlowSteps
  import R = ParkOrder

  /** The step that ends task t, and how. */
  function Cause(s: State, step: Step, t: Id): Option<P.Outcome> {
    match step
    case TaskMoves(x, m) =>
      if x != t then None else
      (match m
       case CheckDown => if s.down then Some(Busy) else None
       case PermitLate => Some(Busy)
       case BodyLate => Some(BodySlow)
       case BodyFailed => Some(BodyBad)
       case LeaveEarly => Some(Left)
       case _ => None)
    case TaskActs(x, a) =>
      if x != t then None else
      (match a
       case ReturnRefused => Some(Busy)
       case Receive => if t in s.chans && s.chans[t].sent.Some? then Some(Got(s.chans[t].sent.value)) else None
       case SeeSenderGone => Some(SenderGone)
       case HandlerLate => Some(TimedOut)
       case LeavePush => Some(Left)
       case LeaveWait => Some(Left)
       case _ => None)
    case _ => None
  }

  predicate EndedIn(s: State, t: Id, o: P.Outcome) { t in s.tasks && s.tasks[t].pc == Ended(o) }

  lemma MoveEnds(s: State, s': State, t: Id, m: TaskMove, o: P.Outcome)
    requires TaskMoveStep(s, s', t, m)
    ensures !(t in s.tasks && s.tasks[t].pc.Ended?)
    ensures EndedIn(s', t, o) <==> Cause(s, TaskMoves(t, m), t) == Some(o)
  {
    FS.TaskMoveFrame(s, s', t, m);
  }

  lemma ActEnds(s: State, s': State, t: Id, a: TaskAct, o: P.Outcome)
    requires O.Inv(s) && TaskActStep(s, s', t, a)
    ensures !(t in s.tasks && s.tasks[t].pc.Ended?)
    ensures EndedIn(s', t, o) <==> Cause(s, TaskActs(t, a), t) == Some(o)
  {
    assert O.At(s, t);
  }

  lemma StepEnds(s: State, s': State, step: Step, t: Id, o: P.Outcome)
    requires O.Inv(s) && NextStep(s, s', step)
    ensures EndedIn(s', t, o) <==> EndedIn(s, t, o) || Cause(s, step, t) == Some(o)
  {
    match step
    case TaskMoves(x, m) => if x == t { MoveEnds(s, s', t, m, o); } else { FS.TaskMoveFrame(s, s', x, m); }
    case TaskActs(x, a) => if x == t { ActEnds(s, s', t, a, o); } else { FS.TaskActFrame(s, s', x, a); }
    case ThreadMoves(_, _) => R.StepTasks(s, s', step);
    case ThreadActs(_, _) => R.StepTasks(s, s', step);
  }

  ghost predicate CausedAt(states: seq<State>, steps: seq<Step>, k: nat, t: Id, o: P.Outcome) {
    k < |steps| <= |states| && Cause(states[k], steps[k], t) == Some(o)
  }

  ghost predicate CausedBefore(states: seq<State>, steps: seq<Step>, j: nat, t: Id, o: P.Outcome) {
    exists k :: 0 <= k < j && CausedAt(states, steps, k, t, o)
  }

  lemma CausedNext(states: seq<State>, steps: seq<Step>, j: nat, t: Id, o: P.Outcome)
    ensures CausedBefore(states, steps, j + 1, t, o) <==> CausedBefore(states, steps, j, t, o) || CausedAt(states, steps, j, t, o)
  {
  }

  /** In every state a request has ended with an outcome exactly when an earlier
      step was the cause of that one; so it never has two. */
  lemma {:induction false} OutcomeIsCause(queue: nat, states: seq<State>, steps: seq<Step>, j: nat, t: Id, o: P.Outcome)
    requires T.RunFrom(queue, states, steps) && j < |states|
    ensures EndedIn(states[j], t, o) <==> CausedBefore(states, steps, j, t, o)
  {
    if j > 0 {
      OutcomeIsCause(queue, states, steps, j - 1, t, o);
      T.Reached(queue, states, steps, j - 1);
      assert StepAt(states, steps, j - 1);
      StepEnds(states[j - 1], states[j], steps[j - 1], t, o);
      CausedNext(states, steps, j - 1, t, o);
    }
  }

  // ----- a stopped server ---------------------------------------------------

  /** Not yet past the first look at `down`, or turned away there. */
  predicate AtTheDoor(s: State, t: Id) {
    t in s.tasks ==> s.tasks[t].pc.Arrived? || s.tasks[t].pc == Ended(Busy)
  }

  lemma DoorMove(s: State, s': State, t: Id, m: TaskMove)
    requires TaskMoveStep(s, s', t, m) && s.down && AtTheDoor(s, t)
    ensures AtTheDoor(s', t)
  {
    FS.TaskMoveFrame(s, s', t, m);
  }

  lemma DoorStep(s: State, s': State, step: Step, t: Id)
    requires NextStep(s, s', step) && s.down && AtTheDoor(s, t)
    ensures s'.down && AtTheDoor(s', t)
  {
    match step
    case TaskMoves(x, m) =>
      FS.TaskMoveFrame(s, s', x, m);
      if x == t { DoorMove(s, s', t, m); }
    case TaskActs(x, a) => FS.TaskActFrame(s, s', x, a);
    case ThreadMoves(th, n) => FS.ThreadMoveFrame(s, s', th, n);
    case ThreadActs(th, b) => FS.ThreadActFrame(s, s', th, b);
  }

  /** Once the server is down, a request that has not passed its first look at
      `down` takes no body slot, reads no body and is not pushed: all it can get
      is the 503. */
  lemma {:induction false} DownTurnsAway(states: seq<State>, steps: seq<Step>, i: nat, j: nat, t: Id)
    requires Run(states, steps) && i <= j < |states| && states[i].down && AtTheDoor(states[i], t)
    ensures states[j].down && AtTheDoor(states[j], t)
  {
    if i < j {
      DownTurnsAway(states, steps, i, j - 1, t);
      assert StepAt(states, steps, j - 1);
      DoorStep(states[j - 1], states[j], steps[j - 1], t);
    }
  }

  // ----- a refused push -----------------------------------------------------

  /** The push of t gives up: its look under the lock finds the server down, or
      after a look that found the queue full its deadline has passed. */
  predicate GivesUp(s: State, step: Step, t: Id) {
    step == TaskMoves(t, DeadlinePassed) || (step == TaskMoves(t, ReadDown) && s.down)
  }

  predicate GivenUp(s: State, t: Id) {
    t in s.tasks && (s.tasks[t].pc.Refused? || s.tasks[t].pc.RefusedLast?)
  }

  lemma MoveGivesUp(s: State, s': State, t: Id, m: TaskMove)
    requires TaskMoveStep(s, s', t, m)
    ensures GivenUp(s', t) <==> (GivenUp(s, t) || GivesUp(s, TaskMoves(t, m), t))
  {
    FS.TaskMoveFrame(s, s', t, m);
  }

  lemma ActGivesUp(s: State, s': State, t: Id, a: TaskAct)
    requires TaskActStep(s, s', t, a)
    ensures !GivenUp(s', t) && (GivenUp(s, t) <==> a.ReturnRefused?)
  {
  }

  lemma StepGivesUp(s: State, s': State, step: Step, t: Id)
    requires NextStep(s, s', step)
    ensures GivenUp(s', t) <==> (GivenUp(s, t) && step != TaskActs(t, ReturnRefused)) || GivesUp(s, step, t)
  {
    match step
    case TaskMoves(x, m) => if x == t { MoveGivesUp(s, s', t, m); } else { FS.TaskMoveFrame(s, s', x, m); }
    case TaskActs(x, a) => if x == t { ActGivesUp(s, s', t, a); } else { FS.TaskActFrame(s, s', x, a); }
    case ThreadMoves(_, _) => R.StepTasks(s, s', step);
    case ThreadActs(_, _) => R.StepTasks(s, s', step);
  }

  /** A push is given back only after it gave up: not merely because the queue
      was full, but because it still was when the deadline had passed. */
  lemma {:induction false} RefusedGaveUp(queue: nat, states: seq<State>, steps: seq<Step>, j: nat, t: Id) returns (k: nat)
    requires T.RunFrom(queue, states, steps) && j < |states| && GivenUp(states[j], t)
    ensures k < j && GivesUp(states[k], steps[k], t)
  {
    assert StepAt(states, steps, j - 1);
    StepGivesUp(states[j - 1], states[j], steps[j - 1], t);
    k := j - 1;
    if !GivesUp(states[k], steps[k], t) { k := RefusedGaveUp(queue, states, steps, j - 1, t); }
  }
}

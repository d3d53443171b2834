/** What every run of the parked-request protocol keeps. */
module ParkTheorems {
  import opened Wrappers
  import opened ParkMachine
  import O = ParkOwnership
  import F = ParkFlow
  import OS = ParkOwnershipSteps
  import FS = ParkFlowSteps
  import opened Counting

  ghost predicate Inv(s: State) {
    O.Inv(s) && F.Inv(s)
  }

  /** The taker that is about to build a handle owns the only sender, so the
      request has no unanswered handle yet. */
  lemma BuildsOnce(s: State, th: Tid)
    requires O.Inv(s) && Pc(s, th).TakeBuild?
    ensures var id := Pc(s, th).id; id !in s.handles || !s.handles[id]
  {
    var id := Pc(s, th).id;
    assert O.At(s, id);
    assert id in O.Frame(Pc(s, th));
  }

  lemma StepKeepsFlow(s: State, s': State, step: Step)
    requires O.Inv(s) && F.Inv(s) && NextStep(s, s', step)
    ensures F.Inv(s')
  {
    match step
    case TaskMoves(t, m) => FS.TaskMoveFlow(s, s', t, m);
    case TaskActs(t, a) => FS.TaskActFlow(s, s', t, a);
    case ThreadMoves(th, n) => FS.ThreadMoveFlow(s, s', th, n);
    case ThreadActs(th, b) =>
      if b.Build? { BuildsOnce(s, th); }
      FS.ThreadActFlow(s, s', th, b);
  }

  ghost predicate RunFrom(queue: nat, states: seq<State>, steps: seq<Step>) {
    Run(states, steps) && states[0] == Init(queue)
  }

  lemma {:induction false} Reached(queue: nat, states: seq<State>, steps: seq<Step>, i: nat)
    requires RunFrom(queue, states, steps) && i < |states|
    ensures Inv(states[i])
  {
    if i == 0 {
      OS.InitOwned(queue);
      F.InitFlow(queue);
    } else {
      Reached(queue, states, steps, i - 1);
      assert StepAt(states, steps, i - 1);
      OS.StepOwned(states[i - 1], states[i], steps[i - 1]);
      StepKeepsFlow(states[i - 1], states[i], steps[i - 1]);
    }
  }

  // ----- one owner, one answer ----------------------------------------------

  lemma PlaceIsOwn(s: State, p: Place, x: Id)
    requires O.At(s, x) && O.Has(s, p, x)
    ensures x in s.own && s.own[x] == p
  {
    match p
    case AtPusher =>
    case AtQueue =>
    case AtThread(th) => assert x in O.Frame(Pc(s, th));
    case AtHandle =>
  }

  /** In every reachable state the sender of a request is in exactly one place
      (and there once), or it was consumed once and is nowhere. */
  lemma OneOwner(queue: nat, states: seq<State>, steps: seq<Step>, i: nat, x: Id)
    requires RunFrom(queue, states, steps) && i < |states| && x in states[i].chans
    ensures var s := states[i]; var c := s.chans[x];
      && O.NoDups(s)
      && c.sends + c.unsent <= 1
      && (c.sends + c.unsent == 0 <==> exists p :: O.Has(s, p, x))
      && (forall p, p' :: O.Has(s, p, x) && O.Has(s, p', x) ==> p == p')
  {
    Reached(queue, states, steps, i);
    var s := states[i];
    assert O.At(s, x);
    forall p | O.Has(s, p, x) ensures x in s.own && s.own[x] == p {
      PlaceIsOwn(s, p, x);
    }
    if !s.own[x].Consumed? {
      assert O.Has(s, s.own[x], x);
    }
  }

  /** A task that waits for its answer has it in the channel, or its sender is
      alive in the queue, with a thread, or in a handle. */
  lemma WaiterIsServed(queue: nat, states: seq<State>, steps: seq<Step>, i: nat, t: Id)
    requires RunFrom(queue, states, steps) && i < |states|
    requires t in states[i].tasks && states[i].tasks[t].pc.Waiting?
    ensures var s := states[i];
      && t in s.chans && s.chans[t].rx && s.chans[t].unsent == 0
      && (s.chans[t].inbox.Some? || exists p :: O.Has(s, p, t) && p != AtPusher)
  {
    Reached(queue, states, steps, i);
    var s := states[i];
    assert O.At(s, t);
    if !s.own[t].Consumed? {
      assert O.Has(s, s.own[t], t);
    }
  }

  /** The 503 for a destroyed sender is never what a live waiter gets. */
  lemma FallbackUnreachable(queue: nat, states: seq<State>, steps: seq<Step>, i: nat)
    requires RunFrom(queue, states, steps) && i < |steps|
    ensures !(steps[i].TaskActs? && steps[i].a.SeeSenderGone?)
  {
    assert StepAt(states, steps, i);
    if steps[i].TaskActs? && steps[i].a.SeeSenderGone? {
      WaiterIsServed(queue, states, steps, i, steps[i].t);
      assert false;
    }
  }

  /** A task that got a reply got the one that was sent on its channel. */
  lemma ReplyIsTheOneSent(queue: nat, states: seq<State>, steps: seq<Step>, i: nat, t: Id)
    requires RunFrom(queue, states, steps) && i < |steps| && steps[i] == TaskActs(t, Receive)
    ensures t in states[i].chans && states[i].chans[t].sends == 1
    ensures t in states[i + 1].tasks && states[i + 1].tasks[t].pc.Ended?
    ensures states[i].chans[t].sent.Some?
         && states[i + 1].tasks[t].pc == Ended(Got(states[i].chans[t].sent.value))
  {
    Reached(queue, states, steps, i);
    assert StepAt(states, steps, i);
    assert O.At(states[i], t);
  }

  // ----- slots --------------------------------------------------------------

  /** A push asleep and not notified: the queue is full, or a notify is owed. */
  lemma NoLostSlot(queue: nat, states: seq<State>, steps: seq<Step>, i: nat, t: Id)
    requires RunFrom(queue, states, steps) && i < |states|
    requires t in states[i].tasks && states[i].tasks[t].pc.PushAsleep? && !states[i].tasks[t].notified
    ensures |states[i].q| == states[i].cap || F.Owed(states[i])
  {
    Reached(queue, states, steps, i);
    assert F.Unwoken(states[i].tasks[t]);
  }

  lemma QueueBounded(queue: nat, states: seq<State>, steps: seq<Step>, i: nat)
    requires RunFrom(queue, states, steps) && i < |states|
    ensures |states[i].q| <= states[i].cap && 1 <= states[i].cap <= 65536
    ensures 1 <= queue <= 65536 ==> states[i].cap == queue
  {
    Reached(queue, states, steps, i);
    CapFixed(states, steps, i);
  }

  lemma {:induction false} CapFixed(states: seq<State>, steps: seq<Step>, i: nat)
    requires Run(states, steps) && i < |states|
    ensures states[i].cap == states[0].cap
  {
    if i > 0 {
      CapFixed(states, steps, i - 1);
      assert StepAt(states, steps, i - 1);
    }
  }

  /** `push` gives a request back only because its last look under the lock
      saw the server down or `cap` survivors. */
  lemma RefusedForCause(queue: nat, states: seq<State>, steps: seq<Step>, i: nat, t: Id)
    requires RunFrom(queue, states, steps) && i < |states|
    requires t in states[i].tasks && states[i].tasks[t].pc.Refused?
    ensures var why := states[i].tasks[t].pc.why;
            why == SawFull(states[i].cap) || (why == SawDown && states[i].down)
  {
    Reached(queue, states, steps, i);
    assert F.RefusalFounded(states[i], states[i].tasks[t].pc);
  }

  // ----- stop is final ------------------------------------------------------

  /** Down, empty, and no push past its check of `down`. */
  ghost predicate Sealed(s: State) {
    s.down && s.q == [] && forall t :: t in s.tasks ==> !s.tasks[t].pc.PushPrune?
  }

  lemma DrainSeals(s: State, s': State, th: Tid)
    requires F.Inv(s) && ThreadActStep(s, s', th, DrainAll)
    ensures Sealed(s')
  {
    assert F.ThreadLocks(Pc(s, th)) && F.Stopping(Pc(s, th));
  }

  lemma SealedKept(s: State, s': State, step: Step)
    requires Sealed(s) && NextStep(s, s', step)
    ensures Sealed(s')
  {
    match step
    case TaskMoves(t, m) => SealedTaskMove(s, s', t, m);
    case TaskActs(t, a) => SealedTaskAct(s, s', t, a);
    case ThreadMoves(th, n) => FS.ThreadMoveFrame(s, s', th, n);
    case ThreadActs(th, b) => FS.ThreadActFrame(s, s', th, b);
  }

  lemma SealedTaskMove(s: State, s': State, t: Id, m: TaskMove)
    requires Sealed(s) && TaskMoveStep(s, s', t, m)
    ensures Sealed(s')
  {
    FS.TaskMoveFrame(s, s', t, m);
  }

  lemma SealedTaskAct(s: State, s': State, t: Id, a: TaskAct)
    requires Sealed(s) && TaskActStep(s, s', t, a)
    ensures Sealed(s')
  {
    FS.TaskActFrame(s, s', t, a);
  }

  /** After any stopper's drain the queue is empty forever. */
  lemma {:induction false} StopIsFinal(queue: nat, states: seq<State>, steps: seq<Step>, i: nat, th: Tid, j: nat)
    requires RunFrom(queue, states, steps) && i < |steps| && steps[i] == ThreadActs(th, DrainAll)
    requires i < j < |states|
    ensures states[j].q == [] && states[j].down && Sealed(states[j])
  {
    if j == i + 1 {
      Reached(queue, states, steps, i);
      assert StepAt(states, steps, i);
      DrainSeals(states[i], states[i + 1], th);
    } else {
      StopIsFinal(queue, states, steps, i, th, j - 1);
      assert StepAt(states, steps, j - 1);
      SealedKept(states[j - 1], states[j], steps[j - 1]);
    }
  }

  predicate IsDrained(s: State, x: Id) {
    x in s.chans && s.chans[x].drained
  }

  lemma TaskActKeepsMark(s: State, s': State, t: Id, a: TaskAct, x: Id)
    requires TaskActStep(s, s', t, a) && IsDrained(s, x) && (a.BodyRead? ==> x != t)
    ensures IsDrained(s', x)
  {
  }

  lemma ThreadActKeepsMark(s: State, s': State, th: Tid, b: ThreadAct, x: Id)
    requires ThreadActStep(s, s', th, b) && IsDrained(s, x)
    ensures IsDrained(s', x)
  {
  }

  lemma DrainedStays(s: State, s': State, step: Step, x: Id)
    requires O.Inv(s) && NextStep(s, s', step) && IsDrained(s, x)
    ensures IsDrained(s', x)
  {
    assert O.At(s, x);
    match step
    case TaskMoves(_, _) =>
    case TaskActs(t, a) => TaskActKeepsMark(s, s', t, a, x);
    case ThreadMoves(_, _) =>
    case ThreadActs(th, b) => ThreadActKeepsMark(s, s', th, b, x);
  }

  lemma DrainMarks(s: State, s': State, th: Tid, x: Id)
    requires O.At(s, x) && ThreadActStep(s, s', th, DrainAll) && x in s.q
    ensures IsDrained(s', x)
  {
    assert O.Has(s, AtQueue, x);
  }

  ghost predicate OwedOr503(s: State, x: Id) {
    (x in s.chans && s.chans[x].sent == Some(Unavailable)) || exists g :: x in DrainList(Pc(s, g))
  }

  function DrainList(pc: ThreadPc): seq<Id> {
    if pc.Draining? then pc.list else []
  }

  lemma DrainedWhere(s: State, x: Id)
    requires O.At(s, x) && IsDrained(s, x)
    ensures OwedOr503(s, x)
  {
    var p := s.own[x];
    if p.AtThread? {
      assert O.Has(s, p, x);
      assert x in DrainList(Pc(s, p.th));
    }
  }

  /** Every entry the drain removed is still in a stopper's list, or the 503
      was sent on it; with OneOwner, nothing else ever is. */
  lemma {:induction false} DrainedGets503(queue: nat, states: seq<State>, steps: seq<Step>, i: nat, th: Tid, x: Id, j: nat)
    requires RunFrom(queue, states, steps) && i < |steps| && steps[i] == ThreadActs(th, DrainAll)
    requires x in states[i].q && i < j < |states|
    ensures IsDrained(states[j], x) && OwedOr503(states[j], x)
  {
    assert StepAt(states, steps, j - 1);
    Reached(queue, states, steps, j - 1);
    if j == i + 1 {
      assert O.At(states[i], x);
      DrainMarks(states[i], states[j], th, x);
    } else {
      DrainedGets503(queue, states, steps, i, th, x, j - 1);
      DrainedStays(states[j - 1], states[j], steps[j - 1], x);
    }
    Reached(queue, states, steps, j);
    assert O.At(states[j], x);
    DrainedWhere(states[j], x);
  }

  // ----- accounting ---------------------------------------------------------

  /** `reading` counts the tasks that hold a body slot and cannot underflow;
      `in_flight` counts exactly the handles with a reply still in them and
      the threads between counting and building or between taking and
      subtracting, so it cannot underflow either. */
  lemma Accounting(queue: nat, states: seq<State>, steps: seq<Step>, i: nat)
    requires RunFrom(queue, states, steps) && i < |states|
    ensures var s := states[i];
      && s.cap - s.permits == Count(s.tasks, F.HoldsPermit) && s.permits <= s.cap
      && s.inFlight == Count(s.handles, F.Unreplied) + Count(s.threads, F.Counted) && s.inFlight >= 0
  {
    Reached(queue, states, steps, i);
  }
}

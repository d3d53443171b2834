/** First come, first served: requests are handed to the pullers in the order in
    which they were parked, and what is turned away was never parked. */
module ParkOrder {
  import opened Wrappers
  import opened ParkMachine
  import O = ParkOwnership
  import T = ParkTheorems
  import FS = ParkFlowSteps

  /** The position in the run of the step that parks x, or the length of the run. */
  function ParksAt(steps: seq<Step>, x: Id): (p: nat)
    ensures p <= |steps| && (p < |steps| ==> steps[p] == TaskActs(x, Park))
    ensures forall i :: 0 <= i < p ==> steps[i] != TaskActs(x, Park)
  {
    if steps == [] || steps[0] == TaskActs(x, Park) then 0 else 1 + ParksAt(steps[1..], x)
  }

  /** Turned away: 503, 408 or 413. */
  predicate TurnedAway(pc: TaskPc) { pc == Ended(Busy) || pc == Ended(BodySlow) || pc == Ended(BodyBad) }

  /** Given a reply, a 504, or the 503 for a lost sender. */
  predicate Served(pc: TaskPc) { pc.Ended? && (pc.o.Got? || pc.o.SenderGone? || pc.o.TimedOut?) }

  predicate Before(pc: TaskPc) {
    TurnedAway(pc) || (!pc.Ended? && !After(pc))
  }

  predicate After(pc: TaskPc) {
    pc.PushSignal? || pc.PushPushed? || pc.Accepted? || pc.Waiting? || Served(pc)
  }

  ghost predicate TasksInLine(s: State, steps: seq<Step>, j: nat) {
    forall t :: if t !in s.tasks || Before(s.tasks[t].pc) then ParksAt(steps, t) >= j
                else After(s.tasks[t].pc) ==> ParksAt(steps, t) < j
  }

  ghost predicate QueueInLine(q: seq<Id>, steps: seq<Step>, j: nat) {
    && (forall a :: 0 <= a < |q| ==> ParksAt(steps, q[a]) < j)
    && (forall a, b :: 0 <= a < b < |q| ==> ParksAt(steps, q[a]) < ParksAt(steps, q[b]))
  }

  ghost predicate PlacesInLine(s: State, steps: seq<Step>, j: nat) {
    forall x :: Beyond(s, x) ==> ParksAt(steps, x) < j
  }

  /** The sender has left the push frame and was not consumed. */
  predicate Beyond(s: State, x: Id) {
    x in s.own && (s.own[x].AtQueue? || s.own[x].AtThread? || s.own[x].AtHandle?)
  }

  ghost predicate InLine(s: State, steps: seq<Step>, j: nat) {
    TasksInLine(s, steps, j) && QueueInLine(s.q, steps, j) && PlacesInLine(s, steps, j)
  }

  // ----- one step -----------------------------------------------------------

  lemma TaskMoveKind(s: State, t: Id, m: TaskMove)
    requires TaskMoveEffect(s, t, m).Goes?
    ensures var pc' := TaskMoveEffect(s, t, m).pc;
      if t !in s.tasks || Before(s.tasks[t].pc) then Before(pc') || pc' == Ended(Left)
      else After(s.tasks[t].pc) && After(pc')
  {
  }

  lemma TaskActKind(s: State, s': State, t: Id, a: TaskAct)
    requires TaskActStep(s, s', t, a)
    ensures t in s.tasks && t in s'.tasks
    ensures var pc, pc' := s.tasks[t].pc, s'.tasks[t].pc;
      if a.Park? then Before(pc) && After(pc')
      else if Before(pc) then Before(pc') || pc' == Ended(Left)
      else After(pc) && (After(pc') || pc' == Ended(Left))
  {
  }

  /** The queue after a step that parks nothing. */
  predicate Thinned(q: seq<Id>, q': seq<Id>) {
    q' == q || q' == [] || (q != [] && q' == q[1..]) || exists k: nat :: k < |q| && q' == Without(q, k)
  }

  lemma TaskActQueue(s: State, s': State, t: Id, a: TaskAct)
    requires TaskActStep(s, s', t, a)
    ensures if a.Park? then s'.q == s.q + [t] else Thinned(s.q, s'.q)
    ensures forall x :: Beyond(s', x) ==> Beyond(s, x) || (a.Park? && x == t)
  {
  }

  lemma ThreadActQueue(s: State, s': State, th: Tid, b: ThreadAct)
    requires O.Inv(s) && ThreadActStep(s, s', th, b)
    ensures Thinned(s.q, s'.q) && forall x :: Beyond(s', x) ==> Beyond(s, x)
  {
    if b.Build? {
      assert Pc(s, th).id in O.Frame(Pc(s, th)) && O.At(s, Pc(s, th).id);
    } else if b.TakeReply? || b.DropHandle? {
      assert O.Has(s, AtHandle, b.id) && O.At(s, b.id);
    } else if b.Pop? || b.DrainAll? {
      forall x | x in s.q ensures Beyond(s, x) { assert O.Has(s, AtQueue, x) && O.At(s, x); }
    }
  }

  lemma ThinnedInLine(q: seq<Id>, q': seq<Id>, steps: seq<Step>, j: nat)
    requires QueueInLine(q, steps, j) && Thinned(q, q')
    ensures QueueInLine(q', steps, j)
  {
  }

  lemma TaskMovesOnly(s: State, s': State, t: Id, m: TaskMove)
    requires TaskMoveStep(s, s', t, m)
    ensures s'.q == s.q && s'.own == s.own
  {
  }

  lemma ThreadMovesOnly(s: State, s': State, th: Tid, n: ThreadMove)
    requires ThreadMoveStep(s, s', th, n)
    ensures s'.q == s.q && s'.own == s.own
  {
  }

  lemma StepTasks(s: State, s': State, step: Step)
    requires NextStep(s, s', step) && (step.ThreadMoves? || step.ThreadActs?)
    ensures s'.tasks.Keys == s.tasks.Keys && forall x :: x in s.tasks ==> s'.tasks[x].pc == s.tasks[x].pc
  {
    match step
    case ThreadMoves(th, n) => FS.ThreadMoveFrame(s, s', th, n);
    case ThreadActs(th, b) => FS.ThreadActFrame(s, s', th, b);
  }

  /** At most task t moves: over its parking if it parks, else it stays on its side. */
  ghost predicate OneMoves(s: State, s': State, t: Id, parks: bool) {
    && s'.tasks.Keys == s.tasks.Keys + {t} && (forall x :: x in s.tasks && x != t ==> s'.tasks[x].pc == s.tasks[x].pc)
    && var before, pc' := t !in s.tasks || Before(s.tasks[t].pc), s'.tasks[t].pc;
       if parks then before && After(pc')
       else if before then Before(pc') || pc' == Ended(Left)
       else After(pc') || pc' == Ended(Left)
  }

  lemma OneStays(s: State, s': State, t: Id, parks: bool, steps: seq<Step>, j: nat)
    requires OneMoves(s, s', t, parks) && TasksInLine(s, steps, j) && j < |steps|
    requires forall x :: steps[j] == TaskActs(x, Park) <==> parks && x == t
    requires t in s.tasks && !Before(s.tasks[t].pc) ==> After(s.tasks[t].pc)
    ensures TasksInLine(s', steps, j + 1)
  {
  }

  lemma TasksStay(s: State, s': State, step: Step, steps: seq<Step>, j: nat)
    requires NextStep(s, s', step) && j < |steps| && steps[j] == step && TasksInLine(s, steps, j)
    ensures TasksInLine(s', steps, j + 1)
  {
    match step
    case TaskMoves(t, m) =>
      TaskMoveKind(s, t, m);
      FS.TaskMoveFrame(s, s', t, m);
      OneStays(s, s', t, false, steps, j);
    case TaskActs(t, a) =>
      TaskActKind(s, s', t, a);
      FS.TaskActFrame(s, s', t, a);
      OneStays(s, s', t, a.Park?, steps, j);
    case ThreadMoves(_, _) => StepTasks(s, s', step); NoneStays(s, s', steps, j);
    case ThreadActs(_, _) => StepTasks(s, s', step); NoneStays(s, s', steps, j);
  }

  lemma NoneStays(s: State, s': State, steps: seq<Step>, j: nat)
    requires s'.tasks.Keys == s.tasks.Keys && forall x :: x in s.tasks ==> s'.tasks[x].pc == s.tasks[x].pc
    requires TasksInLine(s, steps, j) && j < |steps| && !steps[j].TaskActs?
    ensures TasksInLine(s', steps, j + 1)
  {
  }

  /** A task that parks had not parked before. */
  lemma ParksOnce(s: State, s': State, t: Id, steps: seq<Step>, j: nat)
    requires TaskActStep(s, s', t, Park) && j < |steps| && steps[j] == TaskActs(t, Park) && TasksInLine(s, steps, j)
    ensures ParksAt(steps, t) == j
  {
  }

  lemma StepInLine(s: State, s': State, step: Step, steps: seq<Step>, j: nat)
    requires O.Inv(s) && NextStep(s, s', step) && j < |steps| && steps[j] == step && InLine(s, steps, j)
    ensures InLine(s', steps, j + 1)
  {
    TasksStay(s, s', step, steps, j);
    match step
    case TaskMoves(t, m) => TaskMovesOnly(s, s', t, m);
    case ThreadMoves(th, n) => ThreadMovesOnly(s, s', th, n);
    case TaskActs(t, a) =>
      TaskActQueue(s, s', t, a);
      if a.Park? { ParksOnce(s, s', t, steps, j); } else { ThinnedInLine(s.q, s'.q, steps, j); }
    case ThreadActs(th, b) =>
      ThreadActQueue(s, s', th, b);
      ThinnedInLine(s.q, s'.q, steps, j);
  }

  lemma InitInLine(queue: nat, steps: seq<Step>)
    ensures InLine(Init(queue), steps, 0)
  {
  }

  lemma {:induction false} ReachedInLine(queue: nat, states: seq<State>, steps: seq<Step>, j: nat)
    requires T.RunFrom(queue, states, steps) && j < |states|
    ensures InLine(states[j], steps, j)
  {
    if j == 0 {
      InitInLine(queue, steps);
    } else {
      var s, s' := states[j - 1], states[j];
      ReachedInLine(queue, states, steps, j - 1);
      T.Reached(queue, states, steps, j - 1);
      assert StepAt(states, steps, j - 1);
      StepInLine(s, s', steps[j - 1], steps, j - 1);
    }
  }

  // ----- first come, first served -------------------------------------------

  /** The request a thread has just taken. */
  function TakenBy(s: State, th: Tid): Option<Id> {
    if Pc(s, th).TakeNotify? then Pc(s, th).got else None
  }

  /** Everything in the queue was parked after p. */
  ghost predicate AllAfter(s: State, steps: seq<Step>, p: nat) {
    forall y :: y in s.q ==> ParksAt(steps, y) > p
  }

  lemma StaysAfter(s: State, s': State, step: Step, steps: seq<Step>, j: nat, p: nat)
    requires O.Inv(s) && NextStep(s, s', step) && j < |steps| && steps[j] == step && p < j
    requires TasksInLine(s, steps, j) && AllAfter(s, steps, p)
    ensures AllAfter(s', steps, p)
  {
    QueueStep(s, s', step);
    if step.TaskActs? && step.a.Park? { ParksOnce(s, s', step.t, steps, j); }
  }

  /** Only a parking brings anything into the queue. */
  lemma QueueStep(s: State, s': State, step: Step)
    requires O.Inv(s) && NextStep(s, s', step)
    ensures forall y :: y in s'.q ==> y in s.q || step == TaskActs(y, Park)
  {
    match step
    case TaskMoves(t, m) => TaskMovesOnly(s, s', t, m);
    case ThreadMoves(th, n) => ThreadMovesOnly(s, s', th, n);
    case TaskActs(t, a) => TaskActAdds(s, s', t, a);
    case ThreadActs(th, b) => ThreadActAdds(s, s', th, b);
  }

  lemma TaskActAdds(s: State, s': State, t: Id, a: TaskAct)
    requires TaskActStep(s, s', t, a)
    ensures forall y :: y in s'.q ==> y in s.q || (a.Park? && y == t)
  {
    TaskActQueue(s, s', t, a);
    if !a.Park? { ThinnedIn(s.q, s'.q); }
  }

  lemma ThreadActAdds(s: State, s': State, th: Tid, b: ThreadAct)
    requires O.Inv(s) && ThreadActStep(s, s', th, b)
    ensures forall y :: y in s'.q ==> y in s.q
  {
    ThreadActQueue(s, s', th, b);
    ThinnedIn(s.q, s'.q);
  }

  lemma ThinnedIn(q: seq<Id>, q': seq<Id>)
    requires Thinned(q, q')
    ensures forall y :: y in q' ==> y in q
  {
  }

  lemma AfterStep(queue: nat, states: seq<State>, steps: seq<Step>, j: nat, p: nat)
    requires T.RunFrom(queue, states, steps) && j < |steps| && p < j && AllAfter(states[j], steps, p)
    ensures AllAfter(states[j + 1], steps, p)
  {
    ReachedInLine(queue, states, steps, j);
    T.Reached(queue, states, steps, j);
    assert StepAt(states, steps, j);
    StaysAfter(states[j], states[j + 1], steps[j], steps, j, p);
  }

  lemma {:induction false} QueueAfter(queue: nat, states: seq<State>, steps: seq<Step>, i: nat, j: nat, p: nat)
    requires T.RunFrom(queue, states, steps) && i <= j < |states| && p < i && AllAfter(states[i], steps, p)
    ensures AllAfter(states[j], steps, p)
  {
    if i < j {
      QueueAfter(queue, states, steps, i, j - 1, p);
      AfterStep(queue, states, steps, j - 1, p);
    }
  }

  /** A take gives a request that was parked, and before every one it leaves. */
  lemma TakesOldest(queue: nat, states: seq<State>, steps: seq<Step>, i: nat, g: Tid)
    requires T.RunFrom(queue, states, steps) && i < |steps| && steps[i] == ThreadActs(g, Pop)
    ensures TakenBy(states[i + 1], g).Some?
    ensures var p := ParksAt(steps, TakenBy(states[i + 1], g).value); p < i && AllAfter(states[i + 1], steps, p)
  {
    ReachedInLine(queue, states, steps, i);
    assert StepAt(states, steps, i);
  }

  /** Of two takes, the earlier one gives the request that was parked earlier. */
  lemma TakenInOrder(queue: nat, states: seq<State>, steps: seq<Step>, i: nat, g: Tid, j: nat, h: Tid)
    requires T.RunFrom(queue, states, steps) && i < j < |steps|
    requires steps[i] == ThreadActs(g, Pop) && steps[j] == ThreadActs(h, Pop)
    ensures TakenBy(states[i + 1], g).Some? && TakenBy(states[j + 1], h).Some?
    ensures ParksAt(steps, TakenBy(states[i + 1], g).value) < ParksAt(steps, TakenBy(states[j + 1], h).value) < j
  {
    TakesOldest(queue, states, steps, i, g);
    TakesOldest(queue, states, steps, j, h);
    var p := ParksAt(steps, TakenBy(states[i + 1], g).value);
    QueueAfter(queue, states, steps, i + 1, j, p);
    assert StepAt(states, steps, j);
  }

  // ----- turned away is never handled ---------------------------------------

  lemma EndedStep(s: State, s': State, step: Step, t: Id)
    requires NextStep(s, s', step) && t in s.tasks && s.tasks[t].pc.Ended?
    ensures t in s'.tasks && s'.tasks[t].pc == s.tasks[t].pc
  {
    match step
    case TaskMoves(x, m) => FS.TaskMoveFrame(s, s', x, m);
    case TaskActs(x, a) => FS.TaskActFrame(s, s', x, a);
    case ThreadMoves(_, _) => StepTasks(s, s', step);
    case ThreadActs(_, _) => StepTasks(s, s', step);
  }

  lemma {:induction false} EndedStays(states: seq<State>, steps: seq<Step>, i: nat, j: nat, t: Id)
    requires Run(states, steps) && i <= j < |states| && t in states[i].tasks && states[i].tasks[t].pc.Ended?
    ensures t in states[j].tasks && states[j].tasks[t].pc == states[i].tasks[t].pc
  {
    if i < j {
      EndedStays(states, steps, i, j - 1, t);
      assert StepAt(states, steps, j - 1);
      EndedStep(states[j - 1], states[j], steps[j - 1], t);
    }
  }

  /** A client that was told 503, 408 or 413 by `park` itself can try again: its
      request was not and will not be parked, no handler has or gets it. */
  lemma TurnedAwayUnseen(queue: nat, states: seq<State>, steps: seq<Step>, i: nat, t: Id, k: nat, p: Place)
    requires T.RunFrom(queue, states, steps) && i < |states| && k < |states|
    requires t in states[i].tasks && TurnedAway(states[i].tasks[t].pc)
    ensures TaskActs(t, Park) !in steps
    ensures O.Has(states[k], p, t) ==> p == AtPusher
  {
    var n := |steps|;
    EndedStays(states, steps, i, n, t);
    ReachedInLine(queue, states, steps, n);
    assert ParksAt(steps, t) == n;
    T.Reached(queue, states, steps, k);
    ReachedInLine(queue, states, steps, k);
    assert O.At(states[k], t);
    if O.Has(states[k], p, t) { T.PlaceIsOwn(states[k], p, t); }
  }

  /** A client that got a reply, or a 504 from the handler limit, was parked
      once, and before. */
  lemma ServedWasParked(queue: nat, states: seq<State>, steps: seq<Step>, i: nat, t: Id)
    requires T.RunFrom(queue, states, steps) && i < |states|
    requires t in states[i].tasks && Served(states[i].tasks[t].pc)
    ensures exists k :: 0 <= k < i && steps[k] == TaskActs(t, Park)
    ensures forall k, l :: 0 <= k < l < |steps| && steps[k] == TaskActs(t, Park) ==> steps[l] != TaskActs(t, Park)
  {
    ReachedInLine(queue, states, steps, i);
    assert steps[ParksAt(steps, t)] == TaskActs(t, Park);
    forall k, l | 0 <= k < l < |steps| && steps[k] == TaskActs(t, Park) ensures steps[l] != TaskActs(t, Park) {
      ReachedInLine(queue, states, steps, l);
      ReachedInLine(queue, states, steps, k);
      assert StepAt(states, steps, l) && StepAt(states, steps, k);
    }
  }
}

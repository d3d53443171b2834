/** The machine's pruning, one entry per step, with clients leaving between the
    steps, is the `retain` of ParkQueue: for push, wait, take and pending. */
module ParkPruning {
  import opened Wrappers
  import opened ParkMachine
  import opened ParkQueue
  import O = ParkOwnership
  import F = ParkFlow
  import FS = ParkFlowSteps
  import T = ParkTheorems

  /** Where the pruning loop of a task or a thread stands. */
  function LoopAt(s: State, h: Holder): Option<nat> {
    match h
    case ByTask(t) => if t in s.tasks && s.tasks[t].pc.PushPrune? then Some(s.tasks[t].pc.k) else None
    case ByThread(th) => if Pc(s, th).Pruning? then Some(Pc(s, th).k) else None
  }

  predicate StepOf(step: Step, h: Holder) {
    match step
    case TaskMoves(t, _) => h == ByTask(t)
    case TaskActs(t, _) => h == ByTask(t)
    case ThreadMoves(th, _) => h == ByThread(th)
    case ThreadActs(th, _) => h == ByThread(th)
  }

  // ----- receivers that are gone stay gone ----------------------------------

  lemma GoneStays(s: State, s': State, step: Step, x: Id)
    requires O.At(s, x) && NextStep(s, s', step) && RxGone(s, x)
    ensures RxGone(s', x)
  {
    match step
    case TaskMoves(_, _) =>
    case TaskActs(t, a) => GoneTaskAct(s, s', t, a, x);
    case ThreadMoves(_, _) =>
    case ThreadActs(th, b) => GoneThreadAct(s, s', th, b, x);
  }

  lemma GoneTaskAct(s: State, s': State, t: Id, a: TaskAct, x: Id)
    requires O.At(s, x) && TaskActStep(s, s', t, a) && RxGone(s, x)
    ensures RxGone(s', x)
  {
  }

  lemma GoneThreadAct(s: State, s': State, th: Tid, b: ThreadAct, x: Id)
    requires ThreadActStep(s, s', th, b) && RxGone(s, x)
    ensures RxGone(s', x)
  {
  }

  // ----- one step -----------------------------------------------------------

  /** Only the holder of the mutex touches the queue. */
  lemma OthersLeaveIt(s: State, s': State, step: Step, h: Holder)
    requires F.LockOk(s) && NextStep(s, s', step) && LoopAt(s, h).Some? && !StepOf(step, h)
    ensures s'.q == s.q && LoopAt(s', h) == LoopAt(s, h)
  {
    assert s.lock == Some(h);
    match step
    case TaskMoves(t, m) => OtherTaskMove(s, s', t, m, h);
    case TaskActs(t, a) => OtherTaskAct(s, s', t, a, h);
    case ThreadMoves(th, n) => OtherThreadMove(s, s', th, n, h);
    case ThreadActs(th, b) => OtherThreadAct(s, s', th, b, h);
  }

  lemma OtherTaskMove(s: State, s': State, t: Id, m: TaskMove, h: Holder)
    requires TaskMoveStep(s, s', t, m) && LoopAt(s, h).Some? && h != ByTask(t)
    ensures s'.q == s.q && LoopAt(s', h) == LoopAt(s, h)
  {
    FS.TaskMoveFrame(s, s', t, m);
  }

  lemma OtherTaskAct(s: State, s': State, t: Id, a: TaskAct, h: Holder)
    requires TaskActStep(s, s', t, a) && LoopAt(s, h).Some? && h != ByTask(t) && !F.TaskLocks(s.tasks[t].pc)
    ensures s'.q == s.q && LoopAt(s', h) == LoopAt(s, h)
  {
  }

  lemma OtherThreadMove(s: State, s': State, th: Tid, n: ThreadMove, h: Holder)
    requires ThreadMoveStep(s, s', th, n) && LoopAt(s, h).Some? && h != ByThread(th)
    ensures s'.q == s.q && LoopAt(s', h) == LoopAt(s, h)
  {
    FS.ThreadMoveFrame(s, s', th, n);
  }

  lemma OtherThreadAct(s: State, s': State, th: Tid, b: ThreadAct, h: Holder)
    requires ThreadActStep(s, s', th, b) && LoopAt(s, h).Some? && h != ByThread(th) && !F.ThreadLocks(Pc(s, th))
    ensures s'.q == s.q && LoopAt(s', h) == LoopAt(s, h)
  {
  }

  /** What the looking step of the holder does at position k. */
  predicate LooksAt(s: State, s': State, k: nat, k': nat) {
    && k < |s.q|
    && if RxGone(s, s.q[k]) then s'.q == Without(s.q, k) && k' == k else s'.q == s.q && k' == k + 1
  }

  lemma OwnLook(s: State, s': State, step: Step, h: Holder)
    requires NextStep(s, s', step) && StepOf(step, h) && LoopAt(s, h).Some? && LoopAt(s', h).Some?
    ensures LooksAt(s, s', LoopAt(s, h).value, LoopAt(s', h).value)
  {
    match step
    case TaskMoves(t, m) => TaskMoveLooks(s, s', t, m);
    case TaskActs(t, a) => TaskActLooks(s, s', t, a);
    case ThreadMoves(th, n) => ThreadMoveLooks(s, s', th, n);
    case ThreadActs(th, b) => ThreadActLooks(s, s', th, b);
  }

  lemma TaskMoveLooks(s: State, s': State, t: Id, m: TaskMove)
    requires TaskMoveStep(s, s', t, m) && LoopAt(s, ByTask(t)).Some? && LoopAt(s', ByTask(t)).Some?
    ensures LooksAt(s, s', LoopAt(s, ByTask(t)).value, LoopAt(s', ByTask(t)).value)
  {
  }

  lemma TaskActLooks(s: State, s': State, t: Id, a: TaskAct)
    requires TaskActStep(s, s', t, a) && LoopAt(s, ByTask(t)).Some? && LoopAt(s', ByTask(t)).Some?
    ensures LooksAt(s, s', LoopAt(s, ByTask(t)).value, LoopAt(s', ByTask(t)).value)
  {
  }

  lemma ThreadMoveLooks(s: State, s': State, th: Tid, n: ThreadMove)
    requires ThreadMoveStep(s, s', th, n) && LoopAt(s, ByThread(th)).Some? && LoopAt(s', ByThread(th)).Some?
    ensures LooksAt(s, s', LoopAt(s, ByThread(th)).value, LoopAt(s', ByThread(th)).value)
  {
  }

  lemma ThreadActLooks(s: State, s': State, th: Tid, b: ThreadAct)
    requires ThreadActStep(s, s', th, b) && LoopAt(s, ByThread(th)).Some? && LoopAt(s', ByThread(th)).Some?
    ensures LooksAt(s, s', LoopAt(s, ByThread(th)).value, LoopAt(s', ByThread(th)).value)
  {
  }

  // ----- the whole loop -----------------------------------------------------

  /** The answers are those of some moment between the two states. */
  ghost predicate Truthful(s: State, s': State, closed: seq<bool>) {
    && |closed| <= |s.q|
    && forall i :: 0 <= i < |closed| ==> (RxGone(s, s.q[i]) ==> closed[i]) && (closed[i] ==> RxGone(s', s.q[i]))
  }

  /** From state s on, the loop has come to state s' with these answers. */
  ghost predicate Came(s: State, s': State, h: Holder, closed: seq<bool>) {
    LoopAt(s', h).Some? && Pruned(s.q, closed, s'.q, LoopAt(s', h).value) && Truthful(s, s', closed)
  }

  lemma TruthfulStays(s: State, s1: State, s2: State, closed: seq<bool>)
    requires Truthful(s, s1, closed) && forall x :: RxGone(s1, x) ==> RxGone(s2, x)
    ensures Truthful(s, s2, closed)
  {
  }

  lemma CameOn(s: State, s1: State, s2: State, h: Holder, closed: seq<bool>) returns (closed': seq<bool>)
    requires Came(s, s1, h, closed) && LoopAt(s2, h).Some?
    requires forall x :: RxGone(s, x) ==> RxGone(s1, x)
    requires forall x :: RxGone(s1, x) ==> RxGone(s2, x)
    requires LooksAt(s1, s2, LoopAt(s1, h).value, LoopAt(s2, h).value)
    ensures Came(s, s2, h, closed')
  {
    var k := LoopAt(s1, h).value;
    PrunedNext(s.q, closed, s1.q, k);
    TruthfulStays(s, s1, s2, closed);
    closed' := closed + [RxGone(s1, s1.q[k])];
  }

  lemma AnyStep(s: State, s1: State, s2: State, step: Step, h: Holder, closed: seq<bool>) returns (closed': seq<bool>)
    requires F.LockOk(s1) && NextStep(s1, s2, step) && Came(s, s1, h, closed) && LoopAt(s2, h).Some?
    requires forall x :: RxGone(s, x) ==> RxGone(s1, x)
    requires forall x :: RxGone(s1, x) ==> RxGone(s2, x)
    ensures Came(s, s2, h, closed')
  {
    if StepOf(step, h) {
      OwnLook(s1, s2, step, h);
      closed' := CameOn(s, s1, s2, h, closed);
    } else {
      OthersLeaveIt(s1, s2, step, h);
      TruthfulStays(s, s1, s2, closed);
      closed' := closed;
    }
  }

  lemma GoneAllStay(s: State, s': State, step: Step)
    requires O.Inv(s) && NextStep(s, s', step)
    ensures forall x :: RxGone(s, x) ==> RxGone(s', x)
  {
    forall x | RxGone(s, x) ensures RxGone(s', x) {
      assert O.At(s, x);
      GoneStays(s, s', step, x);
    }
  }

  lemma StepFacts(queue: nat, states: seq<State>, steps: seq<Step>, i: nat)
    requires T.RunFrom(queue, states, steps) && i < |steps|
    ensures NextStep(states[i], states[i + 1], steps[i]) && F.LockOk(states[i])
    ensures forall x :: RxGone(states[i], x) ==> RxGone(states[i + 1], x)
  {
    assert StepAt(states, steps, i);
    T.Reached(queue, states, steps, i);
    GoneAllStay(states[i], states[i + 1], steps[i]);
  }

  /** As long as the loop of one actor runs, whatever the others do. */
  lemma {:induction false} LoopComes(queue: nat, states: seq<State>, steps: seq<Step>, h: Holder, i: nat, j: nat)
    returns (closed: seq<bool>)
    requires T.RunFrom(queue, states, steps) && i <= j < |states| && LoopAt(states[i], h) == Some(0)
    requires forall m :: i <= m <= j ==> LoopAt(states[m], h).Some?
    ensures Came(states[i], states[j], h, closed)
    ensures forall x :: RxGone(states[i], x) ==> RxGone(states[j], x)
  {
    if i == j {
      PrunedStart(states[i].q);
      closed := [];
    } else {
      closed := LoopComes(queue, states, steps, h, i, j - 1);
      StepFacts(queue, states, steps, j - 1);
      closed := AnyStep(states[i], states[j - 1], states[j], steps[j - 1], h, closed);
    }
  }

  /** In every run, where a pruning loop ends the queue is what `retain` keeps
      of the queue it began with: an entry whose receiver was gone at the
      beginning is dropped, and only entries whose receiver is gone at the end
      are, whoever comes and goes meanwhile. */
  lemma PruneRetains(queue: nat, states: seq<State>, steps: seq<Step>, h: Holder, i: nat, j: nat)
    requires T.RunFrom(queue, states, steps) && i <= j < |states| && LoopAt(states[i], h) == Some(0)
    requires forall m :: i <= m <= j ==> LoopAt(states[m], h).Some?
    requires LoopAt(states[j], h).value >= |states[j].q|
    ensures exists closed: seq<bool> ::
      |closed| == |states[i].q| && states[j].q == Kept(states[i].q, closed) && Truthful(states[i], states[j], closed)
  {
    var closed := LoopComes(queue, states, steps, h, i, j);
    PrunedEnd(states[i].q, closed, states[j].q, LoopAt(states[j], h).value);
  }
}

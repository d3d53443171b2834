/** Whose answer a client gets. One step decides it: a handler answers, a handle
    is freed unanswered, or a stopper takes the entry off the queue. */
module ParkAnswers {
  import opened Wrappers
  import opened ParkMachine
  import O = ParkOwnership
  import T = ParkTheorems

  /** What a step decides to answer request x with. */
  function Decides(s: State, step: Step, x: Id): Option<Resp> {
    if !step.ThreadActs? then None else
    match step.b
    case TakeReply(id, r) => if id == x then Some(r) else None
    case DropHandle(id) => if id == x then Some(Unanswered) else None
    case DrainAll => if x in s.q then Some(Unavailable) else None
    case _ => None
  }

  /** The answer that a thread is on its way to send to x. */
  function Carried(pc: ThreadPc, x: Id): Option<Resp> {
    match pc
    case RespCount(id, r) => if id == x then Some(r) else None
    case RespSend(id, r) => if id == x then Some(r) else None
    case FreeSend(id) => if id == x then Some(Unanswered) else None
    case Draining(list) => if x in list then Some(Unavailable) else None
    case _ => None
  }

  /** r was sent to x, or nothing was and a thread carries r. */
  ghost predicate Settled(s: State, x: Id, r: Resp) {
    x in s.chans
    && (s.chans[x].sent == Some(r)
        || (s.chans[x].sent.None? && exists th :: Carried(Pc(s, th), x) == Some(r)))
  }

  lemma CarrierOwns(s: State, th: Tid, x: Id)
    requires O.Inv(s) && Carried(Pc(s, th), x).Some?
    ensures x in s.chans && x in s.own && s.own[x] == AtThread(th) && s.chans[x].sent.None?
  {
    assert O.At(s, x) && x in O.Frame(Pc(s, th));
  }

  // ----- one step -----------------------------------------------------------

  lemma TaskMoveKeeps(s: State, s': State, t: Id, m: TaskMove)
    requires TaskMoveStep(s, s', t, m)
    ensures s'.chans == s.chans && s'.threads == s.threads
  {
  }

  lemma TaskActKeeps(s: State, s': State, t: Id, a: TaskAct, x: Id)
    requires O.Inv(s) && TaskActStep(s, s', t, a)
    ensures s'.threads == s.threads
    ensures x in s.chans ==> x in s'.chans && s'.chans[x].sent == s.chans[x].sent
    ensures x in s'.chans && x !in s.chans ==> s'.chans[x].sent.None?
  {
    assert O.At(s, t);
  }

  lemma MoveCarries(s: State, th: Tid, n: ThreadMove, x: Id)
    requires ThreadMoveEffect(s, th, n).Moves?
    ensures Carried(ThreadMoveEffect(s, th, n).pc, x) == Carried(Pc(s, th), x)
  {
  }

  lemma ThreadMoveThreads(s: State, s': State, th: Tid, n: ThreadMove)
    requires ThreadMoveStep(s, s', th, n)
    ensures s'.chans == s.chans && s'.threads == s.threads[th := ThreadMoveEffect(s, th, n).pc]
  {
  }

  lemma ThreadMoveKeeps(s: State, s': State, th: Tid, n: ThreadMove, x: Id)
    requires ThreadMoveStep(s, s', th, n)
    ensures s'.chans == s.chans && forall g :: Carried(Pc(s', g), x) == Carried(Pc(s, g), x)
  {
    ThreadMoveThreads(s, s', th, n);
    MoveCarries(s, th, n, x);
    ReplacedAt(s, s', th, ThreadMoveEffect(s, th, n).pc, x);
  }

  lemma ReplacedAt(s: State, s': State, th: Tid, pc: ThreadPc, x: Id)
    requires s'.threads == s.threads[th := pc] && Carried(pc, x) == Carried(Pc(s, th), x)
    ensures forall g :: Carried(Pc(s', g), x) == Carried(Pc(s, g), x)
  {
  }

  /** Of the acts of a thread, those that send. */
  predicate IsSend(b: ThreadAct) { b.DrainSend? || b.SendReply? || b.SendDropped? }

  lemma SendKeeps(s: State, s': State, th: Tid, b: ThreadAct, x: Id)
    requires O.Inv(s) && ThreadActStep(s, s', th, b) && IsSend(b)
    ensures var y := O.Frame(Pc(s, th))[0];
      && Carried(Pc(s, th), y).Some? && y in s.chans && s'.chans[y].sent == Carried(Pc(s, th), y)
      && (x in s'.chans <==> x in s.chans) && (x in s.chans && x != y ==> s'.chans[x].sent == s.chans[x].sent)
      && (x != y ==> Carried(Pc(s', th), x) == Carried(Pc(s, th), x))
      && (forall g :: g != th ==> Pc(s', g) == Pc(s, g))
  {
    var y := O.Frame(Pc(s, th))[0];
    CarrierOwns(s, th, y);
  }

  /** An act that decides: nothing was sent or carried before, the decision is carried now. */
  lemma ActDecides(s: State, s': State, th: Tid, b: ThreadAct, x: Id)
    requires O.Inv(s) && ThreadActStep(s, s', th, b) && Decides(s, ThreadActs(th, b), x).Some?
    ensures x in s.chans && s.chans[x].sent.None? && x in s'.chans && s'.chans[x].sent.None?
    ensures Carried(Pc(s', th), x) == Decides(s, ThreadActs(th, b), x)
    ensures Carried(Pc(s, th), x).None? && forall g :: g != th ==> Pc(s', g) == Pc(s, g)
  {
    assert O.At(s, x);
    assert O.Has(s, if b.DrainAll? then AtQueue else AtHandle, x);
  }

  /** Every other act that does not send leaves what is sent and carried alone. */
  lemma ActKeeps(s: State, s': State, th: Tid, b: ThreadAct, x: Id)
    requires ThreadActStep(s, s', th, b) && !IsSend(b) && Decides(s, ThreadActs(th, b), x).None?
    ensures x in s.chans <==> x in s'.chans
    ensures x in s.chans ==> s'.chans[x].sent == s.chans[x].sent
    ensures forall g :: Carried(Pc(s', g), x) == Carried(Pc(s, g), x)
  {
    assert Carried(Pc(s', th), x) == Carried(Pc(s, th), x);
  }

  /** The answer to a request changes with the step that decides it, and with no other. */
  lemma StepSettles(s: State, s': State, step: Step, x: Id, r: Resp)
    requires O.Inv(s) && O.Inv(s') && NextStep(s, s', step)
    ensures Settled(s', x, r) <==> Settled(s, x, r) || Decides(s, step, x) == Some(r)
  {
    match step
    case TaskMoves(t, m) =>
      TaskMoveKeeps(s, s', t, m);
      assert forall g :: Carried(Pc(s', g), x) == Carried(Pc(s, g), x);
    case TaskActs(t, a) => TaskActKeeps(s, s', t, a, x); TaskActSettles(s, s', t, a, x, r);
    case ThreadMoves(th, n) => ThreadMoveKeeps(s, s', th, n, x);
    case ThreadActs(th, b) =>
      if IsSend(b) { SendSettles(s, s', th, b, x, r); } else { ActSettles(s, s', th, b, x, r); }
  }

  lemma TaskActSettles(s: State, s': State, t: Id, a: TaskAct, x: Id, r: Resp)
    requires O.Inv(s) && O.Inv(s') && TaskActStep(s, s', t, a)
    ensures Settled(s', x, r) <==> Settled(s, x, r)
  {
    TaskActKeeps(s, s', t, a, x);
    assert forall g :: Carried(Pc(s', g), x) == Carried(Pc(s, g), x);
    forall g | Carried(Pc(s, g), x).Some? ensures x in s.chans { CarrierOwns(s, g, x); }
  }

  lemma SendSettles(s: State, s': State, th: Tid, b: ThreadAct, x: Id, r: Resp)
    requires O.Inv(s) && O.Inv(s') && ThreadActStep(s, s', th, b) && IsSend(b)
    ensures Settled(s', x, r) <==> Settled(s, x, r)
  {
    SendKeeps(s, s', th, b, x);
    var y := O.Frame(Pc(s, th))[0];
    CarrierOwns(s, th, y);
    if x == y {
      forall g | Carried(Pc(s, g), x).Some? ensures g == th { CarrierOwns(s, g, x); }
    } else {
      assert forall g :: Carried(Pc(s', g), x) == Carried(Pc(s, g), x);
    }
  }

  lemma ActSettles(s: State, s': State, th: Tid, b: ThreadAct, x: Id, r: Resp)
    requires O.Inv(s) && O.Inv(s') && ThreadActStep(s, s', th, b) && !IsSend(b)
    ensures Settled(s', x, r) <==> Settled(s, x, r) || Decides(s, ThreadActs(th, b), x) == Some(r)
  {
    if Decides(s, ThreadActs(th, b), x).Some? {
      ActDecides(s, s', th, b, x);
      CarrierOwns(s', th, x);
      forall g | Carried(Pc(s', g), x).Some? ensures g == th { CarrierOwns(s', g, x); }
      forall g | g != th ensures Carried(Pc(s, g), x).None? { assert Pc(s', g) == Pc(s, g); }
    } else {
      ActKeeps(s, s', th, b, x);
    }
  }

  // ----- every run ----------------------------------------------------------

  /** Step k of the run decides to answer x with r. */
  ghost predicate DecidedAt(states: seq<State>, steps: seq<Step>, k: nat, x: Id, r: Resp) {
    k < |steps| <= |states| && Decides(states[k], steps[k], x) == Some(r)
  }

  ghost predicate DecidedBefore(states: seq<State>, steps: seq<Step>, j: nat, x: Id, r: Resp) {
    exists k :: 0 <= k < j && DecidedAt(states, steps, k, x, r)
  }

  lemma DecidedNext(states: seq<State>, steps: seq<Step>, j: nat, x: Id, r: Resp)
    ensures DecidedBefore(states, steps, j + 1, x, r) <==>
              DecidedBefore(states, steps, j, x, r) || DecidedAt(states, steps, j, x, r)
  {
  }

  /** In every state, r is the answer to x, sent or on its way, exactly when an
      earlier step decided so. */
  lemma {:induction false} AnswerIsDecided(queue: nat, states: seq<State>, steps: seq<Step>, j: nat, x: Id, r: Resp)
    requires T.RunFrom(queue, states, steps) && j < |states|
    ensures Settled(states[j], x, r) <==> DecidedBefore(states, steps, j, x, r)
  {
    if j > 0 {
      AnswerIsDecided(queue, states, steps, j - 1, x, r);
      T.Reached(queue, states, steps, j - 1);
      T.Reached(queue, states, steps, j);
      assert StepAt(states, steps, j - 1);
      StepSettles(states[j - 1], states[j], steps[j - 1], x, r);
      DecidedNext(states, steps, j - 1, x, r);
    }
  }

  /** What a handler answers stays the answer, from the step that takes the reply on:
      it was sent, or nothing was and a thread holds it between taking and sending. */
  lemma HandlerAnswers(queue: nat, states: seq<State>, steps: seq<Step>, i: nat, th: Tid, x: Id, r: Resp, j: nat)
    requires T.RunFrom(queue, states, steps) && i < |steps| && steps[i] == ThreadActs(th, TakeReply(x, r))
    requires i < j < |states|
    ensures Settled(states[j], x, r)
  {
    assert DecidedAt(states, steps, i, x, r);
    AnswerIsDecided(queue, states, steps, j, x, r);
  }

  /** The same for a handle that is freed unanswered: the 500. */
  lemma FreedAnswers(queue: nat, states: seq<State>, steps: seq<Step>, i: nat, th: Tid, x: Id, j: nat)
    requires T.RunFrom(queue, states, steps) && i < |steps| && steps[i] == ThreadActs(th, DropHandle(x))
    requires i < j < |states|
    ensures Settled(states[j], x, Unanswered)
  {
    assert DecidedAt(states, steps, i, x, Unanswered);
    AnswerIsDecided(queue, states, steps, j, x, Unanswered);
  }

  /** At most one answer. */
  lemma OneAnswer(s: State, x: Id, r: Resp, r': Resp)
    requires O.Inv(s) && Settled(s, x, r) && Settled(s, x, r')
    ensures r == r'
  {
    if s.chans[x].sent.None? {
      var g :| Carried(Pc(s, g), x) == Some(r);
      var h :| Carried(Pc(s, h), x) == Some(r');
      CarrierOwns(s, g, x);
      CarrierOwns(s, h, x);
    }
  }

  /** A client that gets a response gets r exactly when an earlier step decided
      to answer it with r. */
  lemma ReceivedIsDecided(queue: nat, states: seq<State>, steps: seq<Step>, j: nat, x: Id, r: Resp)
    requires T.RunFrom(queue, states, steps) && j < |steps| && steps[j] == TaskActs(x, Receive)
    ensures x in states[j + 1].tasks
    ensures states[j + 1].tasks[x].pc == Ended(Got(r)) <==> DecidedBefore(states, steps, j, x, r)
  {
    T.ReplyIsTheOneSent(queue, states, steps, j, x);
    T.Reached(queue, states, steps, j);
    AnswerIsDecided(queue, states, steps, j, x, r);
  }
}

/** Every step of the protocol keeps the ownership invariant: each is one of
    the sender movements of ParkOwnership, or none. */
module ParkOwnershipSteps {
  import opened ParkMachine
  import opened ParkOwnership

  lemma InitOwned(queue: nat)
    ensures Inv(Init(queue))
  {
  }

  lemma NotifyKeepsRoles(s: State)
    ensures SameRoles(s, NotifyWaiters(s))
  {
  }

  lemma TaskMoveRoles(s: State, t: Id, m: TaskMove)
    requires TaskMoveEffect(s, t, m).Goes?
    ensures NextRole(RoleOf(s, t), RoleOfPc(TaskMoveEffect(s, t, m).pc))
  {
  }

  lemma TaskMoveOwned(s: State, s': State, t: Id, m: TaskMove)
    requires Inv(s) && TaskMoveStep(s, s', t, m)
    ensures Inv(s')
  {
    TaskMoveRoles(s, t, m);
    var e := TaskMoveEffect(s, t, m);
    var s1 := MoveTask(s, t, e.pc).(lock := e.lock, permits := e.permits, cv := TaskMoveCv(s, t, m));
    NotifyKeepsRoles(s1);
    PlainTask(s, s', t);
  }

  lemma ThreadMoveFrame(s: State, th: Tid, n: ThreadMove)
    requires ThreadMoveEffect(s, th, n).Moves?
    ensures var pc' := ThreadMoveEffect(s, th, n).pc;
            Frame(pc') == Frame(Pc(s, th))
            && (Frame(pc') != [] ==> (pc'.Draining? <==> Pc(s, th).Draining?))
  {
  }

  lemma ThreadMoveOwned(s: State, s': State, th: Tid, n: ThreadMove)
    requires Inv(s) && ThreadMoveStep(s, s', th, n)
    ensures Inv(s')
  {
    ThreadMoveFrame(s, th, n);
    var e := ThreadMoveEffect(s, th, n);
    var s1 := MoveThread(s, th, e.pc).(lock := e.lock, down := e.down, inFlight := e.inFlight,
                                       cv := ThreadMoveCv(s, th, n), told := ThreadMoveTold(s, th, n));
    NotifyKeepsRoles(s1);
    assert SameRoles(s, s1);
    PlainThread(s, s', th);
  }

  lemma BodyReadShape(s: State, s': State, t: Id)
    requires TaskActStep(s, s', t, BodyRead)
    ensures Creates(s, s', t)
  {
  }

  lemma DropOneShape(s: State, s': State, t: Id)
    requires TaskActStep(s, s', t, DropOne)
    ensures Prunes(s, s', s.tasks[t].pc.k)
  {
  }

  lemma ParkShape(s: State, s': State, t: Id)
    requires TaskActStep(s, s', t, TaskAct.Park)
    ensures Enqueues(s, s', t)
  {
  }

  /** A task ends after a change that is not to the tasks or threads. */
  lemma EndShape(s: State, s1: State, t: Id, o: Outcome)
    requires s1.tasks == s.tasks && s1.threads == s.threads
    ensures var s' := MoveTask(s1, t, Ended(o));
      && RoleOf(s', t) == Over && (forall x :: x != t ==> RoleOf(s', x) == RoleOf(s, x))
      && SameFrames(s, s')
  {
  }

  lemma RefusedShape(s: State, s': State, t: Id)
    requires TaskActStep(s, s', t, ReturnRefused)
    ensures DropsPusher(s, s', t)
  {
    EndShape(s, DropRx(DropSender(s, t), t), t, Busy);
  }

  lemma LeavePushShape(s: State, s': State, t: Id)
    requires TaskActStep(s, s', t, LeavePush)
    ensures DropsPusher(s, s', t)
  {
    EndShape(s, DropRx(DropSender(s, t), t), t, Left);
  }

  lemma ReceiverShape(s: State, s': State, t: Id, o: Outcome)
    requires t in s.tasks && s.tasks[t].pc.Waiting? && s' == MoveTask(DropRx(s, t), t, Ended(o))
    ensures DropsReceiver(s, s', t)
  {
    EndShape(s, DropRx(s, t), t, o);
  }

  lemma ReceiverEnds(s: State, s': State, t: Id, a: TaskAct) returns (o: Outcome)
    requires TaskActStep(s, s', t, a) && (a.Receive? || a.SeeSenderGone? || a.HandlerLate? || a.LeaveWait?)
    ensures t in s.tasks && s.tasks[t].pc.Waiting? && s' == MoveTask(DropRx(s, t), t, Ended(o))
  {
    o := match a
      case Receive => Got(s.chans[t].inbox.value)
      case SeeSenderGone => SenderGone
      case HandlerLate => TimedOut
      case _ => Left;
  }

  lemma TaskActOwned(s: State, s': State, t: Id, a: TaskAct)
    requires Inv(s) && TaskActStep(s, s', t, a)
    ensures Inv(s')
  {
    match a
    case BodyRead => BodyReadShape(s, s', t); Created(s, s', t);
    case DropOne => DropOneShape(s, s', t); Pruned(s, s', s.tasks[t].pc.k);
    case Park => ParkShape(s, s', t); Enqueued(s, s', t);
    case ReturnRefused => RefusedShape(s, s', t); PusherDropped(s, s', t);
    case LeavePush => LeavePushShape(s, s', t); PusherDropped(s, s', t);
    case _ =>
      var o := ReceiverEnds(s, s', t, a);
      ReceiverShape(s, s', t, o);
      ReceiverDropped(s, s', t);
  }

  lemma DropOneOpShape(s: State, s': State, th: Tid)
    requires ThreadActStep(s, s', th, DropOneOp)
    ensures Prunes(s, s', Pc(s, th).k)
  {
  }

  lemma PopShape(s: State, s': State, th: Tid)
    requires ThreadActStep(s, s', th, Pop)
    ensures Pops(s, s', th)
  {
  }

  lemma BuildShape(s: State, s': State, th: Tid)
    requires ThreadActStep(s, s', th, Build)
    ensures Builds(s, s', th, Pc(s, th).id)
  {
  }

  lemma DrainAllShape(s: State, s': State, th: Tid)
    requires ThreadActStep(s, s', th, DrainAll)
    ensures Drains(s, s', th)
  {
  }

  function Response(pc: ThreadPc): Resp {
    match pc case RespSend(_, r) => r case FreeSend(_) => Unanswered case _ => Unavailable
  }

  /** A thread moves on after a send on the first sender of its frame. */
  lemma SendShape(s: State, th: Tid, r: Resp, pc: ThreadPc)
    requires Frame(Pc(s, th)) != [] && Frame(pc) == Frame(Pc(s, th))[1..]
    requires Pc(s, th).Draining? <==> pc.Draining?
    requires pc.Draining? ==> r == Unavailable
    ensures Sends(s, MoveThread(Send(s, Frame(Pc(s, th))[0], r), th, pc), th, r)
  {
  }

  lemma SendAfter(s: State, s': State, th: Tid, b: ThreadAct) returns (pc: ThreadPc)
    requires ThreadActStep(s, s', th, b) && (b.DrainSend? || b.SendReply? || b.SendDropped?)
    ensures Frame(Pc(s, th)) != [] && Frame(pc) == Frame(Pc(s, th))[1..]
    ensures (Pc(s, th).Draining? <==> pc.Draining?) && (pc.Draining? ==> Response(Pc(s, th)) == Unavailable)
    ensures s' == MoveThread(Send(s, Frame(Pc(s, th))[0], Response(Pc(s, th))), th, pc)
  {
    pc := if b.DrainSend? then Draining(Pc(s, th).list[1..]) else if b.SendReply? then Idle else FreeCount;
  }

  lemma ReplyShape(s: State, s': State, th: Tid, b: ThreadAct)
    requires ThreadActStep(s, s', th, b) && (b.TakeReply? || b.DropHandle?)
    ensures Unhandles(s, s', th, b.id)
  {
  }

  lemma ThreadActOwned(s: State, s': State, th: Tid, b: ThreadAct)
    requires Inv(s) && ThreadActStep(s, s', th, b)
    ensures Inv(s')
  {
    match b
    case DropOneOp => DropOneOpShape(s, s', th); Pruned(s, s', Pc(s, th).k);
    case Pop => PopShape(s, s', th); Popped(s, s', th);
    case Build => BuildShape(s, s', th); Built(s, s', th, Pc(s, th).id);
    case DrainAll => DrainAllShape(s, s', th); Drained(s, s', th);
    case TakeReply(id, _) => ReplyShape(s, s', th, b); Unhandled(s, s', th, id);
    case DropHandle(id) => ReplyShape(s, s', th, b); Unhandled(s, s', th, id);
    case DropAnswered(id) => HandleGone(s, s', id);
    case _ =>
      var pc := SendAfter(s, s', th, b);
      SendShape(s, th, Response(Pc(s, th)), pc);
      Sent(s, s', th, Response(Pc(s, th)));
  }

  lemma StepOwned(s: State, s': State, step: Step)
    requires Inv(s) && NextStep(s, s', step)
    ensures Inv(s')
  {
    match step
    case TaskMoves(t, m) => TaskMoveOwned(s, s', t, m);
    case TaskActs(t, a) => TaskActOwned(s, s', t, a);
    case ThreadMoves(th, n) => ThreadMoveOwned(s, s', th, n);
    case ThreadActs(th, b) => ThreadActOwned(s, s', th, b);
  }
}

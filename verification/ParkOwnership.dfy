/** Who holds the reply sender of a parked request.

    `Has` reads the real structures: the push frame, the queue, a thread's
    frame, the handle. The invariant says that the history variable `own` is
    exactly that relation, so a sender is in one place at a time, and that it
    is consumed once. */
module ParkOwnership {
  import opened Wrappers
  import opened ParkMachine

  /** What a task's program counter means for its channel. */
  datatype Role =
    | Early      // no channel yet
    | Pusher     // the push frame owns the sender and the receiver
    | Parked     // pushed: only the receiver is left with the task
    | Awaiting   // waiting on the receiver
    | Over       // the receiver is gone

  function RoleOfPc(pc: TaskPc): Role {
    match pc
    case Arrived => Early
    case WantPermit(_) => Early
    case Reading => Early
    case PushSignal(_) => Parked
    case PushPushed(_) => Parked
    case Accepted => Parked
    case Waiting => Awaiting
    case Ended(_) => Over
    case _ => Pusher
  }

  function RoleOf(s: State, t: Id): Role {
    if t in s.tasks then RoleOfPc(s.tasks[t].pc) else Early
  }

  /** The senders in a thread's frame. */
  function Frame(pc: ThreadPc): seq<Id> {
    match pc
    case TakeNotify(got, _) => if got.Some? then [got.value] else []
    case TakeCount(id) => [id]
    case TakeBuild(id) => [id]
    case Draining(list) => list
    case RespCount(id, _) => [id]
    case RespSend(id, _) => [id]
    case FreeSend(id) => [id]
    case _ => []
  }

  predicate Has(s: State, p: Place, x: Id) {
    match p
    case AtPusher => RoleOf(s, x) == Pusher
    case AtQueue => x in s.q
    case AtThread(th) => x in Frame(Pc(s, th))
    case AtHandle => x in s.handles && s.handles[x]
    case Consumed => false
  }

  ghost predicate NoDup(xs: seq<Id>) {
    forall i, j :: 0 <= i < j < |xs| ==> xs[i] != xs[j]
  }

  ghost predicate NoDups(s: State) {
    NoDup(s.q) && forall th :: NoDup(Frame(Pc(s, th)))
  }

  /** `own` is the relation `Has`, at request x. */
  ghost predicate OwnOk(s: State, x: Id) {
    && (x in s.own <==> x in s.chans)
    && (Has(s, AtPusher, x) ==> x in s.own && s.own[x] == AtPusher)
    && (Has(s, AtQueue, x) ==> x in s.own && s.own[x] == AtQueue)
    && (forall th :: x in Frame(Pc(s, th)) ==> x in s.own && s.own[x] == AtThread(th))
    && (Has(s, AtHandle, x) ==> x in s.own && s.own[x] == AtHandle)
    && (x in s.own && !s.own[x].Consumed? ==> Has(s, s.own[x], x))
  }

  predicate DrainedBy(s: State, p: Place) {
    p.AtThread? && Pc(s, p.th).Draining?
  }

  predicate ChanOk(s: State, x: Id) {
    var role := RoleOf(s, x);
    if x !in s.chans || x !in s.own then role == Early || role == Over else
    var c := s.chans[x];
    && role != Early
    && c.sends + c.unsent == (if s.own[x].Consumed? then 1 else 0)
    && (c.rx <==> role != Over)
    && (c.unsent > 0 ==> role == Over)
    && (c.sent.Some? <==> c.sends > 0)
    && (c.inbox.Some? ==> c.inbox == c.sent)
    && (c.sends > 0 && role != Over ==> c.inbox == c.sent)
    && (DrainedBy(s, s.own[x]) ==> c.drained)
    && (c.drained ==> DrainedBy(s, s.own[x]) || (s.own[x].Consumed? && c.sent == Some(Unavailable)))
  }

  ghost predicate At(s: State, x: Id) {
    OwnOk(s, x) && ChanOk(s, x)
  }

  ghost predicate Inv(s: State) {
    NoDups(s) && forall x :: At(s, x)
  }

  // ----- steps that touch the sender of one request -------------------------

  /** Nothing changes for any request but y. */
  ghost predicate SameElse(s: State, s': State, y: Id) {
    && (forall x :: x != y ==> RoleOf(s', x) == RoleOf(s, x))
    && (forall x :: x != y ==> (x in s'.chans <==> x in s.chans) && (x in s'.own <==> x in s.own))
    && (forall x :: x != y && x in s.chans ==> s'.chans[x] == s.chans[x])
    && (forall x :: x != y && x in s.own ==> s'.own[x] == s.own[x])
    && (forall x :: x != y ==> (x in s'.q <==> x in s.q))
    && (forall th, x :: x != y ==> (x in Frame(Pc(s', th)) <==> x in Frame(Pc(s, th))))
    && (forall x :: x != y ==> (Has(s', AtHandle, x) <==> Has(s, AtHandle, x)))
    && (forall th :: Frame(Pc(s, th)) != [] && Frame(Pc(s, th)) != [y] ==>
          (Pc(s', th).Draining? <==> Pc(s, th).Draining?))
  }

  lemma Elsewhere(s: State, s': State, y: Id, x: Id)
    requires NoDups(s) && At(s, x) && SameElse(s, s', y) && x != y
    ensures At(s', x)
  {
    assert OwnOk(s', x);
    if x in s.own && s.own[x].AtThread? {
      var th := s.own[x].th;
      assert Has(s, s.own[x], x);
    }
  }

  lemma Local(s: State, s': State, y: Id)
    requires Inv(s) && SameElse(s, s', y) && At(s', y) && NoDups(s')
    ensures Inv(s')
  {
    forall x ensures At(s', x) {
      if x != y {
        assert At(s, x);
        Elsewhere(s, s', y, x);
      }
    }
  }

  /** Every thread keeps its frame. */
  ghost predicate SameFrames(s: State, s': State) {
    forall th :: Frame(Pc(s', th)) == Frame(Pc(s, th)) && (Pc(s', th).Draining? <==> Pc(s, th).Draining?)
  }

  ghost predicate SameRoles(s: State, s': State) {
    forall x :: RoleOf(s', x) == RoleOf(s, x)
  }

  predicate SameSenders(s: State, s': State) {
    s'.q == s.q && s'.chans == s.chans && s'.own == s.own && s'.handles == s.handles
  }

  /** The role changes of a task that leave its channel alone. */
  predicate NextRole(r: Role, r': Role) {
    r' == r || (r == Early && r' == Over) || (r == Parked && r' == Awaiting)
  }

  /** A task moves without touching its channel. */
  lemma PlainTask(s: State, s': State, t: Id)
    requires Inv(s) && SameSenders(s, s') && SameFrames(s, s')
    requires forall x :: x != t ==> RoleOf(s', x) == RoleOf(s, x)
    requires NextRole(RoleOf(s, t), RoleOf(s', t))
    ensures Inv(s')
  {
    assert At(s, t);
    Local(s, s', t);
  }

  /** A thread moves without touching a sender. */
  lemma PlainThread(s: State, s': State, th: Tid)
    requires Inv(s) && SameSenders(s, s') && SameRoles(s, s')
    requires forall g :: g != th ==> Pc(s', g) == Pc(s, g)
    requires Frame(Pc(s', th)) == Frame(Pc(s, th))
    requires Frame(Pc(s, th)) != [] ==> (Pc(s', th).Draining? <==> Pc(s, th).Draining?)
    ensures Inv(s')
  {
    forall x ensures At(s', x) {
      assert At(s, x);
    }
  }

  /** `oneshot::channel()`: the push frame gets both ends. */
  ghost predicate Creates(s: State, s': State, t: Id) {
    && RoleOf(s, t) == Early && RoleOf(s', t) == Pusher
    && (forall x :: x != t ==> RoleOf(s', x) == RoleOf(s, x))
    && SameFrames(s, s') && s'.q == s.q && s'.handles == s.handles
    && s'.chans == s.chans[t := Chan(true, None, None, 0, 0, false)]
    && s'.own == s.own[t := AtPusher]
  }

  lemma Created(s: State, s': State, t: Id)
    requires Inv(s) && Creates(s, s', t)
    ensures Inv(s')
  {
    assert At(s, t);
    Local(s, s', t);
  }

  lemma WithoutFacts(q: seq<Id>, k: nat)
    requires k < |q| && NoDup(q)
    ensures NoDup(Without(q, k)) && q[k] !in Without(q, k)
    ensures forall x :: x != q[k] ==> (x in Without(q, k) <==> x in q)
  {
    var w := Without(q, k);
    assert forall i :: 0 <= i < |w| ==> w[i] == q[if i < k then i else i + 1];
    forall x | x != q[k] && x in q ensures x in w {
      var i :| 0 <= i < |q| && q[i] == x;
      assert w[if i < k then i else i - 1] == x;
    }
  }

  /** `retain` destroys an entry whose receiver is gone. */
  ghost predicate Prunes(s: State, s': State, k: nat) {
    && k < |s.q| && RxGone(s, s.q[k])
    && SameRoles(s, s') && SameFrames(s, s') && s'.handles == s.handles
    && s'.q == Without(s.q, k)
    && s'.chans == DropSender(s, s.q[k]).chans && s'.own == DropSender(s, s.q[k]).own
  }

  lemma Pruned(s: State, s': State, k: nat)
    requires Inv(s) && Prunes(s, s', k)
    ensures Inv(s')
  {
    var y := s.q[k];
    assert At(s, y) && Has(s, AtQueue, y);
    WithoutFacts(s.q, k);
    Local(s, s', y);
  }

  /** A request enters the queue. */
  ghost predicate Enqueues(s: State, s': State, t: Id) {
    && RoleOf(s, t) == Pusher && RoleOf(s', t) == Parked
    && (forall x :: x != t ==> RoleOf(s', x) == RoleOf(s, x))
    && SameFrames(s, s') && s'.handles == s.handles && s'.chans == s.chans
    && s'.q == s.q + [t] && s'.own == s.own[t := AtQueue]
  }

  lemma Enqueued(s: State, s': State, t: Id)
    requires Inv(s) && Enqueues(s, s', t)
    ensures Inv(s')
  {
    assert At(s, t) && Has(s, AtPusher, t);
    assert !Has(s, AtQueue, t);
    Local(s, s', t);
  }

  /** The receiver goes: the answer was read, the handler was late, the client left. */
  ghost predicate DropsReceiver(s: State, s': State, t: Id) {
    && RoleOf(s, t) == Awaiting && RoleOf(s', t) == Over
    && (forall x :: x != t ==> RoleOf(s', x) == RoleOf(s, x))
    && SameFrames(s, s') && s'.handles == s.handles && s'.q == s.q && s'.own == s.own
    && s'.chans == DropRx(s, t).chans
  }

  lemma ReceiverDropped(s: State, s': State, t: Id)
    requires Inv(s) && DropsReceiver(s, s', t)
    ensures Inv(s')
  {
    assert At(s, t);
    Local(s, s', t);
  }

  /** The push frame goes, with both ends. */
  ghost predicate DropsPusher(s: State, s': State, t: Id) {
    && RoleOf(s, t) == Pusher && RoleOf(s', t) == Over
    && (forall x :: x != t ==> RoleOf(s', x) == RoleOf(s, x))
    && SameFrames(s, s') && s'.handles == s.handles && s'.q == s.q
    && s'.chans == DropRx(DropSender(s, t), t).chans && s'.own == DropSender(s, t).own
  }

  lemma PusherDropped(s: State, s': State, t: Id)
    requires Inv(s) && DropsPusher(s, s', t)
    ensures Inv(s')
  {
    assert At(s, t) && Has(s, AtPusher, t);
    Local(s, s', t);
  }

  /** One sender moves into, out of or within the frame of th. */
  ghost predicate OnlyThread(s: State, s': State, th: Tid) {
    SameRoles(s, s') && forall g :: g != th ==> Pc(s', g) == Pc(s, g)
  }

  /** `pop_front`. */
  ghost predicate Pops(s: State, s': State, th: Tid) {
    && OnlyThread(s, s', th) && |s.q| > 0
    && Frame(Pc(s, th)) == [] && Frame(Pc(s', th)) == [s.q[0]] && !Pc(s', th).Draining?
    && s'.q == s.q[1..] && s'.own == s.own[s.q[0] := AtThread(th)]
    && s'.handles == s.handles && s'.chans == s.chans
  }

  lemma Popped(s: State, s': State, th: Tid)
    requires Inv(s) && Pops(s, s', th)
    ensures Inv(s')
  {
    var y := s.q[0];
    assert At(s, y) && Has(s, AtQueue, y);
    assert s'.q == Without(s.q, 0);
    WithoutFacts(s.q, 0);
    Local(s, s', y);
  }

  /** `Request { reply: Some(..) }`. */
  ghost predicate Builds(s: State, s': State, th: Tid, y: Id) {
    && OnlyThread(s, s', th)
    && Frame(Pc(s, th)) == [y] && Frame(Pc(s', th)) == [] && !Pc(s, th).Draining?
    && s'.handles == s.handles[y := true] && s'.own == s.own[y := AtHandle]
    && s'.q == s.q && s'.chans == s.chans
  }

  lemma Built(s: State, s': State, th: Tid, y: Id)
    requires Inv(s) && Builds(s, s', th, y)
    ensures Inv(s')
  {
    assert At(s, y) && Has(s, AtThread(th), y);
    Local(s, s', y);
  }

  /** `reply.take()`, by an answer or by the handle's Drop. */
  ghost predicate Unhandles(s: State, s': State, th: Tid, y: Id) {
    && OnlyThread(s, s', th) && y in s.handles && s.handles[y]
    && Frame(Pc(s, th)) == [] && Frame(Pc(s', th)) == [y] && !Pc(s', th).Draining?
    && (s'.handles == s.handles[y := false] || s'.handles == s.handles - {y})
    && s'.own == s.own[y := AtThread(th)] && s'.q == s.q && s'.chans == s.chans
  }

  lemma Unhandled(s: State, s': State, th: Tid, y: Id)
    requires Inv(s) && Unhandles(s, s', th, y)
    ensures Inv(s')
  {
    assert At(s, y) && Has(s, AtHandle, y);
    Local(s, s', y);
  }

  /** A handle that was answered goes. */
  ghost predicate LosesHandle(s: State, s': State, y: Id) {
    && SameRoles(s, s') && s'.threads == s.threads && y in s.handles && !s.handles[y]
    && s'.handles == s.handles - {y}
    && s'.own == s.own && s'.q == s.q && s'.chans == s.chans
  }

  lemma HandleGone(s: State, s': State, y: Id)
    requires Inv(s) && LosesHandle(s, s', y)
    ensures Inv(s')
  {
    assert At(s, y);
    Local(s, s', y);
  }

  /** `tx.send(r)` on the first sender of the frame. */
  ghost predicate Sends(s: State, s': State, th: Tid, r: Resp) {
    && OnlyThread(s, s', th) && Frame(Pc(s, th)) != []
    && Frame(Pc(s', th)) == Frame(Pc(s, th))[1..]
    && (Pc(s, th).Draining? ==> r == Unavailable && Pc(s', th).Draining?)
    && (!Pc(s, th).Draining? ==> !Pc(s', th).Draining?)
    && s'.chans == Send(s, Frame(Pc(s, th))[0], r).chans
    && s'.own == Send(s, Frame(Pc(s, th))[0], r).own
    && s'.handles == s.handles && s'.q == s.q
  }

  lemma Sent(s: State, s': State, th: Tid, r: Resp)
    requires Inv(s) && Sends(s, s', th, r)
    ensures Inv(s')
  {
    var f := Frame(Pc(s, th));
    var y := f[0];
    assert At(s, y) && Has(s, AtThread(th), y);
    assert NoDup(f) && f[1..] == Without(f, 0);
    WithoutFacts(f, 0);
    Local(s, s', y);
  }

  /** `drain(..).collect()`: the whole queue moves into the stopper's list. */
  ghost predicate Drains(s: State, s': State, th: Tid) {
    && OnlyThread(s, s', th)
    && Frame(Pc(s, th)) == [] && Pc(s', th) == Draining(s.q)
    && s'.q == [] && s'.handles == s.handles
    && s'.own == OwnAll(s.own, s.q, AtThread(th)) && s'.chans == MarkDrained(s.chans, s.q)
  }

  lemma Drained(s: State, s': State, th: Tid)
    requires Inv(s) && Drains(s, s', th)
    ensures Inv(s')
  {
    forall x ensures At(s', x) {
      assert At(s, x);
      if x in s.q {
        assert Has(s, AtQueue, x);
      } else {
        assert !Has(s, AtThread(th), x);
      }
    }
  }
}

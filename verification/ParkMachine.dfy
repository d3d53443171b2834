/** The parked-request protocol of the httpd example, one step per lock
    operation, atomic access or await.

    A request is one `park` task. It owns a oneshot receiver; the matching
    sender travels inside the `Parked` value: through `push` into the queue,
    out to a Lisp thread (`take`) or to a stopper (`drain`), and into the
    `Request` handle that finally answers. Tasks may be dropped at any await
    point (the client left, or the runtime is going down); time is a
    nondeterministic choice between "the deadline passed" and "it did not". */
module ParkMachine {
  import opened Wrappers

  type Id = nat   // a request: its task, its oneshot, later its handle
  type Tid = nat  // a thread that calls the exports

  /** What is sent on a oneshot: the stopper's 503, the freed handle's 500, or
      the response a Lisp handler built. */
  datatype Resp = Unavailable | Unanswered | Answer(status: nat)

  /** One oneshot channel. `rx` says the receiver still exists, `inbox` is the
      value the receiver will read, `sent` what the sender was consumed with
      (delivered or not). `sends` and `unsent` count how often a sender was
      consumed by a send or destroyed without one; `drained` records that a
      stopper took the entry from the queue. */
  datatype Chan = Chan(rx: bool, inbox: Option<Resp>, sent: Option<Resp>,
                       sends: nat, unsent: nat, drained: bool)

  /** Why `push` gave the request back. */
  datatype Refusal = SawDown | SawFull(survivors: nat)

  datatype Outcome =
    | Busy          // retry_later: down, no body slot, or refused by push
    | BodySlow      // 408
    | BodyBad       // 413
    | Got(r: Resp)  // the reply that came through the oneshot
    | SenderGone    // 503: the sender was destroyed unsent
    | TimedOut      // 504
    | Left          // the future was dropped

  datatype TaskPc =
    | Arrived
    | WantPermit(granted: bool)           // await: a body slot
    | Reading                             // await: the body; holds the slot
    | PushEnable                          // top of the push loop
    | PushLock                            // registered with slot_freed
    | PushLoad                            // holds q: about to read `down`
    | PushPrune(k: nat, freed: bool)      // holds q: retain is at entry k
    | PushSignal(freed: bool)             // parked and unlocked, notify_one owed
    | PushPushed(freed: bool)             // notify_waiters owed if it freed
    | PushFull(survivors: nat)            // unlocked without a slot
    | PushAsleep(survivors: nat)          // await: the Notified future
    | Accepted                            // push returned Ok
    | Refused(why: Refusal)               // push returned Err
    | RefusedLast                         // the slot is given back, p is not yet dropped
    | Waiting                             // await: the oneshot
    | Ended(o: Outcome)

  datatype Task = Task(pc: TaskPc, notified: bool)

  datatype LockOp = OpWait | OpTake | OpPending

  datatype ThreadPc =
    | Idle
    | LoadDown(op: LockOp)                // wait and take refuse a stopped server
    | WantLock(op: LockOp)
    | Pruning(op: LockOp, k: nat, freed: bool)  // holds q
    | HeldNotify(op: LockOp)              // holds q: pruned, notify owed
    | Held(op: LockOp)                    // holds q
    | CvAsleep                            // wait: lock released, in cv.wait_timeout
    | TakePop(freed: bool)                // holds q: about to pop
    | TakeNotify(got: Option<Id>, owes: bool)
    | TakeCount(id: Id)                   // about to add to in_flight
    | TakeBuild(id: Id)                   // counted, handle not built
    | WantDrain                           // `down` stored
    | DrainHeld                           // holds q
    | Draining(list: seq<Id>)             // unlocked: answers, then notifies
    | RespCount(id: Id, r: Resp)          // reply taken: about to subtract
    | RespSend(id: Id, r: Resp)           // subtracted: about to send
    | FreeSend(id: Id)                    // handle dropped: about to send 500
    | FreeCount                           // sent: about to subtract

  datatype Holder = ByTask(t: Id) | ByThread(th: Tid)

  /** Where the sender of a request is. A history variable: the machine never
      branches on it. */
  datatype Place = AtPusher | AtQueue | AtThread(th: Tid) | AtHandle | Consumed

  /** A puller inside `wait`, from falling asleep to its answer: asleep, or
      called by the notify_one of the push of a request. */
  datatype Call = Unsignalled | Called(x: Id)

  datatype State = State(
    cap: nat,
    q: seq<Id>,
    lock: Option<Holder>,
    down: bool,
    permits: nat,
    inFlight: int,
    tasks: map<Id, Task>,
    threads: map<Tid, ThreadPc>,
    chans: map<Id, Chan>,
    handles: map<Id, bool>,               // handle -> its reply is still there
    own: map<Id, Place>,
    cv: map<Tid, Call>,
    told: set<Id>)                        // a puller its push called was told of a parked request

  /** `bind` clamps QUEUE to 1..65536 and makes as many body slots. */
  function Init(queue: nat): State {
    var cap := if queue < 1 then 1 else if queue > 65536 then 65536 else queue;
    State(cap, [], None, false, cap, 0, map[], map[], map[], map[], map[], map[], {})
  }

  /** Steps of a task that leave every sender where it is. */
  datatype TaskMove =
    | Arrive | CheckDown | Grant | TakePermit | PermitLate | BodyLate | BodyFailed
    | Enable | Lock | ReadDown | KeepOne | FindFull | NotifyOne(woken: Option<Tid>) | NotifyPushed
    | DeadlinePassed | Sleep | Wake | GivePermit | LeaveEarly

  /** Steps of a task that make, move or drop an end of its channel. */
  datatype TaskAct =
    | BodyRead | DropOne | Park | ReturnRefused
    | Receive | SeeSenderGone | HandlerLate | LeavePush | LeaveWait

  /** Steps of a thread that leave every sender where it is. */
  datatype ThreadMove =
    | BeginWait | BeginTake | BeginPending | ReadDownOp
    | TakeLock | KeepOneOp | PruneEndOp | NotifyHeld | Unlock | CvWake
    | PopNone | NotifyTaken | CountTaken
    | StoreDown | LockDrain | DrainDone | CountReply | CountDropped

  datatype ThreadAct =
    | DropOneOp | Pop | Build | DrainAll | DrainSend
    | TakeReply(id: Id, r: Resp) | SendReply
    | DropHandle(id: Id) | DropAnswered(id: Id) | SendDropped

  datatype Step =
    | TaskMoves(t: Id, m: TaskMove) | TaskActs(t: Id, a: TaskAct)
    | ThreadMoves(th: Tid, n: ThreadMove) | ThreadActs(th: Tid, b: ThreadAct)

  // ----- views --------------------------------------------------------------

  function Pc(s: State, th: Tid): ThreadPc {
    if th in s.threads then s.threads[th] else Idle
  }

  /** The task has an enabled Notified future: notify_waiters reaches it. */
  predicate Registered(pc: TaskPc) {
    pc.PushLock? || pc.PushLoad? || pc.PushPrune? || pc.PushFull? || pc.PushAsleep?
  }

  // ----- updates ------------------------------------------------------------

  /** A task goes to `pc`. A fresh Notified future (PushLock) is not notified. */
  function MoveTask(s: State, t: Id, pc: TaskPc): State {
    s.(tasks := s.tasks[t := Task(pc, t in s.tasks && s.tasks[t].notified && !pc.PushLock?)])
  }

  function MoveThread(s: State, th: Tid, pc: ThreadPc): State {
    s.(threads := s.threads[th := pc])
  }

  /** `slot_freed.notify_waiters()`: everyone registered now, nobody later. */
  function NotifyWaiters(s: State): State {
    s.(tasks := map t | t in s.tasks ::
      if Registered(s.tasks[t].pc) then s.tasks[t].(notified := true) else s.tasks[t])
  }

  /** `tx.send(r)`: consumes the sender; lost when the receiver is gone. */
  function Send(s: State, x: Id, r: Resp): State {
    if x !in s.chans then s else
    var c := s.chans[x];
    s.(chans := s.chans[x := c.(sends := c.sends + 1, sent := Some(r),
                                inbox := if c.rx then Some(r) else c.inbox)],
       own := s.own[x := Consumed])
  }

  function DropSender(s: State, x: Id): State {
    if x !in s.chans then s else
    s.(chans := s.chans[x := s.chans[x].(unsent := s.chans[x].unsent + 1)],
       own := s.own[x := Consumed])
  }

  function DropRx(s: State, x: Id): State {
    if x !in s.chans then s else s.(chans := s.chans[x := s.chans[x].(rx := false)])
  }

  function Without(q: seq<Id>, k: nat): seq<Id> {
    if k < |q| then q[..k] + q[k + 1..] else q
  }

  predicate RxGone(s: State, x: Id) {
    x in s.chans && !s.chans[x].rx
  }

  function OwnAll(own: map<Id, Place>, xs: seq<Id>, p: Place): map<Id, Place> {
    map x | x in own :: if x in xs then p else own[x]
  }

  function MarkDrained(chans: map<Id, Chan>, xs: seq<Id>): map<Id, Chan> {
    map x | x in chans :: if x in xs then chans[x].(drained := true) else chans[x]
  }

  // ----- steps --------------------------------------------------------------

  /** The effect of a move: the new program counter, the mutex, the counters,
      and whether slot_freed.notify_waiters() is called. */
  datatype TaskEffect = Stuck | Goes(pc: TaskPc, lock: Option<Holder>, permits: nat, notify: bool)

  function TaskMoveEffect(s: State, t: Id, m: TaskMove): TaskEffect {
    if m.Arrive? then (if t in s.tasks then Stuck else Goes(Arrived, s.lock, s.permits, false)) else
    if t !in s.tasks then Stuck else
    var pc := s.tasks[t].pc;
    match m
    case Arrive => Stuck
    case CheckDown =>
      if pc.Arrived? then Goes(if s.down then Ended(Busy) else WantPermit(false), s.lock, s.permits, false) else Stuck
    case Grant =>
      if pc == WantPermit(false) && s.permits > 0 then Goes(WantPermit(true), s.lock, s.permits - 1, false) else Stuck
    case TakePermit => if pc == WantPermit(true) then Goes(Reading, s.lock, s.permits, false) else Stuck
    case PermitLate =>
      if pc.WantPermit? then Goes(Ended(Busy), s.lock, if pc.granted then s.permits + 1 else s.permits, false) else Stuck
    case BodyLate => if pc.Reading? then Goes(Ended(BodySlow), s.lock, s.permits + 1, false) else Stuck
    case BodyFailed => if pc.Reading? then Goes(Ended(BodyBad), s.lock, s.permits + 1, false) else Stuck
    case Enable => if pc.PushEnable? then Goes(PushLock, s.lock, s.permits, false) else Stuck
    case Lock => if pc.PushLock? && s.lock.None? then Goes(PushLoad, Some(ByTask(t)), s.permits, false) else Stuck
    case ReadDown =>
      if !pc.PushLoad? then Stuck
      else if s.down then Goes(Refused(SawDown), None, s.permits, false)
      else Goes(PushPrune(0, false), s.lock, s.permits, false)
    case KeepOne =>
      if pc.PushPrune? && pc.k < |s.q| && !RxGone(s, s.q[pc.k])
      then Goes(PushPrune(pc.k + 1, pc.freed), s.lock, s.permits, false) else Stuck
    case FindFull =>
      if pc.PushPrune? && pc.k >= |s.q| >= s.cap then Goes(PushFull(|s.q|), None, s.permits, false) else Stuck
    case NotifyOne(woken) =>
      if pc.PushSignal? && WakesOne(s.cv, woken) then Goes(PushPushed(pc.freed), s.lock, s.permits, false) else Stuck
    case NotifyPushed => if pc.PushPushed? then Goes(Accepted, s.lock, s.permits, pc.freed) else Stuck
    case DeadlinePassed =>
      if pc.PushFull? then Goes(Refused(SawFull(pc.survivors)), s.lock, s.permits, false) else Stuck
    case Sleep => if pc.PushFull? then Goes(PushAsleep(pc.survivors), s.lock, s.permits, false) else Stuck
    case Wake => if pc.PushAsleep? then Goes(PushEnable, s.lock, s.permits, false) else Stuck
    case GivePermit =>
      if pc.Accepted? then Goes(Waiting, s.lock, s.permits + 1, false)
      else if pc.Refused? then Goes(RefusedLast, s.lock, s.permits + 1, false)
      else Stuck
    case LeaveEarly =>
      if pc == WantPermit(false) then Goes(Ended(Left), s.lock, s.permits, false)
      else if pc == WantPermit(true) || pc.Reading? then Goes(Ended(Left), s.lock, s.permits + 1, false)
      else Stuck
  }

  /** `cv.notify_one()`: one of the unsignalled sleepers, or none when there is none. */
  predicate WakesOne(cv: map<Tid, Call>, woken: Option<Tid>) {
    match woken
    case Some(th) => th in cv && cv[th].Unsignalled?
    case None => forall th :: th in cv ==> !cv[th].Unsignalled?
  }

  function TaskMoveCv(s: State, t: Id, m: TaskMove): map<Tid, Call> {
    if m.NotifyOne? && m.woken.Some? then s.cv[m.woken.value := Called(t)] else s.cv
  }

  predicate TaskMoveStep(s: State, s': State, t: Id, m: TaskMove) {
    var e := TaskMoveEffect(s, t, m);
    e.Goes?
    && var s1 := MoveTask(s, t, e.pc).(lock := e.lock, permits := e.permits, cv := TaskMoveCv(s, t, m));
       s' == if e.notify then NotifyWaiters(s1) else s1
  }

  /** `retain` at entry k: an entry whose receiver is gone is destroyed. */
  function PruneAt(s: State, k: nat): State {
    if k < |s.q| then DropSender(s, s.q[k]).(q := Without(s.q, k)) else s
  }

  predicate TaskActStep(s: State, s': State, t: Id, a: TaskAct) {
    t in s.tasks &&
    var pc := s.tasks[t].pc;
    match a
    case BodyRead =>
      pc.Reading?
      && s' == MoveTask(s, t, PushEnable).(chans := s.chans[t := Chan(true, None, None, 0, 0, false)],
                                           own := s.own[t := AtPusher])
    case DropOne =>
      pc.PushPrune? && pc.k < |s.q| && RxGone(s, s.q[pc.k])
      && s' == MoveTask(PruneAt(s, pc.k), t, PushPrune(pc.k, true))
    case Park =>
      pc.PushPrune? && pc.k >= |s.q| && |s.q| < s.cap
      && s' == MoveTask(s, t, PushSignal(pc.freed)).(lock := None, q := s.q + [t], own := s.own[t := AtQueue])
    case ReturnRefused => pc.RefusedLast? && s' == MoveTask(DropRx(DropSender(s, t), t), t, Ended(Busy))
    case Receive =>
      pc.Waiting? && t in s.chans && s.chans[t].inbox.Some?
      && s' == MoveTask(DropRx(s, t), t, Ended(Got(s.chans[t].inbox.value)))
    case SeeSenderGone =>
      pc.Waiting? && t in s.chans && s.chans[t].inbox.None? && s.chans[t].unsent > 0
      && s' == MoveTask(DropRx(s, t), t, Ended(SenderGone))
    case HandlerLate =>
      pc.Waiting? && s' == MoveTask(DropRx(s, t), t, Ended(TimedOut))
    case LeavePush =>
      pc.PushAsleep?
      && s' == MoveTask(DropRx(DropSender(s, t), t), t, Ended(Left)).(permits := s.permits + 1)
    case LeaveWait => pc.Waiting? && s' == MoveTask(DropRx(s, t), t, Ended(Left))
  }

  datatype ThreadEffect =
    | Blocked
    | Moves(pc: ThreadPc, lock: Option<Holder>, down: bool, inFlight: int, notify: bool)

  function ThreadMoveEffect(s: State, th: Tid, n: ThreadMove): ThreadEffect {
    var pc := Pc(s, th);
    match n
    case BeginWait => if pc.Idle? then Moves(LoadDown(OpWait), s.lock, s.down, s.inFlight, false) else Blocked
    case BeginTake => if pc.Idle? then Moves(LoadDown(OpTake), s.lock, s.down, s.inFlight, false) else Blocked
    case BeginPending => if pc.Idle? then Moves(WantLock(OpPending), s.lock, s.down, s.inFlight, false) else Blocked
    case ReadDownOp =>
      if pc.LoadDown? then Moves(if s.down then Idle else WantLock(pc.op), s.lock, s.down, s.inFlight, false) else Blocked
    case TakeLock =>
      if pc.WantLock? && s.lock.None?
      then Moves(Pruning(pc.op, 0, false), Some(ByThread(th)), s.down, s.inFlight, false) else Blocked
    case KeepOneOp =>
      if pc.Pruning? && pc.k < |s.q| && !RxGone(s, s.q[pc.k])
      then Moves(Pruning(pc.op, pc.k + 1, pc.freed), s.lock, s.down, s.inFlight, false) else Blocked
    case PruneEndOp =>
      if pc.Pruning? && pc.k >= |s.q|
      then Moves(if pc.op.OpTake? then TakePop(pc.freed)
                 else if pc.freed then HeldNotify(pc.op) else Held(pc.op), s.lock, s.down, s.inFlight, false)
      else Blocked
    case NotifyHeld => if pc.HeldNotify? then Moves(Held(pc.op), s.lock, s.down, s.inFlight, true) else Blocked
    case Unlock =>
      if pc.Held? then Moves(if SleepsNow(s, th) then CvAsleep else Idle, None, s.down, s.inFlight, false)
      else Blocked
    case CvWake =>
      if pc.CvAsleep? && s.lock.None? then Moves(Held(OpPending), Some(ByThread(th)), s.down, s.inFlight, false)
      else Blocked
    case PopNone =>
      if pc.TakePop? && s.q == [] then Moves(TakeNotify(None, pc.freed), None, s.down, s.inFlight, false) else Blocked
    case NotifyTaken =>
      if pc.TakeNotify?
      then Moves(if pc.got.Some? then TakeCount(pc.got.value) else Idle, s.lock, s.down, s.inFlight, pc.owes)
      else Blocked
    case CountTaken => if pc.TakeCount? then Moves(TakeBuild(pc.id), s.lock, s.down, s.inFlight + 1, false) else Blocked
    case StoreDown => if pc.Idle? then Moves(WantDrain, s.lock, true, s.inFlight, false) else Blocked
    case LockDrain =>
      if pc.WantDrain? && s.lock.None? then Moves(DrainHeld, Some(ByThread(th)), s.down, s.inFlight, false) else Blocked
    case DrainDone =>
      if pc.Draining? && pc.list == [] then Moves(Idle, s.lock, s.down, s.inFlight, true) else Blocked
    case CountReply =>
      if pc.RespCount? then Moves(RespSend(pc.id, pc.r), s.lock, s.down, s.inFlight - 1, false) else Blocked
    case CountDropped => if pc.FreeCount? then Moves(Idle, s.lock, s.down, s.inFlight - 1, false) else Blocked
  }

  /** `wait` falls asleep on an empty queue; it leaves by a call, by its
      timeout or for no reason, looks at the queue once more and answers. */
  function ThreadMoveCv(s: State, th: Tid, n: ThreadMove): map<Tid, Call> {
    if n.Unlock? then (if SleepsNow(s, th) then s.cv[th := Unsignalled] else s.cv - {th})
    else if n.CvWake? && th in s.cv && s.cv[th].Unsignalled? then s.cv - {th}
    else s.cv
  }

  predicate SleepsNow(s: State, th: Tid) { Pc(s, th) == Held(OpWait) && s.q == [] }

  /** A called puller answers true exactly when the queue is not empty. */
  function ThreadMoveTold(s: State, th: Tid, n: ThreadMove): set<Id> {
    if n.Unlock? && th in s.cv && s.cv[th].Called? && s.q != [] then s.told + {s.cv[th].x} else s.told
  }

  predicate ThreadMoveStep(s: State, s': State, th: Tid, n: ThreadMove) {
    var e := ThreadMoveEffect(s, th, n);
    e.Moves?
    && var s1 := MoveThread(s, th, e.pc).(lock := e.lock, down := e.down, inFlight := e.inFlight,
                                          cv := ThreadMoveCv(s, th, n), told := ThreadMoveTold(s, th, n));
       s' == if e.notify then NotifyWaiters(s1) else s1
  }

  predicate ThreadActStep(s: State, s': State, th: Tid, b: ThreadAct) {
    var pc := Pc(s, th);
    match b
    case DropOneOp =>
      pc.Pruning? && pc.k < |s.q| && RxGone(s, s.q[pc.k])
      && s' == MoveThread(PruneAt(s, pc.k), th, Pruning(pc.op, pc.k, true))
    case Pop =>
      pc.TakePop? && |s.q| > 0
      && s' == MoveThread(s, th, TakeNotify(Some(s.q[0]), true))
               .(lock := None, q := s.q[1..], own := s.own[s.q[0] := AtThread(th)])
    case Build =>
      pc.TakeBuild?
      && s' == MoveThread(s, th, Idle).(handles := s.handles[pc.id := true], own := s.own[pc.id := AtHandle])
    case DrainAll =>
      pc.DrainHeld?
      && s' == MoveThread(s, th, Draining(s.q)).(lock := None, q := [],
                 own := OwnAll(s.own, s.q, AtThread(th)), chans := MarkDrained(s.chans, s.q))
    case DrainSend =>
      pc.Draining? && |pc.list| > 0
      && s' == MoveThread(Send(s, pc.list[0], Unavailable), th, Draining(pc.list[1..]))
    case TakeReply(id, r) =>
      pc.Idle? && id in s.handles && s.handles[id]
      && s' == MoveThread(s, th, RespCount(id, r)).(handles := s.handles[id := false], own := s.own[id := AtThread(th)])
    case SendReply => pc.RespSend? && s' == MoveThread(Send(s, pc.id, pc.r), th, Idle)
    case DropHandle(id) =>
      pc.Idle? && id in s.handles && s.handles[id]
      && s' == MoveThread(s, th, FreeSend(id)).(handles := s.handles - {id}, own := s.own[id := AtThread(th)])
    case DropAnswered(id) =>
      pc.Idle? && id in s.handles && !s.handles[id] && s' == s.(handles := s.handles - {id})
    case SendDropped => pc.FreeSend? && s' == MoveThread(Send(s, pc.id, Unanswered), th, FreeCount)
  }

  predicate NextStep(s: State, s': State, step: Step) {
    match step
    case TaskMoves(t, m) => TaskMoveStep(s, s', t, m)
    case TaskActs(t, a) => TaskActStep(s, s', t, a)
    case ThreadMoves(th, n) => ThreadMoveStep(s, s', th, n)
    case ThreadActs(th, b) => ThreadActStep(s, s', th, b)
  }

  ghost predicate StepAt(states: seq<State>, steps: seq<Step>, i: nat) {
    i < |steps| && i + 1 < |states| && NextStep(states[i], states[i + 1], steps[i])
  }

  /** A finite run: the states, and the steps between them. */
  ghost predicate Run(states: seq<State>, steps: seq<Step>) {
    |states| == |steps| + 1 && forall i :: 0 <= i < |steps| ==> StepAt(states, steps, i)
  }
}

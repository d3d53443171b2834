/** Admission and completion of fetch requests: the admission semaphore, the
    in_flight counter, the ready queue, the Drop guard that settles, and
    shutdown racing `start`. One step per lock operation or atomic access. */
module FetchAdmission {
  import opened Wrappers
  import opened Counting

  type Id = nat
  type Tid = nat

  datatype StartPc =
    | Idle
    | Checked                 // check_up passed
    | Holding                 // a permit acquired and forgotten
    | Named(id: Id)           // next_id taken
    | Spawning(id: Id)        // holds the runtime lock, the runtime is there
    | CountedIn(id: Id)       // in_flight added, guard not yet handed over
    | Stopping                // `down` stored
    | StopCancelled           // cancel_all fired, about to take the runtime

  /** How the task ended; `Unended` while it runs. */
  datatype End = Unended | ByOk | ByErr | ByCancel | ByDrop

  datatype TaskPc =
    | Running
    | SettlingErr             // work returned Err: settle comes first
    | Guard                   // TaskGuard::drop begins
    | Releasing(c: bool)      // read is_cancelled, about to add the permit
    | Uncounting(c: bool)     // permit added, about to subtract in_flight
    | Posting(c: bool)        // subtracted, about to post the id
    | Settling(c: bool)       // posted, about to settle
    | Gone

  datatype Err = Cancelled | Work

  datatype Req = Req(pc: TaskPc, cancelled: bool, settled: bool, err: Option<Err>, end: End)

  datatype State = State(
    max: nat,
    avail: nat,
    inFlight: int,
    down: bool,
    cancelAll: bool,
    runtime: bool,                 // rt is Some
    rtLock: Option<Tid>,
    leaked: nat,                   // permits forgotten by a start that found no runtime
    next: Id,
    posts: seq<Id>,                // every id ever posted (history)
    ready: seq<Id>,                // what is in the ready queue
    starts: map<Tid, StartPc>,
    reqs: map<Id, Req>)

  datatype Step =
    | CheckUp(th: Tid) | GiveUp(th: Tid) | Admit(th: Tid) | TakeId(th: Tid) | LockRt(th: Tid)
    | CountIn(th: Tid) | Spawn(th: Tid)
    | StoreDown(th: Tid) | CancelAll(th: Tid) | TakeRt(th: Tid)
    | Cancel(id: Id)
    | TaskEnds(id: Id, how: End) | SettleErr(id: Id)
    | ReadCancelled(id: Id) | Release(id: Id) | Uncount(id: Id) | Post(id: Id) | Settle(id: Id)
    | PopReady

  const READY_CAP: nat := 4096

  function Clamp(n: nat): nat {
    if n < 1 then 1 else if n > 4096 then 4096 else n
  }

  function Init(maxInFlight: nat): State {
    var max := Clamp(maxInFlight);
    State(max, max, 0, false, false, true, None, 0, 1, [], [], map[], map[])
  }

  function Pc(s: State, th: Tid): StartPc {
    if th in s.starts then s.starts[th] else Idle
  }

  function Move(s: State, th: Tid, pc: StartPc): State {
    s.(starts := s.starts[th := pc])
  }

  function SetReq(s: State, id: Id, r: Req): State {
    s.(reqs := s.reqs[id := r])
  }

  /** `ReadyQ::push`: the oldest id goes when the queue is full. */
  function PushReady(q: seq<Id>, id: Id): seq<Id> {
    (if |q| >= READY_CAP then q[1..] else q) + [id]
  }

  predicate IsCancelled(s: State, r: Req) { r.cancelled || s.cancelAll }

  function Settled(r: Req, e: Option<Err>): Req {
    if r.settled then r else r.(settled := true, err := if r.err.None? then e else r.err)
  }

  // ----- steps --------------------------------------------------------------

  /** `Req::start`, `Client::shutdown`, `Client::drop`, `shutdown_all`. */
  predicate StartStep(s: State, s': State, th: Tid, step: Step) {
    var pc := Pc(s, th);
    match step
    case CheckUp(_) => pc.Idle? && !s.down && s' == Move(s, th, Checked)
    case GiveUp(_) => pc.Checked? && s' == Move(s, th, Idle)
    case Admit(_) => pc.Checked? && s.avail > 0 && s' == Move(s, th, Holding).(avail := s.avail - 1)
    case TakeId(_) => pc.Holding? && s' == Move(s, th, Named(s.next)).(next := s.next + 1)
    case LockRt(_) =>
      pc.Named? && s.rtLock.None?
      && s' == if s.runtime then Move(s, th, Spawning(pc.id)).(rtLock := Some(th))
               else Move(s, th, Idle).(leaked := s.leaked + 1)
    case CountIn(_) => pc.Spawning? && s' == Move(s, th, CountedIn(pc.id)).(inFlight := s.inFlight + 1)
    case Spawn(_) =>
      pc.CountedIn?
      && s' == Move(s, th, Idle).(rtLock := None, reqs := s.reqs[pc.id := Req(Running, false, false, None, Unended)])
    case StoreDown(_) => pc.Idle? && s' == Move(s, th, Stopping).(down := true)
    case CancelAll(_) => pc.Stopping? && s' == Move(s, th, StopCancelled).(cancelAll := true)
    case TakeRt(_) => pc.StopCancelled? && s.rtLock.None? && s' == Move(s, th, Idle).(runtime := false)
    case _ => false
  }

  /** The task and its guard. */
  predicate TaskStep(s: State, s': State, id: Id, step: Step) {
    id in s.reqs &&
    var r := s.reqs[id];
    match step
    case Cancel(_) => s' == SetReq(s, id, r.(cancelled := true))
    case TaskEnds(_, how) =>
      r.pc.Running?
      && (how.ByOk? || how.ByErr? || (how.ByCancel? && IsCancelled(s, r)) || (how.ByDrop? && !s.runtime))
      && s' == SetReq(s, id, r.(pc := if how.ByErr? then SettlingErr else Guard, end := how))
    case SettleErr(_) => r.pc.SettlingErr? && s' == SetReq(s, id, Settled(r, Some(Work)).(pc := Guard))
    case ReadCancelled(_) => r.pc.Guard? && s' == SetReq(s, id, r.(pc := Releasing(IsCancelled(s, r))))
    case Release(_) => r.pc.Releasing? && s' == SetReq(s, id, r.(pc := Uncounting(r.pc.c))).(avail := s.avail + 1)
    case Uncount(_) =>
      r.pc.Uncounting? && s' == SetReq(s, id, r.(pc := Posting(r.pc.c))).(inFlight := s.inFlight - 1)
    case Post(_) =>
      r.pc.Posting?
      && s' == SetReq(s, id, r.(pc := Settling(r.pc.c))).(posts := s.posts + [id], ready := PushReady(s.ready, id))
    case Settle(_) =>
      r.pc.Settling?
      && s' == SetReq(s, id, Settled(r, if r.pc.c then Some(Cancelled) else None).(pc := Gone))
    case _ => false
  }

  predicate NextStep(s: State, s': State, step: Step) {
    match step
    case PopReady => s.ready != [] && s' == s.(ready := s.ready[1..])
    case Cancel(id) => TaskStep(s, s', id, step)
    case TaskEnds(id, _) => TaskStep(s, s', id, step)
    case SettleErr(id) => TaskStep(s, s', id, step)
    case ReadCancelled(id) => TaskStep(s, s', id, step)
    case Release(id) => TaskStep(s, s', id, step)
    case Uncount(id) => TaskStep(s, s', id, step)
    case Post(id) => TaskStep(s, s', id, step)
    case Settle(id) => TaskStep(s, s', id, step)
    case _ => StartStep(s, s', step.th, step)
  }

  ghost predicate StepAt(states: seq<State>, steps: seq<Step>, i: nat) {
    i < |steps| && i + 1 < |states| && NextStep(states[i], states[i + 1], steps[i])
  }

  ghost predicate Run(states: seq<State>, steps: seq<Step>) {
    |states| == |steps| + 1 && forall i :: 0 <= i < |steps| ==> StepAt(states, steps, i)
  }

  // ----- the invariant ------------------------------------------------------

  predicate HoldsPermit(pc: StartPc) { pc.Holding? || HasId(pc) }

  predicate HasId(pc: StartPc) { pc.Named? || pc.Spawning? || pc.CountedIn? }

  /** The guard exists and has not returned the permit. */
  predicate Unreleased(r: Req) {
    r.pc.Running? || r.pc.SettlingErr? || r.pc.Guard? || r.pc.Releasing?
  }

  predicate StartCounted(pc: StartPc) { pc.CountedIn? }

  predicate Uncounted(r: Req) { Unreleased(r) || r.pc.Uncounting? }

  predicate BetweenReleases(r: Req) { r.pc.Uncounting? }

  /** Available permits, forgotten ones, guarded ones and leaked ones add up. */
  ghost predicate PermitsOk(s: State) {
    s.avail + Count(s.starts, HoldsPermit) + Count(s.reqs, Unreleased) + s.leaked == s.max
  }

  ghost predicate FlightOk(s: State) {
    s.inFlight == Count(s.starts, StartCounted) + Count(s.reqs, Uncounted)
  }

  ghost predicate StopOk(s: State) {
    && (s.leaked > 0 ==> !s.runtime)
    && (!s.runtime ==> s.down && s.cancelAll)
    && (s.cancelAll ==> s.down)
    && (forall th :: th in s.starts && (s.starts[th].Stopping? || s.starts[th].StopCancelled?) ==> s.down)
    && (forall th :: th in s.starts && s.starts[th].StopCancelled? ==> s.cancelAll)
  }

  function IdAt(s: State, th: Tid): Option<Id> {
    if HasId(Pc(s, th)) then Some(Pc(s, th).id) else None
  }

  /** Ids are handed out once. */
  ghost predicate IdsOk(s: State) {
    && (forall id :: id in s.reqs ==> id < s.next)
    && (forall th :: IdAt(s, th).Some? ==> IdAt(s, th).value < s.next && IdAt(s, th).value !in s.reqs)
    && (forall g, h :: g != h && IdAt(s, g).Some? ==> IdAt(s, g) != IdAt(s, h))
  }

  predicate Posted(s: State, id: Id) { id in s.posts }

  /** The life of one request: what has happened by each program point. */
  predicate ReqOk(s: State, id: Id, r: Req) {
    && (r.pc.Running? <==> r.end.Unended?)
    && (r.pc.SettlingErr? ==> r.end.ByErr?)
    && (r.settled <==> r.pc.Gone? || (r.end.ByErr? && !r.pc.SettlingErr?))
    && (r.end.ByErr? && r.settled ==> r.err == Some(Work))
    && (r.pc.Settling? || r.pc.Gone? ==> Posted(s, id))
    && (!r.settled ==> r.err.None?)
    && (r.end.ByCancel? ==> IsCancelled(s, r))
    && (r.end.ByDrop? ==> s.cancelAll)
    && (r.err == Some(Work) ==> r.end.ByErr?)
    && (r.end.ByOk? && !IsCancelled(s, r) ==> r.err.None? && (Carries(r.pc) ==> !r.pc.c))
  }

  /** Between its look at the token and its settling the guard carries what it saw. */
  predicate Carries(pc: TaskPc) { pc.Releasing? || pc.Uncounting? || pc.Posting? || pc.Settling? }

  /** A cancelled task's guard sees the cancellation. */
  predicate CancelOk(r: Req) {
    (r.end.ByCancel? || r.end.ByDrop?) ==>
      && (Carries(r.pc) ==> r.pc.c)
      && (r.pc.Gone? ==> r.err == Some(Cancelled))
  }

  ghost predicate ReqsOk(s: State) {
    forall id :: id in s.reqs ==> ReqOk(s, id, s.reqs[id]) && CancelOk(s.reqs[id])
  }

  /** The ready queue holds the newest ids nobody took or pushed out. */
  ghost predicate ReadyOk(s: State) {
    |s.ready| <= READY_CAP && |s.ready| <= |s.posts| && s.ready == s.posts[|s.posts| - |s.ready|..]
  }

  ghost predicate Inv(s: State) {
    PermitsOk(s) && FlightOk(s) && StopOk(s) && IdsOk(s) && ReqsOk(s) && ReadyOk(s)
  }

  // ----- preservation -------------------------------------------------------

  lemma StartPermits(s: State, s': State, th: Tid, step: Step)
    requires PermitsOk(s) && IdsOk(s) && StartStep(s, s', th, step)
    ensures PermitsOk(s')
  {
    CountUpdate(s.starts, th, Pc(s', th), HoldsPermit);
    if step.Spawn? {
      var id := IdAt(s, th).value;
      CountUpdate(s.reqs, id, s'.reqs[id], Unreleased);
    }
  }

  lemma StartFlight(s: State, s': State, th: Tid, step: Step)
    requires FlightOk(s) && IdsOk(s) && StartStep(s, s', th, step)
    ensures FlightOk(s')
  {
    CountUpdate(s.starts, th, Pc(s', th), StartCounted);
    if step.Spawn? {
      var id := IdAt(s, th).value;
      CountUpdate(s.reqs, id, s'.reqs[id], Uncounted);
    }
  }

  lemma StartStops(s: State, s': State, th: Tid, step: Step)
    requires StopOk(s) && StartStep(s, s', th, step)
    ensures StopOk(s')
  {
  }

  lemma StartReady(s: State, s': State, th: Tid, step: Step)
    requires ReadyOk(s) && StartStep(s, s', th, step)
    ensures ReadyOk(s')
  {
  }

  lemma StartId(s: State, s': State, th: Tid, step: Step)
    requires StartStep(s, s', th, step)
    ensures forall g :: g != th ==> IdAt(s', g) == IdAt(s, g)
    ensures if step.TakeId? then IdAt(s', th) == Some(s.next) && s'.next == s.next + 1 && s'.reqs == s.reqs
            else if step.Spawn? then IdAt(s, th).Some? && IdAt(s', th).None? && s'.next == s.next
                 && s'.reqs.Keys == s.reqs.Keys + {IdAt(s, th).value}
            else (IdAt(s', th) == IdAt(s, th) || IdAt(s', th).None?) && s'.next == s.next && s'.reqs == s.reqs
  {
  }

  lemma StartIds(s: State, s': State, th: Tid, step: Step)
    requires IdsOk(s) && StartStep(s, s', th, step)
    ensures IdsOk(s')
  {
    StartId(s, s', th, step);
  }

  lemma StartReqs(s: State, s': State, th: Tid, step: Step)
    requires ReqsOk(s) && IdsOk(s) && StartStep(s, s', th, step)
    ensures ReqsOk(s')
  {
    assert step.Spawn? ==> IdAt(s, th).Some?;
    forall id | id in s'.reqs ensures ReqOk(s', id, s'.reqs[id]) && CancelOk(s'.reqs[id]) {
      if id in s.reqs {
        assert ReqOk(s, id, s.reqs[id]) && CancelOk(s.reqs[id]);
      }
    }
  }

  lemma TaskRest(s: State, s': State, id: Id, step: Step)
    requires TaskStep(s, s', id, step)
    ensures id in s.reqs && id in s'.reqs && s'.reqs == s.reqs[id := s'.reqs[id]]
    ensures s'.starts == s.starts && s'.leaked == s.leaked && s'.max == s.max
  {
  }

  /** The guard gives back what its request held. */
  lemma TaskLocal(s: State, s': State, id: Id, step: Step)
    requires TaskStep(s, s', id, step) && id in s'.reqs
    ensures s'.avail + One(Unreleased(s'.reqs[id])) == s.avail + One(Unreleased(s.reqs[id]))
    ensures s'.inFlight - One(Uncounted(s'.reqs[id])) == s.inFlight - One(Uncounted(s.reqs[id]))
  {
  }

  lemma TaskPermits(s: State, s': State, id: Id, step: Step)
    requires PermitsOk(s) && TaskStep(s, s', id, step)
    ensures PermitsOk(s')
  {
    TaskRest(s, s', id, step);
    TaskLocal(s, s', id, step);
    CountUpdate(s.reqs, id, s'.reqs[id], Unreleased);
  }

  lemma TaskFlight(s: State, s': State, id: Id, step: Step)
    requires FlightOk(s) && TaskStep(s, s', id, step)
    ensures FlightOk(s')
  {
    TaskRest(s, s', id, step);
    TaskLocal(s, s', id, step);
    CountUpdate(s.reqs, id, s'.reqs[id], Uncounted);
  }

  lemma TaskFrame(s: State, s': State, id: Id, step: Step)
    requires StopOk(s) && IdsOk(s) && ReadyOk(s) && TaskStep(s, s', id, step)
    ensures StopOk(s') && IdsOk(s') && ReadyOk(s')
  {
    assert forall th :: IdAt(s', th) == IdAt(s, th);
  }

  lemma TaskReq(s: State, s': State, id: Id, step: Step)
    requires StopOk(s) && id in s.reqs && ReqOk(s, id, s.reqs[id]) && CancelOk(s.reqs[id]) && TaskStep(s, s', id, step)
    ensures id in s'.reqs && ReqOk(s', id, s'.reqs[id]) && CancelOk(s'.reqs[id])
  {
  }

  lemma TaskReqs(s: State, s': State, id: Id, step: Step)
    requires StopOk(s) && ReqsOk(s) && TaskStep(s, s', id, step)
    ensures ReqsOk(s')
  {
    TaskReq(s, s', id, step);
    forall x | x in s'.reqs && x != id ensures ReqOk(s', x, s'.reqs[x]) && CancelOk(s'.reqs[x]) {
      assert ReqOk(s, x, s.reqs[x]) && CancelOk(s.reqs[x]);
    }
  }

  lemma PopKeeps(s: State, s': State)
    requires Inv(s) && NextStep(s, s', PopReady)
    ensures Inv(s')
  {
    assert forall th :: IdAt(s', th) == IdAt(s, th);
    assert forall id :: id in s'.reqs ==> ReqOk(s, id, s'.reqs[id]);
  }

  predicate ByTask(step: Step) {
    step.Cancel? || step.TaskEnds? || step.SettleErr? || step.ReadCancelled?
    || step.Release? || step.Uncount? || step.Post? || step.Settle?
  }

  lemma StepKeeps(s: State, s': State, step: Step)
    requires Inv(s) && NextStep(s, s', step)
    ensures Inv(s')
  {
    if step.PopReady? {
      PopKeeps(s, s');
    } else if ByTask(step) {
      TaskPermits(s, s', step.id, step);
      TaskFlight(s, s', step.id, step);
      TaskFrame(s, s', step.id, step);
      TaskReqs(s, s', step.id, step);
    } else {
      StartPermits(s, s', step.th, step);
      StartFlight(s, s', step.th, step);
      StartStops(s, s', step.th, step);
      StartReady(s, s', step.th, step);
      StartIds(s, s', step.th, step);
      StartReqs(s, s', step.th, step);
    }
  }

  // ----- every run ----------------------------------------------------------

  ghost predicate RunFrom(maxInFlight: nat, states: seq<State>, steps: seq<Step>) {
    Run(states, steps) && states[0] == Init(maxInFlight)
  }

  lemma InitInv(maxInFlight: nat)
    ensures Inv(Init(maxInFlight))
  {
    var s := Init(maxInFlight);
    assert Where(s.starts, HoldsPermit) == {} && Where(s.starts, StartCounted) == {};
    assert Where(s.reqs, Unreleased) == {} && Where(s.reqs, Uncounted) == {};
  }

  lemma {:induction false} Reached(maxInFlight: nat, states: seq<State>, steps: seq<Step>, i: nat)
    requires RunFrom(maxInFlight, states, steps) && i < |states|
    ensures Inv(states[i])
  {
    if i == 0 {
      InitInv(maxInFlight);
    } else {
      Reached(maxInFlight, states, steps, i - 1);
      assert StepAt(states, steps, i - 1);
      StepKeeps(states[i - 1], states[i], steps[i - 1]);
    }
  }

  lemma SplitUncounted(m: map<Id, Req>)
    ensures Count(m, Uncounted) == Count(m, Unreleased) + Count(m, BetweenReleases)
  {
    assert Where(m, Uncounted) == Where(m, Unreleased) + Where(m, BetweenReleases);
    assert Where(m, Unreleased) !! Where(m, BetweenReleases);
  }

  lemma CountedHold(m: map<Tid, StartPc>)
    ensures Count(m, StartCounted) <= Count(m, HoldsPermit)
  {
    var rest := Where(m, HoldsPermit) - Where(m, StartCounted);
    assert Where(m, HoldsPermit) == Where(m, StartCounted) + rest;
  }

  lemma {:induction false} MaxFixed(maxInFlight: nat, states: seq<State>, steps: seq<Step>, i: nat)
    requires RunFrom(maxInFlight, states, steps) && i < |states|
    ensures states[i].max == Clamp(maxInFlight)
  {
    if i > 0 {
      MaxFixed(maxInFlight, states, steps, i - 1);
      assert StepAt(states, steps, i - 1);
      StepMax(states[i - 1], states[i], steps[i - 1]);
    }
  }

  /** A start that finds the runtime taken. */
  predicate StartsLate(s: State, step: Step) { step.LockRt? && !s.runtime }

  /** How many of the first i steps are. */
  ghost function LateStarts(states: seq<State>, steps: seq<Step>, i: nat): nat
    requires i <= |steps| <= |states|
  {
    if i == 0 then 0 else LateStarts(states, steps, i - 1) + One(StartsLate(states[i - 1], steps[i - 1]))
  }

  lemma {:induction false} LeaksCounted(maxInFlight: nat, states: seq<State>, steps: seq<Step>, i: nat)
    requires RunFrom(maxInFlight, states, steps) && i < |states|
    ensures states[i].leaked == LateStarts(states, steps, i)
  {
    if i > 0 {
      LeaksCounted(maxInFlight, states, steps, i - 1);
      assert StepAt(states, steps, i - 1);
      StepLeaks(states[i - 1], states[i], steps[i - 1]);
    }
  }

  lemma StepLeaks(s: State, s': State, step: Step)
    requires NextStep(s, s', step)
    ensures s'.leaked == s.leaked + One(StartsLate(s, step))
  {
  }

  lemma StepMax(s: State, s': State, step: Step)
    requires NextStep(s, s', step)
    ensures s'.max == s.max
  {
  }

  /** Admission conservation: permits add up to the maximum in every state;
      a permit leaks exactly in a start that finds the runtime taken, which is
      after `down`;
      in_flight never underflows, and is over the maximum only by guards that
      returned the permit and have not subtracted yet. */
  lemma AdmissionConserved(maxInFlight: nat, states: seq<State>, steps: seq<Step>, i: nat)
    requires RunFrom(maxInFlight, states, steps) && i < |states|
    ensures var s := states[i];
      && s.avail + Count(s.starts, HoldsPermit) + Count(s.reqs, Unreleased) + s.leaked == s.max
      && (s.leaked > 0 ==> !s.runtime && s.down)
      && s.inFlight == Count(s.starts, StartCounted) + Count(s.reqs, Uncounted)
      && 0 <= s.inFlight <= s.max + Count(s.reqs, BetweenReleases)
      && s.leaked == LateStarts(states, steps, i)
      && 1 <= s.max <= 4096 && (1 <= maxInFlight <= 4096 ==> s.max == maxInFlight)
      && (maxInFlight > 4096 ==> s.max == 4096)
  {
    Reached(maxInFlight, states, steps, i);
    MaxFixed(maxInFlight, states, steps, i);
    LeaksCounted(maxInFlight, states, steps, i);
    SplitUncounted(states[i].reqs);
    CountedHold(states[i].starts);
  }

  /** The capacity a finished request stands for exists. */
  predicate Returned(s: State, id: Id) {
    id in s.reqs && !Uncounted(s.reqs[id]) && Posted(s, id)
  }

  /** Capacity before completion, exactly: whoever observes `settled` finds the
      permit returned, in_flight lowered and the id posted, unless the request
      ended with an error of its own and its guard is still at work. */
  lemma CapacityBeforeCompletion(maxInFlight: nat, states: seq<State>, steps: seq<Step>, i: nat, id: Id)
    requires RunFrom(maxInFlight, states, steps) && i < |states| && id in states[i].reqs
    requires states[i].reqs[id].settled
    ensures states[i].reqs[id].end.ByErr? || Returned(states[i], id)
    ensures states[i].reqs[id].pc.Gone? ==> Returned(states[i], id)
    ensures (states[i].reqs[id].end.ByCancel? || states[i].reqs[id].end.ByDrop?) ==>
              states[i].reqs[id].err == Some(Cancelled)
  {
    Reached(maxInFlight, states, steps, i);
    assert ReqOk(states[i], id, states[i].reqs[id]) && CancelOk(states[i].reqs[id]);
  }

  /** What a finished request reports: its own error exactly when the work
      returned one; otherwise that it was cancelled, only when it was, and always
      when that ended it; and nothing when it was not. */
  lemma ReportsItsEnd(maxInFlight: nat, states: seq<State>, steps: seq<Step>, i: nat, id: Id)
    requires RunFrom(maxInFlight, states, steps) && i < |states| && id in states[i].reqs
    requires states[i].reqs[id].pc.Gone?
    ensures var s, r := states[i], states[i].reqs[id];
      && (r.err == Some(Work) <==> r.end.ByErr?)
      && (r.err == Some(Cancelled) ==> IsCancelled(s, r))
      && (r.end.ByCancel? || r.end.ByDrop? ==> r.err == Some(Cancelled))
      && (r.end.ByOk? && !IsCancelled(s, r) ==> r.err.None?)
      && r.settled
  {
    Reached(maxInFlight, states, steps, i);
    assert ReqOk(states[i], id, states[i].reqs[id]) && CancelOk(states[i].reqs[id]);
  }

  lemma StartNeverSettles(s: State, s': State, th: Tid, step: Step, id: Id)
    requires StartStep(s, s', th, step) && id in s.reqs && id in s'.reqs && (step.Spawn? ==> Pc(s, th).id != id)
    ensures s'.reqs[id] == s.reqs[id]
  {
  }

  lemma TaskSettles(s: State, s': State, x: Id, step: Step, id: Id)
    requires TaskStep(s, s', x, step) && id in s.reqs && ReqOk(s, id, s.reqs[id])
    requires id in s'.reqs && !s.reqs[id].settled && s'.reqs[id].settled
    ensures Returned(s', id) <==> !s.reqs[id].end.ByErr?
  {
  }

  /** The step that settles: the capacity is there afterwards if and only if
      the work did not return an error. */
  lemma SettlesAfterReturn(maxInFlight: nat, states: seq<State>, steps: seq<Step>, i: nat, id: Id)
    requires RunFrom(maxInFlight, states, steps) && i < |steps| && id in states[i].reqs && id in states[i + 1].reqs
    requires !states[i].reqs[id].settled && states[i + 1].reqs[id].settled
    ensures Returned(states[i + 1], id) <==> !states[i].reqs[id].end.ByErr?
  {
    Reached(maxInFlight, states, steps, i);
    var s, s', step := states[i], states[i + 1], steps[i];
    assert StepAt(states, steps, i);
    assert ReqOk(s, id, s.reqs[id]);
    if step.PopReady? {
    } else if ByTask(step) {
      TaskSettles(s, s', step.id, step, id);
    } else {
      var th := step.th;
      assert step.Spawn? ==> IdAt(s, th) != Some(id);
      StartNeverSettles(s, s', step.th, step, id);
    }
  }

  /** Some run comes to s. */
  ghost predicate Reaches(maxInFlight: nat, s: State) {
    exists states, steps :: RunFrom(maxInFlight, states, steps) && states[|steps|] == s
  }

  lemma ReachesInit(maxInFlight: nat)
    ensures Reaches(maxInFlight, Init(maxInFlight))
  {
    var states: seq<State>, steps: seq<Step> := [Init(maxInFlight)], [];
    assert RunFrom(maxInFlight, states, steps);
  }

  lemma ReachesOn(maxInFlight: nat, s: State, s': State, step: Step)
    requires Reaches(maxInFlight, s) && NextStep(s, s', step)
    ensures Reaches(maxInFlight, s')
  {
    var states, steps :| RunFrom(maxInFlight, states, steps) && states[|steps|] == s;
    var states', steps' := states + [s'], steps + [step];
    forall i | 0 <= i < |steps'| ensures StepAt(states', steps', i) {
      if i < |steps| { assert StepAt(states, steps, i); }
    }
    assert RunFrom(maxInFlight, states', steps');
  }

  /** A client with one slot, held by thread 0. */
  function HoldingOne(): State { Move(Move(Init(1), 0, Checked), 0, Holding).(avail := 0) }

  /** Its request, named. */
  function NamedOne(): State {
    Move(HoldingOne(), 0, Named(1)).(next := 2)
  }

  /** And its task, running. */
  function RunningOne(): State {
    var s4 := Move(NamedOne(), 0, Spawning(1)).(rtLock := Some(0));
    var s5 := Move(s4, 0, CountedIn(1)).(inFlight := 1);
    Move(s5, 0, Idle).(rtLock := None, reqs := map[1 := Req(Running, false, false, None, Unended)])
  }

  lemma HoldingOneReached()
    ensures Reaches(1, HoldingOne())
  {
    var s1 := Move(Init(1), 0, Checked);
    ReachesInit(1);
    ReachesOn(1, Init(1), s1, CheckUp(0));
    ReachesOn(1, s1, HoldingOne(), Admit(0));
  }

  lemma NamedOneReached()
    ensures Reaches(1, NamedOne())
  {
    HoldingOneReached();
    ReachesOn(1, HoldingOne(), NamedOne(), TakeId(0));
  }

  lemma RunningOneReached()
    ensures Reaches(1, RunningOne())
  {
    var s4 := Move(NamedOne(), 0, Spawning(1)).(rtLock := Some(0));
    var s5 := Move(s4, 0, CountedIn(1)).(inFlight := 1);
    NamedOneReached();
    ReachesOn(1, NamedOne(), s4, LockRt(0));
    ReachesOn(1, s4, s5, CountIn(0));
    ReachesOn(1, s5, RunningOne(), Spawn(0));
  }

  /** A run in which `settled` is visible while the only slot is still taken. */
  lemma ErrorSettlesFirst() returns (s: State)
    ensures Reaches(1, s) && 1 in s.reqs && s.reqs[1].settled && s.avail == 0 && s.inFlight == 1
  {
    RunningOneReached();
    var s7 := SetReq(RunningOne(), 1, Req(SettlingErr, false, false, None, ByErr));
    ReachesOn(1, RunningOne(), s7, TaskEnds(1, ByErr));
    s := SetReq(s7, 1, Req(Guard, false, true, Some(Work), ByErr));
    ReachesOn(1, s7, s, SettleErr(1));
  }

  /** When every guard is gone and no start is under way, all capacity is
      back but for what leaked into a runtime that was already taken. */
  lemma AllReturns(maxInFlight: nat, states: seq<State>, steps: seq<Step>, i: nat)
    requires RunFrom(maxInFlight, states, steps) && i < |states|
    requires forall id :: id in states[i].reqs ==> states[i].reqs[id].pc.Gone?
    requires forall th :: th in states[i].starts ==> !HoldsPermit(states[i].starts[th])
    ensures var s := states[i];
      s.avail == s.max - s.leaked && s.inFlight == 0 && (s.runtime ==> s.avail == s.max)
    ensures forall id :: id in states[i].reqs ==> states[i].reqs[id].settled && Posted(states[i], id)
  {
    Reached(maxInFlight, states, steps, i);
    var s := states[i];
    assert Where(s.starts, HoldsPermit) == {} && Where(s.starts, StartCounted) == {};
    assert Where(s.reqs, Unreleased) == {} && Where(s.reqs, Uncounted) == {};
    assert forall id :: id in s.reqs ==> ReqOk(s, id, s.reqs[id]);
  }

  /** `ReadyQ`: dropping the oldest id keeps the queue bounded, so what a
      client pops is always the oldest of the last READY_CAP ids not popped. */
  class ReadyQ {
    var ids: seq<Id>
    ghost var posts: seq<Id>

    ghost predicate Valid() reads this {
      |ids| <= READY_CAP && |ids| <= |posts| && ids == posts[|posts| - |ids|..]
    }

    constructor ()
      ensures Valid() && ids == [] && posts == []
    {
      ids, posts := [], [];
    }

    method Push(id: Id)
      requires Valid()
      modifies this
      ensures Valid() && posts == old(posts) + [id] && ids == PushReady(old(ids), id)
    {
      if |ids| >= READY_CAP { ids := ids[1..]; }
      ids, posts := ids + [id], posts + [id];
    }

    method Pop() returns (r: Option<Id>)
      requires Valid()
      modifies this
      ensures Valid() && posts == old(posts)
      ensures r.None? <==> old(ids) == []
      ensures r.Some? ==> old(ids) == [r.value] + ids
    {
      r := None;
      if |ids| > 0 {
        r, ids := Some(ids[0]), ids[1..];
      }
    }
  }
}

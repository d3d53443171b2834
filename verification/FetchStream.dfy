/** One fetch request in every interleaving of its task with its readers:
    backpressure permits, the body cap, settlement. */
module FetchStream {
  import opened Wrappers
  import opened FetchBody
  import opened Counting

  datatype TaskPc =
    | Streaming                             // await: the next item
    | WantSlot(bytes: Bytes, granted: bool) // await: a chunk permit
    | Pushing(bytes: Bytes)                 // permit forgotten, about to lock
    | Erred(why: string)                    // run_request returned Err
    | Leaving                               // the guard is dropped, about to look at the token
    | Ending(err: Option<string>)           // it is about to settle
    | Over

  datatype ReaderPc =
    | Idle
    | Waiting(max: nat)                     // in cv.wait_timeout
    | GiveBack                              // took a whole chunk: add_permits owed

  datatype State = State(
    slots: nat,                             // queue_chunks
    cap: nat,                               // max_body_bytes, 0 = unlimited
    free: nat,                              // available chunk permits
    received: nat,
    cancelled: bool,                        // the request's token, or its parent
    task: TaskPc,
    body: Body,
    readers: map<Tid, ReaderPc>)

  datatype Step =
    | Item(bytes: Bytes) | StreamFails(why: string) | StreamEnds
    | Grant | Acquire | Stall | Store
    | Cancel                                // by a caller, or before the runtime is taken
    | Dropped                               // the cancelled branch of select!, or the runtime goes down
    | SettleErr | LookCancelled | GuardSettle
    | ReadTurn(th: Tid, max: nat) | ReadWake(th: Tid) | Return(th: Tid)

  function Init(slots: nat, cap: nat): State {
    State(slots, cap, slots, 0, false, Streaming, Body([], 0, false, None, [], []), map[])
  }

  function Pc(s: State, th: Tid): ReaderPc {
    if th in s.readers then s.readers[th] else Idle
  }

  function MoveReader(s: State, th: Tid, pc: ReaderPc): State {
    s.(readers := s.readers[th := pc])
  }

  /** The locked part of a read, then the reader's next program counter. */
  function Reads(s: State, th: Tid, max: nat): State {
    MoveReader(s, th, if s.body.chunks != [] && WholeChunk(s.body, max) then GiveBack else Idle)
    .(body := AfterRead(s.body, max))
  }

  predicate NextStep(s: State, s': State, step: Step) {
    match step
    case Item(bytes) =>
      s.task.Streaming?
      && var total := s.received + |bytes|;
         s' == s.(received := total,
                  task := if s.cap > 0 && total > s.cap then Erred("too-large") else WantSlot(bytes, false))
    case StreamFails(e) => s.task.Streaming? && s' == s.(task := Erred(e))
    case StreamEnds => s.task.Streaming? && s' == s.(task := Leaving)
    case Grant =>
      s.task.WantSlot? && !s.task.granted && s.free > 0
      && s' == s.(free := s.free - 1, task := s.task.(granted := true))
    case Acquire => s.task.WantSlot? && s.task.granted && s' == s.(task := Pushing(s.task.bytes))
    case Stall =>
      s.task.WantSlot?
      && s' == s.(task := Erred("stalled"), free := if s.task.granted then s.free + 1 else s.free)
    case Store => s.task.Pushing? && s' == s.(task := Streaming, body := Push(s.body, s.task.bytes))
    case Cancel => s' == s.(cancelled := true)
    case Dropped =>
      s.cancelled && (s.task.Streaming? || s.task.WantSlot?)
      && s' == s.(task := Leaving,
                  free := if s.task.WantSlot? && s.task.granted then s.free + 1 else s.free)
    case SettleErr =>
      s.task.Erred? && s' == s.(body := Settle(s.body, Some(s.task.why)), task := Leaving)
    case LookCancelled => s.task.Leaving? && s' == s.(task := Ending(if s.cancelled then Some("cancelled") else None))
    case GuardSettle => s.task.Ending? && s' == s.(body := Settle(s.body, s.task.err), task := Over)
    case ReadTurn(th, max) =>
      Pc(s, th).Idle?
      && s' == if s.body.chunks == [] && !s.body.settled then MoveReader(s, th, Waiting(max)) else Reads(s, th, max)
    case ReadWake(th) => Pc(s, th).Waiting? && s' == Reads(s, th, Pc(s, th).max)
    case Return(th) => Pc(s, th).GiveBack? && s' == MoveReader(s, th, Idle).(free := s.free + 1)
  }

  ghost predicate StepAt(states: seq<State>, steps: seq<Step>, i: nat) {
    i < |steps| && i + 1 < |states| && NextStep(states[i], states[i + 1], steps[i])
  }

  ghost predicate Run(states: seq<State>, steps: seq<Step>) {
    |states| == |steps| + 1 && forall i :: 0 <= i < |steps| ==> StepAt(states, steps, i)
  }

  // ----- the invariant ------------------------------------------------------

  predicate Owing(pc: ReaderPc) { pc.GiveBack? }

  predicate InHand(pc: TaskPc) { pc.Pushing? || (pc.WantSlot? && pc.granted) }

  /** Free permits, queued chunks and permits in hand add up. */
  ghost predicate SlotsOk(s: State) {
    s.free + |s.body.chunks| + Count(s.readers, Owing) + One(InHand(s.task)) == s.slots
  }

  function Pending(pc: TaskPc): nat {
    match pc case WantSlot(b, _) => |b| case Pushing(b) => |b| case _ => 0
  }

  predicate CapOk(s: State) {
    && |s.body.pushed| + Pending(s.task) <= s.received
    && (s.cap > 0 ==> |s.body.pushed| <= s.cap)
    && (s.cap > 0 && !s.task.Erred? && !s.task.Leaving? && !s.task.Ending? && !s.task.Over? ==> s.received <= s.cap)
  }

  /** Once settled, the task pushes nothing more. */
  predicate SettledOk(s: State) {
    s.body.settled ==> s.task.Leaving? || s.task.Ending? || s.task.Over?
  }

  ghost predicate Inv(s: State) {
    Intact(s.body) && SlotsOk(s) && CapOk(s) && SettledOk(s)
  }

  lemma ReadsKeep(s: State, th: Tid, max: nat)
    requires Inv(s) && !Pc(s, th).GiveBack?
    ensures Inv(Reads(s, th, max))
  {
    ReadIntact(s.body, max);
    CountUpdate(s.readers, th, Pc(Reads(s, th, max), th), Owing);
  }

  lemma StepKeeps(s: State, s': State, step: Step)
    requires Inv(s) && NextStep(s, s', step)
    ensures Inv(s')
  {
    match step
    case Store => PushIntact(s.body, s.task.bytes);
    case ReadTurn(th, max) =>
      if s.body.chunks == [] && !s.body.settled {
        CountUpdate(s.readers, th, Waiting(max), Owing);
      } else {
        ReadsKeep(s, th, max);
      }
    case ReadWake(th) => ReadsKeep(s, th, Pc(s, th).max);
    case Return(th) => CountUpdate(s.readers, th, Idle, Owing);
    case _ =>
  }

  // ----- every run ----------------------------------------------------------

  ghost predicate RunFrom(slots: nat, cap: nat, states: seq<State>, steps: seq<Step>) {
    Run(states, steps) && states[0] == Init(slots, cap)
  }

  lemma {:induction false} Reached(slots: nat, cap: nat, states: seq<State>, steps: seq<Step>, i: nat)
    requires RunFrom(slots, cap, states, steps) && i < |states|
    ensures Inv(states[i]) && states[i].slots == slots && states[i].cap == cap
  {
    if i == 0 {
      assert Where(states[0].readers, Owing) == {};
    } else {
      Reached(slots, cap, states, steps, i - 1);
      assert StepAt(states, steps, i - 1);
      StepKeeps(states[i - 1], states[i], steps[i - 1]);
    }
  }

  /** Body integrity, permit conservation and the cap, in every state. */
  lemma BodyIntegrity(slots: nat, cap: nat, states: seq<State>, steps: seq<Step>, i: nat)
    requires RunFrom(slots, cap, states, steps) && i < |states|
    ensures var s := states[i];
      && s.body.delivered + Flat(s.body.chunks) == s.body.pushed
      && s.body.buffered == |Flat(s.body.chunks)|
      && s.free + |s.body.chunks| + Count(s.readers, Owing) + One(InHand(s.task)) == slots
      && |s.body.chunks| <= slots
      && (cap > 0 ==> |s.body.delivered| + s.body.buffered <= cap)
  {
    Reached(slots, cap, states, steps, i);
  }

  /** An error comes out only when no byte is left, and the answer of a read
      is exactly what left the queue. */
  lemma ErrorComesLast(slots: nat, cap: nat, states: seq<State>, steps: seq<Step>, i: nat, max: nat)
    requires RunFrom(slots, cap, states, steps) && i < |states|
    ensures var b := states[i].body; var r := ReadAnswer(b, max);
      && (r.Failed? ==> b.chunks == [] && b.settled && b.delivered == b.pushed)
      && (r.Data? ==> AfterRead(b, max).delivered == b.delivered + r.bytes)
      && (!r.Data? ==> AfterRead(b, max) == b)
  {
    Reached(slots, cap, states, steps, i);
  }

  /** The step is a read that finds a chunk. */
  predicate IsDataRead(s: State, step: Step) { s.body.chunks != [] && (step.ReadTurn? || step.ReadWake?) }

  /** How many of the steps from i to j are. */
  ghost function DataReads(states: seq<State>, steps: seq<Step>, i: nat, j: nat): nat
    requires i <= j <= |steps| <= |states|
  {
    if i == j then 0 else DataReads(states, steps, i, j - 1) + One(IsDataRead(states[j - 1], steps[j - 1]))
  }

  /** After settlement the pushed bytes are fixed, and every read that finds a
      chunk, of whatever size and by whichever reader, uses up what is left:
      there are at most `Remaining` of them. Nothing undoes `done`. */
  lemma {:induction false} SettledShrinks(slots: nat, cap: nat, states: seq<State>, steps: seq<Step>, i: nat, j: nat)
    requires RunFrom(slots, cap, states, steps) && i <= j < |states| && states[i].body.settled
    ensures states[j].body.settled && states[j].body.pushed == states[i].body.pushed
    ensures states[j].body.err == states[i].body.err
    ensures Remaining(states[j].body) + DataReads(states, steps, i, j) <= Remaining(states[i].body)
    ensures Done(states[i].body) ==> Done(states[j].body)
  {
    if i < j {
      SettledShrinks(slots, cap, states, steps, i, j - 1);
      Reached(slots, cap, states, steps, j - 1);
      var s, s' := states[j - 1], states[j];
      assert StepAt(states, steps, j - 1);
      SettledStep(s, s', steps[j - 1]);
    }
  }

  lemma SettledStep(s: State, s': State, step: Step)
    requires SettledOk(s) && s.body.settled && NextStep(s, s', step)
    ensures s'.body.settled && s'.body.pushed == s.body.pushed && s'.body.err == s.body.err
    ensures Remaining(s'.body) + One(IsDataRead(s, step)) <= Remaining(s.body)
    ensures Done(s.body) ==> Done(s'.body)
  {
    if IsDataRead(s, step) {
      ReadProgress(s.body, if step.ReadTurn? then step.max else Pc(s, step.th).max);
    }
  }

  /** So a run that goes on reading after settlement is done in the end, and
      then every pushed byte was delivered. */
  lemma EnoughReadsAreDone(slots: nat, cap: nat, states: seq<State>, steps: seq<Step>, i: nat, j: nat)
    requires RunFrom(slots, cap, states, steps) && i <= j < |states| && states[i].body.settled
    requires DataReads(states, steps, i, j) >= Remaining(states[i].body)
    ensures Done(states[j].body) && states[j].body.delivered == states[i].body.pushed
  {
    SettledShrinks(slots, cap, states, steps, i, j);
    Reached(slots, cap, states, steps, j);
  }
}

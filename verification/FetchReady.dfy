/** What `next_ready` gives over a whole run: the ids that guards posted, in
    posting order, each at most once. */
module FetchReady {
  import opened Wrappers
  import opened FetchAdmission

  // ----- an id is posted once -----------------------------------------------

  ghost predicate PostsOk(s: State) {
    && (forall i, j :: 0 <= i < j < |s.posts| ==> s.posts[i] != s.posts[j])
    && (forall id :: id in s.posts ==> id in s.reqs && (s.reqs[id].pc.Settling? || s.reqs[id].pc.Gone?))
  }

  lemma TaskPosts(s: State, s': State, id: Id, step: Step)
    requires PostsOk(s) && TaskStep(s, s', id, step)
    ensures PostsOk(s')
  {
    if step.Post? { assert id !in s.posts; }
  }

  lemma StartPosts(s: State, s': State, th: Tid, step: Step)
    requires PostsOk(s) && IdsOk(s) && StartStep(s, s', th, step)
    ensures PostsOk(s')
  {
    assert step.Spawn? ==> IdAt(s, th) == Some(Pc(s, th).id);
  }

  lemma StepPosts(s: State, s': State, step: Step)
    requires PostsOk(s) && IdsOk(s) && NextStep(s, s', step)
    ensures PostsOk(s')
  {
    if ByTask(step) {
      TaskPosts(s, s', step.id, step);
    } else if !step.PopReady? {
      StartPosts(s, s', step.th, step);
    }
  }

  lemma {:induction false} ReachedPosts(maxInFlight: nat, states: seq<State>, steps: seq<Step>, i: nat)
    requires RunFrom(maxInFlight, states, steps) && i < |states|
    ensures PostsOk(states[i])
  {
    if i > 0 {
      ReachedPosts(maxInFlight, states, steps, i - 1);
      Reached(maxInFlight, states, steps, i - 1);
      assert StepAt(states, steps, i - 1);
      StepPosts(states[i - 1], states[i], steps[i - 1]);
    }
  }

  // ----- what was taken from the queue --------------------------------------

  /** The position, among all posts, of the first id in the ready queue. */
  function Front(s: State): int { |s.posts| - |s.ready| }

  /** The positions `next_ready` has given by state n of a run. */
  ghost function Taken(states: seq<State>, steps: seq<Step>, n: nat): seq<int>
    requires n < |states| && n <= |steps|
  {
    if n == 0 then []
    else Taken(states, steps, n - 1) + if steps[n - 1].PopReady? then [Front(states[n - 1])] else []
  }

  /** In increasing order, all before the front, and what is missing was pushed
      out by READY_CAP newer posts. */
  ghost predicate TakenOk(s: State, taken: seq<int>) {
    && (forall k :: 0 <= k < |taken| ==> 0 <= taken[k] < Front(s))
    && (forall k, l :: 0 <= k < l < |taken| ==> taken[k] < taken[l])
    && (forall j :: 0 <= j < Front(s) && j !in taken ==> j + READY_CAP < |s.posts|)
  }

  lemma QueueStep(s: State, s': State, step: Step)
    requires ReadyOk(s) && NextStep(s, s', step)
    ensures |s.posts| <= |s'.posts| && s.posts == s'.posts[..|s.posts|]
    ensures if step.PopReady? then s.ready != [] && Front(s') == Front(s) + 1
            else Front(s') == Front(s) || (Front(s') == Front(s) + 1 && |s'.posts| == Front(s) + READY_CAP + 1)
  {
    if step.Post? {
      assert s'.posts == s.posts + [step.id] && s'.ready == PushReady(s.ready, step.id);
    } else if !step.PopReady? {
      assert s'.posts == s.posts && s'.ready == s.ready;
    }
  }

  lemma TakenStep(s: State, s': State, step: Step, taken: seq<int>)
    requires ReadyOk(s) && NextStep(s, s', step) && TakenOk(s, taken)
    ensures TakenOk(s', taken + if step.PopReady? then [Front(s)] else [])
  {
    QueueStep(s, s', step);
    var taken' := taken + if step.PopReady? then [Front(s)] else [];
    forall j | 0 <= j < Front(s') && j !in taken' ensures j + READY_CAP < |s'.posts| {
      assert j !in taken;
    }
  }

  lemma {:induction false} TakenReached(maxInFlight: nat, states: seq<State>, steps: seq<Step>, n: nat)
    requires RunFrom(maxInFlight, states, steps) && n < |states|
    ensures TakenOk(states[n], Taken(states, steps, n))
  {
    if n > 0 {
      TakenReached(maxInFlight, states, steps, n - 1);
      Reached(maxInFlight, states, steps, n - 1);
      assert StepAt(states, steps, n - 1);
      TakenStep(states[n - 1], states[n], steps[n - 1], Taken(states, steps, n - 1));
    }
  }

  /** `next_ready` gives posted ids in posting order, each at most once; one that
      is neither given nor in the queue was pushed out by READY_CAP newer posts.
      Each given id belongs to a request whose capacity is back. */
  lemma ReadyInOrder(maxInFlight: nat, states: seq<State>, steps: seq<Step>, n: nat)
    requires RunFrom(maxInFlight, states, steps) && n < |states|
    ensures var s := states[n]; var taken := Taken(states, steps, n);
      && (forall k :: 0 <= k < |taken| ==> 0 <= taken[k] < |s.posts| && Returned(s, s.posts[taken[k]]))
      && (forall k, l :: 0 <= k < l < |taken| ==> taken[k] < taken[l] && s.posts[taken[k]] != s.posts[taken[l]])
      && (forall j :: 0 <= j < |s.posts| && j !in taken ==> s.posts[j] in s.ready || j + READY_CAP < |s.posts|)
  {
    var s, taken := states[n], Taken(states, steps, n);
    TakenReached(maxInFlight, states, steps, n);
    Reached(maxInFlight, states, steps, n);
    ReachedPosts(maxInFlight, states, steps, n);
    forall k | 0 <= k < |taken| ensures Returned(s, s.posts[taken[k]]) {
      assert s.posts[taken[k]] in s.posts;
    }
    forall j | 0 <= j < |s.posts| && j !in taken ensures s.posts[j] in s.ready || j + READY_CAP < |s.posts| {
      if j >= Front(s) { assert s.ready[j - Front(s)] == s.posts[j]; }
    }
  }

  /** The id a `next_ready` answers is the post at the position it takes, and
      posts never change. */
  lemma AnswerIsPost(maxInFlight: nat, states: seq<State>, steps: seq<Step>, i: nat, n: nat)
    requires RunFrom(maxInFlight, states, steps) && i < n < |states| && steps[i].PopReady?
    ensures states[i].ready != [] && 0 <= Front(states[i]) < |states[i].posts| <= |states[n].posts|
    ensures states[i].ready[0] == states[n].posts[Front(states[i])]
    ensures Front(states[i]) in Taken(states, steps, n)
  {
    Reached(maxInFlight, states, steps, n - 1);
    assert StepAt(states, steps, n - 1);
    QueueStep(states[n - 1], states[n], steps[n - 1]);
    if n > i + 1 {
      AnswerIsPost(maxInFlight, states, steps, i, n - 1);
    }
  }

  // ----- ready and settled --------------------------------------------------

  /** An id in the ready queue may be given before its request is settled:
      exactly while the guard is between posting and settling, and the work did
      not settle it with an error. */
  lemma ReadyIsSettled(maxInFlight: nat, states: seq<State>, steps: seq<Step>, n: nat, id: Id)
    requires RunFrom(maxInFlight, states, steps) && n < |states| && id in states[n].posts
    ensures id in states[n].reqs && Returned(states[n], id)
    ensures states[n].reqs[id].settled <==> states[n].reqs[id].pc.Gone? || states[n].reqs[id].end.ByErr?
  {
    Reached(maxInFlight, states, steps, n);
    ReachedPosts(maxInFlight, states, steps, n);
    assert ReqOk(states[n], id, states[n].reqs[id]);
  }

  /** Request 1 done, its slot returned and uncounted. */
  function UncountedOne(): State {
    SetReq(RunningOne(), 1, Req(Posting(false), false, false, None, ByOk)).(avail := 1, inFlight := 0)
  }

  lemma UncountedOneReached()
    ensures Reaches(1, UncountedOne())
  {
    RunningOneReached();
    var s7 := SetReq(RunningOne(), 1, Req(Guard, false, false, None, ByOk));
    ReachesOn(1, RunningOne(), s7, TaskEnds(1, ByOk));
    var s8 := SetReq(s7, 1, Req(Releasing(false), false, false, None, ByOk));
    ReachesOn(1, s7, s8, ReadCancelled(1));
    var s9 := SetReq(s8, 1, Req(Uncounting(false), false, false, None, ByOk)).(avail := 1);
    ReachesOn(1, s8, s9, Release(1));
    assert SetReq(s9, 1, UncountedOne().reqs[1]).reqs == UncountedOne().reqs;
    ReachesOn(1, s9, UncountedOne(), Uncount(1));
  }

  /** A run in which `next_ready` gives the id of a request that is not settled. */
  lemma ReadyBeforeSettled() returns (s: State, s': State)
    ensures Reaches(1, s) && s.ready == [1] && NextStep(s, s', PopReady)
    ensures 1 in s'.reqs && !s'.reqs[1].settled
  {
    UncountedOneReached();
    s := SetReq(UncountedOne(), 1, Req(Settling(false), false, false, None, ByOk)).(posts := [1], ready := [1]);
    ReachesOn(1, UncountedOne(), s, Post(1));
    s' := s.(ready := []);
  }
}

/** What `shutdown` stops: after it, only the starts that were already past
    their check can still make a request, and none once the runtime is taken. */
module FetchShutdown {
  import opened Wrappers
  import opened FetchAdmission
  import opened Counting

  /** A start past its check of `down`. */
  predicate Starting(pc: StartPc) { pc.Checked? || HoldsPermit(pc) }

  /** Whoever is about to spawn holds the lock of the runtime, which is there. */
  ghost predicate SpawnOk(s: State) {
    forall th: Tid :: Pc(s, th).Spawning? || Pc(s, th).CountedIn? ==> s.rtLock == Some(th) && s.runtime
  }

  lemma SpawnKept(s: State, s': State, step: Step)
    requires SpawnOk(s) && NextStep(s, s', step)
    ensures SpawnOk(s')
  {
    if ByTask(step) {
      TaskRest(s, s', step.id, step);
      assert s'.rtLock == s.rtLock && s'.runtime == s.runtime;
      assert forall th: Tid :: Pc(s', th) == Pc(s, th);
    } else if step.PopReady? {
      assert forall th: Tid :: Pc(s', th) == Pc(s, th);
    } else {
      StartSpawn(s, s', step.th, step);
    }
  }

  lemma StartSpawn(s: State, s': State, th: Tid, step: Step)
    requires SpawnOk(s) && StartStep(s, s', th, step)
    ensures SpawnOk(s')
  {
    StartMoves(s, s', th, step);
    forall g | Pc(s', g).Spawning? || Pc(s', g).CountedIn? ensures s'.rtLock == Some(g) && s'.runtime {
      if g != th {
        assert Pc(s', g) == Pc(s, g);
        assert s.rtLock == Some(g);
        assert Pc(s, th).Spawning? || Pc(s, th).CountedIn? ==> s.rtLock == Some(th);
      }
    }
  }

  lemma StartMoves(s: State, s': State, th: Tid, step: Step)
    requires StartStep(s, s', th, step)
    ensures s'.starts == s.starts[th := Pc(s', th)]
    ensures s.down ==> s'.down
    ensures s.down && Starting(Pc(s', th)) ==> Starting(Pc(s, th))
    ensures step.Spawn? ==> Pc(s, th).CountedIn? && Pc(s', th).Idle? && s'.reqs.Keys == s.reqs.Keys + {Pc(s, th).id}
    ensures !step.Spawn? ==> s'.reqs == s.reqs
    ensures !s.runtime ==> !s'.runtime
  {
  }

  lemma {:induction false} SpawnReached(maxInFlight: nat, states: seq<State>, steps: seq<Step>, i: nat)
    requires RunFrom(maxInFlight, states, steps) && i < |states|
    ensures SpawnOk(states[i])
  {
    if i > 0 {
      SpawnReached(maxInFlight, states, steps, i - 1);
      assert StepAt(states, steps, i - 1);
      SpawnKept(states[i - 1], states[i], steps[i - 1]);
    }
  }

  /** Requests made and to come. */
  ghost function Prospects(s: State): nat { |s.reqs| + Count(s.starts, Starting) }

  lemma StartProspects(s: State, s': State, th: Tid, step: Step)
    requires IdsOk(s) && StartStep(s, s', th, step) && s.down
    ensures Prospects(s') <= Prospects(s)
  {
    StartMoves(s, s', th, step);
    CountUpdate(s.starts, th, Pc(s', th), Starting);
    if step.Spawn? {
      assert IdAt(s, th) == Some(Pc(s, th).id);
      SizeIsKeys(s);
      SizeIsKeys(s');
    }
  }

  lemma SizeIsKeys(s: State)
    ensures |s.reqs| == |s.reqs.Keys|
  {
  }

  lemma StartAfterDown(s: State, s': State, th: Tid, step: Step)
    requires StartStep(s, s', th, step) && s.down
    ensures s'.down && s.reqs.Keys <= s'.reqs.Keys
    ensures forall g :: Starting(Pc(s', g)) ==> Starting(Pc(s, g))
    ensures SpawnOk(s) && !s.runtime ==> s'.reqs == s.reqs && !s'.runtime
  {
    StartMoves(s, s', th, step);
    forall g | Starting(Pc(s', g)) ensures Starting(Pc(s, g)) {
      if g != th { assert Pc(s', g) == Pc(s, g); }
    }
  }

  lemma TaskAfterDown(s: State, s': State, id: Id, step: Step)
    requires TaskStep(s, s', id, step)
    ensures s'.reqs.Keys == s.reqs.Keys && s'.starts == s.starts && s'.down == s.down && s'.runtime == s.runtime
  {
    TaskRest(s, s', id, step);
  }

  lemma StepAfterDown(s: State, s': State, step: Step)
    requires IdsOk(s) && NextStep(s, s', step) && s.down
    ensures s'.down && Prospects(s') <= Prospects(s) && s.reqs.Keys <= s'.reqs.Keys
    ensures forall g :: Starting(Pc(s', g)) ==> Starting(Pc(s, g))
    ensures SpawnOk(s) && !s.runtime ==> s'.reqs.Keys == s.reqs.Keys && !s'.runtime
  {
    if ByTask(step) {
      TaskAfterDown(s, s', step.id, step);
      SizeIsKeys(s);
      SizeIsKeys(s');
    } else if !step.PopReady? {
      StartAfterDown(s, s', step.th, step);
      StartProspects(s, s', step.th, step);
    }
  }

  /** Once `down` is stored no start begins, and the requests that still come are
      no more than the starts then past their check. */
  lemma {:induction false} DownStopsStarts(maxInFlight: nat, states: seq<State>, steps: seq<Step>, i: nat, j: nat)
    requires RunFrom(maxInFlight, states, steps) && i <= j < |states| && states[i].down
    ensures states[j].down && states[i].reqs.Keys <= states[j].reqs.Keys
    ensures forall th :: Starting(Pc(states[j], th)) ==> Starting(Pc(states[i], th))
    ensures |states[j].reqs| + Count(states[j].starts, Starting) <= |states[i].reqs| + Count(states[i].starts, Starting)
  {
    if i < j {
      DownStopsStarts(maxInFlight, states, steps, i, j - 1);
      DownFacts(maxInFlight, states, steps, j - 1);
      StepAfterDown(states[j - 1], states[j], steps[j - 1]);
    }
  }

  lemma DownFacts(maxInFlight: nat, states: seq<State>, steps: seq<Step>, j: nat)
    requires RunFrom(maxInFlight, states, steps) && j < |steps|
    ensures IdsOk(states[j]) && SpawnOk(states[j]) && NextStep(states[j], states[j + 1], steps[j])
    ensures !states[j].runtime ==> states[j].down
  {
    Reached(maxInFlight, states, steps, j);
    SpawnReached(maxInFlight, states, steps, j);
    assert StepAt(states, steps, j);
  }

  /** Once the runtime is taken no request is ever made again. */
  lemma {:induction false} NoneAfterRuntime(maxInFlight: nat, states: seq<State>, steps: seq<Step>, i: nat, j: nat)
    requires RunFrom(maxInFlight, states, steps) && i <= j < |states| && !states[i].runtime
    ensures !states[j].runtime && states[j].reqs.Keys == states[i].reqs.Keys
  {
    if i < j {
      NoneAfterRuntime(maxInFlight, states, steps, i, j - 1);
      DownFacts(maxInFlight, states, steps, j - 1);
      StepAfterDown(states[j - 1], states[j], steps[j - 1]);
    }
  }
}

/** The critical sections of `Svc` as they run under the queue's mutex: the
    deque is a field, `retain` a loop. Clients leave while it runs, so each
    entry gets its own answer of `is_closed`: `closed[i]` is the answer entry i
    got when it was looked at. */
module ParkQueue {
  import opened Wrappers
  import opened ParkMachine

  /** What `retain(|p| !p.reply.is_closed())` leaves. */
  function Kept(q: seq<Id>, closed: seq<bool>): seq<Id>
    requires |closed| == |q|
  {
    if q == [] then []
    else
      var n := |q| - 1;
      Kept(q[..n], closed[..n]) + if closed[n] then [] else [q[n]]
  }

  /** No entry was dropped exactly if no answer was yes. */
  lemma {:induction false} KeptAll(q: seq<Id>, closed: seq<bool>)
    requires |closed| == |q|
    ensures |Kept(q, closed)| <= |q|
    ensures |Kept(q, closed)| == |q| <==> true !in closed
    ensures true !in closed ==> Kept(q, closed) == q
  {
    if q != [] {
      var n := |q| - 1;
      KeptAll(q[..n], closed[..n]);
      assert closed == closed[..n] + [closed[n]] && q == q[..n] + [q[n]];
    }
  }

  // ----- the loop -----------------------------------------------------------

  /** The loop has looked at the first |closed| entries of `q0` and stands at
      position k of what is left. */
  predicate Pruned(q0: seq<Id>, closed: seq<bool>, q: seq<Id>, k: nat) {
    var n := |closed|;
    n <= |q0| && k == |Kept(q0[..n], closed)| && q == Kept(q0[..n], closed) + q0[n..]
  }

  lemma PrunedStart(q0: seq<Id>)
    ensures Pruned(q0, [], q0, 0)
  {
    assert q0[..0] == [] && q0[0..] == q0;
  }

  lemma KeptNext(q0: seq<Id>, closed: seq<bool>, c: bool)
    requires |closed| < |q0|
    ensures var n := |closed|;
            Kept(q0[..n + 1], closed + [c]) == Kept(q0[..n], closed) + if c then [] else [q0[n]]
  {
    var n := |closed|;
    assert q0[..n + 1][..n] == q0[..n] && (closed + [c])[..n] == closed;
  }

  lemma CutAt(q: seq<Id>, a: seq<Id>, x: Id, b: seq<Id>)
    requires q == a + ([x] + b)
    ensures q[|a|] == x && q == (a + [x]) + b && Without(q, |a|) == a + b
  {
    assert q[..|a|] == a && q[|a| + 1..] == b;
  }

  /** An entry that is kept, and one that is dropped. */
  lemma PrunedNext(q0: seq<Id>, closed: seq<bool>, q: seq<Id>, k: nat)
    requires Pruned(q0, closed, q, k) && k < |q|
    ensures |closed| < |q0| && q[k] == q0[|closed|]
    ensures Pruned(q0, closed + [false], q, k + 1)
    ensures Pruned(q0, closed + [true], Without(q, k), k)
  {
    var n := |closed|;
    var a := Kept(q0[..n], closed);
    KeptNext(q0, closed, false);
    KeptNext(q0, closed, true);
    assert a + [] == a;
    assert q0[n..] == [q0[n]] + q0[n + 1..];
    CutAt(q, a, q0[n], q0[n + 1..]);
  }

  lemma PrunedEnd(q0: seq<Id>, closed: seq<bool>, q: seq<Id>, k: nat)
    requires Pruned(q0, closed, q, k) && k >= |q|
    ensures |closed| == |q0| && q == Kept(q0, closed)
  {
    assert q0[..|q0|] == q0;
  }

  // ----- the code -----------------------------------------------------------

  datatype PushTry = RefusedDown | Parked(owesNotify: bool) | NoSlot(survivors: nat)

  class Svc {
    var q: seq<Id>
    const cap: nat

    ghost predicate Valid() reads this { 1 <= cap && |q| <= cap }

    constructor (queue: nat)
      ensures Valid() && q == [] && cap == Init(queue).cap
    {
      q := [];
      cap := if queue < 1 then 1 else if queue > 65536 then 65536 else queue;
    }

    /** Entry by entry, in the order and with the effect of the machine's
        pruning steps. */
    method Prune(closed: seq<bool>) returns (freed: bool)
      requires Valid() && |closed| == |q|
      modifies this
      ensures Valid() && q == Kept(old(q), closed)
      ensures freed <==> true in closed
      ensures freed <==> |q| < |old(q)|
    {
      var k, i := 0, 0;
      freed := false;
      PrunedStart(q);
      while i < |closed|
        invariant 0 <= i <= |closed| && Pruned(old(q), closed[..i], q, k)
        invariant freed <==> true in closed[..i]
      {
        assert closed[..i + 1] == closed[..i] + [closed[i]];
        PrunedNext(old(q), closed[..i], q, k);
        if closed[i] {
          q := Without(q, k);
          freed := true;
        } else {
          k := k + 1;
        }
        i := i + 1;
      }
      assert closed[..i] == closed;
      PrunedEnd(old(q), closed, q, k);
      KeptAll(old(q), closed);
    }

    /** One turn of `push` under the lock. A turn without a slot dropped
        nothing: exactly `cap` entries are there and none was closed. */
    method PushTurn(id: Id, down: bool, closed: seq<bool>) returns (r: PushTry)
      requires Valid() && |closed| == |q|
      modifies this
      ensures Valid()
      ensures down <==> r == RefusedDown
      ensures r.RefusedDown? ==> q == old(q)
      ensures r.NoSlot? ==> q == old(q) && r.survivors == cap && true !in closed
      ensures r.Parked? ==> q == Kept(old(q), closed) + [id]
      ensures r.Parked? ==> (r.owesNotify <==> true in closed)
    {
      if down { return RefusedDown; }
      var freed := Prune(closed);
      KeptAll(old(q), closed);
      if |q| < cap {
        q := q + [id];
        r := Parked(freed);
      } else {
        r := NoSlot(|q|);
      }
    }

    /** `take`: the first entry that was kept, and whether slots were freed. */
    method Take(closed: seq<bool>) returns (got: Option<Id>, owesNotify: bool)
      requires Valid() && |closed| == |q|
      modifies this
      ensures Valid()
      ensures got.None? <==> Kept(old(q), closed) == []
      ensures got.Some? ==> [got.value] + q == Kept(old(q), closed)
      ensures got.None? ==> q == []
      ensures owesNotify <==> |q| < |old(q)|
    {
      var freed := Prune(closed);
      got := None;
      if |q| > 0 {
        got, q := Some(q[0]), q[1..];
      }
      KeptAll(old(q), closed);
      owesNotify := freed || got.Some?;
    }

    method Drain() returns (drained: seq<Id>)
      requires Valid()
      modifies this
      ensures Valid() && q == [] && drained == old(q)
    {
      drained, q := q, [];
    }
  }
}

/** `Inbox<T>`: a bounded queue behind a mutex, closable, many producers and
    consumers.

    `St` is the mutex-protected state with the history of what was accepted
    and what was received, in lock order. The class is the code under the
    lock, with its wait loops; what other threads do while a call waits is an
    input (`Turn`), and each call is shown to act at one point between those
    turns. */
module InboxQueue {

  datatype St<T> = St(queue: seq<T>, closed: bool, accepted: seq<T>, received: seq<T>)

  datatype SendResult<T> = Sent | Full(value: T) | ClosedTo(value: T) | SendWaiting
  datatype RecvResult<T> = Got(value: T) | Nothing | Closed | RecvWaiting

  /** What another thread does under the lock. */
  datatype Op<T> = TrySending(value: T) | Receiving | Closing

  /** One turn of a wait loop that did not return: whether the deadline had
      passed, and what others did before the thread held the lock again. */
  datatype Turn<T> = Turn(expired: bool, meanwhile: seq<Op<T>>)

  // ----- one operation ------------------------------------------------------

  function Pushed<T>(st: St<T>, value: T): St<T> {
    st.(queue := st.queue + [value], accepted := st.accepted + [value])
  }

  function Popped<T>(st: St<T>): St<T> {
    if st.queue == [] then st
    else st.(queue := st.queue[1..], received := st.received + [st.queue[0]])
  }

  function Apply<T>(cap: nat, st: St<T>, op: Op<T>): St<T> {
    match op
    case TrySending(v) => if st.closed || |st.queue| >= cap then st else Pushed(st, v)
    case Receiving => Popped(st)
    case Closing => st.(closed := true)
  }

  function ApplyAll<T>(cap: nat, st: St<T>, ops: seq<Op<T>>): St<T>
    decreases |ops|
  {
    if ops == [] then st else ApplyAll(cap, Apply(cap, st, ops[0]), ops[1..])
  }

  lemma {:induction false} ApplyAllAppend<T>(cap: nat, st: St<T>, a: seq<Op<T>>, b: seq<Op<T>>)
    ensures ApplyAll(cap, st, a + b) == ApplyAll(cap, ApplyAll(cap, st, a), b)
    decreases |a|
  {
    if a == [] {
      assert a + b == b;
    } else {
      assert (a + b)[0] == a[0] && (a + b)[1..] == a[1..] + b;
      ApplyAllAppend(cap, Apply(cap, st, a[0]), a[1..], b);
    }
  }

  function Flat<T>(turns: seq<Turn<T>>): seq<Op<T>> {
    if turns == [] then [] else Flat(turns[..|turns| - 1]) + turns[|turns| - 1].meanwhile
  }

  // ----- the bounded FIFO ---------------------------------------------------

  /** Nothing lost, nothing invented, nothing reordered, never over capacity. */
  ghost predicate Fifo<T>(cap: nat, st: St<T>) {
    1 <= cap && |st.queue| <= cap && st.accepted == st.received + st.queue
  }

  lemma ApplyFifo<T>(cap: nat, st: St<T>, op: Op<T>)
    requires Fifo(cap, st)
    ensures var st' := Apply(cap, st, op);
      && Fifo(cap, st') && st.received <= st'.received && st.accepted <= st'.accepted
      && (st.closed ==> st'.closed && st'.accepted == st.accepted)
  {
  }

  lemma {:induction false} ApplyAllFifo<T>(cap: nat, st: St<T>, ops: seq<Op<T>>)
    requires Fifo(cap, st)
    ensures var st' := ApplyAll(cap, st, ops);
      && Fifo(cap, st') && st.received <= st'.received && st.accepted <= st'.accepted
      && (st.closed ==> st'.closed && st'.accepted == st.accepted)
    decreases |ops|
  {
    if ops != [] {
      ApplyFifo(cap, st, ops[0]);
      ApplyAllFifo(cap, Apply(cap, st, ops[0]), ops[1..]);
    }
  }

  /** A receive that answers Closed: everything accepted was received, and no
      later operation changes anything, so every later receive answers the same. */
  lemma {:induction false} ClosedIsFinal<T>(cap: nat, st: St<T>, ops: seq<Op<T>>)
    requires Fifo(cap, st) && st.closed && st.queue == []
    ensures st.received == st.accepted
    ensures ApplyAll(cap, st, ops) == st
    decreases |ops|
  {
    if ops != [] {
      assert Apply(cap, st, ops[0]) == st;
      ClosedIsFinal(cap, st, ops[1..]);
    }
  }

  /** After close exactly the values still inside come out, in order. */
  lemma {:induction false} DrainAfterClose<T>(cap: nat, st: St<T>, n: nat)
    requires Fifo(cap, st) && st.closed && n <= |st.queue|
    ensures var st' := ApplyAll(cap, st, seq(n, i => Receiving));
            st'.received == st.received + st.queue[..n] && st'.queue == st.queue[n..] && st'.closed
    decreases n
  {
    if n > 0 {
      var ops := seq(n, i => Op<T>.Receiving);
      assert ops[1..] == seq(n - 1, i => Op<T>.Receiving);
      DrainAfterClose(cap, Popped(st), n - 1);
      assert st.queue[..n] == [st.queue[0]] + st.queue[1..][..n - 1];
    }
  }

  // ----- the code under the lock --------------------------------------------

  class Inbox<T> {
    var queue: seq<T>
    var closed: bool
    const capacity: nat
    ghost var accepted: seq<T>
    ghost var received: seq<T>

    ghost function View(): St<T> reads this { St(queue, closed, accepted, received) }

    ghost predicate Valid() reads this { Fifo(capacity, View()) }

    constructor (capacity: nat)
      ensures Valid() && View() == St([], false, [], [])
      ensures this.capacity == if capacity == 0 then 1 else capacity
    {
      queue, closed := [], false;
      this.capacity := if capacity == 0 then 1 else capacity;
      accepted, received := [], [];
    }

    method TrySend(value: T) returns (r: SendResult<T>)
      requires Valid()
      modifies this
      ensures Valid() && View() == Apply(capacity, old(View()), TrySending(value))
      ensures r == if old(closed) then ClosedTo(value)
                   else if |old(queue)| >= capacity then Full(value) else Sent
    {
      if closed { return ClosedTo(value); }
      if |queue| >= capacity { return Full(value); }
      queue, accepted := queue + [value], accepted + [value];
      r := Sent;
    }

    method Close()
      requires Valid()
      modifies this
      ensures Valid() && View() == Apply(capacity, old(View()), Closing)
    {
      closed := true;
    }

    method PopFront() returns (r: RecvResult<T>)
      requires Valid()
      modifies this
      ensures Valid() && View() == Apply(capacity, old(View()), Receiving)
      ensures r == if |old(queue)| > 0 then Got(old(queue)[0]) else if closed then Closed else RecvWaiting
    {
      if |queue| > 0 {
        r, queue, received := Got(queue[0]), queue[1..], received + [queue[0]];
      } else {
        r := if closed then Closed else RecvWaiting;
      }
    }

    /** Other threads hold the lock for a while. */
    method Meanwhile(ops: seq<Op<T>>)
      requires Valid()
      modifies this
      ensures Valid() && View() == ApplyAll(capacity, old(View()), ops)
    {
      ghost var before := View();
      for i := 0 to |ops|
        invariant Valid() && View() == ApplyAll(capacity, before, ops[..i])
      {
        assert ops[..i + 1] == ops[..i] + [ops[i]];
        ApplyAllAppend(capacity, before, ops[..i], [ops[i]]);
        match ops[i] {
          case TrySending(v) => var _ := TrySend(v);
          case Receiving => var _ := PopFront();
          case Closing => Close();
        }
      }
      assert ops[..|ops|] == ops;
    }

    /** `send_timeout`: after n turns of others the call acts once, on the
        state it finds: it appends the value, or hands it back because the
        inbox is closed, or because it is full and the deadline has passed. */
    method SendTimeout(value: T, turns: seq<Turn<T>>) returns (r: SendResult<T>, ghost n: nat)
      requires Valid()
      modifies this
      ensures Valid() && n <= |turns|
      ensures var mid := ApplyAll(capacity, old(View()), Flat(turns[..n]));
        match r
        case Sent => !mid.closed && |mid.queue| < capacity && View() == Pushed(mid, value)
        case ClosedTo(v) => mid.closed && v == value && View() == mid
        case Full(v) => !mid.closed && |mid.queue| == capacity && v == value && View() == mid
                        && n < |turns| && turns[n].expired
        case SendWaiting => n == |turns| && !mid.closed && |mid.queue| == capacity && View() == mid
      ensures forall i :: 0 <= i < n ==> !turns[i].expired
    {
      var i := 0;
      n := 0;
      ghost var before := View();
      assert turns[..0] == [];
      while true
        invariant 0 <= i <= |turns| && n == i && Valid()
        invariant View() == ApplyAll(capacity, before, Flat(turns[..i]))
        invariant forall j :: 0 <= j < i ==> !turns[j].expired
        decreases |turns| - i
      {
        if closed { return ClosedTo(value), n; }
        if |queue| < capacity {
          queue, accepted := queue + [value], accepted + [value];
          return Sent, n;
        }
        if i == |turns| { return SendWaiting, n; }
        if turns[i].expired { return Full(value), n; }
        ApplyAllAppend(capacity, before, Flat(turns[..i]), turns[i].meanwhile);
        Meanwhile(turns[i].meanwhile);
        assert turns[..i + 1][..i] == turns[..i];
        i, n := i + 1, n + 1;
      }
    }

    /** `recv`: after n turns of others the call acts once: it takes the
        oldest value, or answers Closed on a closed empty inbox, or nothing
        on an open empty one whose deadline has passed. */
    method Recv(turns: seq<Turn<T>>) returns (r: RecvResult<T>, ghost n: nat)
      requires Valid()
      modifies this
      ensures Valid() && n <= |turns|
      ensures var mid := ApplyAll(capacity, old(View()), Flat(turns[..n]));
        match r
        case Got(v) => |mid.queue| > 0 && v == mid.queue[0] && View() == Popped(mid)
        case Closed => mid.queue == [] && mid.closed && View() == mid
        case Nothing => mid.queue == [] && !mid.closed && View() == mid && n < |turns| && turns[n].expired
        case RecvWaiting => mid.queue == [] && !mid.closed && View() == mid && n == |turns|
      ensures forall i :: 0 <= i < n ==> !turns[i].expired
    {
      var i := 0;
      n := 0;
      ghost var before := View();
      assert turns[..0] == [];
      while true
        invariant 0 <= i <= |turns| && n == i && Valid()
        invariant View() == ApplyAll(capacity, before, Flat(turns[..i]))
        invariant forall j :: 0 <= j < i ==> !turns[j].expired
        decreases |turns| - i
      {
        r := PopFront();
        if !r.RecvWaiting? { return r, n; }
        if i == |turns| { return RecvWaiting, n; }
        if turns[i].expired { return Nothing, n; }
        ApplyAllAppend(capacity, before, Flat(turns[..i]), turns[i].meanwhile);
        Meanwhile(turns[i].meanwhile);
        assert turns[..i + 1][..i] == turns[..i];
        i, n := i + 1, n + 1;
      }
    }
  }
}

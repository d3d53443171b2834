/** stdout and stderr of a sandboxed run, captured under one byte budget. */
module CappedOutput {
  import opened Wrappers

  type Bytes = seq<int>

  datatype Stream = Stdout | Stderr

  datatype Store = Store(stdout: Bytes, stderr: Bytes, cap: nat)

  function Concat(bufs: seq<Bytes>): Bytes {
    if bufs == [] then [] else Concat(bufs[..|bufs| - 1]) + bufs[|bufs| - 1]
  }

  function Used(c: Store): nat { |c.stdout| + |c.stderr| }

  function Room(c: Store): nat { if Used(c) >= c.cap then 0 else c.cap - Used(c) }

  function Append(c: Store, s: Stream, xs: Bytes): Store {
    match s
    case Stdout => c.(stdout := c.stdout + xs)
    case Stderr => c.(stderr := c.stderr + xs)
  }

  function Min(a: nat, b: nat): nat { if a < b then a else b }

  /** What a vectored write promises: the bytes that fit are kept, a non-empty
      write with no room is refused. None is ENOSPC. */
  ghost predicate Wrote(c: Store, s: Stream, bufs: seq<Bytes>, c': Store, r: Option<nat>) {
    var all := Concat(bufs);
    && (r.None? <==> all != [] && Room(c) == 0)
    && (r.None? ==> c' == c)
    && (r.Some? ==> r.value == Min(Room(c), |all|) && c' == Append(c, s, all[..r.value]))
  }

  lemma {:induction false} ConcatSplit(bufs: seq<Bytes>, i: nat)
    requires i <= |bufs|
    ensures |Concat(bufs[..i])| <= |Concat(bufs)| && Concat(bufs[..i]) == Concat(bufs)[..|Concat(bufs[..i])|]
  {
    if i < |bufs| {
      var n := |bufs| - 1;
      ConcatSplit(bufs[..n], i);
      assert bufs[..n][..i] == bufs[..i];
    } else {
      assert bufs[..i] == bufs;
    }
  }

  lemma ConcatNext(bufs: seq<Bytes>, i: nat)
    requires i < |bufs|
    ensures Concat(bufs[..i + 1]) == Concat(bufs[..i]) + bufs[i]
  {
    assert bufs[..i + 1][..i] == bufs[..i];
  }

  function TotalLength(bufs: seq<Bytes>): (n: nat)
    ensures n == |Concat(bufs)|
  {
    if bufs == [] then 0 else TotalLength(bufs[..|bufs| - 1]) + |bufs[|bufs| - 1]|
  }

  /** The captured streams, behind their lock. */
  class Captured {
    var stdout: Bytes
    var stderr: Bytes
    const cap: nat

    constructor (cap: nat)
      ensures Now() == Store([], [], cap)
    {
      this.cap := cap;
      stdout, stderr := [], [];
    }

    function Now(): Store reads this { Store(stdout, stderr, cap) }

    method Extend(s: Stream, xs: Bytes)
      modifies this
      ensures Now() == Append(old(Now()), s, xs)
    {
      match s
      case Stdout => stdout := stdout + xs;
      case Stderr => stderr := stderr + xs;
    }

    method WriteVectored(s: Stream, bufs: seq<Bytes>) returns (r: Option<nat>)
      modifies this
      ensures Wrote(old(Now()), s, bufs, Now(), r)
    {
      ghost var all, was := Concat(bufs), Now();
      if TotalLength(bufs) == 0 {
        assert Append(was, s, []) == was;
        return Some(0);
      }
      var used := |stdout| + |stderr|;
      var room := if used >= cap then 0 else cap - used;
      if room == 0 {
        return None;
      }
      var n := 0;
      var i := 0;
      assert Append(was, s, []) == was;
      while i < |bufs|
        invariant 0 <= i <= |bufs|
        invariant n == Min(room, |Concat(bufs[..i])|) && n <= |all| && (n < room || i == 0)
        invariant Now() == Append(was, s, all[..n])
      {
        var take := Min(room - n, |bufs[i]|);
        ConcatNext(bufs, i);
        ConcatSplit(bufs, i);
        ConcatSplit(bufs, i + 1);
        assert all[..n] + bufs[i][..take] == all[..n + take];
        AppendTwice(was, s, all[..n], bufs[i][..take]);
        Extend(s, bufs[i][..take]);
        n := n + take;
        i := i + 1;
        if n == room {
          break;
        }
      }
      if i == |bufs| { assert bufs[..i] == bufs; }
      return Some(n);
    }
  }

  lemma AppendTwice(c: Store, s: Stream, a: Bytes, b: Bytes)
    ensures Append(Append(c, s, a), s, b) == Append(c, s, a + b)
  {
    assert c.stdout + a + b == c.stdout + (a + b);
    assert c.stderr + a + b == c.stderr + (a + b);
  }

  // ----- any sequence of writes ---------------------------------------------

  datatype Write = Write(s: Stream, bufs: seq<Bytes>)

  /** A run: the states before and after each write, and what it returned. */
  ghost predicate Run(cap: nat, ws: seq<Write>, states: seq<Store>, rs: seq<Option<nat>>) {
    && |states| == |ws| + 1 && |rs| == |ws| && states[0] == Store([], [], cap)
    && forall i :: 0 <= i < |ws| ==> Wrote(states[i], ws[i].s, ws[i].bufs, states[i + 1], rs[i])
  }

  function Offered(ws: seq<Write>): nat {
    if ws == [] then 0 else Offered(ws[..|ws| - 1]) + |Concat(ws[|ws| - 1].bufs)|
  }

  /** What was written to one stream. */
  function Sent(ws: seq<Write>, s: Stream): Bytes {
    if ws == [] then []
    else Sent(ws[..|ws| - 1], s) + (if ws[|ws| - 1].s == s then Concat(ws[|ws| - 1].bufs) else [])
  }

  lemma RunPrefix(cap: nat, ws: seq<Write>, states: seq<Store>, rs: seq<Option<nat>>, n: nat)
    requires Run(cap, ws, states, rs) && n <= |ws|
    ensures Run(cap, ws[..n], states[..n + 1], rs[..n])
  {
    forall i | 0 <= i < n ensures Wrote(states[..n + 1][i], ws[..n][i].s, ws[..n][i].bufs, states[..n + 1][i + 1], rs[..n][i]) {
      assert Wrote(states[i], ws[i].s, ws[i].bufs, states[i + 1], rs[i]);
    }
  }

  /** The budget is one: together the streams hold exactly what was offered,
      up to the cap. Each stream is the beginning of what was written to it, and
      all of it while the budget lasts. */
  lemma {:induction false} OneBudget(cap: nat, ws: seq<Write>, states: seq<Store>, rs: seq<Option<nat>>)
    requires Run(cap, ws, states, rs)
    ensures states[|ws|].cap == cap && Used(states[|ws|]) == Min(cap, Offered(ws))
    ensures states[|ws|].stdout <= Sent(ws, Stdout) && states[|ws|].stderr <= Sent(ws, Stderr)
    ensures Offered(ws) <= cap ==>
      states[|ws|].stdout == Sent(ws, Stdout) && states[|ws|].stderr == Sent(ws, Stderr)
  {
    if ws != [] {
      var n := |ws| - 1;
      RunPrefix(cap, ws, states, rs, n);
      OneBudget(cap, ws[..n], states[..n + 1], rs[..n]);
      assert Wrote(states[n], ws[n].s, ws[n].bufs, states[n + 1], rs[n]);
      var all := Concat(ws[n].bufs);
      if Offered(ws) <= cap { assert all[..|all|] == all; }
    }
  }

  /** In a run, a write is refused exactly when it has bytes and the writes
      before it offered the whole budget, to whichever stream. */
  lemma RefusedExactly(cap: nat, ws: seq<Write>, states: seq<Store>, rs: seq<Option<nat>>, i: nat)
    requires Run(cap, ws, states, rs) && i < |ws|
    ensures rs[i].None? <==> Concat(ws[i].bufs) != [] && Offered(ws[..i]) >= cap
    ensures rs[i].Some? ==> rs[i].value == Min(|Concat(ws[i].bufs)|, Room(states[i]))
  {
    RunPrefix(cap, ws, states, rs, i);
    OneBudget(cap, ws[..i], states[..i + 1], rs[..i]);
    assert Wrote(states[i], ws[i].s, ws[i].bufs, states[i + 1], rs[i]);
  }
}

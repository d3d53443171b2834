/** The body of one fetch request: the streaming loop of `run_request` on one
    side, any number of readers on the other, a bounded queue of chunks
    between them. Sizes are unbounded integers here. */
module FetchBody {
  import opened Wrappers
  import opened Counting

  type Octet = nat
  type Bytes = seq<Octet>
  type Tid = nat

  /** What the mutex `st` protects, with the history of the bytes pushed by
      the task and handed to readers, in lock order. */
  datatype Body = Body(chunks: seq<Bytes>, buffered: int, settled: bool, err: Option<string>,
                       pushed: Bytes, delivered: Bytes)

  datatype ReadResult = Data(bytes: Bytes) | NoData | Failed(err: string)

  function Flat(chunks: seq<Bytes>): Bytes {
    if chunks == [] then [] else chunks[0] + Flat(chunks[1..])
  }

  lemma {:induction false} FlatAppend(a: seq<Bytes>, b: seq<Bytes>)
    ensures Flat(a + b) == Flat(a) + Flat(b)
  {
    if a == [] {
      assert a + b == b;
    } else {
      assert (a + b)[1..] == a[1..] + b;
      FlatAppend(a[1..], b);
    }
  }

  // ----- the critical sections ----------------------------------------------

  function Push(b: Body, bytes: Bytes): Body {
    b.(chunks := b.chunks + [bytes], buffered := b.buffered + |bytes|, pushed := b.pushed + bytes)
  }

  /** `settle`: the first call decides. */
  function Settle(b: Body, err: Option<string>): Body {
    if b.settled then b else b.(settled := true, err := if b.err.None? then err else b.err)
  }

  /** The bytes a read takes: all of the first chunk, or its first `max`. */
  function Taken(b: Body, max: nat): Bytes
    requires b.chunks != []
  {
    if max == 0 || |b.chunks[0]| <= max then b.chunks[0] else b.chunks[0][..max]
  }

  /** The slot is given back only when the whole chunk went. */
  predicate WholeChunk(b: Body, max: nat)
    requires b.chunks != []
  {
    max == 0 || |b.chunks[0]| <= max
  }

  function AfterRead(b: Body, max: nat): Body {
    if b.chunks == [] then b else
    var t := Taken(b, max);
    b.(chunks := if WholeChunk(b, max) then b.chunks[1..] else [b.chunks[0][max..]] + b.chunks[1..],
       buffered := b.buffered - |t|, delivered := b.delivered + t)
  }

  function ReadAnswer(b: Body, max: nat): ReadResult {
    if b.chunks != [] then Data(Taken(b, max))
    else if b.settled && b.err.Some? then Failed(b.err.value)
    else NoData
  }

  /** Nothing lost, duplicated or reordered, and the counter is exact. */
  ghost predicate Intact(b: Body) {
    b.pushed == b.delivered + Flat(b.chunks) && b.buffered == |Flat(b.chunks)|
  }

  lemma PushIntact(b: Body, bytes: Bytes)
    requires Intact(b)
    ensures Intact(Push(b, bytes))
  {
    FlatAppend(b.chunks, [bytes]);
    assert Flat([bytes]) == bytes;
  }

  lemma ReadIntact(b: Body, max: nat)
    requires Intact(b)
    ensures Intact(AfterRead(b, max)) && AfterRead(b, max).buffered >= 0
  {
    if b.chunks != [] && !WholeChunk(b, max) {
      var c := b.chunks[0];
      var rest := [c[max..]] + b.chunks[1..];
      assert rest[1..] == b.chunks[1..];
      assert c == c[..max] + c[max..];
      assert Flat(b.chunks) == c[..max] + Flat(rest);
    }
  }

  /** A read gives bytes exactly when some are queued: no more than asked for,
      all of the first chunk when it is not larger, else as many as asked for.
      They are the next bytes, and the rest of the chunk stays in its slot. */
  lemma ReadAtMost(b: Body, max: nat)
    ensures ReadAnswer(b, max).Data? <==> b.chunks != []
    ensures b.chunks != [] ==>
      var t, n := ReadAnswer(b, max).bytes, |b.chunks[0]|;
      && |t| == (if max == 0 || n <= max then n else max)
      && t + Flat(AfterRead(b, max).chunks) == Flat(b.chunks)
      && |AfterRead(b, max).chunks| == |b.chunks| - One(|t| == n)
      && AfterRead(b, max).delivered == b.delivered + t
  {
    if b.chunks != [] && !WholeChunk(b, max) {
      var c := b.chunks[0];
      var rest := [c[max..]] + b.chunks[1..];
      assert rest[1..] == b.chunks[1..] && c == c[..max] + c[max..];
      assert c[..max] + Flat(rest) == Flat(b.chunks);
    }
  }

  // ----- reading to the end -------------------------------------------------

  predicate Done(b: Body) { b.settled && b.chunks == [] }

  function Remaining(b: Body): nat { |Flat(b.chunks)| + |b.chunks| }

  /** Every read that finds a chunk makes progress, whatever its size. */
  lemma ReadProgress(b: Body, max: nat)
    requires b.chunks != []
    ensures Remaining(AfterRead(b, max)) < Remaining(b)
    ensures AfterRead(b, max).settled == b.settled
  {
    if !WholeChunk(b, max) {
      var c := b.chunks[0];
      var rest := [c[max..]] + b.chunks[1..];
      assert rest[1..] == b.chunks[1..];
    }
  }

  function ReadAll(b: Body, maxes: seq<nat>): Body
    decreases |maxes|
  {
    if maxes == [] then b else ReadAll(AfterRead(b, maxes[0]), maxes[1..])
  }

  /** After settlement, any reads of any sizes reach `done` within `Remaining`
      calls, having delivered exactly what the task pushed. */
  lemma {:induction false} ReadsReachDone(b: Body, maxes: seq<nat>)
    requires Intact(b) && b.settled && |maxes| >= Remaining(b)
    ensures var b' := ReadAll(b, maxes);
      Done(b') && Intact(b') && b'.delivered == b'.pushed == b.pushed && b'.buffered == 0
    decreases |maxes|
  {
    if b.chunks == [] {
      DoneStays(b, maxes);
    } else {
      ReadProgress(b, maxes[0]);
      ReadIntact(b, maxes[0]);
      ReadsReachDone(AfterRead(b, maxes[0]), maxes[1..]);
    }
  }

  lemma {:induction false} DoneStays(b: Body, maxes: seq<nat>)
    requires b.chunks == []
    ensures ReadAll(b, maxes) == b
    decreases |maxes|
  {
    if maxes != [] {
      DoneStays(b, maxes[1..]);
    }
  }

  // ----- `Req::read` as code ------------------------------------------------

  /** What the task or another reader does while a read waits. */
  datatype Other = Pushes(bytes: Bytes) | Reads(max: nat) | Settles(err: Option<string>)

  function ApplyOther(b: Body, o: Other): Body {
    match o
    case Pushes(bytes) => Push(b, bytes)
    case Reads(max) => AfterRead(b, max)
    case Settles(e) => Settle(b, e)
  }

  function ApplyOthers(b: Body, os: seq<Other>): Body
    decreases |os|
  {
    if os == [] then b else ApplyOthers(ApplyOther(b, os[0]), os[1..])
  }

  lemma {:induction false} ApplyOthersSnoc(b: Body, os: seq<Other>, o: Other)
    ensures ApplyOthers(b, os + [o]) == ApplyOther(ApplyOthers(b, os), o)
    decreases |os|
  {
    if os != [] {
      assert (os + [o])[1..] == os[1..] + [o];
      ApplyOthersSnoc(ApplyOther(b, os[0]), os[1..], o);
    }
  }

  class Req {
    var chunks: seq<Bytes>
    var buffered: int
    var settled: bool
    var err: Option<string>
    var permits: nat
    ghost var pushed: Bytes
    ghost var delivered: Bytes

    ghost function View(): Body reads this { Body(chunks, buffered, settled, err, pushed, delivered) }

    ghost predicate Valid() reads this { Intact(View()) }

    constructor (queueChunks: nat)
      ensures Valid() && View() == Body([], 0, false, None, [], []) && permits == queueChunks
    {
      chunks, buffered, settled, err, permits := [], 0, false, None, queueChunks;
      pushed, delivered := [], [];
    }

    method PushChunk(bytes: Bytes)
      requires Valid()
      modifies this
      ensures Valid() && View() == Push(old(View()), bytes) && permits == old(permits)
    {
      PushIntact(View(), bytes);
      buffered := buffered + |bytes|;
      chunks := chunks + [bytes];
      pushed := pushed + bytes;
    }

    method SettleWith(e: Option<string>)
      requires Valid()
      modifies this
      ensures Valid() && View() == Settle(old(View()), e) && permits == old(permits)
      ensures settled && err == if old(settled) || old(err).Some? then old(err) else e
    {
      if !settled {
        settled := true;
        if err.None? { err := e; }
      }
    }

    /** The part of `read` after its wait: pop, split, put the rest back,
        subtract, give the slot back. */
    method ReadNow(max: nat) returns (r: ReadResult)
      requires Valid()
      modifies this
      ensures Valid() && View() == AfterRead(old(View()), max) && r == ReadAnswer(old(View()), max)
      ensures permits == old(permits) + One(old(chunks) != [] && WholeChunk(old(View()), max))
      ensures r.Failed? ==> chunks == [] && settled
      ensures r.Data? && max > 0 ==> |r.bytes| <= max
    {
      ReadIntact(View(), max);
      if |chunks| > 0 {
        var chunk := chunks[0];
        chunks := chunks[1..];
        var giveBack := true;
        if max != 0 && |chunk| > max {
          var rest := chunk[max..];
          chunk := chunk[..max];
          chunks := [rest] + chunks;
          giveBack := false;
        }
        buffered := buffered - |chunk|;
        delivered := delivered + chunk;
        if giveBack { permits := permits + 1; }
        return Data(chunk);
      }
      r := if settled && err.Some? then Failed(err.value) else NoData;
    }

    /** `read`: waits once, only when there is nothing to give. */
    method Read(max: nat, meanwhile: seq<Other>) returns (r: ReadResult)
      requires Valid()
      modifies this
      ensures Valid()
      ensures var before := if old(chunks) == [] && !old(settled) then ApplyOthers(old(View()), meanwhile) else old(View());
        View() == AfterRead(before, max) && r == ReadAnswer(before, max)
    {
      if chunks == [] && !settled {
        ghost var before := View();
        for i := 0 to |meanwhile|
          invariant Valid() && View() == ApplyOthers(before, meanwhile[..i])
        {
          assert meanwhile[..i + 1] == meanwhile[..i] + [meanwhile[i]];
          ApplyOthersSnoc(before, meanwhile[..i], meanwhile[i]);
          match meanwhile[i] {
            case Pushes(bytes) => PushChunk(bytes);
            case Reads(m) => var _ := ReadNow(m);
            case Settles(e) => SettleWith(e);
          }
        }
        assert meanwhile[..|meanwhile|] == meanwhile;
      }
      r := ReadNow(max);
    }
  }
}

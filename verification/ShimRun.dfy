/** One call through a shim: status, last error, out-parameters. */
module ShimRun {
  import opened Wrappers
  import opened Classify
  import opened Abi
  import opened Shim
  import opened ByteMemory

  const OK := 0
  const ERR := 1
  const PANIC := 2
  const INVALID := 3
  const CB_ERR := 4

  /** How the user function ends. */
  datatype Reply = Returned(v: Value) | Failed | Panicked(msg: string)

  /** What user code leaves behind when it ends. It may call closures that call
      other shims on this thread, so all of it may have changed; only the
      out-parameters of this call are out of its reach. */
  datatype Left = Left(mem: Memory, live: int, lastKind: string, lastMsg: string, tunnel: bool)

  /** `to_string` of the error, user code again: its text, or its panic. */
  datatype Shown = Shown(panics: bool, msg: string, left: Left)

  /** The user function (its reply, and what it leaves behind), the Display of
      its error, and what nobody here chooses: the validity of UTF-8 and the
      text of that error, where an allocation lands. */
  datatype Env = Env(utf8: seq<int> -> bool, why: seq<int> -> string, reply: seq<Value> -> Reply,
                     left: seq<Value> -> Left, shown: seq<Value> -> Shown, block: int, dangling: int)

  /** A user function of the exported type. */
  ghost predicate Legal(types: Ty -> C, f: Exported, e: Env) {
    forall vs :: (e.reply(vs).Returned? ==> Has(types, f.result, e.reply(vs).v)) && (e.reply(vs).Failed? ==> f.error.Some?)
  }

  datatype State = State(world: World, lastKind: string, lastMsg: string, tunnel: bool)

  /** The state after a call, the status, and the arguments the user function
      was called with. */
  datatype Done = Done(s: State, status: int, called: Option<seq<Value>>)

  function Enter(s: State, hasCallback: bool): State { if hasCallback then s.(tunnel := false) else s }

  /** The state in which the user function ends. */
  function AtEnd(e: Env, s: State, vs: seq<Value>): State { Leaves(e.left(vs), s) }

  function Leaves(l: Left, s: State): State {
    State(World(l.mem, s.world.outs, l.live), l.lastKind, l.lastMsg, l.tunnel)
  }

  function Ended(types: Ty -> C, f: Exported, e: Env, s: State, vs: seq<Value>): Done
    requires e.reply(vs).Returned? ==> Has(types, f.result, e.reply(vs).v) && |s.world.outs| == |WireOut(f.result)|
  {
    var s1 := AtEnd(e, s, vs);
    match e.reply(vs)
    case Returned(v) => Done(s1.(world := WriteOk(types, f.result, v, s1.world, e.block, e.dangling)), OK, Some(vs))
    case Failed =>
      if HasCallback(f.params) && s1.tunnel then Done(s1, CB_ERR, Some(vs))
      else
        var shown := e.shown(vs);
        var s2 := Leaves(shown.left, s1);
        if shown.panics then Done(s2.(lastKind := "panic", lastMsg := shown.msg), PANIC, Some(vs))
        else Done(s2.(lastKind := (if f.error.Some? then f.error.value else ""), lastMsg := shown.msg), ERR, Some(vs))
    case Panicked(msg) => Done(s1.(lastKind := "panic", lastMsg := msg), PANIC, Some(vs))
  }

  function ShimCall(types: Ty -> C, f: Exported, e: Env, s: State, ws: seq<int>): Done
    requires forall vs :: e.reply(vs).Returned? ==> Has(types, f.result, e.reply(vs).v)
    requires |s.world.outs| == |WireOut(f.result)|
  {
    var s1 := Enter(s, HasCallback(f.params));
    match Converted(e.utf8, s.world.mem, ws, Code(types, f.params))
    case BadUtf8(bytes) => Done(s1.(lastKind := "InvalidUtf8", lastMsg := e.why(bytes)), INVALID, None)
    case Fine(vs) => Ended(types, f, e, s1, vs)
  }

  // ----- the shim as it runs ------------------------------------------------

  /** The thread's cells and what the call may write. */
  class Thread {
    var world: World
    var lastKind: string
    var lastMsg: string
    var tunnel: bool

    function Now(): State reads this { State(world, lastKind, lastMsg, tunnel) }

    method SetLastError(kind: string, msg: string)
      modifies this
      ensures Now() == old(Now()).(lastKind := kind, lastMsg := msg)
    {
      lastKind, lastMsg := kind, msg;
    }

    /** The preludes, in order, with their early return. */
    method Preludes(e: Env, code: seq<Instr>, ws: seq<int>) returns (got: Got<seq<Value>>)
      modifies this
      ensures got == Converted(e.utf8, old(world).mem, ws, code)
      ensures got.Fine? ==> Now() == old(Now())
      ensures got.BadUtf8? ==> Now() == old(Now()).(lastKind := "InvalidUtf8", lastMsg := e.why(got.bytes))
    {
      var vs := [];
      for i := 0 to |code|
        invariant Now() == old(Now())
        invariant Converted(e.utf8, world.mem, ws, code[..i]) == Fine(vs)
      {
        assert code[..i + 1][..i] == code[..i];
        var v := Convert(e.utf8, world.mem, ws, code[i]);
        if v.BadUtf8? {
          BadStays(e.utf8, world.mem, ws, code, i);
          SetLastError("InvalidUtf8", e.why(v.bytes));
          return BadUtf8(v.bytes);
        }
        vs := vs + [v.value];
      }
      assert code[..|code|] == code;
      return Fine(vs);
    }

    /** The user function runs; whatever it does on this thread is done. */
    method UserFn(e: Env, vs: seq<Value>) returns (reply: Reply)
      modifies this
      ensures reply == e.reply(vs) && Now() == AtEnd(e, old(Now()), vs)
    {
      var l := e.left(vs);
      world := World(l.mem, world.outs, l.live);
      lastKind, lastMsg, tunnel := l.lastKind, l.lastMsg, l.tunnel;
      reply := e.reply(vs);
    }

    /** `__e.to_string()` runs. */
    method ErrorText(e: Env, vs: seq<Value>) returns (shown: Shown)
      modifies this
      ensures shown == e.shown(vs) && Now() == Leaves(shown.left, old(Now()))
    {
      shown := e.shown(vs);
      var l := shown.left;
      world := World(l.mem, world.outs, l.live);
      lastKind, lastMsg, tunnel := l.lastKind, l.lastMsg, l.tunnel;
    }

    method Call(types: Ty -> C, f: Exported, e: Env, code: seq<Instr>, hasCallback: bool, ws: seq<int>)
      returns (status: int, ghost called: Option<seq<Value>>)
      requires Legal(types, f, e) && code == Code(types, f.params) && hasCallback == HasCallback(f.params)
      requires |world.outs| == |WireOut(f.result)|
      modifies this
      ensures ShimCall(types, f, e, old(Now()), ws) == Done(Now(), status, called)
    {
      called := None;
      if hasCallback { tunnel := false; }
      var got := Preludes(e, code, ws);
      if got.BadUtf8? { return INVALID, None; }
      called := Some(got.value);
      var reply := UserFn(e, got.value);
      match reply
      case Returned(v) =>
        world := WriteOk(types, f.result, v, world, e.block, e.dangling);
        status := OK;
      case Failed =>
        if hasCallback && tunnel { return CB_ERR, called; }
        var shown := ErrorText(e, got.value);
        if shown.panics {
          SetLastError("panic", shown.msg);
          return PANIC, called;
        }
        SetLastError(f.error.value, shown.msg);
        status := ERR;
      case Panicked(msg) =>
        SetLastError("panic", msg);
        status := PANIC;
    }
  }

  lemma {:induction false} BadStays(utf8: seq<int> -> bool, mem: Memory, ws: seq<int>, code: seq<Instr>, i: nat)
    requires i < |code| && Converted(utf8, mem, ws, code[..i]).Fine? && Convert(utf8, mem, ws, code[i]).BadUtf8?
    ensures Converted(utf8, mem, ws, code) == BadUtf8(Convert(utf8, mem, ws, code[i]).bytes)
    decreases |code|
  {
    var n := |code| - 1;
    if i < n {
      assert code[..n][..i] == code[..i];
      BadStays(utf8, mem, ws, code[..n], i);
    }
  }

  // ----- what a call means --------------------------------------------------

  /** The first ill-formed string is the one reported. */
  ghost predicate FirstIllFormed(e: Env, vs: seq<Value>, d: Done) {
    && d.s.lastKind == "InvalidUtf8"
    && exists k :: 0 <= k < |vs| && IllFormed(e.utf8, vs[k]) && d.s.lastMsg == e.why(Spelling(vs[k]).value)
         && forall i :: 0 <= i < k ==> !IllFormed(e.utf8, vs[i])
  }

  /** The wrapper takes back the value, and after its `dealloc` as many
      allocations are live as when the user function ended. */
  ghost predicate ReadsBack(rustName: Path -> string, f: Exported, v: Value, atEnd: State, after: State) {
    && Take(MetaResult(rustName, f.result), after.world.mem, after.world.outs) == v
    && after.world.live - Freed(MetaResult(rustName, f.result), after.world.outs) == atEnd.world.live
  }

  /** The function returned an Err that is not a propagated callback failure,
      so the shim asks for its text. */
  predicate AsksText(f: Exported, e: Env, vs: seq<Value>, atEnd: State) {
    e.reply(vs).Failed? && !(HasCallback(f.params) && atEnd.tunnel)
  }

  /** What the shim adds after the user function, when it was called. On 0 it
      writes the result and nothing else; on 4 nothing; on 1 the last error, and
      nothing else, after the error's Display; on 2 the same after whichever of
      the two panicked. An Err is status 4 exactly when the shim takes a
      borrowed callback and the flag is set as the function ends. */
  ghost predicate Reported(f: Exported, e: Env, vs: seq<Value>, atEnd: State, d: Done) {
    var shown := e.shown(vs);
    && (d.status == OK <==> e.reply(vs).Returned?)
    && (d.status == CB_ERR <==> e.reply(vs).Failed? && HasCallback(f.params) && atEnd.tunnel)
    && (d.status == ERR <==> AsksText(f, e, vs, atEnd) && !shown.panics)
    && (d.status == PANIC <==> e.reply(vs).Panicked? || (AsksText(f, e, vs, atEnd) && shown.panics))
    && (d.status == OK ==> d.s == atEnd.(world := d.s.world))
    && (d.status == CB_ERR ==> d.s == atEnd)
    && (d.status == ERR ==>
          f.error.Some? && d.s == Leaves(shown.left, atEnd).(lastKind := f.error.value, lastMsg := shown.msg))
    && (d.status == PANIC && e.reply(vs).Panicked? ==> d.s == atEnd.(lastKind := "panic", lastMsg := e.reply(vs).msg))
    && (d.status == PANIC && e.reply(vs).Failed? ==>
          d.s == Leaves(shown.left, atEnd).(lastKind := "panic", lastMsg := shown.msg))
  }

  /** What a call with these arguments should come to. */
  ghost predicate Meaning(types: Ty -> C, rustName: Path -> string, f: Exported, e: Env, s: State, vs: seq<Value>, d: Done) {
    var s1 := Enter(s, HasCallback(f.params));
    var atEnd := AtEnd(e, s1, vs);
    // an ill-formed string: the first one is reported, nothing is called and
    // nothing but the last error and the flag is touched
    && ((exists i :: 0 <= i < |vs| && IllFormed(e.utf8, vs[i])) <==> d.status == INVALID)
    && (d.status == INVALID ==> d.called == None && FirstIllFormed(e, vs, d) && d.s.world == s.world)
    // otherwise the user function gets exactly the arguments
    && (d.status != INVALID ==> d.called == Some(vs) && Reported(f, e, vs, atEnd, d))
    // its result reads back, and out-parameters change only then
    && (d.status == OK && HonestR(types, f.result) ==> ReadsBack(rustName, f, e.reply(vs).v, atEnd, d.s))
    && (d.status != OK ==> d.s.world.outs == s.world.outs)
  }

  lemma EndedReported(types: Ty -> C, f: Exported, e: Env, s: State, vs: seq<Value>)
    requires Legal(types, f, e) && |s.world.outs| == |WireOut(f.result)|
    ensures Reported(f, e, vs, AtEnd(e, s, vs), Ended(types, f, e, s, vs)) && Ended(types, f, e, s, vs).called == Some(vs)
  {
  }

  /** The whole call. The words may be any encoding of the arguments. */
  lemma ShimPreservesMeaning(types: Ty -> C, rustName: Path -> string, sig: Signature, e: Env, s: State,
                                                vs: seq<Value>, ws: seq<int>)
    requires Export(sig).Ok? && Legal(types, Export(sig).value, e)
    requires var f := Export(sig).value;
             && |s.world.outs| == |WireOut(f.result)|
             && |ws| == |WireIns(f.params)| && EncodesAll(types, s.world.mem, f.params, vs, ws)
    ensures Meaning(types, rustName, Export(sig).value, e, s, vs, ShimCall(types, Export(sig).value, e, s, ws))
  {
    var f := Export(sig).value;
    ExportGood(sig);
    assert ws[..|WireIns(f.params)|] == ws;
    DecodesArguments(types, e.utf8, s.world.mem, f.params, vs, ws);
    var s1 := Enter(s, HasCallback(f.params));
    var got := Converted(e.utf8, s.world.mem, ws, Code(types, f.params));
    if got.Fine? {
      EndedReported(types, f, e, s1, vs);
      if e.reply(vs).Returned? && HonestR(types, f.result) {
        ResultReadsBack(types, rustName, f.result, e.reply(vs).v, AtEnd(e, s1, vs).world, e.block, e.dangling);
      }
    }
  }

  /** From wrapper to function and back: words sent by the manifest's types,
      result taken by the manifest's type. */
  lemma WrapperPreservesMeaning(types: Ty -> C, rustName: Path -> string, sig: Signature, e: Env, s: State,
                                                   vs: seq<Value>, ws: seq<int>)
    requires Export(sig).Ok? && Legal(types, Export(sig).value, e)
    requires |s.world.outs| == |WireOut(Export(sig).value.result)|
    requires Honest(types, Export(sig).value)
    requires SendsAll(s.world.mem, Meta(rustName, Export(sig).value).params, vs, ws)
    ensures Meaning(types, rustName, Export(sig).value, e, s, vs, ShimCall(types, Export(sig).value, e, s, ws))
  {
    ExportGood(sig);
    SentAllEncodes(types, rustName, s.world.mem, Export(sig).value.params, vs, ws);
    ShimPreservesMeaning(types, rustName, sig, e, s, vs, ws);
  }
}

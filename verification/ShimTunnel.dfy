/** The two accounts of status 4 joined: a shim's run, and the tree of calls in
    its dynamic extent. */
module ShimTunnel {
  import opened Wrappers
  import opened Classify
  import opened Abi
  import opened Shim
  import opened ShimRun
  import T = Tunnel

  /** The error's Display runs. */
  predicate Asked(f: Exported, e: Env, vs: seq<Value>) {
    e.reply(vs).Failed? && !(HasCallback(f.params) && e.left(vs).tunnel)
  }

  /** The tree describes this call: the same kind of shim, the same ending (a
      panic of the error's Display is one), and the flag the user function leaves
      is what its calls left behind. */
  ghost predicate Describes(types: Ty -> C, c: T.Call, f: Exported, e: Env, s: State, ws: seq<int>) {
    && c.takesCallback == HasCallback(f.params) && c.fallible == f.error.Some?
    && match Converted(e.utf8, s.world.mem, ws, Code(types, f.params))
       case BadUtf8(_) => c.ending.Refused?
       case Fine(vs) =>
         var showPanics := Asked(f, e, vs) && e.shown(vs).panics;
         && (e.reply(vs).Returned? <==> c.ending.Fine?)
         && (e.reply(vs).Failed? && !showPanics <==> c.ending.Fails?)
         && (e.reply(vs).Panicked? || showPanics <==> c.ending.Panics?)
         && e.left(vs).tunnel == T.AfterBody(c.body, T.Enter(c, s.tunnel))
  }

  /** A shim's status is that of its tree, and so is the flag after it, unless
      the error's Display ran and left another. */
  lemma StatusOfTree(types: Ty -> C, c: T.Call, f: Exported, e: Env, s: State, ws: seq<int>)
    requires Legal(types, f, e) && |s.world.outs| == |WireOut(f.result)| && Describes(types, c, f, e, s, ws)
    ensures var d := ShimCall(types, f, e, s, ws);
            && d.status == T.Status(c, s.tunnel)
            && d.s.tunnel == if d.called.Some? && Asked(f, e, d.called.value) then e.shown(d.called.value).left.tunnel
                             else T.FlagAfter(c, s.tunnel)
  {
    var got := Converted(e.utf8, s.world.mem, ws, Code(types, f.params));
    if got.Fine? { EndedReported(types, f, e, Enter(s, HasCallback(f.params)), got.value); }
  }

  /** So a shim returns 4 exactly when its function failed and the last write to
      the flag in its extent was a set. */
  lemma ShimStatus4(types: Ty -> C, c: T.Call, f: Exported, e: Env, s: State, ws: seq<int>)
    requires Legal(types, f, e) && |s.world.outs| == |WireOut(f.result)| && Describes(types, c, f, e, s, ws)
    ensures ShimCall(types, f, e, s, ws).status == CB_ERR <==>
      HasCallback(f.params) && c.ending.Fails? && T.Writes(c) != [] && T.Writes(c)[|T.Writes(c)| - 1]
  {
    StatusOfTree(types, c, f, e, s, ws);
    T.CallbackStatus(c, s.tunnel);
  }
}

/** The callback tunnel: one flag per thread, cleared when a callback-taking
    shim starts, set when a borrowed callback reports a condition, and read when
    the user function returns an Err. Calls nest: a Lisp closure may call back
    into Rust before it returns. */
module Tunnel {

  datatype Ending = Fine | Fails | Panics | Refused   // Refused: an ill-formed argument

  /** One shim call with everything that happens in its dynamic extent. */
  datatype Call = Call(takesCallback: bool, fallible: bool, body: seq<Event>, ending: Ending)

  /** The user function invokes a closure, borrowed or stored; the closure
      makes further calls and then returns or signals. */
  datatype Event = Invoke(borrowed: bool, calls: seq<Call>, signalled: bool)

  /** Borrowed callbacks exist only in the frame that took them, and an
      infallible function cannot fail. */
  predicate Ok(c: Call) {
    && (c.ending.Fails? ==> c.fallible)
    && (c.ending.Refused? ==> c.body == [])
    && forall i :: 0 <= i < |c.body| ==> EventOk(c.body[i], c.takesCallback)
  }

  predicate EventOk(e: Event, takesCallback: bool) {
    (e.borrowed ==> takesCallback) && forall i :: 0 <= i < |e.calls| ==> Ok(e.calls[i])
  }

  // ----- the flag as the code threads it ------------------------------------

  function Enter(c: Call, flag: bool): bool { if c.takesCallback then false else flag }

  function FlagAfter(c: Call, flag: bool): bool {
    if c.ending.Refused? then Enter(c, flag) else AfterBody(c.body, Enter(c, flag))
  }

  function AfterBody(es: seq<Event>, flag: bool): bool {
    if es == [] then flag else AfterEvent(es[|es| - 1], AfterBody(es[..|es| - 1], flag))
  }

  function AfterEvent(e: Event, flag: bool): bool {
    if e.borrowed && e.signalled then true else AfterCalls(e.calls, flag)
  }

  function AfterCalls(cs: seq<Call>, flag: bool): bool {
    if cs == [] then flag else FlagAfter(cs[|cs| - 1], AfterCalls(cs[..|cs| - 1], flag))
  }

  function Status(c: Call, flag: bool): int {
    match c.ending
    case Fine => 0
    case Fails => if c.takesCallback && FlagAfter(c, flag) then 4 else 1
    case Panics => 2
    case Refused => 3
  }

  /** The thread and its flag. */
  class Tls {
    var tunnel: bool

    method Shim(c: Call) returns (status: int)
      modifies this
      ensures tunnel == FlagAfter(c, old(tunnel)) && status == Status(c, old(tunnel))
      decreases c
    {
      if c.takesCallback { tunnel := false; }
      if c.ending.Refused? { return 3; }
      UserFn(c.body);
      match c.ending
      case Fine => return 0;
      case Fails =>
        if c.takesCallback && tunnel { return 4; }
        return 1;
      case Panics => return 2;
    }

    method UserFn(es: seq<Event>)
      modifies this
      ensures tunnel == AfterBody(es, old(tunnel))
      decreases es
    {
      for i := 0 to |es|
        invariant tunnel == AfterBody(es[..i], old(tunnel))
      {
        assert es[..i + 1][..i] == es[..i];
        Invoke(es[i]);
      }
      assert es[..|es|] == es;
    }

    /** `Callback::call`, or `StoredCallback::call`, which leaves the flag. */
    method Invoke(e: Event)
      modifies this
      ensures tunnel == AfterEvent(e, old(tunnel))
      decreases e
    {
      Closure(e.calls);
      if e.borrowed && e.signalled { tunnel := true; }
    }

    method Closure(cs: seq<Call>)
      modifies this
      ensures tunnel == AfterCalls(cs, old(tunnel))
      decreases cs
    {
      for i := 0 to |cs|
        invariant tunnel == AfterCalls(cs[..i], old(tunnel))
      {
        assert cs[..i + 1][..i] == cs[..i];
        var _ := Shim(cs[i]);
      }
      assert cs[..|cs|] == cs;
    }
  }

  // ----- the flag as a trace of writes --------------------------------------

  /** Every write to the flag in the extent of a call, in order. */
  function Writes(c: Call): seq<bool> {
    (if c.takesCallback then [false] else []) + (if c.ending.Refused? then [] else BodyWrites(c.body))
  }

  function BodyWrites(es: seq<Event>): seq<bool> {
    if es == [] then [] else BodyWrites(es[..|es| - 1]) + EventWrites(es[|es| - 1])
  }

  function EventWrites(e: Event): seq<bool> {
    CallsWrites(e.calls) + (if e.borrowed && e.signalled then [true] else [])
  }

  function CallsWrites(cs: seq<Call>): seq<bool> {
    if cs == [] then [] else CallsWrites(cs[..|cs| - 1]) + Writes(cs[|cs| - 1])
  }

  function Last(ws: seq<bool>, before: bool): bool { if ws == [] then before else ws[|ws| - 1] }

  lemma LastAppend(a: seq<bool>, b: seq<bool>, before: bool)
    ensures Last(a + b, before) == Last(b, Last(a, before))
  {
    if b == [] { assert a + b == a; }
  }

  lemma {:induction false} FlagIsLastWrite(c: Call, flag: bool)
    ensures FlagAfter(c, flag) == Last(Writes(c), flag)
    decreases c
  {
    var head: seq<bool> := if c.takesCallback then [false] else [];
    if c.ending.Refused? {
      assert Writes(c) == head;
    } else {
      BodyLastWrite(c.body, Enter(c, flag));
      LastAppend(head, BodyWrites(c.body), flag);
    }
  }

  lemma {:induction false} BodyLastWrite(es: seq<Event>, flag: bool)
    ensures AfterBody(es, flag) == Last(BodyWrites(es), flag)
    decreases es
  {
    if es != [] {
      var n := |es| - 1;
      BodyLastWrite(es[..n], flag);
      EventLastWrite(es[n], AfterBody(es[..n], flag));
      LastAppend(BodyWrites(es[..n]), EventWrites(es[n]), flag);
    }
  }

  lemma {:induction false} EventLastWrite(e: Event, flag: bool)
    ensures AfterEvent(e, flag) == Last(EventWrites(e), flag)
    decreases e
  {
    CallsLastWrite(e.calls, flag);
    LastAppend(CallsWrites(e.calls), if e.borrowed && e.signalled then [true] else [], flag);
  }

  lemma {:induction false} CallsLastWrite(cs: seq<Call>, flag: bool)
    ensures AfterCalls(cs, flag) == Last(CallsWrites(cs), flag)
    decreases cs
  {
    if cs != [] {
      var n := |cs| - 1;
      CallsLastWrite(cs[..n], flag);
      FlagIsLastWrite(cs[n], AfterCalls(cs[..n], flag));
      LastAppend(CallsWrites(cs[..n]), Writes(cs[n]), flag);
    }
  }

  /** Status 4 exactly when a callback-taking function returned an Err and the
      last write to the flag in the extent of its call is a set. */
  lemma CallbackStatus(c: Call, flag: bool)
    ensures Status(c, flag) == 4 <==>
      c.takesCallback && c.ending.Fails? && Writes(c) != [] && Writes(c)[|Writes(c)| - 1]
  {
    FlagIsLastWrite(c, flag);
    assert c.takesCallback ==> Writes(c)[0] == false;
  }

  // ----- propagation with `?` -----------------------------------------------

  /** One of the call's own borrowed callbacks signalled. */
  predicate OwnSignal(es: seq<Event>) {
    exists i :: 0 <= i < |es| && es[i].borrowed && es[i].signalled
  }

  /** `f.call(..)?`: the first signal of a borrowed callback ends the body
      with an Err. */
  predicate Propagates(c: Call) {
    OwnSignal(c.body) ==>
      && c.ending.Fails?
      && c.body[|c.body| - 1].borrowed && c.body[|c.body| - 1].signalled
  }

  lemma PropagatedSignal(c: Call, flag: bool)
    requires Ok(c) && Propagates(c) && OwnSignal(c.body)
    ensures Status(c, flag) == 4
  {
    assert AfterBody(c.body, Enter(c, flag));
    assert EventOk(c.body[|c.body| - 1], c.takesCallback);
  }

  /** Calls below a call, at any depth. */
  ghost predicate Within(sub: Call, c: Call) {
    sub == c || exists i, j :: 0 <= i < |c.body| && 0 <= j < |c.body[i].calls| && Within(sub, c.body[i].calls[j])
  }

  ghost predicate AllPropagate(c: Call) {
    Propagates(c) && forall i, j :: 0 <= i < |c.body| && 0 <= j < |c.body[i].calls| ==> AllPropagate(c.body[i].calls[j])
  }

  /** At every depth: a call whose own callback signalled has status 4. */
  lemma {:induction false} PropagatesAtEveryDepth(c: Call, sub: Call, flag: bool)
    requires Ok(c) && AllPropagate(c) && Within(sub, c) && OwnSignal(sub.body)
    ensures Status(sub, flag) == 4
    decreases c
  {
    if sub == c {
      PropagatedSignal(c, flag);
    } else {
      var i, j :| 0 <= i < |c.body| && 0 <= j < |c.body[i].calls| && Within(sub, c.body[i].calls[j]);
      assert EventOk(c.body[i], c.takesCallback);
      PropagatesAtEveryDepth(c.body[i].calls[j], sub, flag);
    }
  }

  // ----- "some callback failed" ---------------------------------------------

  /** No callback-taking shim below the call itself. */
  predicate Plain(c: Call) {
    !c.takesCallback && PlainBody(c.body)
  }

  predicate PlainBody(es: seq<Event>) {
    forall i, j :: 0 <= i < |es| && 0 <= j < |es[i].calls| ==> Plain(es[i].calls[j])
  }

  lemma {:induction false} PlainKeeps(c: Call, flag: bool)
    requires Ok(c) && Plain(c)
    ensures FlagAfter(c, flag) == flag
    decreases c
  {
    if !c.ending.Refused? { PlainBodyKeeps(c.body, flag); }
  }

  lemma {:induction false} PlainBodyKeeps(es: seq<Event>, flag: bool)
    requires (forall i :: 0 <= i < |es| ==> EventOk(es[i], false)) && PlainBody(es)
    ensures AfterBody(es, flag) == flag
    decreases es
  {
    if es != [] {
      var n := |es| - 1;
      PlainBodyKeeps(es[..n], flag);
      PlainCallsKeep(es[n].calls, flag);
    }
  }

  lemma {:induction false} PlainCallsKeep(cs: seq<Call>, flag: bool)
    requires forall i :: 0 <= i < |cs| ==> Ok(cs[i]) && Plain(cs[i])
    ensures AfterCalls(cs, flag) == flag
    decreases cs
  {
    if cs != [] {
      var n := |cs| - 1;
      PlainCallsKeep(cs[..n], flag);
      PlainKeeps(cs[n], flag);
    }
  }

  lemma {:induction false} FlagIsOwnSignal(es: seq<Event>, flag: bool, takes: bool)
    requires (forall i :: 0 <= i < |es| ==> EventOk(es[i], takes)) && PlainBody(es)
    ensures AfterBody(es, flag) == (flag || OwnSignal(es))
    decreases es
  {
    if es != [] {
      var n := |es| - 1;
      FlagIsOwnSignal(es[..n], flag, takes);
      assert EventOk(es[n], takes);
      PlainCallsKeep(es[n].calls, AfterBody(es[..n], flag));
      OwnSignalNext(es);
    }
  }

  /** Without callback-taking shims below, status 4 means that the function
      returned an Err and one of its callbacks had failed. */
  lemma PlainStatus(c: Call, flag: bool)
    requires Ok(c) && PlainBody(c.body)
    ensures Status(c, flag) == 4 <==> c.ending.Fails? && OwnSignal(c.body)
  {
    FlagIsOwnSignal(c.body, Enter(c, flag), c.takesCallback);
    if OwnSignal(c.body) {
      var i :| 0 <= i < |c.body| && c.body[i].borrowed && c.body[i].signalled;
      assert EventOk(c.body[i], c.takesCallback);
    }
  }

  /** The flag says whether one of the call's own callbacks failed: looking
      back from the end, either an own signal or a closure that ran no
      callback-taking shim comes first, or the last write such a shim left
      behind happens to be right. */
  predicate Agrees(es: seq<Event>) {
    if es == [] then true
    else
      var n := |es| - 1;
      if es[n].borrowed && es[n].signalled then true
      else if CallsWrites(es[n].calls) == [] then Agrees(es[..n])
      else Last(CallsWrites(es[n].calls), false) == OwnSignal(es)
  }

  lemma OwnSignalNext(es: seq<Event>)
    requires es != []
    ensures OwnSignal(es) == (OwnSignal(es[..|es| - 1]) || (es[|es| - 1].borrowed && es[|es| - 1].signalled))
  {
    var n := |es| - 1;
    if OwnSignal(es[..n]) {
      var i :| 0 <= i < n && es[..n][i].borrowed && es[..n][i].signalled;
      assert es[i].borrowed && es[i].signalled;
    }
    if OwnSignal(es) {
      var i :| 0 <= i < |es| && es[i].borrowed && es[i].signalled;
      if i < n { assert es[..n][i] == es[i]; }
    }
  }

  lemma {:induction false} AgreesExactly(es: seq<Event>)
    ensures AfterBody(es, false) == OwnSignal(es) <==> Agrees(es)
  {
    if es != [] {
      var n := |es| - 1;
      AgreesExactly(es[..n]);
      OwnSignalNext(es);
      CallsLastWrite(es[n].calls, AfterBody(es[..n], false));
    }
  }

  /** Exactly when status 4 says that one of the call's own callbacks failed,
      for a callback-taking function that returned an Err. */
  lemma StatusIsOwnSignal(c: Call, flag: bool)
    requires c.takesCallback && c.ending.Fails?
    ensures (Status(c, flag) == 4 <==> OwnSignal(c.body)) <==> Agrees(c.body)
  {
    AgreesExactly(c.body);
  }

  /** Without callback-taking shims below it always does. */
  lemma PlainAgrees(es: seq<Event>, takes: bool)
    requires (forall i :: 0 <= i < |es| ==> EventOk(es[i], takes)) && PlainBody(es)
    ensures Agrees(es)
  {
    FlagIsOwnSignal(es, false, takes);
    AgreesExactly(es);
  }

  /** Where it does not, it fails in either direction. A failed callback is
      forgotten when a later closure runs a callback-taking shim ... */
  lemma SignalForgotten(flag: bool)
    ensures var inner := Call(true, true, [], Fine);
            var c := Call(true, true, [Invoke(true, [], true), Invoke(true, [inner], false)], Fails);
            Ok(c) && !Agrees(c.body) && OwnSignal(c.body) && Status(c, flag) == 1
  {
    var inner := Call(true, true, [], Fine);
    var a, b := Invoke(true, [], true), Invoke(true, [inner], false);
    var c := Call(true, true, [a, b], Fails);
    assert c.body[0].signalled;
    assert AfterCalls([inner], AfterBody([a], false)) == false by {
      assert [inner][0] == inner;
      assert FlagAfter(inner, AfterCalls([inner][..0], AfterBody([a], false))) == false;
    }
    assert [a, b][..1] == [a];
    assert AfterBody(c.body, false) == AfterEvent(b, AfterBody([a], false));
    StatusIsOwnSignal(c, flag);
  }

  /** ... and a failure inside a nested shim that handled it is charged to the
      outer call, none of whose callbacks failed. */
  lemma SignalBorrowed(flag: bool)
    ensures var inner := Call(true, true, [Invoke(true, [], true)], Fine);
            var c := Call(true, true, [Invoke(true, [inner], false)], Fails);
            Ok(c) && !Agrees(c.body) && !OwnSignal(c.body) && Status(c, flag) == 4
  {
    var e := Invoke(true, [], true);
    var inner := Call(true, true, [e], Fine);
    var b := Invoke(true, [inner], false);
    var c := Call(true, true, [b], Fails);
    assert AfterBody([e], false) == AfterEvent(e, AfterBody([e][..0], false));
    assert FlagAfter(inner, false);
    assert [inner][..0] == [] && AfterCalls([], false) == false;
    assert AfterCalls([inner], false) == FlagAfter(inner, false);
    assert [b][..0] == [] && AfterBody([], false) == false;
    assert AfterBody([b], false) == AfterEvent(b, false);
    StatusIsOwnSignal(c, flag);
  }
}

/** Which calls can trust status 4, by their shape alone: which closures are
    borrowed and which shims they call, whatever any of them answers. */
module TunnelShape {
  import opened Tunnel

  /** A call without its outcomes. */
  datatype CallShape = CallShape(takes: bool, body: seq<EventShape>)

  datatype EventShape = EventShape(borrowed: bool, calls: seq<CallShape>)

  function ShapeOf(c: Call): CallShape { CallShape(c.takesCallback, BodyShape(c.body)) }

  function BodyShape(es: seq<Event>): (r: seq<EventShape>)
    ensures |r| == |es|
  {
    if es == [] then [] else BodyShape(es[..|es| - 1]) + [EventShapeOf(es[|es| - 1])]
  }

  function EventShapeOf(e: Event): EventShape { EventShape(e.borrowed, CallsShape(e.calls)) }

  function CallsShape(cs: seq<Call>): (r: seq<CallShape>)
    ensures |r| == |cs|
  {
    if cs == [] then [] else CallsShape(cs[..|cs| - 1]) + [ShapeOf(cs[|cs| - 1])]
  }

  // ----- the condition ------------------------------------------------------

  /** No callback-taking shim runs. */
  predicate Quiet(c: CallShape) { !c.takes && QuietBody(c.body) }

  predicate QuietBody(es: seq<EventShape>) {
    es != [] ==> QuietBody(es[..|es| - 1]) && QuietCalls(es[|es| - 1].calls)
  }

  predicate QuietCalls(cs: seq<CallShape>) {
    cs != [] ==> QuietCalls(cs[..|cs| - 1]) && Quiet(cs[|cs| - 1])
  }

  /** Some outcome leaves the flag set: the last thing in it that can write is
      the signal of a borrowed callback. */
  predicate MaySet(c: CallShape) { MaySetBody(c.body) }

  predicate MaySetBody(es: seq<EventShape>) {
    es != []
    && var e := es[|es| - 1];
       (e.borrowed || if QuietCalls(e.calls) then MaySetBody(es[..|es| - 1]) else MaySetCalls(e.calls))
  }

  predicate MaySetCalls(cs: seq<CallShape>) {
    cs != []
    && var c := cs[|cs| - 1];
       if Quiet(c) then MaySetCalls(cs[..|cs| - 1]) else MaySet(c)
  }

  predicate NoneBorrowed(es: seq<EventShape>) { forall i :: 0 <= i < |es| ==> !es[i].borrowed }

  /** The last closure that runs callback-taking shims comes after no borrowed
      callback, and cannot leave the flag set. */
  predicate Safe(es: seq<EventShape>) {
    es == []
    || var n := |es| - 1;
       if QuietCalls(es[n].calls) then Safe(es[..n]) else NoneBorrowed(es[..n]) && !MaySetCalls(es[n].calls)
  }

  // ----- what the shape says about the writes -------------------------------

  predicate BodyOk(es: seq<Event>, takes: bool) { forall i :: 0 <= i < |es| ==> EventOk(es[i], takes) }

  predicate CallsOk(cs: seq<Call>) { forall i :: 0 <= i < |cs| ==> Ok(cs[i]) }

  lemma {:induction false} QuietWrites(c: Call)
    requires Ok(c)
    ensures Writes(c) == [] <==> Quiet(ShapeOf(c))
    decreases c
  {
    if !c.takesCallback { QuietBodyWrites(c.body); }
  }

  lemma {:induction false} QuietBodyWrites(es: seq<Event>)
    requires BodyOk(es, false)
    ensures BodyWrites(es) == [] <==> QuietBody(BodyShape(es))
    decreases es
  {
    if es != [] {
      var n := |es| - 1;
      BodyPrefix(es);
      QuietBodyWrites(es[..n]);
      QuietCallsWrites(es[n].calls);
    }
  }

  lemma {:induction false} QuietCallsWrites(cs: seq<Call>)
    requires CallsOk(cs)
    ensures CallsWrites(cs) == [] <==> QuietCalls(CallsShape(cs))
    decreases cs
  {
    if cs != [] {
      var n := |cs| - 1;
      CallsPrefix(cs);
      QuietCallsWrites(cs[..n]);
      QuietWrites(cs[n]);
    }
  }

  lemma BodyPrefix(es: seq<Event>)
    requires es != []
    ensures var n := |es| - 1;
            BodyShape(es)[..n] == BodyShape(es[..n]) && BodyShape(es)[n] == EventShapeOf(es[n])
  {
  }

  lemma CallsPrefix(cs: seq<Call>)
    requires cs != []
    ensures var n := |cs| - 1;
            CallsShape(cs)[..n] == CallsShape(cs[..n]) && CallsShape(cs)[n] == ShapeOf(cs[n])
  {
  }

  /** No outcome sets what the shape cannot. */
  lemma {:induction false} SetsOnlyIf(c: Call)
    requires Ok(c) && Last(Writes(c), false)
    ensures MaySet(ShapeOf(c))
    decreases c
  {
    var head: seq<bool> := if c.takesCallback then [false] else [];
    if !c.ending.Refused? {
      LastAppend(head, BodyWrites(c.body), false);
      BodySetsOnlyIf(c.body, c.takesCallback);
    }
  }

  lemma {:induction false} BodySetsOnlyIf(es: seq<Event>, takes: bool)
    requires BodyOk(es, takes) && Last(BodyWrites(es), false)
    ensures MaySetBody(BodyShape(es))
    decreases es
  {
    var n := |es| - 1;
    BodyPrefix(es);
    if !es[n].borrowed {
      var before := Last(BodyWrites(es[..n]), false);
      LastAppend(BodyWrites(es[..n]), EventWrites(es[n]), false);
      assert EventWrites(es[n]) == CallsWrites(es[n].calls);
      QuietCallsWrites(es[n].calls);
      if CallsWrites(es[n].calls) == [] { BodySetsOnlyIf(es[..n], takes); } else { CallsSetOnlyIf(es[n].calls); }
    }
  }

  lemma {:induction false} CallsSetOnlyIf(cs: seq<Call>)
    requires CallsOk(cs) && Last(CallsWrites(cs), false)
    ensures MaySetCalls(CallsShape(cs))
    decreases cs
  {
    var n := |cs| - 1;
    CallsPrefix(cs);
    LastAppend(CallsWrites(cs[..n]), Writes(cs[n]), false);
    QuietWrites(cs[n]);
    if Writes(cs[n]) == [] { CallsSetOnlyIf(cs[..n]); } else { SetsOnlyIf(cs[n]); }
  }

  // ----- a safe shape -------------------------------------------------------

  lemma NoOwnSignal(es: seq<Event>)
    requires NoneBorrowed(BodyShape(es))
    ensures !OwnSignal(es)
  {
    forall i | 0 <= i < |es| ensures !es[i].borrowed { BodyShapeAt(es, i); }
  }

  lemma {:induction false} BodyShapeAt(es: seq<Event>, i: nat)
    requires i < |es|
    ensures BodyShape(es)[i] == EventShapeOf(es[i])
  {
    var n := |es| - 1;
    BodyPrefix(es);
    if i < n {
      BodyShapeAt(es[..n], i);
      assert BodyShape(es)[i] == BodyShape(es)[..n][i];
    }
  }

  lemma {:induction false} SafeAgrees(es: seq<Event>)
    requires BodyOk(es, true) && Safe(BodyShape(es))
    ensures Agrees(es)
  {
    if es != [] {
      var n := |es| - 1;
      BodyPrefix(es);
      QuietCallsWrites(es[n].calls);
      if CallsWrites(es[n].calls) == [] {
        SafeAgrees(es[..n]);
      } else {
        NoOwnSignal(es[..n]);
        OwnSignalNext(es);
        if Last(CallsWrites(es[n].calls), false) { CallsSetOnlyIf(es[n].calls); }
      }
    }
  }

  // ----- an unsafe shape ----------------------------------------------------

  /** Borrowed callbacks only in shims that take one. */
  predicate Formed(c: CallShape) { FormedBody(c.body, c.takes) }

  predicate FormedBody(es: seq<EventShape>, takes: bool) {
    es != [] ==>
      && FormedBody(es[..|es| - 1], takes)
      && (es[|es| - 1].borrowed ==> takes) && FormedCalls(es[|es| - 1].calls)
  }

  predicate FormedCalls(cs: seq<CallShape>) {
    cs != [] ==> FormedCalls(cs[..|cs| - 1]) && Formed(cs[|cs| - 1])
  }

  /** The calls of a shape in which every borrowed callback signals, or none. */
  function Fill(c: CallShape, signal: bool): Call { Call(c.takes, true, FillBody(c.body, signal), Fine) }

  function FillBody(es: seq<EventShape>, signal: bool): (r: seq<Event>)
    ensures |r| == |es|
  {
    if es == [] then []
    else FillBody(es[..|es| - 1], signal) + [FillEvent(es[|es| - 1], signal, signal)]
  }

  function FillEvent(e: EventShape, signal: bool, own: bool): Event {
    Invoke(e.borrowed, FillCalls(e.calls, signal), e.borrowed && own)
  }

  function FillCalls(cs: seq<CallShape>, signal: bool): (r: seq<Call>)
    ensures |r| == |cs|
  {
    if cs == [] then [] else FillCalls(cs[..|cs| - 1], signal) + [Fill(cs[|cs| - 1], signal)]
  }

  lemma {:induction false} FillIs(c: CallShape, signal: bool)
    requires Formed(c)
    ensures Ok(Fill(c, signal)) && ShapeOf(Fill(c, signal)) == c
    decreases c
  {
    FillBodyIs(c.body, signal, c.takes);
  }

  lemma {:induction false} FillBodyIs(es: seq<EventShape>, signal: bool, takes: bool)
    requires FormedBody(es, takes)
    ensures BodyOk(FillBody(es, signal), takes) && BodyShape(FillBody(es, signal)) == es
    decreases es
  {
    if es != [] {
      var n := |es| - 1;
      FillBodyIs(es[..n], signal, takes);
      FillCallsIs(es[n].calls, signal);
      BodyNext(FillBody(es[..n], signal), FillEvent(es[n], signal, signal), es, takes);
    }
  }

  lemma BodyNext(front: seq<Event>, e: Event, es: seq<EventShape>, takes: bool)
    requires es != [] && BodyOk(front, takes) && BodyShape(front) == es[..|es| - 1]
    requires EventOk(e, takes) && EventShapeOf(e) == es[|es| - 1]
    ensures BodyOk(front + [e], takes) && BodyShape(front + [e]) == es
  {
    BodyPrefix(front + [e]);
    assert (front + [e])[..|front|] == front;
  }

  lemma {:induction false} FillCallsIs(cs: seq<CallShape>, signal: bool)
    requires FormedCalls(cs)
    ensures CallsOk(FillCalls(cs, signal)) && CallsShape(FillCalls(cs, signal)) == cs
    decreases cs
  {
    if cs != [] {
      var n := |cs| - 1;
      var r := FillCalls(cs, signal);
      FillCallsIs(cs[..n], signal);
      FillIs(cs[n], signal);
      assert r[..n] == FillCalls(cs[..n], signal);
      assert cs == cs[..n] + [cs[n]];
      forall i | 0 <= i < |r| ensures Ok(r[i]) { if i < n { assert r[i] == r[..n][i]; } }
    }
  }

  /** With all signals the flag ends set if it can be, with none it does not. */
  lemma {:induction false} FillSets(c: CallShape, signal: bool)
    requires Formed(c)
    ensures Last(Writes(Fill(c, signal)), false) == (signal && MaySet(c))
    decreases c
  {
    var head: seq<bool> := if c.takes then [false] else [];
    LastAppend(head, BodyWrites(FillBody(c.body, signal)), false);
    FillBodySets(c.body, signal, c.takes);
  }

  lemma {:induction false} FillBodySets(es: seq<EventShape>, signal: bool, takes: bool)
    requires FormedBody(es, takes)
    ensures Last(BodyWrites(FillBody(es, signal)), false) == (signal && MaySetBody(es))
    decreases es
  {
    if es != [] {
      var n := |es| - 1;
      var r := FillBody(es, signal);
      assert r[..n] == FillBody(es[..n], signal);
      assert r[n] == FillEvent(es[n], signal, signal);
      FillBodySets(es[..n], signal, takes);
      FillCallsSet(es[n].calls, signal);
      FillCallsIs(es[n].calls, signal);
      QuietCallsWrites(r[n].calls);
      LastAppend(BodyWrites(r[..n]), EventWrites(r[n]), false);
      EventSets(r[n], Last(BodyWrites(r[..n]), false));
    }
  }

  lemma EventSets(e: Event, before: bool)
    ensures Last(EventWrites(e), before) ==
      if e.borrowed && e.signalled then true
      else if CallsWrites(e.calls) == [] then before
      else Last(CallsWrites(e.calls), false)
  {
    LastAppend(CallsWrites(e.calls), if e.borrowed && e.signalled then [true] else [], before);
  }

  lemma {:induction false} FillCallsSet(cs: seq<CallShape>, signal: bool)
    requires FormedCalls(cs)
    ensures Last(CallsWrites(FillCalls(cs, signal)), false) == (signal && MaySetCalls(cs))
    decreases cs
  {
    if cs != [] {
      var n := |cs| - 1;
      var r := FillCalls(cs, signal);
      assert r[..n] == FillCalls(cs[..n], signal);
      FillCallsSet(cs[..n], signal);
      FillSets(cs[n], signal);
      FillIs(cs[n], signal);
      QuietWrites(r[n]);
      LastAppend(CallsWrites(r[..n]), Writes(r[n]), false);
    }
  }

  /** Outcomes of an unsafe shape for which the flag is wrong at the end. */
  function Bad(es: seq<EventShape>): (r: seq<Event>)
    requires !Safe(es)
    ensures |r| == |es|
  {
    var n := |es| - 1;
    if QuietCalls(es[n].calls) then Bad(es[..n]) + [FillEvent(es[n], false, false)]
    else if MaySetCalls(es[n].calls) then FillBody(es[..n], false) + [FillEvent(es[n], true, false)]
    else FillBody(es[..n], true) + [FillEvent(es[n], false, false)]
  }

  lemma {:induction false} BadIs(es: seq<EventShape>)
    requires FormedBody(es, true) && !Safe(es)
    ensures BodyOk(Bad(es), true) && BodyShape(Bad(es)) == es
  {
    var n := |es| - 1;
    var signal := !QuietCalls(es[n].calls) && MaySetCalls(es[n].calls);
    var e := FillEvent(es[n], signal, false);
    FillCallsIs(es[n].calls, signal);
    if QuietCalls(es[n].calls) {
      BadIs(es[..n]);
      BodyNext(Bad(es[..n]), e, es, true);
    } else {
      FillBodyIs(es[..n], !signal, true);
      BodyNext(FillBody(es[..n], !signal), e, es, true);
    }
  }

  lemma {:induction false} FillSignals(es: seq<EventShape>, signal: bool)
    ensures OwnSignal(FillBody(es, signal)) <==> signal && !NoneBorrowed(es)
  {
    if es != [] {
      var n := |es| - 1;
      var r := FillBody(es, signal);
      assert r[..n] == FillBody(es[..n], signal);
      FillSignals(es[..n], signal);
      OwnSignalNext(r);
      assert es == es[..n] + [es[n]];
      assert NoneBorrowed(es) <==> NoneBorrowed(es[..n]) && !es[n].borrowed;
    }
  }

  lemma {:induction false} BadDisagrees(es: seq<EventShape>)
    requires FormedBody(es, true) && !Safe(es)
    ensures !Agrees(Bad(es))
  {
    var n := |es| - 1;
    var r := Bad(es);
    var signal := !QuietCalls(es[n].calls) && MaySetCalls(es[n].calls);
    assert r[n] == FillEvent(es[n], signal, false);
    FillCallsIs(es[n].calls, signal);
    QuietCallsWrites(r[n].calls);
    if QuietCalls(es[n].calls) {
      assert r[..n] == Bad(es[..n]);
      BadDisagrees(es[..n]);
    } else {
      assert r[..n] == FillBody(es[..n], !signal);
      FillCallsSet(es[n].calls, signal);
      FillSignals(es[..n], !signal);
      OwnSignalNext(r);
    }
  }

  // ----- exactly ------------------------------------------------------------

  /** For every outcome of a call of this shape that returned an Err, status 4
      says whether one of the call's own callbacks failed. */
  ghost predicate Trusted(es: seq<EventShape>) {
    forall c: Call, flag: bool :: Ok(c) && c.takesCallback && c.ending.Fails? && BodyShape(c.body) == es ==>
      (Status(c, flag) == 4 <==> OwnSignal(c.body))
  }

  lemma ShapeDecides(es: seq<EventShape>)
    requires FormedBody(es, true)
    ensures Trusted(es) <==> Safe(es)
  {
    if Safe(es) {
      forall c: Call, flag: bool | Ok(c) && c.takesCallback && c.ending.Fails? && BodyShape(c.body) == es
        ensures Status(c, flag) == 4 <==> OwnSignal(c.body)
      {
        SafeAgrees(c.body);
        StatusIsOwnSignal(c, flag);
      }
    } else {
      BadIs(es);
      BadDisagrees(es);
      var c := Call(true, true, Bad(es), Fails);
      StatusIsOwnSignal(c, false);
      assert Ok(c) && !(Status(c, false) == 4 <==> OwnSignal(c.body));
    }
  }
}

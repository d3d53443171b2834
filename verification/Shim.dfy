/** The generated shim: the code `gen_fn` emits for an exported function, and
    what running that code does with the words of a call. */
module Shim {
  import opened Wrappers
  import opened Classify
  import opened Abi
  import opened ByteMemory
  import M = Manifest

  // ----- values and words ---------------------------------------------------

  /** What the user function takes and returns. */
  datatype Value =
    | Nothing
    | Num(n: int)            // its bit pattern
    | Truth(b: bool)
    | Str(bytes: seq<int>)
    | Octets(bytes: seq<int>)
    | Nums(ns: seq<int>)     // their bit patterns
    | Object(addr: int)
    | Closure(fn: int, data: int)
    | Maybe(v: Option<Value>)

  /** Bytes of a C type. */
  function Size(c: C): (n: nat)
    ensures n > 0
  {
    match c
    case I8 => 1 case U8 => 1 case Void => 1
    case I16 => 2 case U16 => 2
    case I32 => 4 case U32 => 4 case F32 => 4
    case _ => 8
  }

  /** The byte size the loader's table has for an element token. */
  function TokenSize(tok: string): (n: nat)
    ensures n > 0
  {
    if tok == ":i8" || tok == ":u8" then 1 else if tok == ":i16" || tok == ":u16" then 2
    else if tok == ":i32" || tok == ":u32" || tok == ":f32" then 4 else 8
  }

  lemma TokenSizeAgrees(types: Ty -> C, tok: string, ty: Ty)
    requires Same(tok, ty) && types(ty) == NameC(ty)
    ensures TokenSize(tok) == Size(types(ty))
  {
  }

  // ----- generated code -----------------------------------------------------

  /** One argument conversion: the position of its first extern parameter,
      and the C type of a number. */
  datatype Instr =
    | TakeNum(at: nat, c: C)
    | TakeFlag(at: nat)
    | TakeStr(at: nat)
    | TakeOctets(at: nat)
    | TakeNums(at: nat, c: C)
    | TakeObject(at: nat)
    | TakeClosure(at: nat)
    | MaybeNum(at: nat, c: C)
    | MaybeStr(at: nat)
    | MaybeOctets(at: nat)

  function Emit(types: Ty -> C, p: PTy, at: nat): Instr {
    match p
    case Scalar(_, ty) => TakeNum(at, types(ty))
    case Bool => TakeFlag(at)
    case StrRef => TakeStr(at)
    case BytesRef => TakeOctets(at)
    case HandleRef(_) => TakeObject(at)
    case Callback(_) => TakeClosure(at)
    case StoredCallback(_) => TakeClosure(at)
    case OptionScalar(_, ty) => MaybeNum(at, types(ty))
    case OptionStr => MaybeStr(at)
    case OptionBytes => MaybeOctets(at)
    case VecScalar(_, ty) => TakeNums(at, types(ty))
  }

  function Code(types: Ty -> C, ps: seq<Param>): seq<Instr> {
    if ps == [] then []
    else Code(types, ps[..|ps| - 1]) + [Emit(types, ps[|ps| - 1].pty, |WireIns(ps[..|ps| - 1])|)]
  }

  predicate HasCallback(ps: seq<Param>) { exists i :: 0 <= i < |ps| && ps[i].pty.Callback? }

  /** `cb_ffi_types`; its unreachable arm is the last branch. */
  method CbFfiTypes(toks: seq<string>) returns (cs: seq<C>)
    requires AllCbToks(toks)
    ensures cs == CbFfi(toks)
  {
    cs := [];
    for i := 0 to |toks|
      invariant cs == CbFfi(toks[..i])
    {
      assert toks[..i + 1][..i] == toks[..i];
      CbTokAgrees(toks[i]);
      if CbTokC(toks[i]) != [] {
        cs := cs + CbTokC(toks[i]);
      } else {
        assert false;
      }
    }
    assert toks[..|toks|] == toks;
  }

  /** `gen_fn`: one pass over the parameters, appending to the extern
      parameters and to the conversions. */
  method GenFn(types: Ty -> C, f: Exported) returns (externs: seq<C>, code: seq<Instr>, hasCallback: bool)
    requires GoodFn(f)
    ensures externs == ShimSig(types, f) && code == Code(types, f.params) && hasCallback == HasCallback(f.params)
  {
    externs, code, hasCallback := [], [], false;
    for i := 0 to |f.params|
      invariant externs == ShimIns(types, f.params[..i]) && code == Code(types, f.params[..i])
      invariant hasCallback == HasCallback(f.params[..i])
    {
      GenNext(types, f.params, i);
      var p := f.params[i].pty;
      code := code + [Emit(types, p, |externs|)];
      if p.Callback? || p.StoredCallback? {
        var cb := CbFfiTypes(p.toks);
        externs := externs + [Fn([U64] + cb), U64];
      } else {
        externs := externs + ShimIn(types, p);
      }
      hasCallback := hasCallback || p.Callback?;
    }
    assert f.params[..|f.params|] == f.params;
    externs := externs + Pointers(ShimOut(types, f.result));
  }

  /** One parameter more. */
  lemma GenNext(types: Ty -> C, ps: seq<Param>, i: nat)
    requires i < |ps|
    ensures ShimIns(types, ps[..i + 1]) == ShimIns(types, ps[..i]) + ShimIn(types, ps[i].pty)
    ensures Code(types, ps[..i + 1]) == Code(types, ps[..i]) + [Emit(types, ps[i].pty, |ShimIns(types, ps[..i])|)]
    ensures HasCallback(ps[..i + 1]) == (HasCallback(ps[..i]) || ps[i].pty.Callback?)
  {
    assert ps[..i + 1][..i] == ps[..i];
    HonestIns(types, ps[..i]);
    HasCallbackNext(ps[..i + 1]);
  }

  lemma HasCallbackNext(ps: seq<Param>)
    requires ps != []
    ensures HasCallback(ps) == (HasCallback(ps[..|ps| - 1]) || ps[|ps| - 1].pty.Callback?)
  {
    var front := ps[..|ps| - 1];
    if HasCallback(ps) && !ps[|ps| - 1].pty.Callback? {
      var i :| 0 <= i < |ps| && ps[i].pty.Callback?;
      assert front[i].pty.Callback?;
    }
    if HasCallback(front) {
      var i :| 0 <= i < |front| && front[i].pty.Callback?;
      assert ps[i].pty.Callback?;
    }
  }

  // ----- running the conversions --------------------------------------------

  function Word(ws: seq<int>, at: nat): int { if at < |ws| then ws[at] else 0 }

  /** A conversion's result, or the bytes that are not UTF-8. */
  datatype Got<+T> = Fine(value: T) | BadUtf8(bytes: seq<int>) {
    predicate IsFailure() { BadUtf8? }
    function PropagateFailure<U>(): Got<U> requires BadUtf8? { BadUtf8(bytes) }
    function Extract(): T requires Fine? { value }
  }

  /** `str_arg` */
  function StrArg(utf8: seq<int> -> bool, mem: Memory, at: int, n: int): Got<Value> {
    if utf8(Borrow(mem, at, n)) then Fine(Str(Borrow(mem, at, n))) else BadUtf8(Borrow(mem, at, n))
  }

  function Convert(utf8: seq<int> -> bool, mem: Memory, ws: seq<int>, i: Instr): Got<Value> {
    var w, w1, w2 := Word(ws, i.at), Word(ws, i.at + 1), Word(ws, i.at + 2);
    match i
    case TakeNum(_, c) => Fine(Num(Low(w, Size(c))))
    case TakeFlag(_) => Fine(Truth(w != 0))
    case TakeStr(_) => StrArg(utf8, mem, w, w1)
    case TakeOctets(_) => Fine(Octets(Borrow(mem, w, w1)))
    case TakeNums(_, c) => Fine(Nums(BorrowElems(mem, w, w1, Size(c))))
    case TakeObject(_) => Fine(Object(w))
    case TakeClosure(_) => Fine(Closure(w, w1))
    case MaybeNum(_, c) => Fine(Maybe(if w != 0 then Some(Num(Low(w1, Size(c)))) else None))
    case MaybeStr(_) =>
      if w == 0 then Fine(Maybe(None)) else
      var v :- StrArg(utf8, mem, w1, w2);
      Fine(Maybe(Some(v)))
    case MaybeOctets(_) => Fine(Maybe(if w != 0 then Some(Octets(Borrow(mem, w1, w2))) else None))
  }

  /** All conversions in order, stopping at the first that fails. */
  function Converted(utf8: seq<int> -> bool, mem: Memory, ws: seq<int>, code: seq<Instr>): Got<seq<Value>> {
    if code == [] then Fine([])
    else Then(Converted(utf8, mem, ws, code[..|code| - 1]), Convert(utf8, mem, ws, code[|code| - 1]))
  }

  function Then(front: Got<seq<Value>>, last: Got<Value>): Got<seq<Value>> {
    var vs :- front;
    var v :- last;
    Fine(vs + [v])
  }

  // ----- the words that stand for values ------------------------------------

  predicate Points(mem: Memory, at: int, n: int, xs: seq<int>) {
    n == |xs| && (n > 0 ==> Cells(mem, at, |xs|) == xs)
  }

  predicate PointsElems(mem: Memory, at: int, n: int, xs: seq<int>, w: nat)
    requires w > 0
  {
    n == |xs| && (n > 0 ==> Elems(Cells(mem, at, |xs| * w), w) == xs)
  }

  predicate IsNum(v: Value, w: nat) { v.Num? && 0 <= v.n < Limit(w) }

  /** The words a caller may pass for a value: any pointer with an empty
      buffer, anything beside a cleared present flag, any non-zero flag. */
  predicate Encodes(types: Ty -> C, mem: Memory, p: PTy, v: Value, ws: seq<int>) {
    && |ws| == |WireIn(p)|
    && match p
       case Scalar(_, ty) => IsNum(v, Size(types(ty))) && v.n == ws[0]
       case Bool => v == Truth(ws[0] != 0)
       case StrRef => v.Str? && Points(mem, ws[0], ws[1], v.bytes)
       case BytesRef => v.Octets? && Points(mem, ws[0], ws[1], v.bytes)
       case HandleRef(_) => v == Object(ws[0])
       case Callback(_) => v == Closure(ws[0], ws[1])
       case StoredCallback(_) => v == Closure(ws[0], ws[1])
       case OptionScalar(_, ty) =>
         v.Maybe? && (v.v.Some? <==> ws[0] != 0) && (v.v.Some? ==> IsNum(v.v.value, Size(types(ty))) && v.v.value.n == ws[1])
       case OptionStr =>
         v.Maybe? && (v.v.Some? <==> ws[0] != 0) && (v.v.Some? ==> v.v.value.Str? && Points(mem, ws[1], ws[2], v.v.value.bytes))
       case OptionBytes =>
         v.Maybe? && (v.v.Some? <==> ws[0] != 0) && (v.v.Some? ==> v.v.value.Octets? && Points(mem, ws[1], ws[2], v.v.value.bytes))
       case VecScalar(_, ty) => v.Nums? && PointsElems(mem, ws[0], ws[1], v.ns, Size(types(ty)))
  }

  predicate EncodesAll(types: Ty -> C, mem: Memory, ps: seq<Param>, vs: seq<Value>, ws: seq<int>) {
    && |vs| == |ps| && |ws| == |WireIns(ps)|
    && (ps != [] ==>
          var n := |ps| - 1;
          var k := |WireIns(ps[..n])|;
          EncodesAll(types, mem, ps[..n], vs[..n], ws[..k]) && Encodes(types, mem, ps[n].pty, vs[n], ws[k..]))
  }

  // ----- the words the wrapper sends ----------------------------------------

  /** What the generated wrapper passes for a value, by the manifest's type. */
  predicate Sends(mem: Memory, m: M.ParamTy, v: Value, ws: seq<int>) {
    match m
    case Scalar(tok) =>
      if tok == ":bool" then v.Truth? && ws == [if v.b then 1 else 0] else IsNum(v, TokenSize(tok)) && ws == [v.n]
    case Str => v.Str? && |ws| == 2 && Points(mem, ws[0], ws[1], v.bytes)
    case Bytes => v.Octets? && |ws| == 2 && Points(mem, ws[0], ws[1], v.bytes)
    case Vec(tok) => v.Nums? && |ws| == 2 && PointsElems(mem, ws[0], ws[1], v.ns, TokenSize(tok))
    case Handle(_) => v.Object? && ws == [v.addr]
    case Callback(_, _) => v.Closure? && ws == [v.fn, v.data]
    case StoredCallback(_, _) => v.Closure? && ws == [v.fn, v.data]
    case Opt(inner) =>
      v.Maybe?
      && match inner
         case Scalar(tok) => if v.v.Some? then IsNum(v.v.value, TokenSize(tok)) && ws == [1, v.v.value.n] else ws == [0, 0]
         case Str => |ws| == 3 && if v.v.Some? then v.v.value.Str? && ws[0] == 1 && Points(mem, ws[1], ws[2], v.v.value.bytes)
                                  else ws[0] == 0
         case Bytes => |ws| == 3 && if v.v.Some? then v.v.value.Octets? && ws[0] == 1 && Points(mem, ws[1], ws[2], v.v.value.bytes)
                                    else ws[0] == 0
         case _ => false
  }

  /** All arguments, one after the other; None when the loader refuses. */
  predicate SendsAll(mem: Memory, ms: seq<M.ParamMeta>, vs: seq<Value>, ws: seq<int>) {
    && |vs| == |ms| && LoaderIns(ms).Some? && |ws| == |LoaderIns(ms).value|
    && (ms != [] ==>
          var n := |ms| - 1;
          var k := |LoaderIns(ms[..n]).value|;
          k <= |ws| && SendsAll(mem, ms[..n], vs[..n], ws[..k]) && Sends(mem, ms[n].ty, vs[n], ws[k..]))
  }

  /** What is sent by the manifest's type encodes the value for the Rust type,
      if that is the type it is called. */
  lemma SentEncodes(types: Ty -> C, rustName: Path -> string, mem: Memory, p: PTy, v: Value, ws: seq<int>)
    requires GoodP(p) && HonestP(types, p) && Sends(mem, MetaTy(rustName, p), v, ws)
    ensures Encodes(types, mem, p, v, ws)
  {
    match p
    case Scalar(tok, ty) => SameC(tok, ty); TokenSizeAgrees(types, tok, ty);
    case OptionScalar(tok, ty) => SameC(tok, ty); TokenSizeAgrees(types, tok, ty);
    case VecScalar(tok, ty) => TokenSizeAgrees(types, tok, ty);
    case _ =>
  }

  lemma {:induction false} SentAllEncodes(types: Ty -> C, rustName: Path -> string, mem: Memory, ps: seq<Param>,
                                          vs: seq<Value>, ws: seq<int>)
    requires (forall i :: 0 <= i < |ps| ==> GoodP(ps[i].pty)) && AllHonest(types, ps)
    requires SendsAll(mem, MetaParams(rustName, ps), vs, ws)
    ensures EncodesAll(types, mem, ps, vs, ws)
  {
    InsAgree(rustName, ps);
    if ps != [] {
      var n := |ps| - 1;
      assert MetaParams(rustName, ps)[..n] == MetaParams(rustName, ps[..n]);
      InsAgree(rustName, ps[..n]);
      AllHonestNext(types, ps);
      var k := |WireIns(ps[..n])|;
      SentAllEncodes(types, rustName, mem, ps[..n], vs[..n], ws[..k]);
      SentEncodes(types, rustName, mem, ps[n].pty, vs[n], ws[k..]);
    }
  }

  // ----- decoding -----------------------------------------------------------

  /** The bytes of a string argument that is present. */
  function Spelling(v: Value): Option<seq<int>> {
    if v.Str? then Some(v.bytes)
    else if v.Maybe? && v.v.Some? && v.v.value.Str? then Some(v.v.value.bytes)
    else None
  }

  predicate IllFormed(utf8: seq<int> -> bool, v: Value) { Spelling(v).Some? && !utf8(Spelling(v).value) }

  lemma BorrowPoints(mem: Memory, at: int, n: int, xs: seq<int>)
    requires Points(mem, at, n, xs)
    ensures Borrow(mem, at, n) == xs
  {
  }

  lemma LowNum(v: Value, w: nat)
    requires IsNum(v, w)
    ensures Low(v.n, w) == v.n
  {
    NumberDigits(v.n, w);
  }

  lemma ConvertEncoded(types: Ty -> C, utf8: seq<int> -> bool, mem: Memory, p: PTy, v: Value, all: seq<int>, at: nat)
    requires at + |WireIn(p)| <= |all| && Encodes(types, mem, p, v, all[at..at + |WireIn(p)|])
    ensures Convert(utf8, mem, all, Emit(types, p, at)) == if IllFormed(utf8, v) then BadUtf8(Spelling(v).value) else Fine(v)
  {
    var ws := all[at..at + |WireIn(p)|];
    assert forall i :: 0 <= i < |ws| ==> ws[i] == Word(all, at + i);
    match p
    case Scalar(_, ty) => LowNum(v, Size(types(ty)));
    case StrRef => BorrowPoints(mem, ws[0], ws[1], v.bytes);
    case BytesRef => BorrowPoints(mem, ws[0], ws[1], v.bytes);
    case OptionScalar(_, ty) => if v.v.Some? { LowNum(v.v.value, Size(types(ty))); }
    case OptionStr => if v.v.Some? { BorrowPoints(mem, ws[1], ws[2], v.v.value.bytes); }
    case OptionBytes => if v.v.Some? { BorrowPoints(mem, ws[1], ws[2], v.v.value.bytes); }
    case _ =>
  }

  /** What the conversions should give: the arguments, or the first present
      string that is not UTF-8. */
  ghost predicate Expected(utf8: seq<int> -> bool, vs: seq<Value>, got: Got<seq<Value>>) {
    match got
    case Fine(us) => us == vs && forall i :: 0 <= i < |vs| ==> !IllFormed(utf8, vs[i])
    case BadUtf8(bytes) =>
      exists k :: 0 <= k < |vs| && IllFormed(utf8, vs[k]) && Spelling(vs[k]) == Some(bytes)
        && forall i :: 0 <= i < k ==> !IllFormed(utf8, vs[i])
  }

  lemma ExpectedNext(utf8: seq<int> -> bool, vs: seq<Value>, front: Got<seq<Value>>)
    requires vs != [] && Expected(utf8, vs[..|vs| - 1], front)
    ensures var v := vs[|vs| - 1];
            Expected(utf8, vs, Then(front, if IllFormed(utf8, v) then BadUtf8(Spelling(v).value) else Fine(v)))
  {
    var n := |vs| - 1;
    var us := vs[..n];
    assert forall i :: 0 <= i < n ==> us[i] == vs[i];
    if front.BadUtf8? {
      var j :| 0 <= j < n && IllFormed(utf8, us[j]) && Spelling(us[j]) == Some(front.bytes)
        && forall i :: 0 <= i < j ==> !IllFormed(utf8, us[i]);
      assert IllFormed(utf8, vs[j]);
    } else {
      assert us + [vs[n]] == vs;
    }
  }

  /** Decoding undoes every encoding, in parameter order. */
  lemma {:induction false} DecodesArguments(types: Ty -> C, utf8: seq<int> -> bool, mem: Memory, ps: seq<Param>, vs: seq<Value>, all: seq<int>)
    requires |WireIns(ps)| <= |all| && EncodesAll(types, mem, ps, vs, all[..|WireIns(ps)|])
    ensures Expected(utf8, vs, Converted(utf8, mem, all, Code(types, ps)))
  {
    if ps != [] {
      var n := |ps| - 1;
      var k := |WireIns(ps[..n])|;
      Slices(all, k, |WireIns(ps)|);
      DecodesArguments(types, utf8, mem, ps[..n], vs[..n], all);
      ConvertEncoded(types, utf8, mem, ps[n].pty, vs[n], all, k);
      ConvertedCode(types, utf8, mem, all, ps);
      ExpectedNext(utf8, vs, Converted(utf8, mem, all, Code(types, ps[..n])));
    }
  }

  lemma Slices(all: seq<int>, k: nat, m: nat)
    requires k <= m <= |all|
    ensures all[..m][..k] == all[..k] && all[..m][k..] == all[k..m]
  {
  }

  lemma ConvertedCode(types: Ty -> C, utf8: seq<int> -> bool, mem: Memory, all: seq<int>, ps: seq<Param>)
    requires ps != []
    ensures var n := |ps| - 1;
            Converted(utf8, mem, all, Code(types, ps)) ==
            Then(Converted(utf8, mem, all, Code(types, ps[..n])), Convert(utf8, mem, all, Emit(types, ps[n].pty, |WireIns(ps[..n])|)))
  {
    var n := |ps| - 1;
    CodeLength(types, ps);
    assert Code(types, ps)[..|Code(types, ps)| - 1] == Code(types, ps[..n]);
  }

  lemma {:induction false} CodeLength(types: Ty -> C, ps: seq<Param>)
    ensures |Code(types, ps)| == |ps|
  {
    if ps != [] { CodeLength(types, ps[..|ps| - 1]); }
  }

  // ----- results ------------------------------------------------------------

  /** The values of a result type. */
  predicate Has(types: Ty -> C, r: RTy, v: Value) {
    match r
    case RUnit => v == Nothing
    case RScalar(_, ty) => IsNum(v, Size(types(ty)))
    case RBool => v.Truth?
    case RStr => v.Str?
    case RBytes => v.Octets?
    case RHandle(_) => v.Object?
    case ROptionScalar(_, ty) => v.Maybe? && (v.v.Some? ==> IsNum(v.v.value, Size(types(ty))))
    case ROptionStr => v.Maybe? && (v.v.Some? ==> v.v.value.Str?)
    case ROptionBytes => v.Maybe? && (v.v.Some? ==> v.v.value.Octets?)
    case RVecScalar(_, ty) => v.Nums? && Fits(v.ns, Size(types(ty)))
  }

  /** Memory, out-parameters and the count of live allocations. */
  datatype World = World(mem: Memory, outs: seq<int>, live: int)

  /** `bytes_into_raw` and `vec_into_raw`: n elements, these bytes, written to
      two out-parameters; an empty buffer is a dangling pointer and no
      allocation. */
  function PutBuffer(w: World, at: nat, n: nat, bytes: seq<int>, block: int, dangling: int): World
    requires at + 2 <= |w.outs|
  {
    if n == 0 then w.(outs := w.outs[at := dangling][at + 1 := 0])
    else World(Store(w.mem, block, bytes), w.outs[at := block][at + 1 := n], w.live + 1)
  }

  /** The success writer. */
  function WriteOk(types: Ty -> C, r: RTy, v: Value, w: World, block: int, dangling: int): World
    requires Has(types, r, v) && |w.outs| == |WireOut(r)|
  {
    match r
    case RUnit => w
    case RScalar(_, _) => w.(outs := w.outs[0 := v.n])
    case RBool => w.(outs := w.outs[0 := if v.b then 1 else 0])
    case RStr => PutBuffer(w, 0, |v.bytes|, v.bytes, block, dangling)
    case RBytes => PutBuffer(w, 0, |v.bytes|, v.bytes, block, dangling)
    case RHandle(_) => w.(outs := w.outs[0 := v.addr])
    case RVecScalar(_, ty) => PutBuffer(w, 0, |v.ns|, Spread(v.ns, Size(types(ty))), block, dangling)
    case ROptionScalar(_, _) =>
      if v.v.Some? then w.(outs := w.outs[0 := 1][1 := v.v.value.n]) else w.(outs := w.outs[0 := 0])
    case ROptionStr =>
      if v.v.Some? then PutBuffer(w.(outs := w.outs[0 := 1]), 1, |v.v.value.bytes|, v.v.value.bytes, block, dangling)
      else w.(outs := w.outs[0 := 0])
    case ROptionBytes =>
      if v.v.Some? then PutBuffer(w.(outs := w.outs[0 := 1]), 1, |v.v.value.bytes|, v.v.value.bytes, block, dangling)
      else w.(outs := w.outs[0 := 0])
  }

  /** What the wrapper makes of the out-parameters, by the manifest's type. */
  function Take(m: M.ResultTy, mem: Memory, outs: seq<int>): Value {
    var w, w1 := Word(outs, 0), Word(outs, 1);
    match m
    case RUnit => Nothing
    case RScalar(tok) => if tok == ":bool" then Truth(w > 0) else Num(w)
    case RStr => Str(Borrow(mem, w, w1))
    case RBytes => Octets(Borrow(mem, w, w1))
    case RHandle(_) => Object(w)
    case RVec(tok) => Nums(BorrowElems(mem, w, w1, TokenSize(tok)))
    case ROpt(inner) => Maybe(if w > 0 && |outs| > 0 then Some(Take(inner, mem, outs[1..])) else None)
  }

  /** The buffers the wrapper gives back to `dealloc`, which ignores size 0. */
  function Freed(m: M.ResultTy, outs: seq<int>): nat {
    match m
    case RStr => if Word(outs, 1) == 0 then 0 else 1
    case RBytes => if Word(outs, 1) == 0 then 0 else 1
    case RVec(tok) => if Word(outs, 1) * TokenSize(tok) == 0 then 0 else 1
    case ROpt(inner) => if Word(outs, 0) > 0 && |outs| > 0 then Freed(inner, outs[1..]) else 0
    case _ => 0
  }

  /** A buffer that was handed over: where it is, and what else is as before. */
  lemma BufferPut(w: World, at: nat, n: nat, bytes: seq<int>, block: int, dangling: int)
    requires at + 2 <= |w.outs|
    ensures var w' := PutBuffer(w, at, n, bytes, block, dangling);
            && |w'.outs| == |w.outs| && w'.outs[at + 1] == n
            && (n > 0 ==> Cells(w'.mem, w'.outs[at], |bytes|) == bytes)
            && (forall i :: 0 <= i < |w.outs| && i != at && i != at + 1 ==> w'.outs[i] == w.outs[i])
            && w'.live == w.live + (if n == 0 then 0 else 1)
  {
    StoredCells(w.mem, block, bytes);
  }

  lemma BytesReadBack(w: World, at: nat, bytes: seq<int>, block: int, dangling: int)
    requires at + 2 <= |w.outs|
    ensures var w' := PutBuffer(w, at, |bytes|, bytes, block, dangling);
            Borrow(w'.mem, w'.outs[at], w'.outs[at + 1]) == bytes
  {
    BufferPut(w, at, |bytes|, bytes, block, dangling);
  }

  lemma VecReadsBack(w: World, xs: seq<int>, size: nat, block: int, dangling: int)
    requires 2 <= |w.outs| && size > 0 && Fits(xs, size)
    ensures var w' := PutBuffer(w, 0, |xs|, Spread(xs, size), block, dangling);
            BorrowElems(w'.mem, w'.outs[0], w'.outs[1], size) == xs
  {
    BufferPut(w, 0, |xs|, Spread(xs, size), block, dangling);
    ElemsSpread(xs, size);
  }

  lemma PlainReadsBack(types: Ty -> C, rustName: Path -> string, r: RTy, v: Value, w: World, block: int, dangling: int)
    requires GoodR(r) && HonestR(types, r) && Has(types, r, v) && |w.outs| == |WireOut(r)|
    requires !r.ROptionScalar? && !r.ROptionStr? && !r.ROptionBytes?
    ensures var w' := WriteOk(types, r, v, w, block, dangling);
            && Take(MetaResult(rustName, r), w'.mem, w'.outs) == v
            && w'.live == w.live + Freed(MetaResult(rustName, r), w'.outs)
  {
    match r
    case RScalar(tok, ty) => SameC(tok, ty);
    case RStr => BytesReadBack(w, 0, v.bytes, block, dangling);
    case RBytes => BytesReadBack(w, 0, v.bytes, block, dangling);
    case RVecScalar(tok, ty) =>
      TokenSizeAgrees(types, tok, ty);
      VecReadsBack(w, v.ns, Size(types(ty)), block, dangling);
    case _ =>
  }

  lemma OptionReadsBack(types: Ty -> C, rustName: Path -> string, r: RTy, v: Value, w: World, block: int, dangling: int)
    requires GoodR(r) && Has(types, r, v) && |w.outs| == |WireOut(r)|
    requires r.ROptionScalar? || r.ROptionStr? || r.ROptionBytes?
    ensures var w' := WriteOk(types, r, v, w, block, dangling);
            && Take(MetaResult(rustName, r), w'.mem, w'.outs) == v
            && w'.live == w.live + Freed(MetaResult(rustName, r), w'.outs)
  {
    var w' := WriteOk(types, r, v, w, block, dangling);
    var tail := w'.outs[1..];
    assert |tail| == |w'.outs| - 1 && forall i :: 0 <= i < |tail| ==> tail[i] == w'.outs[i + 1];
    if v.v.Some? {
      match r
      case ROptionScalar(tok, ty) => SameC(tok, ty);
      case ROptionStr => BytesReadBack(w.(outs := w.outs[0 := 1]), 1, v.v.value.bytes, block, dangling);
      case ROptionBytes => BytesReadBack(w.(outs := w.outs[0 := 1]), 1, v.v.value.bytes, block, dangling);
    }
  }

  /** The wrapper, which knows the manifest type only, reads back the value
      the function returned, and frees what was allocated for it. */
  lemma ResultReadsBack(types: Ty -> C, rustName: Path -> string, r: RTy, v: Value, w: World, block: int, dangling: int)
    requires GoodR(r) && HonestR(types, r) && Has(types, r, v) && |w.outs| == |WireOut(r)|
    ensures var w' := WriteOk(types, r, v, w, block, dangling);
            && Take(MetaResult(rustName, r), w'.mem, w'.outs) == v
            && w'.live - Freed(MetaResult(rustName, r), w'.outs) == w.live
            && (v.Truth? || v.Maybe? ==> w'.outs[0] == 0 || w'.outs[0] == 1)
  {
    if r.ROptionScalar? || r.ROptionStr? || r.ROptionBytes? {
      OptionReadsBack(types, rustName, r, v, w, block, dangling);
    } else {
      PlainReadsBack(types, rustName, r, v, w, block, dangling);
    }
  }
}

/** The C signature of a shim, computed on both sides of the boundary: by the
    macro from the classified Rust types, and by the loader from the manifest
    alone. */
module Abi {
  import opened Wrappers
  import opened Classify
  import G = ClassifyGrammar
  import M = Manifest
  import R = ManifestReader
  import T = ManifestText
  import RT = ManifestRoundTrip

  /** C types. A pointer carries what its reader takes it to point to. */
  datatype C =
    | I8 | I16 | I32 | I64 | U8 | U16 | U32 | U64 | F32 | F64
    | USize | Void | Ptr(to: C) | Fn(params: seq<C>) | Unknown

  // ----- exported functions -------------------------------------------------

  datatype Input =
    | Receiver(byRef: bool, lifetime: Option<string>, isMut: bool)
    | Typed(name: string, ty: Ty)
    | Pattern

  datatype Kind = Free | Method | Ctor

  datatype Signature = Signature(doc: Option<string>, rustName: string, lispName: string, symbol: string,
                                 inputs: seq<Input>, ret: Option<Ty>, kind: Kind, selfTy: Option<Path>)

  datatype Param = Param(name: string, pty: PTy)

  datatype Exported = Exported(doc: Option<string>, rustName: string, lispName: string, symbol: string,
                               params: seq<Param>, result: RTy, error: Option<string>)

  function InputParam(input: Input, selfTy: Option<Path>): Outcome<Param, Reason> {
    match input
    case Receiver(byRef, lt, isMut) =>
      if byRef && lt.Some? && lt.value != "_" then Err(NamedLifetime)
      else if isMut then Err(MutRef)
      else if !byRef || selfTy.None? then Err(BadReceiver)
      else Ok(Param("self", HandleRef(selfTy.value)))
    case Typed(name, ty) =>
      var p :- ClassifyParam(ty);
      Ok(Param(name, p))
    case Pattern => Err(Unsupported)
  }

  /** `fn_params`, in order, failing at the first bad input. */
  function FnParams(inputs: seq<Input>, selfTy: Option<Path>): Outcome<seq<Param>, Reason> {
    if inputs == [] then Ok([]) else
    var front :- FnParams(inputs[..|inputs| - 1], selfTy);
    var p :- InputParam(inputs[|inputs| - 1], selfTy);
    Ok(front + [p])
  }

  /** Each input is accepted as its parameter. */
  predicate AcceptedAs(inputs: seq<Input>, selfTy: Option<Path>, ps: seq<Param>) {
    |ps| == |inputs| && forall i :: 0 <= i < |inputs| ==> InputParam(inputs[i], selfTy) == Ok(ps[i])
  }

  lemma {:induction false} FnParamsSound(inputs: seq<Input>, selfTy: Option<Path>)
    requires FnParams(inputs, selfTy).Ok?
    ensures AcceptedAs(inputs, selfTy, FnParams(inputs, selfTy).value)
  {
    if inputs != [] {
      var n := |inputs| - 1;
      FnParamsSound(inputs[..n], selfTy);
      var front := FnParams(inputs[..n], selfTy).value;
      assert forall i :: 0 <= i < n ==> InputParam(inputs[..n][i], selfTy) == Ok(front[i]);
    }
  }

  lemma {:induction false} FnParamsComplete(inputs: seq<Input>, selfTy: Option<Path>, ps: seq<Param>)
    requires AcceptedAs(inputs, selfTy, ps)
    ensures FnParams(inputs, selfTy) == Ok(ps)
  {
    if inputs != [] {
      var n := |inputs| - 1;
      FnParamsComplete(inputs[..n], selfTy, ps[..n]);
      assert InputParam(inputs[n], selfTy) == Ok(ps[n]);
      assert ps == ps[..n] + [ps[n]];
    }
  }

  /** Accepted as these parameters exactly when every input is accepted as
      its parameter, in order. */
  lemma FnParamsExactly(inputs: seq<Input>, selfTy: Option<Path>, ps: seq<Param>)
    ensures FnParams(inputs, selfTy) == Ok(ps) <==> AcceptedAs(inputs, selfTy, ps)
  {
    if FnParams(inputs, selfTy).Ok? { FnParamsSound(inputs, selfTy); }
    if AcceptedAs(inputs, selfTy, ps) { FnParamsComplete(inputs, selfTy, ps); }
  }

  lemma {:induction false} FnParamsStop(inputs: seq<Input>, selfTy: Option<Path>, i: nat)
    requires i < |inputs| && FnParams(inputs[..i], selfTy).Ok? && InputParam(inputs[i], selfTy).Err?
    ensures FnParams(inputs, selfTy) == Err(InputParam(inputs[i], selfTy).error)
    decreases |inputs|
  {
    var n := |inputs| - 1;
    if i < n {
      assert inputs[..n][..i] == inputs[..i];
      FnParamsStop(inputs[..n], selfTy, i);
    }
  }

  method CollectParams(inputs: seq<Input>, selfTy: Option<Path>) returns (r: Outcome<seq<Param>, Reason>)
    ensures r == FnParams(inputs, selfTy)
  {
    var params := [];
    for i := 0 to |inputs|
      invariant FnParams(inputs[..i], selfTy) == Ok(params)
    {
      assert inputs[..i + 1][..i] == inputs[..i];
      var p := InputParam(inputs[i], selfTy);
      if p.Err? {
        FnParamsStop(inputs, selfTy, i);
        return Err(p.error);
      }
      params := params + [p.value];
    }
    assert inputs[..|inputs|] == inputs;
    return Ok(params);
  }

  function Export(sig: Signature): Outcome<Exported, Reason> {
    if sig.kind.Ctor? && (exists i :: 0 <= i < |sig.inputs| && sig.inputs[i].Receiver?) then Err(BadReceiver) else
    var split := SplitResult(sig.ret);
    var params :- FnParams(sig.inputs, sig.selfTy);
    var result :- ClassifyResult(split.0, sig.kind.Ctor?);
    if sig.kind.Method? && !(exists i :: 0 <= i < |params| && params[i].name == "self") then Err(NoReceiver)
    else Ok(Exported(sig.doc, sig.rustName, sig.lispName, sig.symbol, params, result, split.1))
  }

  // ----- the metadata -------------------------------------------------------

  /** `gen_meta_const`; `rustName` gives the name a handle type registers. */
  function MetaTy(rustName: Path -> string, p: PTy): M.ParamTy {
    match p
    case Scalar(tok, _) => M.Scalar(tok)
    case Bool => M.Scalar(":bool")
    case StrRef => M.Str
    case BytesRef => M.Bytes
    case HandleRef(path) => M.Handle(rustName(path))
    case Callback(toks) => M.Callback(seq(|toks|, i requires 0 <= i < |toks| => M.Scalar(toks[i])), ":unit")
    case StoredCallback(toks) => M.StoredCallback(seq(|toks|, i requires 0 <= i < |toks| => M.Scalar(toks[i])), ":unit")
    case OptionScalar(tok, _) => M.Opt(M.Scalar(tok))
    case OptionStr => M.Opt(M.Str)
    case OptionBytes => M.Opt(M.Bytes)
    case VecScalar(tok, _) => M.Vec(tok)
  }

  function MetaResult(rustName: Path -> string, r: RTy): M.ResultTy {
    match r
    case RUnit => M.RUnit
    case RScalar(tok, _) => M.RScalar(tok)
    case RBool => M.RScalar(":bool")
    case RStr => M.RStr
    case RBytes => M.RBytes
    case RHandle(path) => M.RHandle(rustName(path))
    case ROptionScalar(tok, _) => M.ROpt(M.RScalar(tok))
    case ROptionStr => M.ROpt(M.RStr)
    case ROptionBytes => M.ROpt(M.RBytes)
    case RVecScalar(tok, _) => M.RVec(tok)
  }

  function MetaParams(rustName: Path -> string, ps: seq<Param>): (r: seq<M.ParamMeta>)
    ensures |r| == |ps|
    ensures forall i :: 0 <= i < |ps| ==> r[i] == M.ParamMeta(ps[i].name, MetaTy(rustName, ps[i].pty))
  {
    seq(|ps|, i requires 0 <= i < |ps| => M.ParamMeta(ps[i].name, MetaTy(rustName, ps[i].pty)))
  }

  function Meta(rustName: Path -> string, f: Exported): M.FnMeta {
    M.FnMeta(f.doc, f.rustName, f.lispName, f.symbol, MetaParams(rustName, f.params),
             MetaResult(rustName, f.result), f.error)
  }

  // ----- the shim's side ----------------------------------------------------

  /** The primitive a Rust type name stands for. */
  function IdentC(name: string): C {
    if name == "i8" then I8 else if name == "i16" then I16 else if name == "i32" then I32
    else if name == "i64" then I64 else if name == "u8" then U8 else if name == "u16" then U16
    else if name == "u32" then U32 else if name == "u64" then U64 else if name == "f32" then F32
    else if name == "f64" then F64 else Unknown
  }

  function NameC(ty: Ty): C { IdentC(LastIdent(ty)) }

  /** One token of `cb_ffi_types`; `[]` is its unreachable arm. */
  function CbTokC(tok: string): seq<C> {
    if tok == ":string" then [Ptr(U8), USize]
    else if tok == ":bool" || tok == ":u8" then [U8]
    else if tok == ":i8" then [I8] else if tok == ":i16" then [I16] else if tok == ":i32" then [I32]
    else if tok == ":i64" then [I64] else if tok == ":u16" then [U16] else if tok == ":u32" then [U32]
    else if tok == ":u64" then [U64] else if tok == ":f32" then [F32] else if tok == ":f64" then [F64]
    else []
  }

  function CbFfi(toks: seq<string>): seq<C> {
    if toks == [] then [] else CbFfi(toks[..|toks| - 1]) + CbTokC(toks[|toks| - 1])
  }

  /** The extern parameters of one Rust parameter. The shim is written with
      the type as the user wrote it; `d` is the C type the compiler finds
      behind it. */
  function ShimIn(d: Ty -> C, p: PTy): seq<C> {
    match p
    case Scalar(_, ty) => [d(ty)]
    case Bool => [U8]
    case StrRef => [Ptr(U8), USize]
    case BytesRef => [Ptr(U8), USize]
    case HandleRef(_) => [Ptr(Void)]
    case Callback(toks) => [Fn([U64] + CbFfi(toks)), U64]
    case StoredCallback(toks) => [Fn([U64] + CbFfi(toks)), U64]
    case OptionScalar(_, ty) => [U8, d(ty)]
    case OptionStr => [U8, Ptr(U8), USize]
    case OptionBytes => [U8, Ptr(U8), USize]
    case VecScalar(_, ty) => [Ptr(d(ty)), USize]
  }

  function ShimIns(d: Ty -> C, ps: seq<Param>): seq<C> {
    if ps == [] then [] else ShimIns(d, ps[..|ps| - 1]) + ShimIn(d, ps[|ps| - 1].pty)
  }

  /** The out-parameters, as what each points to. */
  function ShimOut(d: Ty -> C, r: RTy): seq<C> {
    match r
    case RUnit => []
    case RScalar(_, ty) => [d(ty)]
    case RBool => [U8]
    case RStr => [Ptr(U8), USize]
    case RBytes => [Ptr(U8), USize]
    case RHandle(_) => [Ptr(Void)]
    case ROptionScalar(_, ty) => [U8, d(ty)]
    case ROptionStr => [U8, Ptr(U8), USize]
    case ROptionBytes => [U8, Ptr(U8), USize]
    case RVecScalar(_, ty) => [Ptr(d(ty)), USize]
  }

  function Pointers(cs: seq<C>): seq<C> { seq(|cs|, i requires 0 <= i < |cs| => Ptr(cs[i])) }

  function ShimSig(d: Ty -> C, f: Exported): seq<C> { ShimIns(d, f.params) + Pointers(ShimOut(d, f.result)) }

  // The same with every scalar type taken by its name.

  function WireIn(p: PTy): seq<C> { ShimIn(NameC, p) }

  function WireIns(ps: seq<Param>): seq<C> { ShimIns(NameC, ps) }

  function WireOut(r: RTy): seq<C> { ShimOut(NameC, r) }

  function WireSig(f: Exported): seq<C> { ShimSig(NameC, f) }

  // ----- the loader's side --------------------------------------------------

  function ScalarCffi(tok: string): Option<C> {
    if tok == ":bool" then Some(U8) else VecElt(tok)
  }

  function VecElt(tok: string): Option<C> {
    if tok == ":i8" then Some(I8) else if tok == ":i16" then Some(I16) else if tok == ":i32" then Some(I32)
    else if tok == ":i64" then Some(I64) else if tok == ":u8" then Some(U8) else if tok == ":u16" then Some(U16)
    else if tok == ":u32" then Some(U32) else if tok == ":u64" then Some(U64) else if tok == ":f32" then Some(F32)
    else if tok == ":f64" then Some(F64) else None
  }

  /** The parameters of a trampoline after its leading `uint64`. */
  function Trampoline(ps: seq<M.ParamTy>): Option<seq<C>> {
    if ps == [] then Some([]) else
    var front :- Trampoline(ps[..|ps| - 1]);
    var p := ps[|ps| - 1];
    if !p.Scalar? then None
    else if p.tok == ":string" then Some(front + [Ptr(U8), USize])
    else
      var c :- ScalarCffi(p.tok);
      Some(front + [c])
  }

  function LoaderIn(ty: M.ParamTy): Option<seq<C>> {
    match ty
    case Str => Some([Ptr(U8), USize])
    case Bytes => Some([Ptr(U8), USize])
    case Opt(inner) =>
      if inner.Str? || inner.Bytes? then Some([U8, Ptr(U8), USize])
      else if inner.Scalar? && inner.tok != ":bool" then
        var c :- ScalarCffi(inner.tok);
        Some([U8, c])
      else None
    case Vec(tok) =>
      var c :- VecElt(tok);
      Some([Ptr(c), USize])
    case Handle(_) => Some([Ptr(Void)])
    case Callback(ps, result) =>
      if result != ":unit" then None else
      var t :- Trampoline(ps);
      Some([Fn([U64] + t), U64])
    case StoredCallback(ps, result) =>
      if result != ":unit" then None else
      var t :- Trampoline(ps);
      Some([Fn([U64] + t), U64])
    case Scalar(tok) =>
      var c :- ScalarCffi(tok);
      Some([c])
  }

  function LoaderIns(ps: seq<M.ParamMeta>): Option<seq<C>> {
    if ps == [] then Some([]) else
    var front :- LoaderIns(ps[..|ps| - 1]);
    var cs :- LoaderIn(ps[|ps| - 1].ty);
    Some(front + cs)
  }

  function LoaderOut(r: M.ResultTy): Option<seq<C>> {
    match r
    case RUnit => Some([])
    case RStr => Some([Ptr(U8), USize])
    case RBytes => Some([Ptr(U8), USize])
    case RHandle(_) => Some([Ptr(Void)])
    case ROpt(inner) =>
      if inner.RStr? || inner.RBytes? then Some([U8, Ptr(U8), USize])
      else if inner.RScalar? && inner.tok != ":bool" then
        var c :- ScalarCffi(inner.tok);
        Some([U8, c])
      else None
    case RVec(tok) =>
      var c :- VecElt(tok);
      Some([Ptr(c), USize])
    case RScalar(tok) =>
      var c :- ScalarCffi(tok);
      Some([c])
  }

  function CallbackCount(ps: seq<M.ParamMeta>): nat {
    if ps == [] then 0 else CallbackCount(ps[..|ps| - 1]) + (if ps[|ps| - 1].ty.Callback? then 1 else 0)
  }

  /** The signature the wrapper calls with; None when the loader refuses. */
  function LoaderSig(m: M.FnMeta): Option<seq<C>> {
    var ins :- LoaderIns(m.params);
    if CallbackCount(m.params) > 1 then None else
    var outs :- LoaderOut(m.result);
    Some(ins + Pointers(outs))
  }

  // ----- classification stays in the vocabulary -----------------------------

  predicate Same(tok: string, ty: Ty) { ScalarTok(LastIdent(ty)) == Some(tok) }

  predicate AllCbToks(toks: seq<string>) { forall i :: 0 <= i < |toks| ==> R.IsCbTok(toks[i]) }

  predicate GoodP(p: PTy) {
    match p
    case Scalar(tok, ty) => Same(tok, ty)
    case OptionScalar(tok, ty) => Same(tok, ty)
    case VecScalar(tok, ty) => Same(tok, ty)
    case Callback(toks) => AllCbToks(toks)
    case StoredCallback(toks) => AllCbToks(toks)
    case _ => true
  }

  predicate GoodR(r: RTy) {
    match r
    case RScalar(tok, ty) => Same(tok, ty)
    case ROptionScalar(tok, ty) => Same(tok, ty)
    case RVecScalar(tok, ty) => Same(tok, ty)
    case _ => true
  }

  lemma ScalarTokIsScalar(name: string)
    requires ScalarTok(name).Some?
    ensures M.IsScalar(ScalarTok(name).value)
  {
  }

  lemma ScalarSame(ty: Ty, tok: string)
    requires G.IsScalarTy(ty, tok)
    ensures Same(tok, ty) && M.IsScalar(tok)
  {
    G.TokenIs(LastIdent(ty));
    ScalarTokIsScalar(LastIdent(ty));
  }

  lemma ElemsGood(tys: seq<Ty>, toks: seq<string>)
    requires G.CbElems(tys, toks)
    ensures AllCbToks(toks)
  {
    forall i | 0 <= i < |toks| ensures R.IsCbTok(toks[i]) {
      assert G.CbElem(tys[i], toks[i]);
      if G.IsScalarTy(tys[i], toks[i]) { ScalarSame(tys[i], toks[i]); }
    }
  }

  /** Every accepted parameter is in the vocabulary, and its token names the
      type the shim is written with. */
  lemma ClassifyGood(ty: Ty)
    requires ClassifyParam(ty).Ok?
    ensures GoodP(ClassifyParam(ty).value)
  {
    var p := ClassifyParam(ty).value;
    G.ClassifyExactly(ty, p);
    match p
    case Scalar(tok, t) => ScalarSame(t, tok);
    case OptionScalar(tok, t) => ScalarSame(t, tok);
    case VecScalar(tok, t) => ScalarSame(t, tok);
    case Callback(toks) => ElemsGood(TypeArgs(G.LastSeg(ty.path).args.args)[0].elems, toks);
    case StoredCallback(toks) => ElemsGood(TypeArgs(G.LastSeg(ty.path).args.args)[0].elems, toks);
    case _ =>
  }

  lemma ClassifyResultGood(ty: Option<Ty>, ctor: bool)
    requires ClassifyResult(ty, ctor).Ok?
    ensures GoodR(ClassifyResult(ty, ctor).value)
  {
    var r := ClassifyResult(ty, ctor).value;
    G.ClassifyResultExactly(ty, ctor, r);
    match r
    case RScalar(tok, t) => ScalarSame(t, tok);
    case ROptionScalar(tok, t) => ScalarSame(t, tok);
    case RVecScalar(tok, t) => ScalarSame(t, tok);
    case _ =>
  }

  // ----- the two sides agree ------------------------------------------------

  lemma SameC(tok: string, ty: Ty)
    requires Same(tok, ty)
    ensures VecElt(tok) == Some(NameC(ty)) && ScalarCffi(tok) == Some(NameC(ty)) && tok != ":bool" && M.IsScalar(tok)
  {
  }

  function CbMetas(toks: seq<string>): seq<M.ParamTy> {
    seq(|toks|, i requires 0 <= i < |toks| => M.Scalar(toks[i]))
  }

  lemma CbTokAgrees(tok: string)
    requires R.IsCbTok(tok)
    ensures tok == ":string" ==> CbTokC(tok) == [Ptr(U8), USize]
    ensures tok != ":string" ==> ScalarCffi(tok).Some? && CbTokC(tok) == [ScalarCffi(tok).value]
  {
  }

  /** The trampoline has the parameters of the shim's callback pointer, and
      the unreachable arm of `cb_ffi_types` is not needed. */
  lemma {:induction false} TrampolineAgrees(toks: seq<string>)
    requires AllCbToks(toks)
    ensures Trampoline(CbMetas(toks)) == Some(CbFfi(toks))
  {
    if toks != [] {
      var n := |toks| - 1;
      TrampolineAgrees(toks[..n]);
      assert CbMetas(toks)[..n] == CbMetas(toks[..n]);
      CbTokAgrees(toks[n]);
    }
  }

  lemma InAgrees(rustName: Path -> string, p: PTy)
    requires GoodP(p)
    ensures LoaderIn(MetaTy(rustName, p)) == Some(WireIn(p))
  {
    match p
    case Scalar(tok, ty) => SameC(tok, ty);
    case OptionScalar(tok, ty) => SameC(tok, ty);
    case VecScalar(tok, ty) => SameC(tok, ty);
    case Callback(toks) => TrampolineAgrees(toks); assert MetaTy(rustName, p) == M.Callback(CbMetas(toks), ":unit");
    case StoredCallback(toks) =>
      TrampolineAgrees(toks);
      assert MetaTy(rustName, p) == M.StoredCallback(CbMetas(toks), ":unit");
    case _ =>
  }

  lemma OutAgrees(rustName: Path -> string, r: RTy)
    requires GoodR(r)
    ensures LoaderOut(MetaResult(rustName, r)) == Some(WireOut(r))
  {
    match r
    case RScalar(tok, ty) => SameC(tok, ty);
    case ROptionScalar(tok, ty) => SameC(tok, ty);
    case RVecScalar(tok, ty) => SameC(tok, ty);
    case _ =>
  }

  predicate GoodFn(f: Exported) {
    GoodR(f.result) && forall i :: 0 <= i < |f.params| ==> GoodP(f.params[i].pty)
  }

  lemma {:induction false} FnParamsGood(inputs: seq<Input>, selfTy: Option<Path>)
    requires FnParams(inputs, selfTy).Ok?
    ensures forall i :: 0 <= i < |FnParams(inputs, selfTy).value| ==> GoodP(FnParams(inputs, selfTy).value[i].pty)
  {
    if inputs != [] {
      var n := |inputs| - 1;
      FnParamsGood(inputs[..n], selfTy);
      if inputs[n].Typed? { ClassifyGood(inputs[n].ty); }
    }
  }

  lemma ExportGood(sig: Signature)
    requires Export(sig).Ok?
    ensures GoodFn(Export(sig).value)
  {
    FnParamsGood(sig.inputs, sig.selfTy);
    ClassifyResultGood(SplitResult(sig.ret).0, sig.kind.Ctor?);
  }

  lemma {:induction false} InsAgree(rustName: Path -> string, ps: seq<Param>)
    requires forall i :: 0 <= i < |ps| ==> GoodP(ps[i].pty)
    ensures LoaderIns(MetaParams(rustName, ps)) == Some(WireIns(ps))
  {
    if ps != [] {
      var n := |ps| - 1;
      InsAgree(rustName, ps[..n]);
      assert MetaParams(rustName, ps)[..n] == MetaParams(rustName, ps[..n]);
      InAgrees(rustName, ps[n].pty);
    }
  }

  /** How many borrowed callbacks the Rust function takes. */
  function Callbacks(ps: seq<Param>): nat {
    if ps == [] then 0 else Callbacks(ps[..|ps| - 1]) + (if ps[|ps| - 1].pty.Callback? then 1 else 0)
  }

  lemma {:induction false} CallbacksCounted(rustName: Path -> string, ps: seq<Param>)
    ensures CallbackCount(MetaParams(rustName, ps)) == Callbacks(ps)
  {
    if ps != [] {
      var n := |ps| - 1;
      CallbacksCounted(rustName, ps[..n]);
      assert MetaParams(rustName, ps)[..n] == MetaParams(rustName, ps[..n]);
    }
  }

  lemma LoaderByName(rustName: Path -> string, sig: Signature)
    requires Export(sig).Ok?
    ensures var f := Export(sig).value;
            LoaderSig(Meta(rustName, f)) == if Callbacks(f.params) <= 1 then Some(WireSig(f)) else None
  {
    var f := Export(sig).value;
    ExportGood(sig);
    InsAgree(rustName, f.params);
    CallbacksCounted(rustName, f.params);
    OutAgrees(rustName, f.result);
  }

  // ----- types that are what they are called --------------------------------

  predicate HonestP(d: Ty -> C, p: PTy) {
    match p
    case Scalar(_, ty) => d(ty) == NameC(ty)
    case OptionScalar(_, ty) => d(ty) == NameC(ty)
    case VecScalar(_, ty) => d(ty) == NameC(ty)
    case _ => true
  }

  predicate HonestR(d: Ty -> C, r: RTy) {
    match r
    case RScalar(_, ty) => d(ty) == NameC(ty)
    case ROptionScalar(_, ty) => d(ty) == NameC(ty)
    case RVecScalar(_, ty) => d(ty) == NameC(ty)
    case _ => true
  }

  /** No scalar type in the signature is an alias that takes a primitive's
      name for another type. */
  predicate Honest(d: Ty -> C, f: Exported) {
    HonestR(d, f.result) && AllHonest(d, f.params)
  }

  lemma HonestIn(d: Ty -> C, p: PTy)
    ensures |ShimIn(d, p)| == |WireIn(p)|
    ensures ShimIn(d, p) == WireIn(p) <==> HonestP(d, p)
  {
    if p.Scalar? || p.OptionScalar? || p.VecScalar? {
      var n := if p.OptionScalar? then 1 else 0;
      assert ShimIn(d, p)[n] == WireIn(p)[n] <==> HonestP(d, p);
    }
  }

  lemma HonestOut(d: Ty -> C, r: RTy)
    ensures |ShimOut(d, r)| == |WireOut(r)|
    ensures Pointers(ShimOut(d, r)) == Pointers(WireOut(r)) <==> HonestR(d, r)
  {
    if r.RScalar? || r.ROptionScalar? || r.RVecScalar? {
      var n := if r.ROptionScalar? then 1 else 0;
      assert ShimOut(d, r)[n] == WireOut(r)[n] <==> HonestR(d, r);
      assert Pointers(ShimOut(d, r))[n] == Ptr(ShimOut(d, r)[n]) && Pointers(WireOut(r))[n] == Ptr(WireOut(r)[n]);
    }
  }

  lemma SplitEqual(a: seq<C>, b: seq<C>, a': seq<C>, b': seq<C>)
    requires |a| == |a'|
    ensures a + b == a' + b' <==> a == a' && b == b'
  {
    if a + b == a' + b' {
      assert a == (a + b)[..|a|] && b == (a + b)[|a|..];
      assert a' == (a' + b')[..|a|] && b' == (a' + b')[|a|..];
    }
  }

  predicate AllHonest(d: Ty -> C, ps: seq<Param>) { forall i :: 0 <= i < |ps| ==> HonestP(d, ps[i].pty) }

  lemma AllHonestNext(d: Ty -> C, ps: seq<Param>)
    requires ps != []
    ensures AllHonest(d, ps) <==> AllHonest(d, ps[..|ps| - 1]) && HonestP(d, ps[|ps| - 1].pty)
  {
    var n := |ps| - 1;
    assert forall i :: 0 <= i < n ==> ps[..n][i] == ps[i];
  }

  lemma {:induction false} HonestIns(d: Ty -> C, ps: seq<Param>)
    ensures |ShimIns(d, ps)| == |WireIns(ps)|
    ensures ShimIns(d, ps) == WireIns(ps) <==> AllHonest(d, ps)
  {
    if ps != [] {
      var n := |ps| - 1;
      HonestIns(d, ps[..n]);
      HonestIn(d, ps[n].pty);
      AllHonestNext(d, ps);
      SplitEqual(ShimIns(d, ps[..n]), ShimIn(d, ps[n].pty), WireIns(ps[..n]), WireIn(ps[n].pty));
    }
  }

  /** For every signature the macro accepts, the wrapper calls with exactly
      the parameter list of the shim if and only if at most one parameter is a
      borrowed callback (the loader refuses the others) and every scalar type
      is the primitive it is called. */
  lemma SignaturesAgree(d: Ty -> C, rustName: Path -> string, sig: Signature)
    requires Export(sig).Ok?
    ensures var f := Export(sig).value;
      && (LoaderSig(Meta(rustName, f)) == Some(ShimSig(d, f)) <==> Callbacks(f.params) <= 1 && Honest(d, f))
      && (LoaderSig(Meta(rustName, f)) == None <==> Callbacks(f.params) > 1)
  {
    var f := Export(sig).value;
    LoaderByName(rustName, sig);
    HonestIns(d, f.params);
    HonestOut(d, f.result);
    SplitEqual(ShimIns(d, f.params), Pointers(ShimOut(d, f.result)), WireIns(f.params), Pointers(WireOut(f.result)));
  }

  // ----- ... across the rendered text ---------------------------------------

  lemma MetaTyValid(rustName: Path -> string, p: PTy)
    requires GoodP(p)
    ensures T.ValidTy(MetaTy(rustName, p))
  {
    match p
    case Scalar(tok, ty) => SameC(tok, ty);
    case OptionScalar(tok, ty) => SameC(tok, ty);
    case VecScalar(tok, ty) => SameC(tok, ty);
    case _ =>
  }

  lemma MetaResultValid(rustName: Path -> string, r: RTy)
    requires GoodR(r)
    ensures T.ValidResult(MetaResult(rustName, r))
  {
    match r
    case RScalar(tok, ty) => SameC(tok, ty);
    case ROptionScalar(tok, ty) => SameC(tok, ty);
    case RVecScalar(tok, ty) => SameC(tok, ty);
    case _ =>
  }

  /** Every accepted signature has metadata in the closed vocabulary: no
      nested option, no option of bool, callbacks of scalars and strings. */
  lemma MetaValid(rustName: Path -> string, sig: Signature)
    requires Export(sig).Ok?
    ensures T.ValidFn(Meta(rustName, Export(sig).value))
  {
    var f := Export(sig).value;
    ExportGood(sig);
    MetaResultValid(rustName, f.result);
    forall i | 0 <= i < |f.params| ensures T.ValidTy(Meta(rustName, f).params[i].ty) {
      MetaTyValid(rustName, f.params[i].pty);
    }
  }

  /** The crate whose functions are the exports of these signatures. */
  predicate Compiled(rustName: Path -> string, c: M.Crate, sigs: seq<Signature>) {
    && |c.fns| == |sigs|
    && forall i :: 0 <= i < |sigs| ==> Export(sigs[i]).Ok? && c.fns[i] == Meta(rustName, Export(sigs[i]).value)
  }

  /** The text of the manifest alone determines the ABI. */
  lemma ManifestDeterminesAbi(d: Ty -> C, rustName: Path -> string, c: M.Crate, sigs: seq<Signature>, i: nat)
    requires Compiled(rustName, c, sigs) && T.CleanCrate(c) && i < |sigs|
    ensures R.ReadManifest(RT.Rendered(c)).Some?
    ensures |R.ReadManifest(RT.Rendered(c)).value.fns| == |sigs|
    ensures var f := Export(sigs[i]).value;
            LoaderSig(R.ReadManifest(RT.Rendered(c)).value.fns[i]) == Some(ShimSig(d, f)) <==>
              Callbacks(f.params) <= 1 && Honest(d, f)
  {
    assert T.ValidCrate(c) by {
      forall k | 0 <= k < |c.fns| ensures T.ValidFn(c.fns[k]) { MetaValid(rustName, sigs[k]); }
    }
    RT.RoundTrip(c);
    SignaturesAgree(d, rustName, sigs[i]);
  }

  /** A function of two borrowed callbacks: exported, and refused on load. */
  lemma TwoCallbacks(rustName: Path -> string)
    ensures var cb := PathTy(None, Path(false, [Seg("Callback", Angle([TypeArg(Tuple([])), TypeArg(Tuple([]))]))]));
            var sig := Signature(None, "f", "f", "f", [Typed("a", cb), Typed("b", cb)], None, Free, None);
            Export(sig).Ok? && LoaderSig(Meta(rustName, Export(sig).value)) == None
  {
    var args := [TypeArg(Tuple([])), TypeArg(Tuple([]))];
    var seg := Seg("Callback", Angle(args));
    var cb := PathTy(None, Path(false, [seg]));
    EmptyCallback(seg, args);
    assert RejectNamed(cb).Ok? by { RejectsExactly(cb); EmptyLifetimes(cb, seg, args); }
    assert ClassifyParam(cb) == ClassifyPath(cb, seg);
    var sig := Signature(None, "f", "f", "f", [Typed("a", cb), Typed("b", cb)], None, Free, None);
    var p, q := Param("a", Callback([])), Param("b", Callback([]));
    assert sig.inputs[..1] == [Typed("a", cb)] && sig.inputs[..1][..0] == [];
    assert InputParam(Typed("a", cb), None) == Ok(p) && InputParam(Typed("b", cb), None) == Ok(q);
    assert FnParams([], None) == Ok([]) && [] + [p] == [p] && [p] + [q] == [p, q];
    assert FnParams([Typed("a", cb)], None) == Ok([p]);
    assert FnParams(sig.inputs, None) == Ok([p, q]);
    assert [p, q][..1] == [p] && [p][..0] == [];
    assert Callbacks([p]) == 1 && Callbacks([p, q]) == 2;
    LoaderByName(rustName, sig);
  }

  lemma EmptyCallback(seg: Seg, args: seq<Arg>)
    requires args == [TypeArg(Tuple([])), TypeArg(Tuple([]))] && seg == Seg("Callback", Angle(args))
    ensures ClassifyCallback(seg, false) == Ok(Callback([]))
  {
    assert args[1..] == [TypeArg(Tuple([]))] && args[1..][1..] == [];
    assert TypeArgs([]) == [];
    assert TypeArgs(args[1..]) == [Tuple([])];
    assert TypeArgs(args) == [Tuple([]), Tuple([])];
  }

  lemma EmptyLifetimes(cb: Ty, seg: Seg, args: seq<Arg>)
    requires args == [TypeArg(Tuple([])), TypeArg(Tuple([]))] && seg == Seg("Callback", Angle(args))
    requires cb == PathTy(None, Path(false, [seg]))
    ensures Lifetimes(cb, Visited) == {}
  {
    assert args[1..] == [TypeArg(Tuple([]))] && args[1..][1..] == [];
    assert LifetimesAll([], Visited) == {};
    assert Lifetimes(Tuple([]), Visited) == {};
    assert ArgLifetimes(TypeArg(Tuple([])), Visited) == {};
    assert ArgsLifetimes([], Visited) == {};
    assert ArgsLifetimes(args[1..], Visited) == {};
    assert [seg][1..] == [];
    assert SegLifetimes(seg, Visited) == {};
    assert SegsLifetimes([], Visited) == {};
    assert SegsLifetimes([seg], Visited) == {};
  }

  /** `fn f(x: m::i64)`, where the path `m::i64` may be any type. */
  lemma ShadowedExport(ty: Ty)
    requires ty == PathTy(None, Path(false, [Seg("m", NoArgs), Seg("i64", NoArgs)]))
    ensures var sig := Signature(None, "f", "f", "f", [Typed("x", ty)], None, Free, None);
            Export(sig) == Ok(Exported(None, "f", "f", "f", [Param("x", Scalar(":i64", ty))], RUnit, None))
  {
    var sig := Signature(None, "f", "f", "f", [Typed("x", ty)], None, Free, None);
    var segs := ty.path.segs;
    assert segs[1..] == [Seg("i64", NoArgs)] && segs[1..][1..] == [];
    assert SegsLifetimes(segs[1..][1..], Visited) == {} && SegsLifetimes(segs[1..], Visited) == {};
    assert Lifetimes(ty, Visited) == {};
    RejectsExactly(ty);
    assert ClassifyParam(ty) == ClassifyPath(ty, segs[1]);
    var p := Param("x", Scalar(":i64", ty));
    assert InputParam(Typed("x", ty), None) == Ok(p);
    assert sig.inputs[..0] == [] && FnParams([], None) == Ok([]) && [] + [p] == [p];
  }

  lemma OneScalar(d: Ty -> C, p: Param)
    requires p.pty.Scalar?
    ensures ShimIns(d, [p]) == [d(p.pty.ty)] && Callbacks([p]) == 0
  {
    assert [p][..0] == [];
    assert ShimIns(d, [p]) == ShimIns(d, []) + ShimIn(d, p.pty);
  }

  /** Where it is an alias of `i32`, the function is exported and loaded, and
      the wrapper passes 64 bits where the shim takes 32. */
  lemma ShadowedScalar(d: Ty -> C, rustName: Path -> string, ty: Ty)
    requires ty == PathTy(None, Path(false, [Seg("m", NoArgs), Seg("i64", NoArgs)])) && d(ty) == I32
    ensures var sig := Signature(None, "f", "f", "f", [Typed("x", ty)], None, Free, None);
      && Export(sig).Ok? && ShimSig(d, Export(sig).value) == [I32]
      && LoaderSig(Meta(rustName, Export(sig).value)) == Some([I64])
  {
    var sig := Signature(None, "f", "f", "f", [Typed("x", ty)], None, Free, None);
    ShadowedExport(ty);
    var f := Export(sig).value;
    OneScalar(d, f.params[0]);
    OneScalar(NameC, f.params[0]);
    assert ShimSig(d, f) == [I32] && WireSig(f) == [I64];
    LoaderByName(rustName, sig);
  }
}

/** Whatever text a loader is given, what it takes from it is in the closed
    vocabulary of the boundary. */
module ManifestClosed {
  import opened Wrappers
  import opened Sexp
  import opened Manifest
  import opened ManifestReader

  predicate Number(tok: string) {
    tok == ":i8" || tok == ":i16" || tok == ":i32" || tok == ":i64" || tok == ":u8" || tok == ":u16" || tok == ":u32"
    || tok == ":u64" || tok == ":f32" || tok == ":f64"
  }

  /** What a callback takes: numbers, truth values, strings. */
  predicate CallbackArg(ty: ParamTy) {
    ty.Scalar? && (Number(ty.tok) || ty.tok == ":bool" || ty.tok == ":string")
  }

  predicate ClosedTy(ty: ParamTy) {
    match ty
    case Scalar(tok) => Number(tok) || tok == ":bool"
    case Str => true
    case Bytes => true
    case Handle(_) => true
    case Callback(ps, r) => r == ":unit" && forall i :: 0 <= i < |ps| ==> CallbackArg(ps[i])
    case StoredCallback(ps, r) => r == ":unit" && forall i :: 0 <= i < |ps| ==> CallbackArg(ps[i])
    case Opt(inner) => inner.Str? || inner.Bytes? || (inner.Scalar? && Number(inner.tok))
    case Vec(tok) => Number(tok)
  }

  predicate ClosedResult(r: ResultTy) {
    match r
    case RScalar(tok) => Number(tok) || tok == ":bool"
    case ROpt(inner) => inner.RStr? || inner.RBytes? || (inner.RScalar? && Number(inner.tok))
    case RVec(tok) => Number(tok)
    case _ => true
  }

  predicate ClosedFn(f: FnMeta) {
    ClosedResult(f.result) && forall i :: 0 <= i < |f.params| ==> ClosedTy(f.params[i].ty)
  }

  lemma {:induction false} CbParamsClosed(fs: seq<Form>)
    requires DecodeCbParams(fs).Some?
    ensures forall i :: 0 <= i < |DecodeCbParams(fs).value| ==> CallbackArg(DecodeCbParams(fs).value[i])
  {
    if fs != [] { CbParamsClosed(fs[1..]); }
  }

  lemma {:induction false} TyClosed(f: Form)
    requires DecodeTy(f).Some?
    ensures ClosedTy(DecodeTy(f).value)
  {
    var ty := DecodeTy(f).value;
    if ty.Opt? {
      TyClosed(f.items[1]);
    } else if ty.Callback? || ty.StoredCallback? {
      CbParamsClosed(GetList(f.items[1..], ":params").value);
    }
  }

  /** A callback is read only with a unit result. */
  lemma CallbackHasUnit(f: Form)
    requires DecodeTy(f).Some? && (DecodeTy(f).value.Callback? || DecodeTy(f).value.StoredCallback?)
    ensures f.L? && f.items != [] && Getf(f.items[1..], ":result") == Some(W(":unit"))
  {
  }

  lemma {:induction false} ResultClosed(f: Form)
    requires DecodeResult(f).Some?
    ensures ClosedResult(DecodeResult(f).value)
  {
    if DecodeResult(f).value.ROpt? { ResultClosed(f.items[1]); }
  }

  lemma {:induction false} ParamsClosed(fs: seq<Form>)
    requires DecodeParams(fs).Some?
    ensures forall i :: 0 <= i < |DecodeParams(fs).value| ==> ClosedTy(DecodeParams(fs).value[i].ty)
  {
    if fs != [] {
      TyClosed(Getf(fs[0].items, ":type").value);
      ParamsClosed(fs[1..]);
    }
  }

  lemma FnClosed(f: Form)
    requires DecodeFn(f).Some?
    ensures ClosedFn(DecodeFn(f).value)
  {
    var p := f.items[1..];
    ParamsClosed(GetList(p, ":params").value);
    ResultClosed(Getf(p, ":result").value);
  }

  lemma {:induction false} FnsClosed(fs: seq<Form>)
    requires DecodeFns(fs).Some?
    ensures forall i :: 0 <= i < |DecodeFns(fs).value| ==> ClosedFn(DecodeFns(fs).value[i])
  {
    if fs != [] {
      FnClosed(fs[0]);
      FnsClosed(fs[1..]);
    }
  }

  /** Whatever is read from any text: every function has types of the closed
      vocabulary only. */
  lemma LoadedClosed(text: string)
    requires ReadManifest(text).Some?
    ensures forall i :: 0 <= i < |ReadManifest(text).value.fns| ==> ClosedFn(ReadManifest(text).value.fns[i])
  {
    FnsClosed(GetList(Read(text).value.items[1..], ":functions").value);
  }
}

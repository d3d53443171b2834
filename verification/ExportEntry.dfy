/** What the manifest says of an exported function, in terms of its Rust
    signature: a grammar of entries that names neither the classifier nor the
    metadata it builds. */
module ExportEntry {
  import opened Wrappers
  import opened Classify
  import G = ClassifyGrammar
  import M = Manifest
  import R = ManifestReader
  import T = ManifestText
  import RT = ManifestRoundTrip
  import opened Abi

  // ----- `Result<ok, err>` --------------------------------------------------

  predicate NoTypes(args: seq<Arg>) { forall k :: 0 <= k < |args| ==> !args[k].TypeArg? }

  /** a and b are the type arguments, in this order; others may stand between. */
  ghost predicate TwoTypes(args: seq<Arg>, a: Ty, b: Ty) {
    exists p, q, r :: args == p + [TypeArg(a)] + (q + [TypeArg(b)] + r) && NoTypes(p) && NoTypes(q) && NoTypes(r)
  }

  lemma {:induction false} NoTypesFront(p: seq<Arg>, rest: seq<Arg>)
    requires NoTypes(p)
    ensures TypeArgs(p + rest) == TypeArgs(rest)
  {
    if p == [] {
      assert p + rest == rest;
    } else {
      assert (p + rest)[1..] == p[1..] + rest;
      NoTypesFront(p[1..], rest);
    }
  }

  lemma OneFront(p: seq<Arg>, a: Ty, rest: seq<Arg>)
    requires NoTypes(p)
    ensures TypeArgs(p + [TypeArg(a)] + rest) == [a] + TypeArgs(rest)
  {
    assert p + [TypeArg(a)] + rest == p + ([TypeArg(a)] + rest);
    NoTypesFront(p, [TypeArg(a)] + rest);
    assert ([TypeArg(a)] + rest)[1..] == rest;
  }

  lemma {:induction false} NoTypesIs(args: seq<Arg>)
    ensures TypeArgs(args) == [] <==> NoTypes(args)
  {
    if args != [] {
      NoTypesIs(args[1..]);
      assert forall k :: 0 < k < |args| ==> args[k] == args[1..][k - 1];
    }
  }

  lemma {:induction false} FirstType(args: seq<Arg>) returns (p: seq<Arg>, rest: seq<Arg>)
    requires TypeArgs(args) != []
    ensures NoTypes(p) && args == p + [TypeArg(TypeArgs(args)[0])] + rest && TypeArgs(rest) == TypeArgs(args)[1..]
  {
    if args[0].TypeArg? {
      p, rest := [], args[1..];
    } else {
      p, rest := FirstType(args[1..]);
      p := [args[0]] + p;
    }
  }

  lemma TwoTypeArgs(args: seq<Arg>, a: Ty, b: Ty)
    ensures TypeArgs(args) == [a, b] <==> TwoTypes(args, a, b)
  {
    if TypeArgs(args) == [a, b] {
      var p, rest := FirstType(args);
      var q, r := FirstType(rest);
      assert TypeArgs(rest) == [b] && TypeArgs(r) == [];
      NoTypesIs(r);
    } else if TwoTypes(args, a, b) {
      var p, q, r :| args == p + [TypeArg(a)] + (q + [TypeArg(b)] + r) && NoTypes(p) && NoTypes(q) && NoTypes(r);
      OneFront(p, a, q + [TypeArg(b)] + r);
      OneFront(q, b, r);
      NoTypesIs(r);
    }
  }

  /** A path that ends in `Result<ok, err>`. */
  ghost predicate ResultOf(ret: Option<Ty>, ok: Ty, err: Ty) {
    ret.Some? && G.EndsIn(ret.value, "Result")
    && var args := G.LastSeg(ret.value.path).args; args.Angle? && TwoTypes(args.args, ok, err)
  }

  /** The name an error type goes by: the last one of its path. */
  predicate GoesBy(err: Ty, e: string) {
    if err.PathTy? && err.path.segs != [] then e == G.LastSeg(err.path).ident else e == ""
  }

  /** s is the success type, and error the name of the error of a fallible one. */
  ghost predicate Returns(ret: Option<Ty>, s: Option<Ty>, error: Option<string>) {
    if error.Some? then exists ok, err :: ResultOf(ret, ok, err) && s == Some(ok) && GoesBy(err, error.value)
    else s == ret && forall ok, err :: !ResultOf(ret, ok, err)
  }

  /** It returns a `Result` of two types, and its error goes by this name. */
  ghost predicate Fails(ret: Option<Ty>, e: string) { exists ok, err :: ResultOf(ret, ok, err) && GoesBy(err, e) }

  lemma ResultOfOne(ret: Option<Ty>, ok: Ty, err: Ty)
    ensures ResultOf(ret, ok, err) <==>
      ret.Some? && G.EndsIn(ret.value, "Result") && G.LastSeg(ret.value.path).args.Angle?
      && TypeArgs(G.LastSeg(ret.value.path).args.args) == [ok, err]
  {
    if ret.Some? && G.EndsIn(ret.value, "Result") && G.LastSeg(ret.value.path).args.Angle? {
      TwoTypeArgs(G.LastSeg(ret.value.path).args.args, ok, err);
    }
  }

  /** `split_result` splits exactly the paths that end in `Result` with two type
      arguments: the first succeeds, the second names the error. */
  lemma SplitsExactly(ret: Option<Ty>, s: Option<Ty>, error: Option<string>)
    ensures SplitResult(ret) == (s, error) <==> Returns(ret, s, error)
  {
    forall ok, err ensures ResultOf(ret, ok, err) ==> SplitResult(ret) == (Some(ok), Some(LastIdent(err))) {
      ResultOfOne(ret, ok, err);
    }
    if SplitResult(ret).1.Some? {
      var tys := TypeArgs(G.LastSeg(ret.value.path).args.args);
      assert tys == [tys[0], tys[1]];
      ResultOfOne(ret, tys[0], tys[1]);
      assert GoesBy(tys[1], LastIdent(tys[1]));
    }
  }

  // ----- types --------------------------------------------------------------

  function Scalars(toks: seq<string>): seq<M.ParamTy> {
    seq(|toks|, i requires 0 <= i < |toks| => M.Scalar(toks[i]))
  }

  /** The manifest's type for a Rust parameter type. */
  ghost predicate Denotes(rustName: Path -> string, ty: Ty, t: M.ParamTy) {
    match t
    case Scalar(tok) => (tok == ":bool" && G.EndsIn(ty, "bool")) || G.IsScalarTy(ty, tok)
    case Str => G.IsStrRef(ty)
    case Bytes => G.IsBytesRef(ty)
    case Handle(n) => exists path :: G.BorrowsPath(ty, path) && !IsIdent(path, "str") && n == rustName(path)
    case Callback(ps, r) => r == ":unit" && exists toks :: G.CallbackOf(ty, false, toks) && ps == Scalars(toks)
    case StoredCallback(ps, r) => r == ":unit" && exists toks :: G.CallbackOf(ty, true, toks) && ps == Scalars(toks)
    case Opt(inner) => exists elem :: G.OptionOf(ty, elem) && DenotesInner(elem, inner)
    case Vec(tok) => exists elem :: G.Borrows(ty, Slice(elem)) && G.IsScalarTy(elem, tok) && !G.IsBytesRef(ty)
  }

  predicate DenotesInner(ty: Ty, t: M.ParamTy) {
    match t
    case Scalar(tok) => G.IsScalarTy(ty, tok)
    case Str => G.IsStrRef(ty)
    case Bytes => G.IsBytesRef(ty)
    case _ => false
  }

  /** The manifest's type for a Rust success type. */
  ghost predicate ResultDenotes(rustName: Path -> string, s: Option<Ty>, ctor: bool, r: M.ResultTy) {
    if s.None? then r.RUnit?
    else
      var t := s.value;
      match r
      case RUnit => t == Tuple([])
      case RScalar(tok) => (tok == ":bool" && G.EndsIn(t, "bool")) || G.IsScalarTy(t, tok)
      case RStr => G.EndsIn(t, "String")
      case RBytes => exists elem :: G.IsVecU8(t, elem)
      case RHandle(n) => ctor && t.PathTy? && t.path.segs != [] && !G.Reserved(G.LastSeg(t.path).ident) && n == rustName(t.path)
      case ROpt(inner) => exists elem :: G.OptionOf(t, elem) && ResultDenotesInner(elem, inner)
      case RVec(tok) => exists elem :: G.VecOf(t, elem) && G.IsScalarTy(elem, tok) && !IsIdent(elem.path, "u8")
  }

  ghost predicate ResultDenotesInner(ty: Ty, r: M.ResultTy) {
    match r
    case RScalar(tok) => G.IsScalarTy(ty, tok)
    case RStr => G.EndsIn(ty, "String")
    case RBytes => exists elem :: G.IsVecU8(ty, elem)
    case _ => false
  }

  lemma MetaDenotes(rustName: Path -> string, ty: Ty, p: PTy)
    requires G.StandsFor(ty, p)
    ensures Denotes(rustName, ty, MetaTy(rustName, p))
  {
    match p
    case Callback(toks) => assert MetaTy(rustName, p) == M.Callback(Scalars(toks), ":unit");
    case StoredCallback(toks) => assert MetaTy(rustName, p) == M.StoredCallback(Scalars(toks), ":unit");
    case OptionScalar(tok, t) => assert DenotesInner(t, M.Scalar(tok));
    case OptionStr =>
      var inner :| G.OptionOf(ty, inner) && G.IsStrRef(inner);
      assert DenotesInner(inner, M.Str);
    case OptionBytes =>
      var inner :| G.OptionOf(ty, inner) && G.IsBytesRef(inner);
      assert DenotesInner(inner, M.Bytes);
    case _ =>
  }

  lemma MetaResultDenotes(rustName: Path -> string, s: Option<Ty>, ctor: bool, r: RTy)
    requires G.ResultStandsFor(s, ctor, r)
    ensures ResultDenotes(rustName, s, ctor, MetaResult(rustName, r))
  {
    if s.Some? {
      match r
      case ROptionScalar(tok, t) => assert ResultDenotesInner(t, M.RScalar(tok));
      case ROptionStr =>
        var inner :| G.OptionOf(s.value, inner) && G.EndsIn(inner, "String");
        assert ResultDenotesInner(inner, M.RStr);
      case ROptionBytes =>
        var inner, elem :| G.OptionOf(s.value, inner) && G.IsVecU8(inner, elem);
        assert ResultDenotesInner(inner, M.RBytes);
      case _ =>
    }
  }

  // ----- the entry ----------------------------------------------------------

  /** The manifest's parameter for a Rust parameter. */
  ghost predicate InputDenotes(rustName: Path -> string, input: Input, selfTy: Option<Path>, p: M.ParamMeta) {
    match input
    case Receiver(byRef, _, isMut) =>
      byRef && !isMut && selfTy.Some? && p == M.ParamMeta("self", M.Handle(rustName(selfTy.value)))
    case Typed(name, ty) => p.name == name && Denotes(rustName, ty, p.ty)
    case Pattern => false
  }

  /** The manifest's entry for a Rust signature. */
  ghost predicate EntryOf(rustName: Path -> string, sig: Signature, m: M.FnMeta) {
    && m.doc == sig.doc && m.rustName == sig.rustName && m.lispName == sig.lispName && m.symbol == sig.symbol
    && |m.params| == |sig.inputs|
    && (forall k :: 0 <= k < |m.params| ==> InputDenotes(rustName, sig.inputs[k], sig.selfTy, m.params[k]))
    && exists s :: Returns(sig.ret, s, m.error) && ResultDenotes(rustName, s, sig.kind.Ctor?, m.result)
  }

  lemma InputEntry(rustName: Path -> string, input: Input, selfTy: Option<Path>, p: Param)
    requires InputParam(input, selfTy) == Ok(p)
    ensures InputDenotes(rustName, input, selfTy, M.ParamMeta(p.name, MetaTy(rustName, p.pty)))
  {
    if input.Typed? {
      G.ClassifyExactly(input.ty, p.pty);
      MetaDenotes(rustName, input.ty, p.pty);
    }
  }

  /** The metadata of an accepted signature is its entry. */
  lemma ExportsEntry(rustName: Path -> string, sig: Signature)
    requires Export(sig).Ok?
    ensures EntryOf(rustName, sig, Meta(rustName, Export(sig).value))
  {
    var f := Export(sig).value;
    var m := Meta(rustName, f);
    FnParamsSound(sig.inputs, sig.selfTy);
    forall k | 0 <= k < |m.params| ensures InputDenotes(rustName, sig.inputs[k], sig.selfTy, m.params[k]) {
      InputEntry(rustName, sig.inputs[k], sig.selfTy, f.params[k]);
    }
    var s := SplitResult(sig.ret).0;
    SplitsExactly(sig.ret, s, f.error);
    G.ClassifyResultExactly(s, sig.kind.Ctor?, f.result);
    MetaResultDenotes(rustName, s, sig.kind.Ctor?, f.result);
  }

  // ----- ... and no other ---------------------------------------------------

  /** A type's classification, from its manifest type. */
  lemma DenotesMeta(rustName: Path -> string, ty: Ty, t: M.ParamTy) returns (p: PTy)
    requires Denotes(rustName, ty, t)
    ensures G.StandsFor(ty, p) && MetaTy(rustName, p) == t
  {
    match t
    case Scalar(tok) => p := if G.IsScalarTy(ty, tok) then Scalar(tok, ty) else Bool;
    case Str => p := StrRef;
    case Bytes => p := BytesRef;
    case Handle(n) =>
      var path :| G.BorrowsPath(ty, path) && !IsIdent(path, "str") && n == rustName(path);
      p := HandleRef(path);
    case Callback(ps, r) =>
      var toks :| G.CallbackOf(ty, false, toks) && ps == Scalars(toks);
      p := Callback(toks);
      assert MetaTy(rustName, p) == M.Callback(Scalars(toks), ":unit");
    case StoredCallback(ps, r) =>
      var toks :| G.CallbackOf(ty, true, toks) && ps == Scalars(toks);
      p := StoredCallback(toks);
      assert MetaTy(rustName, p) == M.StoredCallback(Scalars(toks), ":unit");
    case Opt(inner) =>
      var elem :| G.OptionOf(ty, elem) && DenotesInner(elem, inner);
      p := if inner.Scalar? then OptionScalar(inner.tok, elem) else if inner.Str? then OptionStr else OptionBytes;
    case Vec(tok) =>
      var elem :| G.Borrows(ty, Slice(elem)) && G.IsScalarTy(elem, tok) && !G.IsBytesRef(ty);
      p := VecScalar(tok, elem);
  }

  lemma ResultDenotesMeta(rustName: Path -> string, s: Option<Ty>, ctor: bool, r: M.ResultTy) returns (p: RTy)
    requires ResultDenotes(rustName, s, ctor, r)
    ensures G.ResultStandsFor(s, ctor, p) && MetaResult(rustName, p) == r
  {
    if s.None? { return RUnit; }
    match r
    case RUnit => p := RUnit;
    case RScalar(tok) => p := if G.IsScalarTy(s.value, tok) then RScalar(tok, s.value) else RBool;
    case RStr => p := RStr;
    case RBytes => p := RBytes;
    case RHandle(n) => p := RHandle(s.value.path);
    case ROpt(inner) =>
      var elem :| G.OptionOf(s.value, elem) && ResultDenotesInner(elem, inner);
      p := if inner.RScalar? then ROptionScalar(inner.tok, elem) else if inner.RStr? then ROptionStr else ROptionBytes;
    case RVec(tok) =>
      var elem :| G.VecOf(s.value, elem) && G.IsScalarTy(elem, tok) && !IsIdent(elem.path, "u8");
      p := RVecScalar(tok, elem);
  }

  /** No lifetime is named where the check looks. */
  predicate ElidedInput(input: Input) {
    match input
    case Receiver(_, lt, _) => lt.None? || lt.value == "_"
    case Typed(_, ty) => G.Elided(ty)
    case Pattern => true
  }

  lemma InputAccepted(rustName: Path -> string, input: Input, selfTy: Option<Path>, m: M.ParamMeta)
    requires InputDenotes(rustName, input, selfTy, m) && ElidedInput(input)
    ensures InputParam(input, selfTy).Ok?
    ensures var p := InputParam(input, selfTy).value; m == M.ParamMeta(p.name, MetaTy(rustName, p.pty))
  {
    if input.Typed? {
      var p := DenotesMeta(rustName, input.ty, m.ty);
      G.ClassifyExactly(input.ty, p);
    }
  }

  predicate HasReceiver(inputs: seq<Input>) { exists i :: 0 <= i < |inputs| && inputs[i].Receiver? }

  predicate NamesSelf(inputs: seq<Input>) {
    exists i :: 0 <= i < |inputs| && (inputs[i].Receiver? || (inputs[i].Typed? && inputs[i].name == "self"))
  }

  lemma {:induction false} InputsAccepted(rustName: Path -> string, inputs: seq<Input>, selfTy: Option<Path>,
                                          ms: seq<M.ParamMeta>)
    requires |ms| == |inputs| && forall k :: 0 <= k < |inputs| ==> ElidedInput(inputs[k])
    requires forall k :: 0 <= k < |ms| ==> InputDenotes(rustName, inputs[k], selfTy, ms[k])
    ensures FnParams(inputs, selfTy).Ok? && MetaParams(rustName, FnParams(inputs, selfTy).value) == ms
  {
    if inputs != [] {
      var n := |inputs| - 1;
      InputsAccepted(rustName, inputs[..n], selfTy, ms[..n]);
      LastAccepted(rustName, inputs, selfTy, ms);
    }
  }

  lemma LastAccepted(rustName: Path -> string, inputs: seq<Input>, selfTy: Option<Path>, ms: seq<M.ParamMeta>)
    requires inputs != [] && |ms| == |inputs|
    requires var n := |inputs| - 1; ElidedInput(inputs[n]) && InputDenotes(rustName, inputs[n], selfTy, ms[n])
    requires var front := FnParams(inputs[..|inputs| - 1], selfTy);
             front.Ok? && MetaParams(rustName, front.value) == ms[..|inputs| - 1]
    ensures FnParams(inputs, selfTy).Ok? && MetaParams(rustName, FnParams(inputs, selfTy).value) == ms
  {
    var n := |inputs| - 1;
    InputAccepted(rustName, inputs[n], selfTy, ms[n]);
    LastParam(inputs, selfTy);
    MetaAppend(rustName, FnParams(inputs[..n], selfTy).value, InputParam(inputs[n], selfTy).value);
    assert ms == ms[..n] + [ms[n]];
  }

  lemma LastParam(inputs: seq<Input>, selfTy: Option<Path>)
    requires inputs != [] && FnParams(inputs[..|inputs| - 1], selfTy).Ok? && InputParam(inputs[|inputs| - 1], selfTy).Ok?
    ensures FnParams(inputs, selfTy)
            == Ok(FnParams(inputs[..|inputs| - 1], selfTy).value + [InputParam(inputs[|inputs| - 1], selfTy).value])
  {
  }

  lemma MetaAppend(rustName: Path -> string, ps: seq<Param>, p: Param)
    ensures MetaParams(rustName, ps + [p]) == MetaParams(rustName, ps) + [M.ParamMeta(p.name, MetaTy(rustName, p.pty))]
  {
  }

  /** The macro accepts a signature exactly when it has an entry, names no lifetime
      where the check looks, and has a receiver if it is a method and none if it is
      a constructor; the metadata is that entry. */
  lemma ExportsExactly(rustName: Path -> string, sig: Signature, m: M.FnMeta)
    ensures (Export(sig).Ok? && Meta(rustName, Export(sig).value) == m) <==>
      && EntryOf(rustName, sig, m)
      && (forall k :: 0 <= k < |sig.inputs| ==> ElidedInput(sig.inputs[k]))
      && (sig.kind.Ctor? ==> !HasReceiver(sig.inputs)) && (sig.kind.Method? ==> NamesSelf(sig.inputs))
  {
    if Export(sig).Ok? && Meta(rustName, Export(sig).value) == m {
      ExportsEntry(rustName, sig);
      ExportsElided(sig);
    } else if EntryOf(rustName, sig, m) && (forall k :: 0 <= k < |sig.inputs| ==> ElidedInput(sig.inputs[k]))
      && (sig.kind.Ctor? ==> !HasReceiver(sig.inputs)) && (sig.kind.Method? ==> NamesSelf(sig.inputs)) {
      EntryExports(rustName, sig, m);
    }
  }

  lemma ExportsElided(sig: Signature)
    requires Export(sig).Ok?
    ensures forall k :: 0 <= k < |sig.inputs| ==> ElidedInput(sig.inputs[k])
    ensures sig.kind.Ctor? ==> !HasReceiver(sig.inputs)
    ensures sig.kind.Method? ==> NamesSelf(sig.inputs)
  {
    var ps := Export(sig).value.params;
    FnParamsSound(sig.inputs, sig.selfTy);
    forall k | 0 <= k < |sig.inputs| ensures ElidedInput(sig.inputs[k]) {
      assert InputParam(sig.inputs[k], sig.selfTy) == Ok(ps[k]);
      if sig.inputs[k].Typed? { G.ClassifyExactly(sig.inputs[k].ty, ps[k].pty); }
    }
    if sig.kind.Method? {
      var i :| 0 <= i < |ps| && ps[i].name == "self";
      assert InputParam(sig.inputs[i], sig.selfTy) == Ok(ps[i]);
    }
  }

  lemma EntryExports(rustName: Path -> string, sig: Signature, m: M.FnMeta)
    requires EntryOf(rustName, sig, m)
    requires forall k :: 0 <= k < |sig.inputs| ==> ElidedInput(sig.inputs[k])
    requires (sig.kind.Ctor? ==> !HasReceiver(sig.inputs)) && (sig.kind.Method? ==> NamesSelf(sig.inputs))
    ensures Export(sig).Ok? && Meta(rustName, Export(sig).value) == m
  {
    var s :| Returns(sig.ret, s, m.error) && ResultDenotes(rustName, s, sig.kind.Ctor?, m.result);
    SplitsExactly(sig.ret, s, m.error);
    InputsAccepted(rustName, sig.inputs, sig.selfTy, m.params);
    var r := ResultDenotesMeta(rustName, s, sig.kind.Ctor?, m.result);
    G.ClassifyResultExactly(s, sig.kind.Ctor?, r);
    if sig.kind.Method? { SelfNamed(sig); }
    ExportIs(sig, FnParams(sig.inputs, sig.selfTy).value, s, r, m.error);
  }

  lemma SelfNamed(sig: Signature)
    requires NamesSelf(sig.inputs) && FnParams(sig.inputs, sig.selfTy).Ok?
    ensures var ps := FnParams(sig.inputs, sig.selfTy).value; exists i :: 0 <= i < |ps| && ps[i].name == "self"
  {
    var ps := FnParams(sig.inputs, sig.selfTy).value;
    FnParamsSound(sig.inputs, sig.selfTy);
    var i :| 0 <= i < |sig.inputs| && (sig.inputs[i].Receiver? || (sig.inputs[i].Typed? && sig.inputs[i].name == "self"));
    assert InputParam(sig.inputs[i], sig.selfTy) == Ok(ps[i]);
  }

  lemma ExportIs(sig: Signature, ps: seq<Param>, s: Option<Ty>, r: RTy, error: Option<string>)
    requires FnParams(sig.inputs, sig.selfTy) == Ok(ps) && SplitResult(sig.ret) == (s, error)
    requires ClassifyResult(s, sig.kind.Ctor?) == Ok(r) && (sig.kind.Ctor? ==> !HasReceiver(sig.inputs))
    requires sig.kind.Method? ==> exists i :: 0 <= i < |ps| && ps[i].name == "self"
    ensures Export(sig) == Ok(Exported(sig.doc, sig.rustName, sig.lispName, sig.symbol, ps, r, error))
  {
  }

  // ----- ... read from the text ---------------------------------------------

  /** The entry that the manifest's text holds for a signature is the only one the
      signature has: its doc, names and parameter names, the types of its Rust
      types, and an error exactly when it returns a `Result` of two types, with the
      name the second goes by. */
  lemma ManifestEntry(rustName: Path -> string, c: M.Crate, sigs: seq<Signature>, i: nat)
    requires Compiled(rustName, c, sigs) && T.CleanCrate(c) && i < |sigs|
    ensures R.ReadManifest(RT.Rendered(c)).Some? && |R.ReadManifest(RT.Rendered(c)).value.fns| == |sigs|
    ensures var m := R.ReadManifest(RT.Rendered(c)).value.fns[i];
      && EntryOf(rustName, sigs[i], m)
      && (forall m' :: EntryOf(rustName, sigs[i], m') ==> m' == m)
      && (forall e :: m.error == Some(e) <==> Fails(sigs[i].ret, e))
  {
    assert T.ValidCrate(c) by {
      forall k | 0 <= k < |c.fns| ensures T.ValidFn(c.fns[k]) { MetaValid(rustName, sigs[k]); }
    }
    RT.RoundTrip(c);
    OnlyEntry(rustName, sigs[i]);
  }

  lemma OnlyEntry(rustName: Path -> string, sig: Signature)
    requires Export(sig).Ok?
    ensures var m := Meta(rustName, Export(sig).value);
      && EntryOf(rustName, sig, m)
      && (forall m' :: EntryOf(rustName, sig, m') ==> m' == m)
      && (forall e :: m.error == Some(e) <==> Fails(sig.ret, e))
  {
    ExportsEntry(rustName, sig);
    ExportsElided(sig);
    forall m' | EntryOf(rustName, sig, m') ensures m' == Meta(rustName, Export(sig).value) {
      EntryExports(rustName, sig, m');
    }
    forall e ensures SplitResult(sig.ret).1 == Some(e) <==> Fails(sig.ret, e) { FailsExactly(sig.ret, e); }
  }

  lemma FailsExactly(ret: Option<Ty>, e: string)
    ensures SplitResult(ret).1 == Some(e) <==> Fails(ret, e)
  {
    SplitsExactly(ret, SplitResult(ret).0, SplitResult(ret).1);
    if ok, err :| ResultOf(ret, ok, err) && GoesBy(err, e) { SplitsExactly(ret, Some(ok), Some(e)); }
  }
}

/** The closed vocabulary as a grammar: which Rust type each classification
    stands for. The classifier accepts exactly the grammar, with elided
    lifetimes. */
module ClassifyGrammar {
  import opened Wrappers
  import opened Classify

  predicate IsScalarName(n: string) {
    n == "i8" || n == "i16" || n == "i32" || n == "i64" || n == "u8" || n == "u16" || n == "u32" || n == "u64"
    || n == "f32" || n == "f64"
  }

  /** A path that ends in this name. */
  predicate EndsIn(ty: Ty, name: string) {
    ty.PathTy? && ty.path.segs != [] && LastSeg(ty.path).ident == name
  }

  function LastSeg(p: Path): Seg
    requires p.segs != []
  {
    p.segs[|p.segs| - 1]
  }

  /** A scalar type, and its token: a colon and the type's name. */
  predicate IsScalarTy(ty: Ty, tok: string) {
    ty.PathTy? && ty.path.segs != [] && IsScalarName(LastSeg(ty.path).ident) && tok == ":" + LastSeg(ty.path).ident
  }

  predicate Borrows(ty: Ty, elem: Ty) { ty.Ref? && !ty.isMut && ty.elem == elem }

  predicate BorrowsPath(ty: Ty, path: Path) { ty.Ref? && !ty.isMut && ty.elem.PathTy? && ty.elem.path == path }

  predicate IsStrRef(ty: Ty) { ty.Ref? && !ty.isMut && ty.elem.PathTy? && IsIdent(ty.elem.path, "str") }

  predicate IsBytesRef(ty: Ty) {
    ty.Ref? && !ty.isMut && ty.elem.Slice? && ty.elem.elem.PathTy? && IsIdent(ty.elem.elem.path, "u8")
  }

  /** `Option<inner, ...>` */
  predicate OptionOf(ty: Ty, inner: Ty) {
    EndsIn(ty, "Option")
    && var args := LastSeg(ty.path).args; args.Angle? && |args.args| > 0 && args.args[0] == TypeArg(inner)
  }

  /** One callback parameter and its token. */
  predicate CbElem(ty: Ty, tok: string) {
    (tok == ":string" && IsStrRef(ty)) || (tok == ":bool" && EndsIn(ty, "bool")) || IsScalarTy(ty, tok)
  }

  predicate CbElems(tys: seq<Ty>, toks: seq<string>) {
    |tys| == |toks| && forall i :: 0 <= i < |tys| ==> CbElem(tys[i], toks[i])
  }

  /** `Callback<(elems), ()>`; the result may be left out of a stored one. */
  predicate CallbackOf(ty: Ty, stored: bool, toks: seq<string>) {
    EndsIn(ty, if stored then "StoredCallback" else "Callback")
    && var args := LastSeg(ty.path).args;
       args.Angle?
       && var tys := TypeArgs(args.args);
          (|tys| == 2 || (stored && |tys| == 1)) && tys[0].Tuple? && (|tys| == 2 ==> tys[1] == Tuple([]))
          && CbElems(tys[0].elems, toks)
  }

  ghost predicate StandsFor(ty: Ty, p: PTy) {
    match p
    case Scalar(tok, t) => t == ty && IsScalarTy(ty, tok)
    case Bool => EndsIn(ty, "bool")
    case StrRef => IsStrRef(ty)
    case BytesRef => IsBytesRef(ty)
    case HandleRef(path) => BorrowsPath(ty, path) && !IsIdent(path, "str")
    case Callback(toks) => CallbackOf(ty, false, toks)
    case StoredCallback(toks) => CallbackOf(ty, true, toks)
    case OptionScalar(tok, t) => OptionOf(ty, t) && IsScalarTy(t, tok)
    case OptionStr => exists inner :: OptionOf(ty, inner) && IsStrRef(inner)
    case OptionBytes => exists inner :: OptionOf(ty, inner) && IsBytesRef(inner)
    case VecScalar(tok, t) => Borrows(ty, Slice(t)) && IsScalarTy(t, tok) && !IsBytesRef(ty)
  }

  // ----- scalars ------------------------------------------------------------

  lemma TokenIs(name: string)
    ensures ScalarTok(name).Some? <==> IsScalarName(name)
    ensures ScalarTok(name).Some? ==> ScalarTok(name).value == ":" + name
  {
  }

  lemma NotScalar(name: string)
    requires name == "bool" || name == "Callback" || name == "StoredCallback" || name == "Option"
    ensures !IsScalarName(name)
  {
  }

  // ----- lifetimes of the parts ---------------------------------------------

  lemma {:induction false} SegWithin(segs: seq<Seg>, i: nat)
    requires i < |segs|
    ensures SegLifetimes(segs[i], Visited) <= SegsLifetimes(segs, Visited)
  {
    if i > 0 { SegWithin(segs[1..], i - 1); }
  }

  lemma {:induction false} ArgWithin(args: seq<Arg>, i: nat)
    requires i < |args|
    ensures ArgLifetimes(args[i], Visited) <= ArgsLifetimes(args, Visited)
  {
    if i > 0 { ArgWithin(args[1..], i - 1); }
  }

  lemma {:induction false} TyWithin(tys: seq<Ty>, i: nat)
    requires i < |tys|
    ensures Lifetimes(tys[i], Visited) <= LifetimesAll(tys, Visited)
  {
    if i > 0 { TyWithin(tys[1..], i - 1); }
  }

  lemma TypeArgWithin(args: seq<Arg>, t: Ty)
    requires TypeArg(t) in args
    ensures Lifetimes(t, Visited) <= ArgsLifetimes(args, Visited)
  {
    var i :| 0 <= i < |args| && args[i] == TypeArg(t);
    ArgWithin(args, i);
    assert ArgLifetimes(args[i], Visited) == Lifetimes(t, Visited);
  }

  /** The arguments of a path's last segment mention no more than the path. */
  lemma LastArgsWithin(ty: Ty, t: Ty)
    requires ty.PathTy? && ty.path.segs != [] && LastSeg(ty.path).args.Angle? && TypeArg(t) in LastSeg(ty.path).args.args
    ensures Lifetimes(t, Visited) <= Lifetimes(ty, Visited)
  {
    var seg := LastSeg(ty.path);
    SegWithin(ty.path.segs, |ty.path.segs| - 1);
    TypeArgWithin(seg.args.args, t);
    assert SegLifetimes(seg, Visited) == ArgsLifetimes(seg.args.args, Visited);
    assert Lifetimes(ty, Visited) == SegsLifetimes(ty.path.segs, Visited);
  }

  // ----- plain types --------------------------------------------------------

  predicate Elided(ty: Ty) { Lifetimes(ty, Visited) <= {"_"} }

  lemma RefExactly(ty: Ty, p: PTy)
    requires ty.Ref? && Elided(ty)
    ensures ClassifyParam(ty) == Ok(p) <==> StandsFor(ty, p)
  {
    RejectsExactly(ty);
    if ty.elem.Slice? && ty.elem.elem.PathTy? && ty.elem.elem.path.segs != [] {
      TokenIs(LastSeg(ty.elem.elem.path).ident);
    }
  }

  /** The types whose classification needs no recursion. */
  predicate Simple(p: PTy) { p.Scalar? || p.Bool? || p.StrRef? || p.BytesRef? }

  lemma PathSimple(ty: Ty, p: PTy)
    requires ty.PathTy? && ty.path.segs != [] && Elided(ty) && Simple(p)
    ensures ClassifyParam(ty) == Ok(p) <==> StandsFor(ty, p)
  {
    RejectsExactly(ty);
    var seg := LastSeg(ty.path);
    TokenIs(seg.ident);
    assert ClassifyParam(ty) == ClassifyPath(ty, seg);
    if seg.ident == "bool" || seg.ident == "Callback" || seg.ident == "StoredCallback" || seg.ident == "Option" {
      NotScalar(seg.ident);
      CallbackShape(seg, false);
      CallbackShape(seg, true);
    }
  }

  lemma CallbackShape(seg: Seg, stored: bool)
    ensures var c := ClassifyCallback(seg, stored);
            c.Ok? ==> if stored then c.value.StoredCallback? else c.value.Callback?
  {
  }

  lemma SimpleExactly(ty: Ty, p: PTy)
    requires Elided(ty) && Simple(p)
    ensures ClassifyParam(ty) == Ok(p) <==> StandsFor(ty, p)
  {
    RejectsExactly(ty);
    if ty.Ref? { RefExactly(ty, p); } else if ty.PathTy? && ty.path.segs != [] { PathSimple(ty, p); }
  }

  // ----- callbacks ----------------------------------------------------------

  lemma ElemExactly(ty: Ty, tok: string)
    requires Elided(ty)
    ensures CallbackTok(ty) == Ok(tok) <==> CbElem(ty, tok)
  {
    SimpleExactly(ty, StrRef);
    SimpleExactly(ty, Bool);
    SimpleExactly(ty, Scalar(tok, ty));
    var p := ClassifyParam(ty);
    if p.Ok? && p.value.Scalar? { SimpleExactly(ty, p.value); }
  }

  lemma {:induction false} ElemsAccepted(tys: seq<Ty>)
    requires (forall i :: 0 <= i < |tys| ==> Elided(tys[i])) && CallbackToks(tys).Ok?
    ensures CbElems(tys, CallbackToks(tys).value)
  {
    if tys != [] {
      var n := |tys| - 1;
      ElemsAccepted(tys[..n]);
      ElemExactly(tys[n], CallbackTok(tys[n]).value);
      var front := CallbackToks(tys[..n]).value;
      assert forall i :: 0 <= i < n ==> CbElem(tys[..n][i], front[i]);
    }
  }

  lemma {:induction false} ElemsComplete(tys: seq<Ty>, toks: seq<string>)
    requires (forall i :: 0 <= i < |tys| ==> Elided(tys[i])) && CbElems(tys, toks)
    ensures CallbackToks(tys) == Ok(toks)
  {
    if tys != [] {
      var n := |tys| - 1;
      assert forall i :: 0 <= i < n ==> CbElem(tys[i], toks[i]);
      ElemsComplete(tys[..n], toks[..n]);
      assert CbElem(tys[n], toks[n]);
      ElemExactly(tys[n], toks[n]);
      assert toks[..n] + [toks[n]] == toks;
    }
  }

  lemma ElemsExactly(tys: seq<Ty>, toks: seq<string>)
    requires forall i :: 0 <= i < |tys| ==> Elided(tys[i])
    ensures CallbackToks(tys) == Ok(toks) <==> CbElems(tys, toks)
  {
    if CallbackToks(tys).Ok? { ElemsAccepted(tys); }
    if CbElems(tys, toks) { ElemsComplete(tys, toks); }
  }

  lemma CallbackExactly(ty: Ty, stored: bool, toks: seq<string>)
    requires EndsIn(ty, if stored then "StoredCallback" else "Callback") && Elided(ty)
    ensures var p := if stored then StoredCallback(toks) else Callback(toks);
            ClassifyCallback(LastSeg(ty.path), stored) == Ok(p) <==> CallbackOf(ty, stored, toks)
  {
    var seg := LastSeg(ty.path);
    if seg.args.Angle? {
      var tys := TypeArgs(seg.args.args);
      if |tys| > 0 && tys[0].Tuple? {
        assert tys[0] in tys;
        LastArgsWithin(ty, tys[0]);
        ElidedElems(tys[0]);
        ElemsExactly(tys[0].elems, toks);
      }
    }
  }

  lemma ElidedElems(ty: Ty)
    requires ty.Tuple? && Elided(ty)
    ensures forall i :: 0 <= i < |ty.elems| ==> Elided(ty.elems[i])
  {
    forall i | 0 <= i < |ty.elems| ensures Elided(ty.elems[i]) { TyWithin(ty.elems, i); }
  }

  // ----- everything ---------------------------------------------------------

  lemma OptionExactly(ty: Ty, p: PTy)
    requires EndsIn(ty, "Option") && Elided(ty)
    ensures ClassifyPath(ty, LastSeg(ty.path)) == Ok(p) <==> StandsFor(ty, p)
  {
    var seg := LastSeg(ty.path);
    TokenIs(seg.ident);
    NotScalar(seg.ident);
    if seg.args.Angle? && |seg.args.args| > 0 && seg.args.args[0].TypeArg? {
      var inner := seg.args.args[0].ty;
      LastArgsWithin(ty, inner);
      assert OptionOf(ty, inner);
      SimpleExactly(inner, StrRef);
      SimpleExactly(inner, BytesRef);
      if p.OptionScalar? { SimpleExactly(inner, Scalar(p.tok, p.ty)); }
      var c := ClassifyParam(inner);
      if c.Ok? && c.value.Scalar? { SimpleExactly(inner, c.value); }
    }
  }

  lemma PathExactly(ty: Ty, p: PTy)
    requires ty.PathTy? && ty.path.segs != [] && Elided(ty)
    ensures ClassifyParam(ty) == Ok(p) <==> StandsFor(ty, p)
  {
    RejectsExactly(ty);
    var seg := LastSeg(ty.path);
    TokenIs(seg.ident);
    assert ClassifyParam(ty) == ClassifyPath(ty, seg);
    if seg.ident == "Option" {
      OptionExactly(ty, p);
    } else if seg.ident == "Callback" || seg.ident == "StoredCallback" {
      NotScalar(seg.ident);
      var stored := seg.ident == "StoredCallback";
      CallbackShape(seg, stored);
      if (if stored then p.StoredCallback? else p.Callback?) { CallbackExactly(ty, stored, p.toks); }
    } else if seg.ident == "bool" {
      NotScalar(seg.ident);
    }
  }

  /** `classify_param` accepts a type as `p` exactly when the type stands for
      `p` in the grammar and names no lifetime at a place the check looks at. */
  lemma ClassifyExactly(ty: Ty, p: PTy)
    ensures ClassifyParam(ty) == Ok(p) <==> Elided(ty) && StandsFor(ty, p)
  {
    RejectsExactly(ty);
    if Elided(ty) {
      if ty.Ref? { RefExactly(ty, p); } else if ty.PathTy? && ty.path.segs != [] { PathExactly(ty, p); }
    }
  }

  // ----- lifetimes of what is accepted --------------------------------------

  /** An accepted parameter mentions no named lifetime exactly when none stands
      at a place the check passes over. */
  lemma AcceptedMentions(ty: Ty)
    requires ClassifyParam(ty).Ok?
    ensures Mentions(ty) <= {"_"} <==> Lifetimes(ty, Unvisited) <= {"_"}
  {
    RejectsNamedExactly(ty);
    RejectsExactly(ty);
  }

  predicate ElidedRef(ty: Ty) { ty.Ref? ==> ty.lifetime == None || ty.lifetime == Some("_") }

  lemma ElidedRefOf(ty: Ty)
    requires Elided(ty)
    ensures ElidedRef(ty)
  {
    if ty.Ref? && ty.lifetime.Some? { assert ty.lifetime.value in Lifetimes(ty, Visited); }
  }

  /** Elided: the lifetime arguments of a callback and the references it is given. */
  predicate ElidedCallback(ty: Ty, stored: bool, toks: seq<string>)
    requires CallbackOf(ty, stored, toks)
  {
    var args := LastSeg(ty.path).args.args;
    && (forall i :: 0 <= i < |args| && args[i].LifetimeArg? ==> args[i].name == "_")
    && forall i :: 0 <= i < |TypeArgs(args)[0].elems| ==> ElidedRef(TypeArgs(args)[0].elems[i])
  }

  /** No borrow the shim makes can be named, wherever else a lifetime is: the
      reference itself, the one inside an option, those of a callback. */
  lemma BorrowsElided(ty: Ty)
    requires ClassifyParam(ty).Ok?
    ensures ElidedRef(ty)
    ensures forall inner :: OptionOf(ty, inner) ==> ElidedRef(inner)
    ensures forall stored, toks :: CallbackOf(ty, stored, toks) ==> ElidedCallback(ty, stored, toks)
  {
    RejectsExactly(ty);
    ElidedRefOf(ty);
    forall inner | OptionOf(ty, inner) ensures ElidedRef(inner) {
      LastArgsWithin(ty, inner);
      ElidedRefOf(inner);
    }
    forall stored, toks | CallbackOf(ty, stored, toks) ensures ElidedCallback(ty, stored, toks) {
      CallbackElided(ty, stored, toks);
    }
  }

  lemma CallbackElided(ty: Ty, stored: bool, toks: seq<string>)
    requires CallbackOf(ty, stored, toks) && Elided(ty)
    ensures ElidedCallback(ty, stored, toks)
  {
    var seg := LastSeg(ty.path);
    var args := seg.args.args;
    SegWithin(ty.path.segs, |ty.path.segs| - 1);
    assert SegLifetimes(seg, Visited) == ArgsLifetimes(args, Visited);
    forall i | 0 <= i < |args| && args[i].LifetimeArg? ensures args[i].name == "_" {
      ArgWithin(args, i);
      assert args[i].name in ArgLifetimes(args[i], Visited);
    }
    var tuple := TypeArgs(args)[0];
    assert tuple in TypeArgs(args);
    LastArgsWithin(ty, tuple);
    ElidedElems(tuple);
    forall i | 0 <= i < |tuple.elems| ensures ElidedRef(tuple.elems[i]) { ElidedRefOf(tuple.elems[i]); }
  }

  /** `&Foo<[&'static str; 2]>` is accepted as a handle. */
  lemma NamedLifetimeAccepted()
    ensures var str := PathTy(None, Path(false, [Seg("str", NoArgs)]));
            var foo := Path(false, [Seg("Foo", Angle([TypeArg(OtherTy([], [Ref(Some("static"), false, str)]))]))]);
            var ty := Ref(None, false, PathTy(None, foo));
            ClassifyParam(ty) == Ok(HandleRef(foo)) && "static" in Mentions(ty) && "static" in Lifetimes(ty, Unvisited)
  {
  }

  // ----- results ------------------------------------------------------------

  /** `Vec<elem>`, of a path type. */
  predicate VecOf(ty: Ty, elem: Ty) {
    EndsIn(ty, "Vec") && elem.PathTy? && LastSeg(ty.path).args == Angle([TypeArg(elem)])
  }

  predicate IsVecU8(ty: Ty, elem: Ty) { VecOf(ty, elem) && IsIdent(elem.path, "u8") }

  /** Names that are never a handle's. */
  predicate Reserved(n: string) {
    IsScalarName(n) || n == "bool" || n == "String" || n == "Vec" || n == "Option"
  }

  ghost predicate ResultStandsFor(ty: Option<Ty>, ctor: bool, r: RTy) {
    if ty.None? then r.RUnit?
    else
      var t := ty.value;
      match r
      case RUnit => t == Tuple([])
      case RScalar(tok, s) => s == t && IsScalarTy(t, tok)
      case RBool => EndsIn(t, "bool")
      case RStr => EndsIn(t, "String")
      case RBytes => exists elem :: IsVecU8(t, elem)
      case RVecScalar(tok, elem) => VecOf(t, elem) && IsScalarTy(elem, tok) && !IsIdent(elem.path, "u8")
      case RHandle(path) => ctor && t.PathTy? && t.path == path && path.segs != [] && !Reserved(LastSeg(path).ident)
      case ROptionScalar(tok, s) => OptionOf(t, s) && IsScalarTy(s, tok)
      case ROptionStr => exists inner :: OptionOf(t, inner) && EndsIn(inner, "String")
      case ROptionBytes => exists inner, elem :: OptionOf(t, inner) && IsVecU8(inner, elem)
  }

  lemma ResultNames(name: string)
    requires name == "bool" || name == "String" || name == "Vec" || name == "Option"
    ensures !IsScalarName(name)
  {
  }

  lemma VecExactly(ty: Ty, r: RTy)
    requires EndsIn(ty, "Vec")
    ensures ClassifyVec(LastSeg(ty.path)) == Ok(r) <==>
      (r.RBytes? && exists elem :: IsVecU8(ty, elem))
      || (r.RVecScalar? && VecOf(ty, r.ty) && IsScalarTy(r.ty, r.tok) && !IsIdent(r.ty.path, "u8"))
  {
    var seg := LastSeg(ty.path);
    if seg.args.Angle? && |seg.args.args| == 1 && seg.args.args[0].TypeArg? && seg.args.args[0].ty.PathTy? {
      var elem := seg.args.args[0].ty;
      assert seg.args.args == [TypeArg(elem)];
      assert VecOf(ty, elem);
      if elem.path.segs != [] { TokenIs(LastSeg(elem.path).ident); }
      if IsIdent(elem.path, "u8") { assert IsVecU8(ty, elem); }
    }
  }

  /** Results without an option. */
  predicate Flat(r: RTy) { !r.ROptionScalar? && !r.ROptionStr? && !r.ROptionBytes? }

  lemma FlatExactly(ty: Ty, ctor: bool, r: RTy)
    requires !EndsIn(ty, "Option")
    ensures ClassifyResult(Some(ty), ctor) == Ok(r) <==> ResultStandsFor(Some(ty), ctor, r)
  {
    if ty.PathTy? && ty.path.segs != [] {
      var n := LastSeg(ty.path).ident;
      TokenIs(n);
      if n == "Vec" { VecExactly(ty, r); }
      if n == "bool" || n == "String" || n == "Vec" { ResultNames(n); }
    }
  }

  lemma OptionInner(ty: Ty, inner: Ty, ctor: bool, r: RTy)
    requires OptionOf(ty, inner)
    ensures ClassifyResult(Some(ty), ctor) == Ok(r) <==>
      var c := ClassifyResult(Some(inner), true);
      c.Ok? && match c.value
               case RScalar(tok, t) => r == ROptionScalar(tok, t)
               case RStr => r.ROptionStr?
               case RBytes => r.ROptionBytes?
               case _ => false
  {
    TokenIs("Option");
    ResultNames("Option");
  }

  lemma OptionNested(ty: Ty, ctor: bool)
    requires EndsIn(ty, "Option")
    ensures var c := ClassifyResult(Some(ty), ctor); c.Ok? ==> !Flat(c.value)
  {
    TokenIs("Option");
    ResultNames("Option");
  }

  lemma OptionResultExactly(ty: Ty, ctor: bool, r: RTy)
    requires EndsIn(ty, "Option")
    ensures ClassifyResult(Some(ty), ctor) == Ok(r) <==> ResultStandsFor(Some(ty), ctor, r)
  {
    var seg := LastSeg(ty.path);
    TokenIs("Option");
    ResultNames("Option");
    if seg.args.Angle? && |seg.args.args| > 0 && seg.args.args[0].TypeArg? {
      var inner := seg.args.args[0].ty;
      assert OptionOf(ty, inner);
      OptionInner(ty, inner, ctor, r);
      if EndsIn(inner, "Option") {
        OptionNested(inner, true);
      } else {
        var c := ClassifyResult(Some(inner), true);
        if c.Ok? { FlatExactly(inner, true, c.value); }
        FlatExactly(inner, true, RStr);
        FlatExactly(inner, true, RBytes);
        if r.ROptionScalar? { FlatExactly(inner, true, RScalar(r.tok, r.ty)); }
      }
    }
  }

  /** `classify_result` accepts exactly the result grammar; in particular no
      nested option, no option of bool, no option of a handle. */
  lemma ClassifyResultExactly(ty: Option<Ty>, ctor: bool, r: RTy)
    ensures ClassifyResult(ty, ctor) == Ok(r) <==> ResultStandsFor(ty, ctor, r)
  {
    if ty.Some? {
      if EndsIn(ty.value, "Option") { OptionResultExactly(ty.value, ctor, r); } else { FlatExactly(ty.value, ctor, r); }
    }
  }
}

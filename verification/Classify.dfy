/** The export macro's classification of Rust type trees into the closed
    vocabulary of the boundary. */
module Classify {
  import opened Wrappers

  // ----- type trees ---------------------------------------------------------

  datatype Ty =
    | Ref(lifetime: Option<string>, isMut: bool, elem: Ty)
    | Slice(elem: Ty)
    | Tuple(elems: seq<Ty>)
    | Paren(elem: Ty)                        // parenthesised, or an invisible group
    | PathTy(qself: Option<Ty>, path: Path)  // `<qself as ...>::...`, or a plain path
    | OtherTy(lifetimes: seq<string>, parts: seq<Ty>)  // array, pointer, fn pointer, trait object, ...

  datatype Path = Path(leading: bool, segs: seq<Seg>)

  datatype Seg = Seg(ident: string, args: Args)

  datatype Args = NoArgs | Angle(args: seq<Arg>) | Parens(tys: seq<Ty>)  // `Fn(tys) -> ...`

  /** An associated type or constraint has lifetimes and types of its own. */
  datatype Arg = LifetimeArg(name: string) | TypeArg(ty: Ty) | OtherArg(lifetimes: seq<string>, parts: seq<Ty>)

  datatype Reason =
    | NamedLifetime | MutRef | Unsupported | OptionBool | OptionHandle
    | CallbackResult | CallbackParam | NotConstructor | BadReceiver | NoReceiver

  /** `path.is_ident(name)` */
  predicate IsIdent(p: Path, name: string) {
    !p.leading && |p.segs| == 1 && p.segs[0] == Seg(name, NoArgs)
  }

  function ScalarTok(name: string): Option<string> {
    if name == "i8" then Some(":i8") else if name == "i16" then Some(":i16")
    else if name == "i32" then Some(":i32") else if name == "i64" then Some(":i64")
    else if name == "u8" then Some(":u8") else if name == "u16" then Some(":u16")
    else if name == "u32" then Some(":u32") else if name == "u64" then Some(":u64")
    else if name == "f32" then Some(":f32") else if name == "f64" then Some(":f64")
    else None
  }

  // ----- lifetimes ----------------------------------------------------------

  function Named(lt: string): Outcome<(), Reason> { if lt == "_" then Ok(()) else Err(NamedLifetime) }

  /** `reject_named_lifetimes` */
  function RejectNamed(ty: Ty): Outcome<(), Reason> {
    match ty
    case Ref(lt, _, elem) =>
      if lt.Some? && Named(lt.value).Err? then Err(NamedLifetime) else RejectNamed(elem)
    case Slice(elem) => RejectNamed(elem)
    case Tuple(elems) => RejectNamedAll(elems)
    case Paren(elem) => RejectNamed(elem)
    case PathTy(_, p) => RejectNamedSegs(p.segs)
    case OtherTy(_, _) => Ok(())
  }

  function RejectNamedAll(tys: seq<Ty>): Outcome<(), Reason> {
    if tys == [] then Ok(()) else
    var _ :- RejectNamed(tys[0]);
    RejectNamedAll(tys[1..])
  }

  function RejectNamedSegs(segs: seq<Seg>): Outcome<(), Reason> {
    if segs == [] then Ok(()) else
    var _ :- RejectNamedSeg(segs[0]);
    RejectNamedSegs(segs[1..])
  }

  function RejectNamedSeg(seg: Seg): Outcome<(), Reason> {
    match seg.args
    case Angle(args) => RejectNamedArgs(args)
    case _ => Ok(())
  }

  function RejectNamedArgs(args: seq<Arg>): Outcome<(), Reason> {
    if args == [] then Ok(()) else
    var _ :- RejectNamedArg(args[0]);
    RejectNamedArgs(args[1..])
  }

  function RejectNamedArg(arg: Arg): Outcome<(), Reason> {
    match arg
    case LifetimeArg(lt) => Named(lt)
    case TypeArg(t) => RejectNamed(t)
    case OtherArg(_, _) => Ok(())
  }

  /** The places of a type: those the check looks at, those it passes over, all. */
  datatype Place = Visited | Unvisited | Anywhere

  /** The lifetimes written at the given places of the type. */
  function Lifetimes(ty: Ty, at: Place): set<string> {
    match ty
    case Ref(lt, _, elem) => (if lt.Some? && !at.Unvisited? then {lt.value} else {}) + Lifetimes(elem, at)
    case Slice(elem) => Lifetimes(elem, at)
    case Tuple(elems) => LifetimesAll(elems, at)
    case Paren(elem) => Lifetimes(elem, at)
    case PathTy(q, p) => (if q.Some? && !at.Visited? then Lifetimes(q.value, Anywhere) else {}) + SegsLifetimes(p.segs, at)
    case OtherTy(lts, parts) => if at.Visited? then {} else Elements(lts) + LifetimesAll(parts, Anywhere)
  }

  function LifetimesAll(tys: seq<Ty>, at: Place): set<string> {
    if tys == [] then {} else Lifetimes(tys[0], at) + LifetimesAll(tys[1..], at)
  }

  function SegsLifetimes(segs: seq<Seg>, at: Place): set<string> {
    if segs == [] then {} else SegLifetimes(segs[0], at) + SegsLifetimes(segs[1..], at)
  }

  function SegLifetimes(seg: Seg, at: Place): set<string> {
    match seg.args
    case NoArgs => {}
    case Angle(args) => ArgsLifetimes(args, at)
    case Parens(tys) => if at.Visited? then {} else LifetimesAll(tys, Anywhere)
  }

  function ArgsLifetimes(args: seq<Arg>, at: Place): set<string> {
    if args == [] then {} else ArgLifetimes(args[0], at) + ArgsLifetimes(args[1..], at)
  }

  function ArgLifetimes(arg: Arg, at: Place): set<string> {
    match arg
    case LifetimeArg(lt) => if at.Unvisited? then {} else {lt}
    case TypeArg(t) => Lifetimes(t, at)
    case OtherArg(lts, parts) => if at.Visited? then {} else Elements(lts) + LifetimesAll(parts, Anywhere)
  }

  function Elements(lts: seq<string>): set<string> { set lt | lt in lts }

  /** Every lifetime written anywhere inside the type. */
  function Mentions(ty: Ty): set<string> { Lifetimes(ty, Anywhere) }

  // ----- parameters ---------------------------------------------------------

  datatype PTy =
    | Scalar(tok: string, ty: Ty)
    | Bool
    | StrRef
    | BytesRef
    | HandleRef(path: Path)
    | Callback(toks: seq<string>)
    | StoredCallback(toks: seq<string>)
    | OptionScalar(tok: string, ty: Ty)
    | OptionStr
    | OptionBytes
    | VecScalar(tok: string, ty: Ty)

  function ClassifyParam(ty: Ty): Outcome<PTy, Reason>
    decreases ty, 1
  {
    var _ :- RejectNamed(ty);
    match ty
    case Ref(_, isMut, elem) => if isMut then Err(MutRef) else ClassifyRef(elem)
    case PathTy(_, p) => if p.segs == [] then Err(Unsupported) else ClassifyPath(ty, p.segs[|p.segs| - 1])
    case _ => Err(Unsupported)
  }

  function ClassifyRef(elem: Ty): Outcome<PTy, Reason> {
    match elem
    case PathTy(_, p) => if IsIdent(p, "str") then Ok(StrRef) else Ok(HandleRef(p))
    case Slice(e) =>
      if e.PathTy? && IsIdent(e.path, "u8") then Ok(BytesRef)
      else if e.PathTy? && e.path.segs != [] then
        match ScalarTok(e.path.segs[|e.path.segs| - 1].ident)
        case Some(tok) => Ok(VecScalar(tok, e))
        case None => Err(Unsupported)
      else Err(Unsupported)
    case _ => Err(Unsupported)
  }

  function ClassifyPath(ty: Ty, seg: Seg): Outcome<PTy, Reason>
    requires ty.PathTy? && ty.path.segs != [] && seg == ty.path.segs[|ty.path.segs| - 1]
    decreases ty, 0
  {
    var tok := ScalarTok(seg.ident);
    if tok.Some? then Ok(Scalar(tok.value, ty))
    else if seg.ident == "bool" then Ok(Bool)
    else if seg.ident == "Callback" then ClassifyCallback(seg, false)
    else if seg.ident == "StoredCallback" then ClassifyCallback(seg, true)
    else if seg.ident == "Option" then
      if !(seg.args.Angle? && |seg.args.args| > 0 && seg.args.args[0].TypeArg?) then Err(Unsupported)
      else
        var inner :- ClassifyParam(seg.args.args[0].ty);
        match inner
        case Scalar(tok, t) => Ok(OptionScalar(tok, t))
        case StrRef => Ok(OptionStr)
        case BytesRef => Ok(OptionBytes)
        case Bool => Err(OptionBool)
        case _ => Err(Unsupported)
    else Err(Unsupported)
  }

  function TypeArgs(args: seq<Arg>): (r: seq<Ty>)
    ensures forall t :: t in r ==> TypeArg(t) in args
  {
    if args == [] then []
    else (if args[0].TypeArg? then [args[0].ty] else []) + TypeArgs(args[1..])
  }

  function ClassifyCallback(seg: Seg, stored: bool): Outcome<PTy, Reason>
    decreases seg
  {
    if !seg.args.Angle? then Err(Unsupported) else
    var tys := TypeArgs(seg.args.args);
    if !(|tys| == 2 || (|tys| == 1 && stored)) then Err(Unsupported)
    else if !tys[0].Tuple? then Err(Unsupported)
    else if |tys| == 2 && tys[1] != Tuple([]) then Err(CallbackResult)
    else
      assert tys[0] in tys && TypeArg(tys[0]) in seg.args.args;
      var toks :- CallbackToks(tys[0].elems);
      Ok(if stored then StoredCallback(toks) else Callback(toks))
  }

  /** The token of one callback parameter. */
  function CallbackTok(elem: Ty): Outcome<string, Reason>
    decreases elem, 2
  {
    var p :- ClassifyParam(elem);
    match p
    case StrRef => Ok(":string")
    case Scalar(tok, _) => Ok(tok)
    case Bool => Ok(":bool")
    case _ => Err(CallbackParam)
  }

  function CallbackToks(elems: seq<Ty>): Outcome<seq<string>, Reason>
    decreases elems
  {
    if elems == [] then Ok([]) else
    var front :- CallbackToks(elems[..|elems| - 1]);
    var tok :- CallbackTok(elems[|elems| - 1]);
    Ok(front + [tok])
  }

  lemma {:induction false} CallbackToksStop(elems: seq<Ty>, i: nat)
    requires i < |elems| && CallbackToks(elems[..i]).Ok? && CallbackTok(elems[i]).Err?
    ensures CallbackToks(elems) == Err(CallbackTok(elems[i]).error)
    decreases |elems|
  {
    var n := |elems| - 1;
    if i < n {
      assert elems[..n][..i] == elems[..i];
      CallbackToksStop(elems[..n], i);
    }
  }

  /** The loop of `classify_callback` over the tuple's elements. */
  method CollectToks(elems: seq<Ty>) returns (r: Outcome<seq<string>, Reason>)
    ensures r == CallbackToks(elems)
  {
    var toks := [];
    for i := 0 to |elems|
      invariant CallbackToks(elems[..i]) == Ok(toks)
    {
      assert elems[..i + 1][..i] == elems[..i];
      var tok := CallbackTok(elems[i]);
      if tok.Err? {
        CallbackToksStop(elems, i);
        return Err(tok.error);
      }
      toks := toks + [tok.value];
    }
    assert elems[..|elems|] == elems;
    return Ok(toks);
  }

  // ----- results ------------------------------------------------------------

  datatype RTy =
    | RUnit
    | RScalar(tok: string, ty: Ty)
    | RBool
    | RStr
    | RBytes
    | RHandle(path: Path)
    | ROptionScalar(tok: string, ty: Ty)
    | ROptionStr
    | ROptionBytes
    | RVecScalar(tok: string, ty: Ty)

  function ClassifyResult(ty: Option<Ty>, ctor: bool): Outcome<RTy, Reason>
    decreases if ty.Some? then 1 else 0, if ty.Some? then ty.value else Tuple([])
  {
    if ty.None? then Ok(RUnit)
    else match ty.value
      case Tuple(elems) => if elems == [] then Ok(RUnit) else Err(Unsupported)
      case PathTy(_, p) =>
        if p.segs == [] then Err(Unsupported) else
        var seg := p.segs[|p.segs| - 1];
        var tok := ScalarTok(seg.ident);
        if tok.Some? then Ok(RScalar(tok.value, ty.value))
        else if seg.ident == "bool" then Ok(RBool)
        else if seg.ident == "String" then Ok(RStr)
        else if seg.ident == "Vec" then ClassifyVec(seg)
        else if seg.ident == "Option" then
          if !(seg.args.Angle? && |seg.args.args| > 0 && seg.args.args[0].TypeArg?) then Err(Unsupported)
          else
            var inner :- ClassifyResult(Some(seg.args.args[0].ty), true);
            match inner
            case RScalar(tok, t) => Ok(ROptionScalar(tok, t))
            case RStr => Ok(ROptionStr)
            case RBytes => Ok(ROptionBytes)
            case RBool => Err(OptionBool)
            case RHandle(_) => Err(OptionHandle)
            case _ => Err(Unsupported)
        else if ctor then Ok(RHandle(p))
        else Err(NotConstructor)
      case _ => Err(Unsupported)
  }

  function ClassifyVec(seg: Seg): Outcome<RTy, Reason> {
    if seg.args.Angle? && |seg.args.args| == 1 && seg.args.args[0].TypeArg? && seg.args.args[0].ty.PathTy? then
      var elem := seg.args.args[0].ty;
      if IsIdent(elem.path, "u8") then Ok(RBytes)
      else if elem.path.segs == [] then Err(Unsupported)
      else
        match ScalarTok(elem.path.segs[|elem.path.segs| - 1].ident)
        case Some(tok) => Ok(RVecScalar(tok, elem))
        case None => Err(Unsupported)
    else Err(Unsupported)
  }

  /** `split_result`: the success type, and the error's name when fallible. */
  function SplitResult(ret: Option<Ty>): (Option<Ty>, Option<string>) {
    if ret.Some? && ret.value.PathTy? && ret.value.path.segs != [] then
      var seg := ret.value.path.segs[|ret.value.path.segs| - 1];
      if seg.ident == "Result" && seg.args.Angle? && |TypeArgs(seg.args.args)| == 2 then
        var tys := TypeArgs(seg.args.args);
        (Some(tys[0]), Some(LastIdent(tys[1])))
      else (ret, None)
    else (ret, None)
  }

  function LastIdent(ty: Ty): string {
    if ty.PathTy? && ty.path.segs != [] then ty.path.segs[|ty.path.segs| - 1].ident else ""
  }

  // ----- what classification guarantees -------------------------------------

  /** The lifetime check passes exactly when every lifetime it looks at is elided. */
  lemma {:induction false} RejectsExactly(ty: Ty)
    ensures RejectNamed(ty).Ok? <==> Lifetimes(ty, Visited) <= {"_"}
    decreases ty
  {
    match ty
    case Ref(_, _, elem) => RejectsExactly(elem);
    case Slice(elem) => RejectsExactly(elem);
    case Tuple(elems) => RejectsAll(elems);
    case Paren(elem) => RejectsExactly(elem);
    case PathTy(_, p) => RejectsSegs(p.segs);
    case OtherTy(_, _) =>
  }

  lemma {:induction false} RejectsAll(tys: seq<Ty>)
    ensures RejectNamedAll(tys).Ok? <==> LifetimesAll(tys, Visited) <= {"_"}
    decreases tys
  {
    if tys != [] {
      RejectsExactly(tys[0]);
      RejectsAll(tys[1..]);
    }
  }

  lemma {:induction false} RejectsSegs(segs: seq<Seg>)
    ensures RejectNamedSegs(segs).Ok? <==> SegsLifetimes(segs, Visited) <= {"_"}
    decreases segs
  {
    if segs != [] {
      RejectsSeg(segs[0]);
      RejectsSegs(segs[1..]);
    }
  }

  lemma {:induction false} RejectsSeg(seg: Seg)
    ensures RejectNamedSeg(seg).Ok? <==> SegLifetimes(seg, Visited) <= {"_"}
    decreases seg
  {
    if seg.args.Angle? {
      RejectsArgs(seg.args.args);
    }
  }

  lemma {:induction false} RejectsArgs(args: seq<Arg>)
    ensures RejectNamedArgs(args).Ok? <==> ArgsLifetimes(args, Visited) <= {"_"}
    decreases args
  {
    if args != [] {
      RejectsArg(args[0]);
      RejectsArgs(args[1..]);
    }
  }

  lemma {:induction false} RejectsArg(arg: Arg)
    ensures RejectNamedArg(arg).Ok? <==> ArgLifetimes(arg, Visited) <= {"_"}
    decreases arg
  {
    if arg.TypeArg? {
      RejectsExactly(arg.ty);
    }
  }

  // ----- what the lifetime check passes over --------------------------------

  lemma {:induction false} Everywhere(ty: Ty)
    ensures Mentions(ty) == Lifetimes(ty, Visited) + Lifetimes(ty, Unvisited)
    decreases ty
  {
    match ty
    case Ref(_, _, elem) => Everywhere(elem);
    case Slice(elem) => Everywhere(elem);
    case Tuple(elems) => EverywhereAll(elems);
    case Paren(elem) => Everywhere(elem);
    case PathTy(_, p) => EverywhereSegs(p.segs);
    case OtherTy(_, _) =>
  }

  lemma {:induction false} EverywhereAll(tys: seq<Ty>)
    ensures LifetimesAll(tys, Anywhere) == LifetimesAll(tys, Visited) + LifetimesAll(tys, Unvisited)
    decreases tys
  {
    if tys != [] {
      Everywhere(tys[0]);
      EverywhereAll(tys[1..]);
    }
  }

  lemma {:induction false} EverywhereSegs(segs: seq<Seg>)
    ensures SegsLifetimes(segs, Anywhere) == SegsLifetimes(segs, Visited) + SegsLifetimes(segs, Unvisited)
    decreases segs
  {
    if segs != [] {
      EverywhereSeg(segs[0]);
      EverywhereSegs(segs[1..]);
    }
  }

  lemma {:induction false} EverywhereSeg(seg: Seg)
    ensures SegLifetimes(seg, Anywhere) == SegLifetimes(seg, Visited) + SegLifetimes(seg, Unvisited)
    decreases seg
  {
    if seg.args.Angle? {
      EverywhereArgs(seg.args.args);
    }
  }

  lemma {:induction false} EverywhereArgs(args: seq<Arg>)
    ensures ArgsLifetimes(args, Anywhere) == ArgsLifetimes(args, Visited) + ArgsLifetimes(args, Unvisited)
    decreases args
  {
    if args != [] {
      EverywhereArg(args[0]);
      EverywhereArgs(args[1..]);
    }
  }

  lemma {:induction false} EverywhereArg(arg: Arg)
    ensures ArgLifetimes(arg, Anywhere) == ArgLifetimes(arg, Visited) + ArgLifetimes(arg, Unvisited)
    decreases arg
  {
    if arg.TypeArg? {
      Everywhere(arg.ty);
    }
  }

  /** The check never refuses a type whose lifetimes are all elided. It refuses
      one with a named lifetime, as promised, exactly when none is named at a
      place it passes over or one is named at a place it looks at. */
  lemma RejectsNamedExactly(ty: Ty)
    ensures Mentions(ty) <= {"_"} ==> RejectNamed(ty).Ok?
    ensures (RejectNamed(ty).Ok? <==> Mentions(ty) <= {"_"})
            <==> Lifetimes(ty, Unvisited) <= {"_"} || !(Lifetimes(ty, Visited) <= {"_"})
  {
    RejectsExactly(ty);
    Everywhere(ty);
  }
}

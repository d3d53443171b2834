/** The loader's reading of a manifest: property lists, looked up by key,
    types in a closed vocabulary. Unknown keys are ignored. */
module ManifestReader {
  import opened Wrappers
  import opened Sexp
  import opened Manifest

  function Getf(items: seq<Form>, key: string): Option<Form>
    decreases |items|
  {
    if |items| < 2 then None
    else if items[0] == W(key) then Some(items[1])
    else Getf(items[2..], key)
  }

  function AsString(f: Form): Option<string> {
    if f.Q? then Some(f.s) else None
  }

  function GetString(items: seq<Form>, key: string): Option<string> {
    var f :- Getf(items, key);
    AsString(f)
  }

  predicate IsNil(f: Form) { f == W("nil") || f == L([]) }

  /** A string, or NIL or nothing for an absent one. */
  function GetOptional(items: seq<Form>, key: string): Option<Option<string>> {
    match Getf(items, key)
    case None => Some(None)
    case Some(f) => if f.Q? then Some(Some(f.s)) else if IsNil(f) then Some(None) else None
  }

  /** A list, which is empty when it is NIL or absent. */
  function GetList(items: seq<Form>, key: string): Option<seq<Form>> {
    match Getf(items, key)
    case None => Some([])
    case Some(f) => if f.L? then Some(f.items) else if IsNil(f) then Some([]) else None
  }

  // ----- types --------------------------------------------------------------

  predicate IsCbTok(tok: string) { IsScalar(tok) || tok == ":bool" || tok == ":string" }

  function DecodeCbParams(fs: seq<Form>): Option<seq<ParamTy>> {
    if fs == [] then Some([])
    else if fs[0].W? && IsCbTok(fs[0].s) then
      var rest :- DecodeCbParams(fs[1..]);
      Some([Scalar(fs[0].s)] + rest)
    else None
  }

  predicate OptionInner(ty: ParamTy) { (ty.Scalar? && ty.tok != ":bool") || ty.Str? || ty.Bytes? }

  function DecodeTy(f: Form): Option<ParamTy> {
    match f
    case W(s) =>
      if s == ":string" then Some(Str)
      else if s == ":bytes" then Some(Bytes)
      else if IsScalar(s) || s == ":bool" then Some(Scalar(s))
      else None
    case Q(_) => None
    case L(items) =>
      if |items| == 2 && items[0] == W(":handle") && items[1].Q? then Some(Handle(items[1].s))
      else if |items| == 2 && items[0] == W(":vec") && items[1].W? && IsScalar(items[1].s) then Some(Vec(items[1].s))
      else if |items| == 2 && items[0] == W(":option") then
        var inner :- DecodeTy(items[1]);
        if OptionInner(inner) then Some(Opt(inner)) else None
      else if |items| > 0 && (items[0] == W(":callback") || items[0] == W(":stored-callback")) then
        var fs :- GetList(items[1..], ":params");
        var ps :- DecodeCbParams(fs);
        if Getf(items[1..], ":result") != Some(W(":unit")) then None
        else Some(if items[0] == W(":callback") then Callback(ps, ":unit") else StoredCallback(ps, ":unit"))
      else None
  }

  predicate ROptionInner(ty: ResultTy) { (ty.RScalar? && ty.tok != ":bool") || ty.RStr? || ty.RBytes? }

  function DecodeResult(f: Form): Option<ResultTy> {
    match f
    case W(s) =>
      if s == ":unit" then Some(RUnit)
      else if s == ":string" then Some(RStr)
      else if s == ":bytes" then Some(RBytes)
      else if IsScalar(s) || s == ":bool" then Some(RScalar(s))
      else None
    case Q(_) => None
    case L(items) =>
      if |items| != 2 then None
      else if items[0] == W(":handle") && items[1].Q? then Some(RHandle(items[1].s))
      else if items[0] == W(":vec") && items[1].W? && IsScalar(items[1].s) then Some(RVec(items[1].s))
      else if items[0] == W(":option") then
        var inner :- DecodeResult(items[1]);
        if ROptionInner(inner) then Some(ROpt(inner)) else None
      else None
  }

  // ----- entries ------------------------------------------------------------

  function DecodeParam(f: Form): Option<ParamMeta> {
    if !f.L? then None else
    var name :- GetString(f.items, ":name");
    var t :- Getf(f.items, ":type");
    var ty :- DecodeTy(t);
    Some(ParamMeta(name, ty))
  }

  function DecodeParams(fs: seq<Form>): Option<seq<ParamMeta>> {
    if fs == [] then Some([])
    else
      var p :- DecodeParam(fs[0]);
      var rest :- DecodeParams(fs[1..]);
      Some([p] + rest)
  }

  function DecodeFn(f: Form): Option<FnMeta> {
    if !(f.L? && |f.items| > 0 && f.items[0] == W(":fn")) then None else
    var p := f.items[1..];
    var rustName :- GetString(p, ":rust-name");
    var lispName :- GetString(p, ":lisp-name");
    var symbol :- GetString(p, ":symbol");
    var pf :- GetList(p, ":params");
    var params :- DecodeParams(pf);
    var rf :- Getf(p, ":result");
    var result :- DecodeResult(rf);
    var error :- GetOptional(p, ":error");
    var doc :- GetOptional(p, ":doc");
    Some(FnMeta(doc, rustName, lispName, symbol, params, result, error))
  }

  function DecodeHandle(f: Form): Option<HandleMeta> {
    if !(f.L? && |f.items| > 0 && f.items[0] == W(":handle")) then None else
    var p := f.items[1..];
    var rustName :- GetString(p, ":rust-name");
    var lispName :- GetString(p, ":lisp-name");
    var free :- GetString(p, ":free");
    var doc :- GetOptional(p, ":doc");
    Some(HandleMeta(doc, rustName, lispName, free))
  }

  function DecodeStrings(fs: seq<Form>): Option<seq<string>> {
    if fs == [] then Some([])
    else
      var s :- AsString(fs[0]);
      var rest :- DecodeStrings(fs[1..]);
      Some([s] + rest)
  }

  function DecodeHandles(fs: seq<Form>): Option<seq<HandleMeta>> {
    if fs == [] then Some([])
    else
      var h :- DecodeHandle(fs[0]);
      var rest :- DecodeHandles(fs[1..]);
      Some([h] + rest)
  }

  function DecodeFns(fs: seq<Form>): Option<seq<FnMeta>> {
    if fs == [] then Some([])
    else
      var f :- DecodeFn(fs[0]);
      var rest :- DecodeFns(fs[1..]);
      Some([f] + rest)
  }

  /** What a loader knows after reading. */
  datatype Loaded = Loaded(name: string, version: Option<string>, rulispVersion: Option<string>,
                           target: Option<string>, prefix: string, onDump: Option<string>,
                           errors: seq<string>, handles: seq<HandleMeta>, fns: seq<FnMeta>)

  /** What it should know of a crate. */
  function LoadedFrom(c: Crate): Loaded {
    Loaded(c.name, Some(c.version), Some(c.rulispVersion), Some(c.target), c.prefix, c.onDump,
           Seen(c.fns), c.handles, c.fns)
  }

  function DecodeCrate(f: Form): Option<Loaded> {
    if !(f.L? && |f.items| > 0 && f.items[0] == W(":rulisp-manifest")) then None else
    var p := f.items[1..];
    if Getf(p, ":schema") != Some(W("1")) || Getf(p, ":abi") != Some(W("1")) then None else
    var name :- GetString(p, ":crate");
    var version :- GetOptional(p, ":crate-version");
    var rulisp :- GetOptional(p, ":rulisp-version");
    var target :- GetOptional(p, ":target");
    var prefix :- GetString(p, ":prefix");
    var onDump :- GetOptional(p, ":on-dump");
    var ef :- GetList(p, ":errors");
    var errors :- DecodeStrings(ef);
    var hf :- GetList(p, ":handles");
    var handles :- DecodeHandles(hf);
    var ff :- GetList(p, ":functions");
    var fns :- DecodeFns(ff);
    Some(Loaded(name, version, rulisp, target, prefix, onDump, errors, handles, fns))
  }

  function ReadManifest(text: string): Option<Loaded> {
    var f :- Read(text);
    DecodeCrate(f)
  }
}

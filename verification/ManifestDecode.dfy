/** Decoding the form of a rendered manifest gives back the metadata. */
module ManifestDecode {
  import opened Wrappers
  import opened Sexp
  import opened Manifest
  import opened ManifestReader
  import opened ManifestText

  // ----- lookup in printed property lists -----------------------------------

  function Lookup(ps: seq<Part>, key: string): Option<Form> {
    if ps == [] then None
    else if ps[0].key == key then Some(ps[0].form)
    else Lookup(ps[1..], key)
  }

  lemma {:induction false} GetfParts(ps: seq<Part>, key: string)
    ensures Getf(PartsForms(ps), key) == Lookup(ps, key)
  {
    if ps != [] {
      var fs := PartsForms(ps);
      assert fs[2..] == PartsForms(ps[1..]);
      GetfParts(ps[1..], key);
    }
  }

  lemma {:induction false} LookupAppend(a: seq<Part>, b: seq<Part>, key: string)
    ensures Lookup(a + b, key) == if Lookup(a, key).Some? then Lookup(a, key) else Lookup(b, key)
  {
    if a == [] {
      assert a + b == b;
    } else {
      assert (a + b)[1..] == a[1..] + b;
      LookupAppend(a[1..], b, key);
    }
  }

  lemma NodeTail(head: string, parts: seq<Part>)
    ensures NodeForm(head, parts).items[0] == W(head)
    ensures NodeForm(head, parts).items[1..] == PartsForms(parts)
  {
  }

  lemma Lookup2(a: Part, b: Part, key: string)
    ensures Lookup([a, b], key) == if a.key == key then Some(a.form) else if b.key == key then Some(b.form) else None
  {
    assert [a, b][1..] == [b] && [b][1..] == [];
    assert Lookup([b], key) == if b.key == key then Some(b.form) else None;
  }

  lemma Lookup3(a: Part, b: Part, c: Part, key: string)
    ensures Lookup([a, b, c], key) ==
      if a.key == key then Some(a.form) else if b.key == key then Some(b.form)
      else if c.key == key then Some(c.form) else None
  {
    assert [a, b, c][1..] == [b, c];
    Lookup2(b, c, key);
  }

  lemma LookupDoc(doc: Option<string>, key: string)
    ensures Lookup(DocParts(doc), key) == if doc.Some? && key == ":doc" then Some(Q(doc.value)) else None
  {
    assert forall p: Part :: [p][1..] == [];
  }

  // ----- types --------------------------------------------------------------

  lemma {:induction false} CbParamsDecode(ps: seq<ParamTy>)
    requires forall i :: 0 <= i < |ps| ==> CbParam(ps[i])
    ensures DecodeCbParams(TysForms(ps)) == Some(ps)
  {
    if ps != [] {
      CbParamsDecode(ps[1..]);
      assert TysForms(ps)[1..] == TysForms(ps[1..]);
      assert [Scalar(ps[0].tok)] + ps[1..] == ps;
    }
  }

  lemma CbDecode(head: string, ps: seq<ParamTy>)
    requires forall i :: 0 <= i < |ps| ==> CbParam(ps[i])
    ensures var p := NodeForm(head, CbParts(TysPieces(ps), TysForms(ps), ":unit")).items[1..];
            GetList(p, ":params") == Some(TysForms(ps)) && Getf(p, ":result") == Some(W(":unit"))
  {
    var parts := CbParts(TysPieces(ps), TysForms(ps), ":unit");
    NodeTail(head, parts);
    GetfParts(parts, ":params");
    GetfParts(parts, ":result");
    Lookup2(parts[0], parts[1], ":params");
    Lookup2(parts[0], parts[1], ":result");
  }

  lemma {:induction false} TyDecode(ty: ParamTy)
    requires ValidTy(ty)
    ensures DecodeTy(TyForm(ty)) == Some(ty)
  {
    match ty
    case Callback(ps, r) =>
      CbDecode(":callback", ps);
      CbParamsDecode(ps);
      NodeTail(":callback", CbParts(TysPieces(ps), TysForms(ps), r));
    case StoredCallback(ps, r) =>
      CbDecode(":stored-callback", ps);
      CbParamsDecode(ps);
      NodeTail(":stored-callback", CbParts(TysPieces(ps), TysForms(ps), r));
    case Opt(inner) => TyDecode(inner);
    case _ =>
  }

  lemma {:induction false} ResultDecode(r: ResultTy)
    requires ValidResult(r)
    ensures DecodeResult(ResultForm(r)) == Some(r)
  {
    if r.ROpt? { ResultDecode(r.inner); }
  }

  // ----- entries ------------------------------------------------------------

  lemma ParamDecode(p: ParamMeta)
    requires ValidTy(p.ty)
    ensures DecodeParam(L(PartsForms(ParamParts(p)))) == Some(p)
  {
    var parts := ParamParts(p);
    GetfParts(parts, ":name");
    GetfParts(parts, ":type");
    Lookup2(parts[0], parts[1], ":name");
    Lookup2(parts[0], parts[1], ":type");
    TyDecode(p.ty);
  }

  lemma {:induction false} ParamsDecode(ps: seq<ParamMeta>)
    requires forall i :: 0 <= i < |ps| ==> ValidTy(ps[i].ty)
    ensures DecodeParams(ParamsForms(ps)) == Some(ps)
  {
    if ps != [] {
      ParamDecode(ps[0]);
      ParamsDecode(ps[1..]);
      assert ParamsForms(ps)[1..] == ParamsForms(ps[1..]);
      assert [ps[0]] + ps[1..] == ps;
    }
  }

  lemma FnLookup(f: FnMeta, y: Layout, key: string)
    ensures Getf(PartsForms(FnParts(f, y)), key) ==
      if key == ":rust-name" then Some(Q(f.rustName))
      else if key == ":lisp-name" then Some(Q(f.lispName))
      else if key == ":symbol" then Some(Q(f.symbol))
      else if key == ":params" then Some(L(ParamsForms(f.params)))
      else if key == ":result" then Some(ResultForm(f.result))
      else if key == ":error" then Some(ErrorPart(f.error).form)
      else if key == ":doc" && f.doc.Some? then Some(Q(f.doc.value))
      else None
  {
    GetfParts(FnParts(f, y), key);
    var names, params, tail := NameParts(f), [ParamsPart(f, y.sep)], TailParts(f, y.ws);
    LookupAppend(names + params, tail, key);
    LookupAppend(names, params, key);
    Lookup3(names[0], names[1], names[2], key);
    assert params[1..] == [];
    LookupAppend([tail[0], tail[1]], DocParts(f.doc), key);
    Lookup2(tail[0], tail[1], key);
    LookupDoc(f.doc, key);
  }

  lemma FnDecode(f: FnMeta)
    requires ValidFn(f)
    ensures DecodeFn(FnForm(f)) == Some(f)
  {
    var y := LayoutOf(f);
    NodeTail(":fn", FnParts(f, y));
    FnLookup(f, y, ":rust-name");
    FnLookup(f, y, ":lisp-name");
    FnLookup(f, y, ":symbol");
    FnLookup(f, y, ":params");
    FnLookup(f, y, ":result");
    FnLookup(f, y, ":error");
    FnLookup(f, y, ":doc");
    ParamsDecode(f.params);
    ResultDecode(f.result);
  }

  lemma FnsStep(f: Form, fs: seq<Form>, fn: FnMeta, rest: seq<FnMeta>)
    requires DecodeFn(f) == Some(fn) && DecodeFns(fs) == Some(rest)
    ensures DecodeFns([f] + fs) == Some([fn] + rest)
  {
    assert ([f] + fs)[1..] == fs;
  }

  lemma FnsSplit(fns: seq<FnMeta>)
    requires fns != []
    ensures FnsForms(fns) == [FnForm(fns[0])] + FnsForms(fns[1..])
  {
  }

  lemma {:induction false} FnsDecode(fns: seq<FnMeta>)
    requires forall i :: 0 <= i < |fns| ==> ValidFn(fns[i])
    ensures DecodeFns(FnsForms(fns)) == Some(fns)
  {
    if fns != [] {
      FnDecode(fns[0]);
      FnsDecode(fns[1..]);
      FnsSplit(fns);
      FnsStep(FnForm(fns[0]), FnsForms(fns[1..]), fns[0], fns[1..]);
      assert [fns[0]] + fns[1..] == fns;
    }
  }

  lemma HandleLookup(h: HandleMeta, key: string)
    ensures Getf(PartsForms(HandleParts(h)), key) ==
      if key == ":rust-name" then Some(Q(h.rustName))
      else if key == ":lisp-name" then Some(Q(h.lispName))
      else if key == ":free" then Some(Q(h.freeSymbol))
      else if key == ":doc" && h.doc.Some? then Some(Q(h.doc.value))
      else None
  {
    GetfParts(HandleParts(h), key);
    var names := HandleNames(h);
    LookupAppend(names, DocParts(h.doc), key);
    Lookup3(names[0], names[1], names[2], key);
    LookupDoc(h.doc, key);
  }

  lemma HandleDecode(h: HandleMeta)
    ensures DecodeHandle(NodeForm(":handle", HandleParts(h))) == Some(h)
  {
    NodeTail(":handle", HandleParts(h));
    HandleLookup(h, ":rust-name");
    HandleLookup(h, ":lisp-name");
    HandleLookup(h, ":free");
    HandleLookup(h, ":doc");
  }

  lemma {:induction false} HandlesDecode(hs: seq<HandleMeta>)
    ensures DecodeHandles(HandlesForms(hs)) == Some(hs)
  {
    if hs != [] {
      HandleDecode(hs[0]);
      HandlesDecode(hs[1..]);
      assert HandlesForms(hs)[1..] == HandlesForms(hs[1..]);
      assert [hs[0]] + hs[1..] == hs;
    }
  }

  lemma {:induction false} NamesDecode(ns: seq<string>)
    ensures DecodeStrings(NamesForms(ns)) == Some(ns)
  {
    if ns != [] {
      NamesDecode(ns[1..]);
      assert NamesForms(ns)[1..] == NamesForms(ns[1..]);
      assert [ns[0]] + ns[1..] == ns;
    }
  }

  // ----- the crate ----------------------------------------------------------

  lemma CrateLookup(c: Crate, key: string)
    ensures Getf(PartsForms(CrateParts(c)), key) ==
      if key == ":schema" || key == ":abi" then Some(W("1"))
      else if key == ":crate" then Some(Q(c.name))
      else if key == ":crate-version" then Some(Q(c.version))
      else if key == ":rulisp-version" then Some(Q(c.rulispVersion))
      else if key == ":target" then Some(Q(c.target))
      else if key == ":prefix" then Some(Q(c.prefix))
      else if key == ":on-dump" && c.onDump.Some? then Some(Q(c.onDump.value))
      else if key == ":errors" then Some(L(NamesForms(Seen(c.fns))))
      else if key == ":handles" then Some(L(HandlesForms(c.handles)))
      else if key == ":functions" then Some(L(FnsForms(c.fns)))
      else None
  {
    GetfParts(CrateParts(c), key);
    var a, b, t, d, l := HeadParts(c), VersionParts(c), TargetParts(c), OnDumpParts(c.onDump), ListParts(c);
    LookupAppend(a + b + t + d, l, key);
    LookupAppend(a + b + t, d, key);
    LookupAppend(a + b, t, key);
    LookupAppend(a, b, key);
    Lookup3(a[0], a[1], a[2], key);
    Lookup2(b[0], b[1], key);
    Lookup2(t[0], t[1], key);
    assert d != [] ==> d[1..] == [];
    Lookup3(l[0], l[1], l[2], key);
  }

  /** The entries a manifest of this crate has, and their values. */
  ghost predicate Entries(p: seq<Form>, c: Crate) {
    && Getf(p, ":schema") == Some(W("1")) && Getf(p, ":abi") == Some(W("1"))
    && Getf(p, ":crate") == Some(Q(c.name)) && Getf(p, ":crate-version") == Some(Q(c.version))
    && Getf(p, ":rulisp-version") == Some(Q(c.rulispVersion)) && Getf(p, ":target") == Some(Q(c.target))
    && Getf(p, ":prefix") == Some(Q(c.prefix))
    && Getf(p, ":on-dump") == (if c.onDump.Some? then Some(Q(c.onDump.value)) else None)
  }

  ghost predicate Lists(p: seq<Form>, errors: seq<Form>, handles: seq<Form>, fns: seq<Form>) {
    Getf(p, ":errors") == Some(L(errors)) && Getf(p, ":handles") == Some(L(handles)) && Getf(p, ":functions") == Some(L(fns))
  }

  lemma CrateEntries(c: Crate)
    ensures Entries(PartsForms(CrateParts(c)), c)
  {
    CrateLookup(c, ":schema");
    CrateLookup(c, ":abi");
    CrateLookup(c, ":crate");
    CrateLookup(c, ":crate-version");
    CrateLookup(c, ":rulisp-version");
    CrateLookup(c, ":target");
    CrateLookup(c, ":prefix");
    CrateLookup(c, ":on-dump");
  }

  lemma CrateLists(c: Crate)
    ensures Lists(PartsForms(CrateParts(c)), NamesForms(Seen(c.fns)), HandlesForms(c.handles), FnsForms(c.fns))
  {
    CrateLookup(c, ":errors");
    CrateLookup(c, ":handles");
    CrateLookup(c, ":functions");
  }

  lemma DecodeEntries(f: Form, c: Crate, errors: seq<Form>, handles: seq<Form>, fns: seq<Form>)
    requires f.L? && |f.items| > 0 && f.items[0] == W(":rulisp-manifest")
    requires Entries(f.items[1..], c) && Lists(f.items[1..], errors, handles, fns)
    requires DecodeStrings(errors) == Some(Seen(c.fns)) && DecodeHandles(handles) == Some(c.handles)
    requires DecodeFns(fns) == Some(c.fns)
    ensures DecodeCrate(f) == Some(LoadedFrom(c))
  {
  }

  lemma CrateDecode(c: Crate)
    requires ValidCrate(c)
    ensures DecodeCrate(CrateForm(c)) == Some(LoadedFrom(c))
  {
    NodeTail(":rulisp-manifest", CrateParts(c));
    CrateEntries(c);
    CrateLists(c);
    NamesDecode(Seen(c.fns));
    HandlesDecode(c.handles);
    FnsDecode(c.fns);
    DecodeEntries(CrateForm(c), c, NamesForms(Seen(c.fns)), HandlesForms(c.handles), FnsForms(c.fns));
  }
}

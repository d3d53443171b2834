/** The rendered text is the spelling of one form, whatever the docs and the
    layout. */
module ManifestText {
  import opened Wrappers
  import opened Sexp
  import opened Manifest
  import opened ManifestReader

  // ----- the closed vocabulary ----------------------------------------------

  predicate CbParam(ty: ParamTy) { ty.Scalar? && IsCbTok(ty.tok) }

  predicate ValidTy(ty: ParamTy) {
    match ty
    case Scalar(tok) => IsScalar(tok) || tok == ":bool"
    case Str => true
    case Bytes => true
    case Handle(_) => true
    case Callback(ps, r) => r == ":unit" && forall i :: 0 <= i < |ps| ==> CbParam(ps[i])
    case StoredCallback(ps, r) => r == ":unit" && forall i :: 0 <= i < |ps| ==> CbParam(ps[i])
    case Opt(inner) => ValidTy(inner) && OptionInner(inner)
    case Vec(tok) => IsScalar(tok)
  }

  predicate ValidResult(r: ResultTy) {
    match r
    case RScalar(tok) => IsScalar(tok) || tok == ":bool"
    case ROpt(inner) => ValidResult(inner) && ROptionInner(inner)
    case RVec(tok) => IsScalar(tok)
    case _ => true
  }

  predicate CleanTy(ty: ParamTy) {
    match ty case Handle(n) => Clean(n) case _ => true
  }

  predicate CleanResult(r: ResultTy) {
    match r case RHandle(n) => Clean(n) case _ => true
  }

  predicate CleanOpt(s: Option<string>) { s.Some? ==> Clean(s.value) }

  predicate ValidFn(f: FnMeta) {
    ValidResult(f.result) && forall i :: 0 <= i < |f.params| ==> ValidTy(f.params[i].ty)
  }

  /** No name of the function contains a quote or a backslash. Docs may. */
  predicate CleanFn(f: FnMeta) {
    && Clean(f.rustName) && Clean(f.lispName) && Clean(f.symbol) && CleanOpt(f.error) && CleanResult(f.result)
    && forall i :: 0 <= i < |f.params| ==> Clean(f.params[i].name) && CleanTy(f.params[i].ty)
  }

  predicate CleanHandle(h: HandleMeta) { Clean(h.rustName) && Clean(h.lispName) && Clean(h.freeSymbol) }

  predicate CleanCrate(c: Crate) {
    && Clean(c.name) && Clean(c.version) && Clean(c.rulispVersion) && Clean(c.target) && Clean(c.prefix)
    && CleanOpt(c.onDump)
    && (forall i :: 0 <= i < |c.handles| ==> CleanHandle(c.handles[i]))
    && (forall i :: 0 <= i < |c.fns| ==> CleanFn(c.fns[i]))
  }

  predicate ValidCrate(c: Crate) {
    forall i :: 0 <= i < |c.fns| ==> ValidFn(c.fns[i])
  }

  // ----- the text means the form --------------------------------------------

  lemma PartsOkOne(p: Part)
    requires PartOk(p)
    ensures PartsOk([p])
  {
  }

  lemma PartsOkAppend(a: seq<Part>, b: seq<Part>)
    requires PartsOk(a) && PartsOk(b) && (b != [] ==> b[0].ws != "")
    ensures PartsOk(a + b)
  {
    var c := a + b;
    forall i | 0 <= i < |c| ensures PartOk(c[i]) {
      if i < |a| { assert c[i] == a[i]; } else { assert c[i] == b[i - |a|]; }
    }
    forall i | 0 < i < |c| ensures c[i].ws != "" {
      if i < |a| { assert c[i] == a[i]; } else { assert c[i] == b[i - |a|]; }
    }
  }

  lemma PartsOkTwo(p: Part, q: Part)
    requires PartOk(p) && PartOk(q) && q.ws != ""
    ensures PartsOk([p, q])
  {
  }

  lemma PartsOkThree(p: Part, q: Part, r: Part)
    requires PartOk(p) && PartOk(q) && PartOk(r) && q.ws != "" && r.ws != ""
    ensures PartsOk([p, q, r])
  {
  }

  lemma NamePartOk(ws: string, key: string, name: string)
    requires Spaces(ws) && IsWord(key) && Clean(name)
    ensures PartOk(NamePart(ws, key, name))
  {
    NameMeans(name);
  }

  lemma WordPartOk(ws: string, key: string, word: string)
    requires Spaces(ws) && IsWord(key) && IsWord(word)
    ensures PartOk(WordPart(ws, key, word))
  {
    WordMeans(word);
  }

  lemma ScalarIsWord(tok: string)
    requires IsCbTok(tok) || tok == ":unit" || tok == ":bytes"
    ensures IsWord(tok)
  {
  }

  lemma CbParamMeans(ty: ParamTy)
    requires CbParam(ty)
    ensures Means(TyPieces(ty), TyForm(ty))
  {
    ScalarIsWord(ty.tok);
    WordMeans(ty.tok);
  }

  lemma CbParamsMean(ps: seq<ParamTy>)
    requires forall i :: 0 <= i < |ps| ==> CbParam(ps[i])
    ensures Means(Wrap(Join(TysPieces(ps), " ")), L(TysForms(ps)))
  {
    forall i | 0 <= i < |ps| ensures Means(TysPieces(ps)[i], TysForms(ps)[i]) {
      CbParamMeans(ps[i]);
    }
    JoinMeans(TysPieces(ps), " ", TysForms(ps));
  }

  lemma CbPartsOk(pieces: seq<seq<Piece>>, forms: seq<Form>)
    requires Means(Wrap(Join(pieces, " ")), L(forms))
    ensures PartsOk(CbParts(pieces, forms, ":unit"))
  {
    WordPartOk(" ", ":result", ":unit");
    PartsOkTwo(Part(" ", ":params", " ", Wrap(Join(pieces, " ")), L(forms)), WordPart(" ", ":result", ":unit"));
  }

  lemma CbMeans(head: string, ps: seq<ParamTy>)
    requires IsWord(head)
    requires forall i :: 0 <= i < |ps| ==> CbParam(ps[i])
    ensures Means(Node(head, CbParts(TysPieces(ps), TysForms(ps), ":unit")),
                  NodeForm(head, CbParts(TysPieces(ps), TysForms(ps), ":unit")))
  {
    CbParamsMean(ps);
    CbPartsOk(TysPieces(ps), TysForms(ps));
    NodeMeans(head, CbParts(TysPieces(ps), TysForms(ps), ":unit"));
  }

  lemma {:induction false} TyMeans(ty: ParamTy)
    requires ValidTy(ty) && CleanTy(ty)
    ensures Means(TyPieces(ty), TyForm(ty))
  {
    match ty
    case Scalar(tok) => ScalarIsWord(tok); WordMeans(tok);
    case Str => WordMeans(":string");
    case Bytes => WordMeans(":bytes");
    case Handle(n) => NameMeans(n); PairMeans(":handle", [PN(n)], Q(n));
    case Callback(ps, r) => CbMeans(":callback", ps);
    case StoredCallback(ps, r) => CbMeans(":stored-callback", ps);
    case Opt(inner) => TyMeans(inner); PairMeans(":option", TyPieces(inner), TyForm(inner));
    case Vec(tok) => ScalarIsWord(tok); WordMeans(tok); PairMeans(":vec", [PW(tok)], W(tok));
  }

  lemma {:induction false} ResultMeans(r: ResultTy)
    requires ValidResult(r) && CleanResult(r)
    ensures Means(ResultPieces(r), ResultForm(r))
  {
    match r
    case RUnit => WordMeans(":unit");
    case RScalar(tok) => ScalarIsWord(tok); WordMeans(tok);
    case RStr => WordMeans(":string");
    case RBytes => WordMeans(":bytes");
    case RHandle(n) => NameMeans(n); PairMeans(":handle", [PN(n)], Q(n));
    case ROpt(inner) => ResultMeans(inner); PairMeans(":option", ResultPieces(inner), ResultForm(inner));
    case RVec(tok) => ScalarIsWord(tok); WordMeans(tok); PairMeans(":vec", [PW(tok)], W(tok));
  }

  lemma ValuePartOk(ws: string, key: string, pieces: seq<Piece>, form: Form)
    requires Spaces(ws) && IsWord(key) && Means(pieces, form)
    ensures PartOk(Part(ws, key, " ", pieces, form))
  {
    assert Spaces(" ");
  }

  lemma ValueWords()
    ensures IsWord(":result") && IsWord(":name") && IsWord(":type") && Spaces(" ") && Spaces("")
  {
  }

  lemma ParamPartsOk(p: ParamMeta)
    requires Clean(p.name) && Means(TyPieces(p.ty), TyForm(p.ty))
    ensures PartsOk(ParamParts(p))
  {
    ValueWords();
    NamePartOk("", ":name", p.name);
    ValuePartOk(" ", ":type", TyPieces(p.ty), TyForm(p.ty));
    PartsOkTwo(NamePart("", ":name", p.name), Part(" ", ":type", " ", TyPieces(p.ty), TyForm(p.ty)));
  }

  lemma ParamMeans(p: ParamMeta)
    requires ValidTy(p.ty) && Clean(p.name) && CleanTy(p.ty)
    ensures Means(ParamPieces(p), L(PartsForms(ParamParts(p))))
  {
    TyMeans(p.ty);
    ParamPartsOk(p);
    PlistMeans(ParamParts(p));
  }

  lemma DocOk(doc: Option<string>)
    ensures PartsOk(DocParts(doc)) && |DocParts(doc)| <= 1
    ensures DocParts(doc) != [] ==> DocParts(doc)[0].ws != ""
  {
    if doc.Some? { DocMeans(doc.value); }
  }

  lemma ErrorPartOk(error: Option<string>)
    requires CleanOpt(error)
    ensures PartOk(ErrorPart(error)) && ErrorPart(error).ws != ""
  {
    if error.Some? { NamePartOk(" ", ":error", error.value); } else { WordPartOk(" ", ":error", "nil"); }
  }

  lemma ResultPartOk(r: ResultTy, ws: string)
    requires ValidResult(r) && CleanResult(r) && Spaces(ws)
    ensures PartOk(Part(ws, ":result", " ", ResultPieces(r), ResultForm(r)))
  {
    ResultMeans(r);
    ValueWords();
    ValuePartOk(ws, ":result", ResultPieces(r), ResultForm(r));
  }

  lemma TailOk(f: FnMeta, ws: string)
    requires ValidFn(f) && CleanFn(f) && Spaces(ws) && ws != ""
    ensures PartsOk(TailParts(f, ws)) && TailParts(f, ws)[0].ws != ""
  {
    ResultPartOk(f.result, ws);
    ErrorPartOk(f.error);
    PartsOkTwo(Part(ws, ":result", " ", ResultPieces(f.result), ResultForm(f.result)), ErrorPart(f.error));
    DocOk(f.doc);
    PartsOkAppend([Part(ws, ":result", " ", ResultPieces(f.result), ResultForm(f.result)), ErrorPart(f.error)],
                  DocParts(f.doc));
  }

  lemma ParamsOk(f: FnMeta, sep: string)
    requires ValidFn(f) && CleanFn(f) && Spaces(sep) && sep != ""
    ensures Means(Wrap(Join(ParamsPieces(f.params), sep)), L(ParamsForms(f.params)))
  {
    forall i | 0 <= i < |f.params| ensures Means(ParamsPieces(f.params)[i], ParamsForms(f.params)[i]) {
      ParamMeans(f.params[i]);
    }
    JoinMeans(ParamsPieces(f.params), sep, ParamsForms(f.params));
  }

  lemma NamePartsOk(f: FnMeta)
    requires Clean(f.rustName) && Clean(f.lispName) && Clean(f.symbol)
    ensures PartsOk(NameParts(f)) && NameParts(f)[0].ws != ""
  {
    NamePartOk(" ", ":rust-name", f.rustName);
    NamePartOk(" ", ":lisp-name", f.lispName);
    NamePartOk(" ", ":symbol", f.symbol);
    PartsOkThree(NameParts(f)[0], NameParts(f)[1], NameParts(f)[2]);
  }

  lemma ParamsPartOk(f: FnMeta, sep: string)
    requires ValidFn(f) && CleanFn(f) && Spaces(sep) && sep != ""
    ensures PartsOk([ParamsPart(f, sep)]) && ParamsPart(f, sep).ws != ""
  {
    ParamsOk(f, sep);
    assert Spaces("\n   ");
    PartsOkOne(ParamsPart(f, sep));
  }

  predicate Breaks(y: Layout) { Spaces(y.sep) && y.sep != "" && Spaces(y.ws) && y.ws != "" }

  lemma FnOk(f: FnMeta, y: Layout)
    requires ValidFn(f) && CleanFn(f) && Breaks(y)
    ensures PartsOk(FnParts(f, y)) && FnParts(f, y) != [] && FnParts(f, y)[0].ws != ""
  {
    NamePartsOk(f);
    ParamsPartOk(f, y.sep);
    TailOk(f, y.ws);
    PartsOkAppend(NameParts(f), [ParamsPart(f, y.sep)]);
    PartsOkAppend(NameParts(f) + [ParamsPart(f, y.sep)], TailParts(f, y.ws));
  }

  /** Whatever the layout, the text of a function means the same form. */
  lemma FnMeans(f: FnMeta, y: Layout)
    requires ValidFn(f) && CleanFn(f) && Breaks(y)
    ensures Means(Node(":fn", FnParts(f, y)), FnForm(f))
  {
    FnOk(f, y);
    NodeMeans(":fn", FnParts(f, y));
    SameForms(f, y, LayoutOf(f));
  }

  lemma LayoutBreaks(f: FnMeta)
    ensures Breaks(LayoutOf(f))
  {
    assert Breaks(Layout(" ", " ")) && Breaks(Layout(" ", "\n   ")) && Breaks(Layout("\n            ", "\n   "));
  }

  lemma SameForms(f: FnMeta, y: Layout, z: Layout)
    ensures PartsForms(FnParts(f, y)) == PartsForms(FnParts(f, z))
  {
    FormsByKey(FnParts(f, y), FnParts(f, z));
  }

  /** Forms depend on keys and values only, not on white space. */
  lemma {:induction false} FormsByKey(a: seq<Part>, b: seq<Part>)
    requires |a| == |b| && forall i :: 0 <= i < |a| ==> a[i].key == b[i].key && a[i].form == b[i].form
    ensures PartsForms(a) == PartsForms(b)
  {
    if a != [] {
      FormsByKey(a[1..], b[1..]);
    }
  }

  lemma HandleNamesOk(h: HandleMeta)
    requires CleanHandle(h)
    ensures PartsOk(HandleNames(h)) && HandleNames(h)[0].ws != ""
  {
    NamePartOk(" ", ":rust-name", h.rustName);
    NamePartOk(" ", ":lisp-name", h.lispName);
    NamePartOk(" ", ":free", h.freeSymbol);
    PartsOkThree(HandleNames(h)[0], HandleNames(h)[1], HandleNames(h)[2]);
  }

  lemma HandleOk(h: HandleMeta)
    requires CleanHandle(h)
    ensures PartsOk(HandleParts(h)) && HandleParts(h)[0].ws != ""
  {
    HandleNamesOk(h);
    DocOk(h.doc);
    PartsOkAppend(HandleNames(h), DocParts(h.doc));
  }

  lemma HandleMeans(h: HandleMeta)
    requires CleanHandle(h)
    ensures Means(HandlePieces(h), NodeForm(":handle", HandleParts(h)))
  {
    HandleOk(h);
    NodeMeans(":handle", HandleParts(h));
  }

  lemma {:induction false} SeenClean(fns: seq<FnMeta>)
    requires forall i :: 0 <= i < |fns| ==> CleanFn(fns[i])
    ensures forall i :: 0 <= i < |Seen(fns)| ==> Clean(Seen(fns)[i])
  {
    if fns != [] {
      SeenClean(fns[..|fns| - 1]);
    }
  }

  lemma ErrorsMean(c: Crate)
    requires CleanCrate(c)
    ensures Means(Wrap(Join(NamesPieces(Seen(c.fns)), " ")), L(NamesForms(Seen(c.fns))))
  {
    var ns := Seen(c.fns);
    SeenClean(c.fns);
    forall i | 0 <= i < |ns| ensures Means(NamesPieces(ns)[i], NamesForms(ns)[i]) {
      NameMeans(ns[i]);
    }
    JoinMeans(NamesPieces(ns), " ", NamesForms(ns));
  }

  lemma HandlesMean(c: Crate)
    requires CleanCrate(c)
    ensures Means(Wrap(Join(HandlesPieces(c.handles), "\n  ")), L(HandlesForms(c.handles)))
  {
    forall i | 0 <= i < |c.handles| ensures Means(HandlesPieces(c.handles)[i], HandlesForms(c.handles)[i]) {
      HandleMeans(c.handles[i]);
    }
    JoinMeans(HandlesPieces(c.handles), "\n  ", HandlesForms(c.handles));
  }

  lemma FnsMean(c: Crate)
    requires CleanCrate(c) && ValidCrate(c)
    ensures Means(Wrap(Join(FnsPieces(c.fns), "\n  ")), L(FnsForms(c.fns)))
  {
    forall i | 0 <= i < |c.fns| ensures Means(FnsPieces(c.fns)[i], FnsForms(c.fns)[i]) {
      LayoutBreaks(c.fns[i]);
      FnMeans(c.fns[i], LayoutOf(c.fns[i]));
    }
    JoinMeans(FnsPieces(c.fns), "\n  ", FnsForms(c.fns));
  }

  /** Parts that may follow anything. */
  ghost predicate Follows(ps: seq<Part>) { PartsOk(ps) && (ps != [] ==> ps[0].ws != "") }

  lemma FollowsAppend(a: seq<Part>, b: seq<Part>)
    requires Follows(a) && Follows(b)
    ensures Follows(a + b)
  {
    PartsOkAppend(a, b);
    if a == [] { assert a + b == b; }
  }

  lemma HeadOk(c: Crate)
    requires Clean(c.name)
    ensures Follows(HeadParts(c))
  {
    WordPartOk("\n ", ":schema", "1");
    WordPartOk("\n ", ":abi", "1");
    NamePartOk("\n ", ":crate", c.name);
    PartsOkThree(HeadParts(c)[0], HeadParts(c)[1], HeadParts(c)[2]);
  }

  lemma VersionOk(c: Crate)
    requires Clean(c.version) && Clean(c.rulispVersion)
    ensures Follows(VersionParts(c))
  {
    NamePartOk("\n ", ":crate-version", c.version);
    NamePartOk("\n ", ":rulisp-version", c.rulispVersion);
    PartsOkTwo(VersionParts(c)[0], VersionParts(c)[1]);
  }

  lemma TargetOk(c: Crate)
    requires Clean(c.target) && Clean(c.prefix)
    ensures Follows(TargetParts(c))
  {
    NamePartOk("\n ", ":target", c.target);
    NamePartOk("\n ", ":prefix", c.prefix);
    PartsOkTwo(TargetParts(c)[0], TargetParts(c)[1]);
  }

  lemma OnDumpOk(c: Crate)
    requires CleanOpt(c.onDump)
    ensures Follows(OnDumpParts(c.onDump))
  {
    if c.onDump.Some? {
      NamePartOk("\n ", ":on-dump", c.onDump.value);
      PartsOkOne(OnDumpParts(c.onDump)[0]);
    }
  }

  lemma LongWords()
    ensures IsWord(":errors") && IsWord(":handles") && IsWord(":functions") && IsWord(":rulisp-manifest")
    ensures Spaces("\n ") && Spaces("\n  ") && Spaces(" ")
  {
  }

  lemma ErrorsPartOk(names: seq<string>)
    requires Means(Wrap(Join(NamesPieces(names), " ")), L(NamesForms(names)))
    ensures PartOk(ErrorsPart(names))
  {
    LongWords();
  }

  lemma HandlesPartOk(hs: seq<HandleMeta>)
    requires Means(Wrap(Join(HandlesPieces(hs), "\n  ")), L(HandlesForms(hs)))
    ensures PartOk(HandlesPart(hs))
  {
    LongWords();
  }

  lemma FnsPartOk(fns: seq<FnMeta>)
    requires Means(Wrap(Join(FnsPieces(fns), "\n  ")), L(FnsForms(fns)))
    ensures PartOk(FnsPart(fns))
  {
    LongWords();
  }

  lemma ListsOk(c: Crate)
    requires CleanCrate(c) && ValidCrate(c)
    ensures Follows(ListParts(c))
  {
    ErrorsMean(c);
    ErrorsPartOk(Seen(c.fns));
    HandlesMean(c);
    HandlesPartOk(c.handles);
    FnsMean(c);
    FnsPartOk(c.fns);
    PartsOkThree(ErrorsPart(Seen(c.fns)), HandlesPart(c.handles), FnsPart(c.fns));
  }

  lemma CrateOk(c: Crate)
    requires CleanCrate(c) && ValidCrate(c)
    ensures Follows(CrateParts(c))
  {
    HeadOk(c);
    VersionOk(c);
    TargetOk(c);
    OnDumpOk(c);
    ListsOk(c);
    FollowsAppend(HeadParts(c), VersionParts(c));
    FollowsAppend(HeadParts(c) + VersionParts(c), TargetParts(c));
    FollowsAppend(HeadParts(c) + VersionParts(c) + TargetParts(c), OnDumpParts(c.onDump));
    FollowsAppend(HeadParts(c) + VersionParts(c) + TargetParts(c) + OnDumpParts(c.onDump), ListParts(c));
  }

  lemma ManifestMeans(parts: seq<Part>)
    requires Follows(parts)
    ensures Means(Node(":rulisp-manifest", parts), NodeForm(":rulisp-manifest", parts))
  {
    LongWords();
    NodeMeans(":rulisp-manifest", parts);
  }

  lemma CrateMeans(c: Crate)
    requires CleanCrate(c) && ValidCrate(c)
    ensures Means(Node(":rulisp-manifest", CrateParts(c)), CrateForm(c))
  {
    CrateOk(c);
    ManifestMeans(CrateParts(c));
  }

  lemma LineMeans(ps: seq<Piece>, f: Form)
    requires Means(ps, f)
    ensures Read(TextAll(ps + [PS("\n")])) == Some(f)
  {
    TokAppend(ps, [PS("\n")]);
    assert TokAll([PS("\n")]) == [] && TokAll(ps) + [] == TokAll(ps);
    SpelledAppend(ps, [PS("\n")]);
    SpelledTokens(ps + [PS("\n")]);
    assert Toks(f) + [] == Toks(f);
    ReadsBack(TextAll(ps + [PS("\n")]), f, []);
  }

  /** The rendered text reads as exactly one form. */
  lemma TextReads(c: Crate)
    requires CleanCrate(c) && ValidCrate(c)
    ensures Read(TextAll(CratePieces(c))) == Some(CrateForm(c))
  {
    CrateMeans(c);
    LineMeans(Node(":rulisp-manifest", CrateParts(c)), CrateForm(c));
  }
}

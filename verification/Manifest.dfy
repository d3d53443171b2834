/** The export metadata, and the text its renderer prints, spelled in pieces.

    Every list the renderer prints is a head followed by key/value parts; a
    part carries both its spelling and the form it stands for, so that text
    and meaning are built side by side. */
module Manifest {
  import opened Wrappers
  import opened Sexp

  // ----- metadata -----------------------------------------------------------

  datatype ParamTy =
    | Scalar(tok: string)
    | Str
    | Bytes
    | Handle(name: string)
    | Callback(params: seq<ParamTy>, result: string)
    | StoredCallback(params: seq<ParamTy>, result: string)
    | Opt(inner: ParamTy)
    | Vec(tok: string)

  datatype ResultTy =
    | RUnit
    | RScalar(tok: string)
    | RStr
    | RBytes
    | RHandle(name: string)
    | ROpt(inner: ResultTy)
    | RVec(tok: string)

  datatype ParamMeta = ParamMeta(name: string, ty: ParamTy)

  datatype FnMeta = FnMeta(doc: Option<string>, rustName: string, lispName: string, symbol: string,
                           params: seq<ParamMeta>, result: ResultTy, error: Option<string>)

  datatype HandleMeta = HandleMeta(doc: Option<string>, rustName: string, lispName: string, freeSymbol: string)

  datatype Crate = Crate(name: string, version: string, rulispVersion: string, target: string, prefix: string,
                         onDump: Option<string>, handles: seq<HandleMeta>, fns: seq<FnMeta>)

  predicate IsScalar(tok: string) {
    tok in [":i8", ":i16", ":i32", ":i64", ":u8", ":u16", ":u32", ":u64", ":f32", ":f64"]
  }

  // ----- parts --------------------------------------------------------------

  datatype Part = Part(ws: string, key: string, gap: string, pieces: seq<Piece>, form: Form)

  predicate Spaces(s: string) { forall i :: 0 <= i < |s| ==> IsSpace(s[i]) }

  /** A spelling and the form it stands for. */
  ghost predicate Means(ps: seq<Piece>, f: Form) {
    Spelled(ps) && TokAll(ps) == Toks(f)
  }

  ghost predicate PartOk(p: Part) {
    Spaces(p.ws) && IsWord(p.key) && Spaces(p.gap) && p.gap != "" && Means(p.pieces, p.form)
  }

  function PartPieces(p: Part): seq<Piece> {
    [PS(p.ws), PW(p.key), PS(p.gap)] + p.pieces
  }

  function PartsPieces(ps: seq<Part>): seq<Piece> {
    if ps == [] then [] else PartPieces(ps[0]) + PartsPieces(ps[1..])
  }

  function PartsForms(ps: seq<Part>): seq<Form> {
    if ps == [] then [] else [W(ps[0].key), ps[0].form] + PartsForms(ps[1..])
  }

  ghost predicate PartsOk(ps: seq<Part>) {
    (forall i :: 0 <= i < |ps| ==> PartOk(ps[i])) && (forall i :: 0 < i < |ps| ==> ps[i].ws != "")
  }

  lemma Tok3(a: Piece, b: Piece, c: Piece)
    ensures TokAll([a, b, c]) == Tok(a) + Tok(b) + Tok(c)
  {
    assert [a, b, c][1..] == [b, c] && [b, c][1..] == [c] && [c][1..] == [];
    assert TokAll([c]) == Tok(c);
    assert TokAll([b, c]) == Tok(b) + Tok(c);
  }

  lemma PartMeans(p: Part)
    requires PartOk(p)
    ensures Spelled(PartPieces(p)) && TokAll(PartPieces(p)) == Toks(W(p.key)) + Toks(p.form)
  {
    var head := [PS(p.ws), PW(p.key), PS(p.gap)];
    TokAppend(head, p.pieces);
    Tok3(PS(p.ws), PW(p.key), PS(p.gap));
    assert TokAll(head) == [Word(p.key)];
    assert Spelled(head);
    SpelledAppend(head, p.pieces);
  }

  lemma {:induction false} PartsMean(ps: seq<Part>)
    requires PartsOk(ps)
    ensures Spelled(PartsPieces(ps)) && TokAll(PartsPieces(ps)) == ToksAll(PartsForms(ps))
    ensures ps != [] ==> PartsPieces(ps) != [] && PartsPieces(ps)[0] == PS(ps[0].ws)
  {
    if ps != [] {
      var p, rest := ps[0], ps[1..];
      PartMeans(p);
      assert forall i :: 0 <= i < |rest| ==> rest[i] == ps[i + 1];
      PartsMean(rest);
      TokAppend(PartPieces(p), PartsPieces(rest));
      SpelledAppend(PartPieces(p), PartsPieces(rest));
      ToksAllAppend([W(p.key), p.form], PartsForms(rest));
      ToksAllAppend([W(p.key)], [p.form]);
      OneToks(W(p.key));
      OneToks(p.form);
    }
  }

  // ----- lists --------------------------------------------------------------

  /** `(` body `)` */
  function Wrap(ps: seq<Piece>): seq<Piece> { [PO] + ps + [PC] }

  lemma WrapMeans(ps: seq<Piece>, fs: seq<Form>)
    requires Spelled(ps) && TokAll(ps) == ToksAll(fs)
    ensures Means(Wrap(ps), L(fs))
  {
    TokAppend([PO] + ps, [PC]);
    TokAppend([PO], ps);
    assert TokAll([PO]) == [Open] && TokAll([PC]) == [Close];
    SpelledAppend([PO], ps);
    SpelledAppend([PO] + ps, [PC]);
  }

  /** `(` head part part ... `)` */
  function Node(head: string, parts: seq<Part>): seq<Piece> { Wrap([PW(head)] + PartsPieces(parts)) }

  function NodeForm(head: string, parts: seq<Part>): Form { L([W(head)] + PartsForms(parts)) }

  lemma NodeMeans(head: string, parts: seq<Part>)
    requires IsWord(head) && PartsOk(parts) && (parts != [] ==> parts[0].ws != "")
    ensures Means(Node(head, parts), NodeForm(head, parts))
  {
    PartsMean(parts);
    TokAppend([PW(head)], PartsPieces(parts));
    ToksAllAppend([W(head)], PartsForms(parts));
    assert TokAll([PW(head)]) == [Word(head)] && ToksAll([W(head)]) == [Word(head)];
    SpelledAppend([PW(head)], PartsPieces(parts));
    WrapMeans([PW(head)] + PartsPieces(parts), [W(head)] + PartsForms(parts));
  }

  /** A property list without a head. */
  function Plist(parts: seq<Part>): seq<Piece> { Wrap(PartsPieces(parts)) }

  lemma PlistMeans(parts: seq<Part>)
    requires PartsOk(parts)
    ensures Means(Plist(parts), L(PartsForms(parts)))
  {
    PartsMean(parts);
    WrapMeans(PartsPieces(parts), PartsForms(parts));
  }

  /** A pair `(:head value)`. */
  function Pair(head: string, value: seq<Piece>): seq<Piece> { Wrap([PW(head), PS(" ")] + value) }

  lemma PairMeans(head: string, value: seq<Piece>, f: Form)
    requires IsWord(head) && Means(value, f)
    ensures Means(Pair(head, value), L([W(head), f]))
  {
    TokAppend([PW(head), PS(" ")], value);
    assert TokAll([PW(head), PS(" ")]) == [Word(head)] by {
      assert [PW(head), PS(" ")][1..] == [PS(" ")] && [PS(" ")][1..] == [];
    }
    ToksAllAppend([W(head)], [f]);
    OneToks(W(head));
    OneToks(f);
    SpelledAppend([PW(head), PS(" ")], value);
    WrapMeans([PW(head), PS(" ")] + value, [W(head), f]);
  }

  /** Elements with a separator between them, as `if i > 0 { out.push(sep) }` prints. */
  function Join(xs: seq<seq<Piece>>, sep: string): seq<Piece> {
    if xs == [] then []
    else if |xs| == 1 then xs[0]
    else Join(xs[..|xs| - 1], sep) + [PS(sep)] + xs[|xs| - 1]
  }

  lemma {:induction false} JoinSpelled(xs: seq<seq<Piece>>, sep: string)
    requires Spaces(sep) && sep != "" && forall i :: 0 <= i < |xs| ==> Spelled(xs[i])
    ensures Spelled(Join(xs, sep))
  {
    if |xs| > 1 {
      var n := |xs| - 1;
      JoinSpelled(xs[..n], sep);
      SpelledAppend(Join(xs[..n], sep), [PS(sep)]);
      SpelledAppend(Join(xs[..n], sep) + [PS(sep)], xs[n]);
    }
  }

  lemma SepTokens(a: seq<Piece>, sep: string, b: seq<Piece>)
    ensures TokAll(a + [PS(sep)] + b) == TokAll(a) + TokAll(b)
  {
    TokAppend(a + [PS(sep)], b);
    TokAppend(a, [PS(sep)]);
    SpaceTokens(sep);
    assert TokAll(a) + [] == TokAll(a);
  }

  lemma SpaceTokens(s: string)
    ensures TokAll([PS(s)]) == []
  {
    assert [PS(s)][1..] == [];
  }

  lemma JoinStep(done: seq<Piece>, sep: string, x: seq<Piece>, fs: seq<Form>, f: Form)
    requires TokAll(done) == ToksAll(fs) && TokAll(x) == Toks(f)
    ensures TokAll(done + [PS(sep)] + x) == ToksAll(fs + [f])
  {
    SepTokens(done, sep, x);
    ToksAllAppend(fs, [f]);
    OneToks(f);
  }

  lemma OneToks(f: Form)
    ensures ToksAll([f]) == Toks(f)
  {
    assert [f][1..] == [];
    assert Toks(f) + ToksAll([]) == Toks(f);
  }

  ghost predicate SameTokens(ps: seq<Piece>, f: Form) { TokAll(ps) == Toks(f) }

  lemma {:induction false} JoinTokens(xs: seq<seq<Piece>>, sep: string, fs: seq<Form>)
    requires |xs| == |fs| && forall i :: 0 <= i < |xs| ==> SameTokens(xs[i], fs[i])
    ensures TokAll(Join(xs, sep)) == ToksAll(fs)
  {
    var n := |xs| - 1;
    if n == 0 {
      assert SameTokens(xs[0], fs[0]);
      OneToks(fs[0]);
      assert fs == [fs[0]];
    } else if n > 0 {
      assert SameTokens(xs[n], fs[n]);
      JoinTokens(xs[..n], sep, fs[..n]);
      JoinStep(Join(xs[..n], sep), sep, xs[n], fs[..n], fs[n]);
      assert fs == fs[..n] + [fs[n]];
    }
  }

  lemma JoinMeans(xs: seq<seq<Piece>>, sep: string, fs: seq<Form>)
    requires |xs| == |fs| && Spaces(sep) && sep != ""
    requires forall i :: 0 <= i < |xs| ==> Means(xs[i], fs[i])
    ensures Spelled(Join(xs, sep)) && TokAll(Join(xs, sep)) == ToksAll(fs)
    ensures Means(Wrap(Join(xs, sep)), L(fs))
  {
    assert forall i :: 0 <= i < |xs| ==> Spelled(xs[i]) by {
      forall i | 0 <= i < |xs| ensures Spelled(xs[i]) { assert Means(xs[i], fs[i]); }
    }
    JoinSpelled(xs, sep);
    JoinTokens(xs, sep, fs);
    WrapMeans(Join(xs, sep), fs);
  }

  lemma WordMeans(s: string)
    requires IsWord(s)
    ensures Means([PW(s)], W(s))
  {
    assert [PW(s)][1..] == [];
  }

  lemma NameMeans(s: string)
    requires Clean(s)
    ensures Means([PN(s)], Q(s))
  {
    assert [PN(s)][1..] == [];
  }

  lemma DocMeans(s: string)
    ensures Means([PD(s)], Q(s))
  {
    assert [PD(s)][1..] == [];
  }

  // ----- types --------------------------------------------------------------

  function NamePart(ws: string, key: string, name: string): Part { Part(ws, key, " ", [PN(name)], Q(name)) }

  function WordPart(ws: string, key: string, word: string): Part { Part(ws, key, " ", [PW(word)], W(word)) }

  function TyPieces(ty: ParamTy): seq<Piece> {
    match ty
    case Scalar(tok) => [PW(tok)]
    case Str => [PW(":string")]
    case Bytes => [PW(":bytes")]
    case Handle(n) => Pair(":handle", [PN(n)])
    case Callback(ps, r) => Node(":callback", CbParts(TysPieces(ps), TysForms(ps), r))
    case StoredCallback(ps, r) => Node(":stored-callback", CbParts(TysPieces(ps), TysForms(ps), r))
    case Opt(inner) => Pair(":option", TyPieces(inner))
    case Vec(tok) => Pair(":vec", [PW(tok)])
  }

  function TyForm(ty: ParamTy): Form {
    match ty
    case Scalar(tok) => W(tok)
    case Str => W(":string")
    case Bytes => W(":bytes")
    case Handle(n) => L([W(":handle"), Q(n)])
    case Callback(ps, r) => NodeForm(":callback", CbParts(TysPieces(ps), TysForms(ps), r))
    case StoredCallback(ps, r) => NodeForm(":stored-callback", CbParts(TysPieces(ps), TysForms(ps), r))
    case Opt(inner) => L([W(":option"), TyForm(inner)])
    case Vec(tok) => L([W(":vec"), W(tok)])
  }

  function TysPieces(ps: seq<ParamTy>): (r: seq<seq<Piece>>)
    ensures |r| == |ps|
    ensures forall i :: 0 <= i < |ps| ==> r[i] == TyPieces(ps[i])
  {
    if ps == [] then [] else [TyPieces(ps[0])] + TysPieces(ps[1..])
  }

  function TysForms(ps: seq<ParamTy>): (r: seq<Form>)
    ensures |r| == |ps|
    ensures forall i :: 0 <= i < |ps| ==> r[i] == TyForm(ps[i])
  {
    if ps == [] then [] else [TyForm(ps[0])] + TysForms(ps[1..])
  }

  function CbParts(pieces: seq<seq<Piece>>, forms: seq<Form>, result: string): seq<Part> {
    [Part(" ", ":params", " ", Wrap(Join(pieces, " ")), L(forms)), WordPart(" ", ":result", result)]
  }

  function ResultPieces(r: ResultTy): seq<Piece> {
    match r
    case RUnit => [PW(":unit")]
    case RScalar(tok) => [PW(tok)]
    case RStr => [PW(":string")]
    case RBytes => [PW(":bytes")]
    case RHandle(n) => Pair(":handle", [PN(n)])
    case ROpt(inner) => Pair(":option", ResultPieces(inner))
    case RVec(tok) => Pair(":vec", [PW(tok)])
  }

  function ResultForm(r: ResultTy): Form {
    match r
    case RUnit => W(":unit")
    case RScalar(tok) => W(tok)
    case RStr => W(":string")
    case RBytes => W(":bytes")
    case RHandle(n) => L([W(":handle"), Q(n)])
    case ROpt(inner) => L([W(":option"), ResultForm(inner)])
    case RVec(tok) => L([W(":vec"), W(tok)])
  }

  // ----- functions, handles, the crate --------------------------------------

  function ParamParts(p: ParamMeta): seq<Part> {
    [NamePart("", ":name", p.name), Part(" ", ":type", " ", TyPieces(p.ty), TyForm(p.ty))]
  }

  function ParamPieces(p: ParamMeta): seq<Piece> { Plist(ParamParts(p)) }

  function ParamsPieces(ps: seq<ParamMeta>): (r: seq<seq<Piece>>)
    ensures |r| == |ps|
    ensures forall i :: 0 <= i < |ps| ==> r[i] == ParamPieces(ps[i])
  {
    seq(|ps|, i requires 0 <= i < |ps| => ParamPieces(ps[i]))
  }

  function ParamsForms(ps: seq<ParamMeta>): (r: seq<Form>)
    ensures |r| == |ps|
    ensures forall i :: 0 <= i < |ps| ==> r[i] == L(PartsForms(ParamParts(ps[i])))
  {
    seq(|ps|, i requires 0 <= i < |ps| => L(PartsForms(ParamParts(ps[i]))))
  }

  function DocParts(doc: Option<string>): seq<Part> {
    if doc.Some? then [Part("\n   ", ":doc", " ", [PD(doc.value)], Q(doc.value))] else []
  }

  function ErrorPart(error: Option<string>): Part {
    if error.Some? then NamePart(" ", ":error", error.value) else WordPart(" ", ":error", "nil")
  }

  /** Where the line breaks of one function go. */
  datatype Layout = Layout(sep: string, ws: string)

  function NameParts(f: FnMeta): seq<Part> {
    [NamePart(" ", ":rust-name", f.rustName), NamePart(" ", ":lisp-name", f.lispName),
     NamePart(" ", ":symbol", f.symbol)]
  }

  function ParamsPart(f: FnMeta, sep: string): Part {
    Part("\n   ", ":params", " ", Wrap(Join(ParamsPieces(f.params), sep)), L(ParamsForms(f.params)))
  }

  function FnParts(f: FnMeta, y: Layout): seq<Part> {
    NameParts(f) + [ParamsPart(f, y.sep)] + TailParts(f, y.ws)
  }

  function TailParts(f: FnMeta, ws: string): seq<Part> {
    [Part(ws, ":result", " ", ResultPieces(f.result), ResultForm(f.result)), ErrorPart(f.error)] + DocParts(f.doc)
  }

  /** The length in bytes of a Rust `String`. */
  function Utf8Len(s: string): nat {
    if s == "" then 0
    else (var c := s[0] as int; if c < 0x80 then 1 else if c < 0x800 then 2 else if c < 0x1_0000 then 3 else 4)
         + Utf8Len(s[1..])
  }

  const WIDTH: nat := 100

  /** Everything after the name line, on one line. */
  function OneLine(f: FnMeta): string {
    "   " + ":params (" + TextAll(Join(ParamsPieces(f.params), " ")) + ")" + TextAll(PartsPieces(TailParts(f, " "))) + ")"
  }

  function ParamsLine(f: FnMeta): string {
    "   " + ":params (" + TextAll(Join(ParamsPieces(f.params), " ")) + ")"
  }

  /** One line if it fits; else the tail breaks; else the parameters do too. */
  function LayoutOf(f: FnMeta): Layout {
    if Utf8Len(OneLine(f)) <= WIDTH then Layout(" ", " ")
    else if Utf8Len(ParamsLine(f)) <= WIDTH then Layout(" ", "\n   ")
    else Layout("\n            ", "\n   ")
  }

  function FnPieces(f: FnMeta): seq<Piece> { Node(":fn", FnParts(f, LayoutOf(f))) }

  function HandleNames(h: HandleMeta): seq<Part> {
    [NamePart(" ", ":rust-name", h.rustName), NamePart(" ", ":lisp-name", h.lispName),
     NamePart(" ", ":free", h.freeSymbol)]
  }

  function HandleParts(h: HandleMeta): seq<Part> { HandleNames(h) + DocParts(h.doc) }

  function HandlePieces(h: HandleMeta): seq<Piece> { Node(":handle", HandleParts(h)) }

  /** `e !in seen`, `e != "Error"`, in order of first appearance. */
  function Seen(fns: seq<FnMeta>): seq<string> {
    if fns == [] then []
    else
      var seen := Seen(fns[..|fns| - 1]);
      var e := fns[|fns| - 1].error;
      if e.Some? && e.value != "Error" && e.value !in seen then seen + [e.value] else seen
  }

  function NamesPieces(ns: seq<string>): seq<seq<Piece>> {
    seq(|ns|, i requires 0 <= i < |ns| => [PN(ns[i])])
  }

  function NamesForms(ns: seq<string>): seq<Form> {
    seq(|ns|, i requires 0 <= i < |ns| => Q(ns[i]))
  }

  function HandlesPieces(hs: seq<HandleMeta>): seq<seq<Piece>> {
    seq(|hs|, i requires 0 <= i < |hs| => HandlePieces(hs[i]))
  }

  function HandlesForms(hs: seq<HandleMeta>): seq<Form> {
    seq(|hs|, i requires 0 <= i < |hs| => NodeForm(":handle", HandleParts(hs[i])))
  }

  function Each<A, B>(f: A -> B, xs: seq<A>): (r: seq<B>)
    ensures |r| == |xs| && forall i :: 0 <= i < |xs| ==> r[i] == f(xs[i])
  {
    if xs == [] then [] else [f(xs[0])] + Each(f, xs[1..])
  }

  function FnsPieces(fns: seq<FnMeta>): seq<seq<Piece>> { Each(FnPieces, fns) }

  function FnForm(f: FnMeta): Form { NodeForm(":fn", FnParts(f, LayoutOf(f))) }

  function FnsForms(fns: seq<FnMeta>): seq<Form> { Each(FnForm, fns) }

  function OnDumpParts(onDump: Option<string>): seq<Part> {
    if onDump.Some? then [NamePart("\n ", ":on-dump", onDump.value)] else []
  }

  function HeadParts(c: Crate): seq<Part> {
    [WordPart("\n ", ":schema", "1"), WordPart("\n ", ":abi", "1"), NamePart("\n ", ":crate", c.name)]
  }

  function VersionParts(c: Crate): seq<Part> {
    [NamePart("\n ", ":crate-version", c.version), NamePart("\n ", ":rulisp-version", c.rulispVersion)]
  }

  function TargetParts(c: Crate): seq<Part> {
    [NamePart("\n ", ":target", c.target), NamePart("\n ", ":prefix", c.prefix)]
  }

  function ErrorsPart(names: seq<string>): Part {
    Part("\n ", ":errors", " ", Wrap(Join(NamesPieces(names), " ")), L(NamesForms(names)))
  }

  function HandlesPart(hs: seq<HandleMeta>): Part {
    Part("\n ", ":handles", "\n ", Wrap(Join(HandlesPieces(hs), "\n  ")), L(HandlesForms(hs)))
  }

  function FnsPart(fns: seq<FnMeta>): Part {
    Part("\n ", ":functions", "\n ", Wrap(Join(FnsPieces(fns), "\n  ")), L(FnsForms(fns)))
  }

  function ListParts(c: Crate): seq<Part> { [ErrorsPart(Seen(c.fns)), HandlesPart(c.handles), FnsPart(c.fns)] }

  function CrateParts(c: Crate): seq<Part> {
    HeadParts(c) + VersionParts(c) + TargetParts(c) + OnDumpParts(c.onDump) + ListParts(c)
  }

  function CratePieces(c: Crate): seq<Piece> {
    Node(":rulisp-manifest", CrateParts(c)) + [PS("\n")]
  }

  function CrateForm(c: Crate): Form { NodeForm(":rulisp-manifest", CrateParts(c)) }
}

/** Exactly which manifests survive: those without a quote or a backslash in a
    name. */
module ManifestNames {
  import opened Wrappers
  import opened Sexp
  import opened Manifest
  import opened ManifestReader
  import opened ManifestText
  import opened ManifestMarks

  // ----- the price of the metadata, `a` marks for each mark in a name -------

  function NameCost(a: nat, s: string): nat { 2 + a * Marks(s) }

  function OptCost(a: nat, s: Option<string>): nat { if s.Some? then NameCost(a, s.value) else 0 }

  function TyCost(a: nat, ty: ParamTy): nat { if ty.Handle? then NameCost(a, ty.name) else 0 }

  function ResultCost(a: nat, r: ResultTy): nat { if r.RHandle? then NameCost(a, r.name) else 0 }

  function ParamCost(a: nat, p: ParamMeta): nat { NameCost(a, p.name) + TyCost(a, p.ty) }

  function ParamsCost(a: nat, ps: seq<ParamMeta>): nat {
    if ps == [] then 0 else ParamCost(a, ps[0]) + ParamsCost(a, ps[1..])
  }

  function FnCost(a: nat, f: FnMeta): nat {
    NameCost(a, f.rustName) + NameCost(a, f.lispName) + NameCost(a, f.symbol) + ParamsCost(a, f.params)
    + ResultCost(a, f.result) + OptCost(a, f.error) + OptCost(2, f.doc)
  }

  function FnsCost(a: nat, fns: seq<FnMeta>): nat {
    if fns == [] then 0 else FnCost(a, fns[0]) + FnsCost(a, fns[1..])
  }

  function HandleCost(a: nat, h: HandleMeta): nat {
    NameCost(a, h.rustName) + NameCost(a, h.lispName) + NameCost(a, h.freeSymbol) + OptCost(2, h.doc)
  }

  function HandlesCost(a: nat, hs: seq<HandleMeta>): nat {
    if hs == [] then 0 else HandleCost(a, hs[0]) + HandlesCost(a, hs[1..])
  }

  function NamesCost(a: nat, ns: seq<string>): nat {
    if ns == [] then 0 else NameCost(a, ns[0]) + NamesCost(a, ns[1..])
  }

  function CrateCost(a: nat, c: Crate, errors: seq<string>): nat {
    NameCost(a, c.name) + NameCost(a, c.version) + NameCost(a, c.rulispVersion) + NameCost(a, c.target)
    + NameCost(a, c.prefix) + OptCost(a, c.onDump) + NamesCost(a, errors)
    + HandlesCost(a, c.handles) + FnsCost(a, c.fns)
  }

  // ----- a form that decodes to the metadata costs at least its price at two

  lemma TyPrice(f: Form)
    requires DecodeTy(f).Some?
    ensures Due(f) >= TyCost(2, DecodeTy(f).value)
  {
    if DecodeTy(f).value.Handle? {
      assert f.items == [f.items[0]] + [f.items[1]];
      DueAllAppend([f.items[0]], [f.items[1]]);
      DueAllOne(f.items[1]);
    }
  }

  lemma ResultPrice(f: Form)
    requires DecodeResult(f).Some?
    ensures Due(f) >= ResultCost(2, DecodeResult(f).value)
  {
    if DecodeResult(f).value.RHandle? {
      assert f.items == [f.items[0]] + [f.items[1]];
      DueAllAppend([f.items[0]], [f.items[1]]);
      DueAllOne(f.items[1]);
    }
  }

  lemma ParamPrice(f: Form)
    requires DecodeParam(f).Some?
    ensures Due(f) >= ParamCost(2, DecodeParam(f).value)
  {
    var keys := [":name"] + [":type"];
    KeysWithin(f.items, keys);
    KeysCons(f.items, ":name", [":type"]);
    KeysCons(f.items, ":type", []);
    assert [":type"] + [] == [":type"];
    TyPrice(Getf(f.items, ":type").value);
  }

  lemma {:induction false} ParamsPrice(fs: seq<Form>)
    requires DecodeParams(fs).Some?
    ensures DueAll(fs) >= ParamsCost(2, DecodeParams(fs).value)
  {
    if fs != [] {
      ParamPrice(fs[0]);
      ParamsPrice(fs[1..]);
    }
  }

  /** The seven entries of a function are different entries. */
  lemma FnKeys(p: seq<Form>)
    ensures OptDue(Getf(p, ":rust-name")) + OptDue(Getf(p, ":lisp-name")) + OptDue(Getf(p, ":symbol"))
            + OptDue(Getf(p, ":params")) + OptDue(Getf(p, ":result")) + OptDue(Getf(p, ":error"))
            + OptDue(Getf(p, ":doc")) <= DueAll(p)
  {
    var k3 := BodyKeys();
    var k2 := [":symbol"] + k3;
    var k1 := [":lisp-name"] + k2;
    var k0 := [":rust-name"] + k1;
    assert k0 == NameKeys() + BodyKeys();
    FnKeysDistinct();
    KeysWithin(p, k0);
    KeysCons(p, ":rust-name", k1);
    KeysCons(p, ":lisp-name", k2);
    KeysCons(p, ":symbol", k3);
    BodyKeysDue(p);
  }

  function NameKeys(): seq<string> { [":rust-name", ":lisp-name", ":symbol"] }

  function BodyKeys(): seq<string> { [":params", ":result", ":error", ":doc"] }

  lemma FnKeysDistinct()
    ensures Distinct(NameKeys() + BodyKeys())
  {
  }

  lemma BodyKeysDue(p: seq<Form>)
    ensures KeysDue(p, BodyKeys()) == OptDue(Getf(p, ":params")) + OptDue(Getf(p, ":result"))
              + OptDue(Getf(p, ":error")) + OptDue(Getf(p, ":doc"))
  {
    var k6: seq<string> := [":doc"];
    var k5 := [":error"] + k6;
    var k4 := [":result"] + k5;
    KeysCons(p, ":params", k4);
    KeysCons(p, ":result", k5);
    KeysCons(p, ":error", k6);
    KeysCons(p, ":doc", []);
    assert [":doc"] + [] == k6;
    assert BodyKeys() == [":params"] + k4;
  }

  lemma TailDue(f: Form)
    requires f.L? && f.items != []
    ensures Due(f) == Due(f.items[0]) + DueAll(f.items[1..])
  {
  }

  lemma StringPrice(p: seq<Form>, key: string)
    requires GetString(p, key).Some?
    ensures OptDue(Getf(p, key)) == NameCost(2, GetString(p, key).value)
  {
  }

  lemma OptionalPrice(p: seq<Form>, key: string)
    requires GetOptional(p, key).Some?
    ensures OptDue(Getf(p, key)) >= OptCost(2, GetOptional(p, key).value)
  {
  }

  lemma ListPrice(p: seq<Form>, key: string)
    requires GetList(p, key).Some?
    ensures OptDue(Getf(p, key)) == DueAll(GetList(p, key).value)
  {
  }

  lemma FnPrice(f: Form)
    requires DecodeFn(f).Some?
    ensures Due(f) >= FnCost(2, DecodeFn(f).value)
  {
    var p := f.items[1..];
    TailDue(f);
    FnKeys(p);
    StringPrice(p, ":rust-name");
    StringPrice(p, ":lisp-name");
    StringPrice(p, ":symbol");
    OptionalPrice(p, ":error");
    OptionalPrice(p, ":doc");
    ListPrice(p, ":params");
    ParamsPrice(GetList(p, ":params").value);
    ResultPrice(Getf(p, ":result").value);
  }

  lemma {:induction false} FnsPrice(fs: seq<Form>)
    requires DecodeFns(fs).Some?
    ensures DueAll(fs) >= FnsCost(2, DecodeFns(fs).value)
  {
    if fs != [] {
      FnPrice(fs[0]);
      FnsPrice(fs[1..]);
    }
  }

  lemma HandleKeys(p: seq<Form>)
    ensures OptDue(Getf(p, ":rust-name")) + OptDue(Getf(p, ":lisp-name")) + OptDue(Getf(p, ":free"))
            + OptDue(Getf(p, ":doc")) <= DueAll(p)
  {
    var k3: seq<string> := [":doc"];
    var k2 := [":free"] + k3;
    var k1 := [":lisp-name"] + k2;
    var k0 := [":rust-name"] + k1;
    KeysWithin(p, k0);
    KeysCons(p, ":rust-name", k1);
    KeysCons(p, ":lisp-name", k2);
    KeysCons(p, ":free", k3);
    KeysCons(p, ":doc", []);
    assert [":doc"] + [] == k3;
  }

  lemma HandlePrice(f: Form)
    requires DecodeHandle(f).Some?
    ensures Due(f) >= HandleCost(2, DecodeHandle(f).value)
  {
    TailDue(f);
    HandleKeys(f.items[1..]);
  }

  lemma {:induction false} HandlesPrice(fs: seq<Form>)
    requires DecodeHandles(fs).Some?
    ensures DueAll(fs) >= HandlesCost(2, DecodeHandles(fs).value)
  {
    if fs != [] {
      HandlePrice(fs[0]);
      HandlesPrice(fs[1..]);
    }
  }

  lemma {:induction false} NamesPrice(fs: seq<Form>)
    requires DecodeStrings(fs).Some?
    ensures DueAll(fs) >= NamesCost(2, DecodeStrings(fs).value)
  {
    if fs != [] {
      NamesPrice(fs[1..]);
    }
  }

  function ListKeys(): seq<string> { [":errors", ":handles", ":functions"] }

  function HeadKeys(): seq<string> {
    [":crate", ":crate-version", ":rulisp-version", ":target", ":prefix", ":on-dump"]
  }

  lemma CrateKeysDistinct()
    ensures Distinct(HeadKeys() + ListKeys())
  {
  }

  lemma ListKeysDue(p: seq<Form>)
    ensures KeysDue(p, ListKeys()) ==
      OptDue(Getf(p, ":errors")) + OptDue(Getf(p, ":handles")) + OptDue(Getf(p, ":functions"))
  {
    var k: seq<string> := [":functions"];
    KeysCons(p, ":errors", [":handles"] + k);
    KeysCons(p, ":handles", k);
    KeysCons(p, ":functions", []);
    assert [":functions"] + [] == k;
    assert ListKeys() == [":errors"] + ([":handles"] + k);
  }

  lemma CrateKeys(p: seq<Form>)
    ensures OptDue(Getf(p, ":crate")) + OptDue(Getf(p, ":crate-version")) + OptDue(Getf(p, ":rulisp-version"))
            + OptDue(Getf(p, ":target")) + OptDue(Getf(p, ":prefix")) + OptDue(Getf(p, ":on-dump"))
            + OptDue(Getf(p, ":errors")) + OptDue(Getf(p, ":handles")) + OptDue(Getf(p, ":functions")) <= DueAll(p)
  {
    var k6 := ListKeys();
    var k5 := [":on-dump"] + k6;
    var k4 := [":prefix"] + k5;
    var k3 := [":target"] + k4;
    var k2 := [":rulisp-version"] + k3;
    var k1 := [":crate-version"] + k2;
    var k0 := [":crate"] + k1;
    assert k0 == HeadKeys() + ListKeys();
    CrateKeysDistinct();
    KeysWithin(p, k0);
    KeysCons(p, ":crate", k1);
    KeysCons(p, ":crate-version", k2);
    KeysCons(p, ":rulisp-version", k3);
    KeysCons(p, ":target", k4);
    KeysCons(p, ":prefix", k5);
    KeysCons(p, ":on-dump", k6);
    ListKeysDue(p);
  }

  /** What the parts of a loaded manifest cost a reader. */
  function LoadedCost(l: Loaded): nat {
    NameCost(2, l.name) + OptCost(2, l.version) + OptCost(2, l.rulispVersion) + OptCost(2, l.target)
    + NameCost(2, l.prefix) + OptCost(2, l.onDump) + NamesCost(2, l.errors)
    + HandlesCost(2, l.handles) + FnsCost(2, l.fns)
  }

  lemma CratePrice(f: Form)
    requires DecodeCrate(f).Some?
    ensures Due(f) >= LoadedCost(DecodeCrate(f).value)
  {
    var p := f.items[1..];
    TailDue(f);
    CrateKeys(p);
    StringPrice(p, ":crate");
    OptionalPrice(p, ":crate-version");
    OptionalPrice(p, ":rulisp-version");
    OptionalPrice(p, ":target");
    StringPrice(p, ":prefix");
    OptionalPrice(p, ":on-dump");
    ListPrice(p, ":errors");
    ListPrice(p, ":handles");
    ListPrice(p, ":functions");
    NamesPrice(GetList(p, ":errors").value);
    HandlesPrice(GetList(p, ":handles").value);
    FnsPrice(GetList(p, ":functions").value);
  }

  // ----- the renderer pays the price at one ---------------------------------

  function Spent(ps: seq<Piece>): nat { Marks(TextAll(ps)) }

  lemma SpentAppend(a: seq<Piece>, b: seq<Piece>)
    ensures Spent(a + b) == Spent(a) + Spent(b)
  {
    TextAppend(a, b);
    MarksAppend(TextAll(a), TextAll(b));
  }

  lemma SpentOne(p: Piece)
    ensures Spent([p]) == Marks(Text(p))
  {
    assert [p][1..] == [];
    assert TextAll([p]) == Text(p);
  }

  lemma SpentQuoted(body: string)
    ensures Marks("\"" + body + "\"") == 2 + Marks(body)
  {
    MarksAppend("\"" + body, "\"");
    MarksAppend("\"", body);
    MarksOne('"');
    assert ['"'] == "\"";
  }

  lemma SpentName(s: string)
    ensures Spent([PN(s)]) == NameCost(1, s)
  {
    SpentOne(PN(s));
    SpentQuoted(s);
  }

  lemma SpentDoc(s: string)
    ensures Spent([PD(s)]) == NameCost(2, s)
  {
    SpentOne(PD(s));
    SpentQuoted(Escape(s));
    MarksEscape(s);
  }

  lemma SpentPlain(p: Piece)
    requires p.PO? || p.PC? || ((p.PW? || p.PS?) && Clean(p.s))
    ensures Spent([p]) == 0
  {
    SpentOne(p);
    MarksClean(Text(p));
  }

  lemma SpentWrap(ps: seq<Piece>)
    ensures Spent(Wrap(ps)) == Spent(ps)
  {
    SpentAppend([PO] + ps, [PC]);
    SpentAppend([PO], ps);
    SpentPlain(PO);
    SpentPlain(PC);
  }

  function PartsSpent(ps: seq<Part>): nat {
    if ps == [] then 0 else Spent(ps[0].pieces) + PartsSpent(ps[1..])
  }

  predicate Plain(p: Part) { Clean(p.ws) && Clean(p.key) && Clean(p.gap) }

  predicate AllPlain(ps: seq<Part>) { forall i :: 0 <= i < |ps| ==> Plain(ps[i]) }

  lemma SpentThree(a: Piece, b: Piece, c: Piece)
    ensures Spent([a, b, c]) == Spent([a]) + Spent([b]) + Spent([c])
  {
    assert [a, b, c] == [a] + ([b] + [c]);
    SpentAppend([a], [b] + [c]);
    SpentAppend([b], [c]);
  }

  lemma SpentPart(p: Part)
    requires Plain(p)
    ensures Spent(PartPieces(p)) == Spent(p.pieces)
  {
    SpentAppend([PS(p.ws), PW(p.key), PS(p.gap)], p.pieces);
    SpentThree(PS(p.ws), PW(p.key), PS(p.gap));
    SpentPlain(PS(p.ws));
    SpentPlain(PW(p.key));
    SpentPlain(PS(p.gap));
  }

  lemma {:induction false} SpentParts(ps: seq<Part>)
    requires AllPlain(ps)
    ensures Spent(PartsPieces(ps)) == PartsSpent(ps)
  {
    if ps != [] {
      assert forall i :: 0 <= i < |ps| - 1 ==> ps[1..][i] == ps[i + 1];
      SpentPart(ps[0]);
      SpentParts(ps[1..]);
      SpentAppend(PartPieces(ps[0]), PartsPieces(ps[1..]));
    }
  }

  lemma {:induction false} PartsSpentAppend(a: seq<Part>, b: seq<Part>)
    ensures PartsSpent(a + b) == PartsSpent(a) + PartsSpent(b)
  {
    if a == [] {
      assert a + b == b;
    } else {
      assert (a + b)[1..] == a[1..] + b;
      PartsSpentAppend(a[1..], b);
    }
  }

  lemma PartsSpentOne(p: Part)
    ensures PartsSpent([p]) == Spent(p.pieces)
  {
    assert [p][1..] == [];
  }

  lemma PartsSpentTwo(p: Part, q: Part)
    ensures PartsSpent([p, q]) == Spent(p.pieces) + Spent(q.pieces)
  {
    assert [p, q][1..] == [q];
    PartsSpentOne(q);
  }

  lemma PartsSpentThree(p: Part, q: Part, r: Part)
    ensures PartsSpent([p, q, r]) == Spent(p.pieces) + Spent(q.pieces) + Spent(r.pieces)
  {
    assert [p, q, r][1..] == [q, r];
    PartsSpentTwo(q, r);
  }

  lemma SpentNode(head: string, parts: seq<Part>)
    requires Clean(head) && AllPlain(parts)
    ensures Spent(Node(head, parts)) == PartsSpent(parts)
  {
    SpentWrap([PW(head)] + PartsPieces(parts));
    SpentAppend([PW(head)], PartsPieces(parts));
    SpentPlain(PW(head));
    SpentParts(parts);
  }

  lemma SpentPair(head: string, value: seq<Piece>)
    requires Clean(head)
    ensures Spent(Pair(head, value)) == Spent(value)
  {
    SpentWrap([PW(head), PS(" ")] + value);
    SpentAppend([PW(head), PS(" ")], value);
    SpentAppend([PW(head)], [PS(" ")]);
    assert [PW(head)] + [PS(" ")] == [PW(head), PS(" ")];
    SpentPlain(PW(head));
    SpentPlain(PS(" "));
  }

  function AllSpent(xs: seq<seq<Piece>>): nat {
    if xs == [] then 0 else AllSpent(xs[..|xs| - 1]) + Spent(xs[|xs| - 1])
  }

  lemma {:induction false} SpentJoin(xs: seq<seq<Piece>>, sep: string)
    requires Clean(sep)
    ensures Spent(Join(xs, sep)) == AllSpent(xs)
  {
    if |xs| == 1 {
      assert xs[..0] == [];
    } else if |xs| > 1 {
      var n := |xs| - 1;
      SpentJoin(xs[..n], sep);
      SpentAppend(Join(xs[..n], sep) + [PS(sep)], xs[n]);
      SpentAppend(Join(xs[..n], sep), [PS(sep)]);
      SpentPlain(PS(sep));
    }
  }

  lemma {:induction false} AllSpentFront(x: seq<Piece>, xs: seq<seq<Piece>>)
    ensures AllSpent([x] + xs) == Spent(x) + AllSpent(xs)
  {
    var ys := [x] + xs;
    if xs == [] {
      assert ys[..0] == [];
    } else {
      var n := |xs| - 1;
      assert ys[..|ys| - 1] == [x] + xs[..n];
      AllSpentFront(x, xs[..n]);
    }
  }

  // ----- ... for every list of the manifest ---------------------------------

  lemma ScalarClean(tok: string)
    requires IsCbTok(tok) || tok == ":unit" || tok == ":bytes"
    ensures Clean(tok)
  {
    ScalarIsWord(tok);
  }

  lemma SpentWord(s: string)
    requires Clean(s)
    ensures Spent([PW(s)]) == 0
  {
    SpentPlain(PW(s));
  }

  /** The keys and the white space that the renderer prints. */
  lemma EntryKeys()
    ensures Clean(":rust-name") && Clean(":lisp-name") && Clean(":symbol") && Clean(":free")
    ensures Clean(" ") && Clean("")
  {
  }

  lemma TypeKeys()
    ensures Clean(":params") && Clean(":result") && Clean(":name") && Clean(":type") && Clean(":error")
    ensures Clean(":unit") && Clean(" ") && Clean("\n   ") && Clean("")
  {
  }

  lemma HeadKeyLiterals()
    ensures Clean(":schema") && Clean(":abi") && Clean(":crate") && Clean(":target") && Clean(":prefix") && Clean("1")
    ensures Clean("\n ") && Clean(" ") && Clean("\n  ")
  {
  }

  lemma LongKeyLiterals()
    ensures Clean(":crate-version") && Clean(":rulisp-version") && Clean(":on-dump")
    ensures Clean(":errors") && Clean(":handles") && Clean(":functions")
  {
  }

  lemma ManifestLiteral()
    ensures Clean(":rulisp-manifest") && Clean("\n")
  {
  }

  /** A part without marks in its key, and what its value costs. */
  ghost predicate Priced(p: Part, n: nat) { Plain(p) && Spent(p.pieces) == n }

  lemma PartPriced(ws: string, key: string, gap: string, pieces: seq<Piece>, form: Form)
    requires Clean(ws) && Clean(key) && Clean(gap)
    ensures Priced(Part(ws, key, gap, pieces, form), Spent(pieces))
  {
  }

  lemma NamePriced(ws: string, key: string, name: string)
    requires Clean(ws) && Clean(key)
    ensures Priced(NamePart(ws, key, name), NameCost(1, name))
  {
    SpentName(name);
  }

  lemma WordPriced(ws: string, key: string, word: string)
    requires Clean(ws) && Clean(key) && Clean(word)
    ensures Priced(WordPart(ws, key, word), 0)
  {
    SpentWord(word);
  }

  ghost predicate PartsPriced(ps: seq<Part>, n: nat) { AllPlain(ps) && PartsSpent(ps) == n }

  lemma OnePriced(p: Part, n: nat)
    requires Priced(p, n)
    ensures PartsPriced([p], n)
  {
    PartsSpentOne(p);
  }

  lemma TwoPriced(p: Part, n: nat, q: Part, m: nat)
    requires Priced(p, n) && Priced(q, m)
    ensures PartsPriced([p, q], n + m)
  {
    PartsSpentTwo(p, q);
  }

  lemma ThreePriced(p: Part, n: nat, q: Part, m: nat, r: Part, l: nat)
    requires Priced(p, n) && Priced(q, m) && Priced(r, l)
    ensures PartsPriced([p, q, r], n + m + l)
  {
    PartsSpentThree(p, q, r);
  }

  lemma PricedAppend(a: seq<Part>, n: nat, b: seq<Part>, m: nat)
    requires PartsPriced(a, n) && PartsPriced(b, m)
    ensures PartsPriced(a + b, n + m)
  {
    PartsSpentAppend(a, b);
  }

  lemma NodePriced(head: string, parts: seq<Part>, n: nat)
    requires Clean(head) && PartsPriced(parts, n)
    ensures Spent(Node(head, parts)) == n
  {
    SpentNode(head, parts);
  }

  lemma ListSpent(xs: seq<seq<Piece>>, sep: string)
    requires Clean(sep)
    ensures Spent(Wrap(Join(xs, sep))) == AllSpent(xs)
  {
    SpentJoin(xs, sep);
    SpentWrap(Join(xs, sep));
  }

  lemma {:induction false} CbTysSpent(ps: seq<ParamTy>)
    requires forall i :: 0 <= i < |ps| ==> CbParam(ps[i])
    ensures AllSpent(TysPieces(ps)) == 0
  {
    if ps != [] {
      CbTysSpent(ps[1..]);
      ScalarClean(ps[0].tok);
      SpentWord(ps[0].tok);
      AllSpentFront(TyPieces(ps[0]), TysPieces(ps[1..]));
    }
  }

  lemma CbSpent(head: string, ps: seq<ParamTy>)
    requires Clean(head) && forall i :: 0 <= i < |ps| ==> CbParam(ps[i])
    ensures Spent(Node(head, CbParts(TysPieces(ps), TysForms(ps), ":unit"))) == 0
  {
    CbTysSpent(ps);
    CbPriced(TysPieces(ps), TysForms(ps));
    NodePriced(head, CbParts(TysPieces(ps), TysForms(ps), ":unit"), 0);
  }

  lemma CbPriced(pieces: seq<seq<Piece>>, forms: seq<Form>)
    requires AllSpent(pieces) == 0
    ensures PartsPriced(CbParts(pieces, forms, ":unit"), 0)
  {
    TypeKeys();
    ListSpent(pieces, " ");
    PartPriced(" ", ":params", " ", Wrap(Join(pieces, " ")), L(forms));
    WordPriced(" ", ":result", ":unit");
    TwoPriced(Part(" ", ":params", " ", Wrap(Join(pieces, " ")), L(forms)), 0, WordPart(" ", ":result", ":unit"), 0);
  }

  lemma {:induction false} TySpent(ty: ParamTy)
    requires ValidTy(ty)
    ensures Spent(TyPieces(ty)) == TyCost(1, ty)
  {
    match ty
    case Scalar(tok) => ScalarClean(tok); SpentWord(tok);
    case Str => SpentWord(":string");
    case Bytes => SpentWord(":bytes");
    case Handle(n) => SpentName(n); SpentPair(":handle", [PN(n)]);
    case Callback(ps, r) => CbSpent(":callback", ps);
    case StoredCallback(ps, r) => CbSpent(":stored-callback", ps);
    case Opt(inner) => TySpent(inner); SpentPair(":option", TyPieces(inner));
    case Vec(tok) => ScalarClean(tok); SpentWord(tok); SpentPair(":vec", [PW(tok)]);
  }

  lemma {:induction false} ResultSpent(r: ResultTy)
    requires ValidResult(r)
    ensures Spent(ResultPieces(r)) == ResultCost(1, r)
  {
    match r
    case RUnit => SpentWord(":unit");
    case RScalar(tok) => ScalarClean(tok); SpentWord(tok);
    case RStr => SpentWord(":string");
    case RBytes => SpentWord(":bytes");
    case RHandle(n) => SpentName(n); SpentPair(":handle", [PN(n)]);
    case ROpt(inner) => ResultSpent(inner); SpentPair(":option", ResultPieces(inner));
    case RVec(tok) => ScalarClean(tok); SpentWord(tok); SpentPair(":vec", [PW(tok)]);
  }

  lemma ParamSpent(p: ParamMeta)
    requires ValidTy(p.ty)
    ensures Spent(ParamPieces(p)) == ParamCost(1, p)
  {
    TySpent(p.ty);
    ParamPriced(p);
    SpentParts(ParamParts(p));
    SpentWrap(PartsPieces(ParamParts(p)));
  }

  lemma ParamPriced(p: ParamMeta)
    requires Spent(TyPieces(p.ty)) == TyCost(1, p.ty)
    ensures PartsPriced(ParamParts(p), ParamCost(1, p))
  {
    TypeKeys();
    NamePriced("", ":name", p.name);
    PartPriced(" ", ":type", " ", TyPieces(p.ty), TyForm(p.ty));
    TwoPriced(ParamParts(p)[0], NameCost(1, p.name), ParamParts(p)[1], TyCost(1, p.ty));
  }

  lemma ParamsPiecesSplit(ps: seq<ParamMeta>)
    requires ps != []
    ensures ParamsPieces(ps) == [ParamPieces(ps[0])] + ParamsPieces(ps[1..])
  {
  }

  lemma {:induction false} ParamsSpent(ps: seq<ParamMeta>)
    requires forall i :: 0 <= i < |ps| ==> ValidTy(ps[i].ty)
    ensures AllSpent(ParamsPieces(ps)) == ParamsCost(1, ps)
  {
    if ps != [] {
      ParamSpent(ps[0]);
      ParamsSpent(ps[1..]);
      ParamsPiecesSplit(ps);
      AllSpentFront(ParamPieces(ps[0]), ParamsPieces(ps[1..]));
    }
  }

  lemma DocSpent(doc: Option<string>)
    ensures PartsPriced(DocParts(doc), OptCost(2, doc))
  {
    if doc.Some? {
      SpentDoc(doc.value);
      PartsSpentOne(DocParts(doc)[0]);
    }
  }

  lemma ErrorSpent(error: Option<string>)
    ensures Priced(ErrorPart(error), OptCost(1, error))
  {
    TypeKeys();
    if error.Some? { NamePriced(" ", ":error", error.value); } else { WordPriced(" ", ":error", "nil"); }
  }

  lemma TailSpent(f: FnMeta, ws: string)
    requires ValidResult(f.result) && Clean(ws)
    ensures PartsPriced(TailParts(f, ws), ResultCost(1, f.result) + OptCost(1, f.error) + OptCost(2, f.doc))
  {
    var r := Part(ws, ":result", " ", ResultPieces(f.result), ResultForm(f.result));
    ResultSpent(f.result);
    TypeKeys();
    PartPriced(ws, ":result", " ", ResultPieces(f.result), ResultForm(f.result));
    ErrorSpent(f.error);
    DocSpent(f.doc);
    TwoPriced(r, ResultCost(1, f.result), ErrorPart(f.error), OptCost(1, f.error));
    PricedAppend([r, ErrorPart(f.error)], ResultCost(1, f.result) + OptCost(1, f.error), DocParts(f.doc), OptCost(2, f.doc));
  }

  lemma NamesSpent(f: FnMeta)
    ensures PartsPriced(NameParts(f), NameCost(1, f.rustName) + NameCost(1, f.lispName) + NameCost(1, f.symbol))
  {
    EntryKeys();
    NamePriced(" ", ":rust-name", f.rustName);
    NamePriced(" ", ":lisp-name", f.lispName);
    NamePriced(" ", ":symbol", f.symbol);
    ThreePriced(NamePart(" ", ":rust-name", f.rustName), NameCost(1, f.rustName),
                NamePart(" ", ":lisp-name", f.lispName), NameCost(1, f.lispName),
                NamePart(" ", ":symbol", f.symbol), NameCost(1, f.symbol));
  }

  lemma ParamsPartSpent(f: FnMeta, sep: string)
    requires ValidFn(f) && Clean(sep)
    ensures PartsPriced([ParamsPart(f, sep)], ParamsCost(1, f.params))
  {
    ParamsSpent(f.params);
    ListSpent(ParamsPieces(f.params), sep);
    TypeKeys();
    PartPriced("\n   ", ":params", " ", Wrap(Join(ParamsPieces(f.params), sep)), L(ParamsForms(f.params)));
    OnePriced(ParamsPart(f, sep), ParamsCost(1, f.params));
  }

  lemma LayoutClean(f: FnMeta)
    ensures Clean(LayoutOf(f).sep) && Clean(LayoutOf(f).ws)
  {
    assert Clean(" ") && Clean("\n   ") && Clean("\n            ");
  }

  lemma ThreeGroupsPriced(a: seq<Part>, n: nat, b: seq<Part>, m: nat, c: seq<Part>, l: nat)
    requires PartsPriced(a, n) && PartsPriced(b, m) && PartsPriced(c, l)
    ensures PartsPriced(a + b + c, n + m + l)
  {
    PricedAppend(a, n, b, m);
    PricedAppend(a + b, n + m, c, l);
  }

  lemma FnPartsSpent(f: FnMeta, y: Layout)
    requires ValidFn(f) && Clean(y.sep) && Clean(y.ws)
    ensures PartsPriced(FnParts(f, y), FnCost(1, f))
  {
    var n, t := NameCost(1, f.rustName) + NameCost(1, f.lispName) + NameCost(1, f.symbol),
      ResultCost(1, f.result) + OptCost(1, f.error) + OptCost(2, f.doc);
    NamesSpent(f);
    ParamsPartSpent(f, y.sep);
    TailSpent(f, y.ws);
    ThreeGroupsPriced(NameParts(f), n, [ParamsPart(f, y.sep)], ParamsCost(1, f.params), TailParts(f, y.ws), t);
  }

  lemma FnSpent(f: FnMeta)
    requires ValidFn(f)
    ensures Spent(FnPieces(f)) == FnCost(1, f)
  {
    LayoutClean(f);
    FnPartsSpent(f, LayoutOf(f));
    FnNodeSpent(FnParts(f, LayoutOf(f)), FnCost(1, f));
  }

  lemma FnNodeSpent(parts: seq<Part>, n: nat)
    requires PartsPriced(parts, n)
    ensures Spent(Node(":fn", parts)) == n
  {
    NodePriced(":fn", parts, n);
  }

  lemma FnsPiecesSplit(fns: seq<FnMeta>)
    requires fns != []
    ensures FnsPieces(fns) == [FnPieces(fns[0])] + FnsPieces(fns[1..])
  {
  }

  lemma {:induction false} FnsSpent(fns: seq<FnMeta>)
    requires forall i :: 0 <= i < |fns| ==> ValidFn(fns[i])
    ensures AllSpent(FnsPieces(fns)) == FnsCost(1, fns)
  {
    if fns != [] {
      FnSpent(fns[0]);
      FnsSpent(fns[1..]);
      FnsPiecesSplit(fns);
      AllSpentFront(FnPieces(fns[0]), FnsPieces(fns[1..]));
    }
  }

  lemma HandleNamesSpent(h: HandleMeta)
    ensures PartsPriced(HandleNames(h), NameCost(1, h.rustName) + NameCost(1, h.lispName) + NameCost(1, h.freeSymbol))
  {
    EntryKeys();
    NamePriced(" ", ":rust-name", h.rustName);
    NamePriced(" ", ":lisp-name", h.lispName);
    NamePriced(" ", ":free", h.freeSymbol);
    ThreePriced(NamePart(" ", ":rust-name", h.rustName), NameCost(1, h.rustName),
                NamePart(" ", ":lisp-name", h.lispName), NameCost(1, h.lispName),
                NamePart(" ", ":free", h.freeSymbol), NameCost(1, h.freeSymbol));
  }

  lemma HandleNodeSpent(parts: seq<Part>, n: nat)
    requires PartsPriced(parts, n)
    ensures Spent(Node(":handle", parts)) == n
  {
    NodePriced(":handle", parts, n);
  }

  lemma HandleSpent(h: HandleMeta)
    ensures Spent(HandlePieces(h)) == HandleCost(1, h)
  {
    var n := NameCost(1, h.rustName) + NameCost(1, h.lispName) + NameCost(1, h.freeSymbol);
    HandleNamesSpent(h);
    DocSpent(h.doc);
    PricedAppend(HandleNames(h), n, DocParts(h.doc), OptCost(2, h.doc));
    HandleNodeSpent(HandleParts(h), HandleCost(1, h));
  }

  lemma {:induction false} HandlesSpent(hs: seq<HandleMeta>)
    ensures AllSpent(HandlesPieces(hs)) == HandlesCost(1, hs)
  {
    if hs != [] {
      HandleSpent(hs[0]);
      HandlesSpent(hs[1..]);
      assert HandlesPieces(hs) == [HandlePieces(hs[0])] + HandlesPieces(hs[1..]);
      AllSpentFront(HandlePieces(hs[0]), HandlesPieces(hs[1..]));
    }
  }

  lemma NamesPiecesSplit(ns: seq<string>)
    requires ns != []
    ensures NamesPieces(ns) == [[PN(ns[0])]] + NamesPieces(ns[1..])
  {
  }

  lemma {:induction false} ErrorNamesSpent(ns: seq<string>)
    ensures AllSpent(NamesPieces(ns)) == NamesCost(1, ns)
  {
    if ns != [] {
      SpentName(ns[0]);
      ErrorNamesSpent(ns[1..]);
      NamesPiecesSplit(ns);
      AllSpentFront([PN(ns[0])], NamesPieces(ns[1..]));
    }
  }

  lemma ErrorsPriced(names: seq<string>)
    ensures Priced(ErrorsPart(names), NamesCost(1, names))
  {
    HeadKeyLiterals();
    LongKeyLiterals();
    ErrorNamesSpent(names);
    ListSpent(NamesPieces(names), " ");
    PartPriced("\n ", ":errors", " ", Wrap(Join(NamesPieces(names), " ")), L(NamesForms(names)));
  }

  lemma HandlesPriced(hs: seq<HandleMeta>)
    ensures Priced(HandlesPart(hs), HandlesCost(1, hs))
  {
    HeadKeyLiterals();
    LongKeyLiterals();
    HandlesSpent(hs);
    ListSpent(HandlesPieces(hs), "\n  ");
    PartPriced("\n ", ":handles", "\n ", Wrap(Join(HandlesPieces(hs), "\n  ")), L(HandlesForms(hs)));
  }

  lemma FnsPriced(fns: seq<FnMeta>)
    requires forall i :: 0 <= i < |fns| ==> ValidFn(fns[i])
    ensures Priced(FnsPart(fns), FnsCost(1, fns))
  {
    HeadKeyLiterals();
    LongKeyLiterals();
    FnsSpent(fns);
    ListSpent(FnsPieces(fns), "\n  ");
    PartPriced("\n ", ":functions", "\n ", Wrap(Join(FnsPieces(fns), "\n  ")), L(FnsForms(fns)));
  }

  lemma ListsPriced(c: Crate)
    requires ValidCrate(c)
    ensures PartsPriced(ListParts(c), NamesCost(1, Seen(c.fns)) + HandlesCost(1, c.handles) + FnsCost(1, c.fns))
  {
    ErrorsPriced(Seen(c.fns));
    HandlesPriced(c.handles);
    FnsPriced(c.fns);
    ThreePriced(ErrorsPart(Seen(c.fns)), NamesCost(1, Seen(c.fns)), HandlesPart(c.handles), HandlesCost(1, c.handles),
                FnsPart(c.fns), FnsCost(1, c.fns));
  }

  lemma HeadPriced(c: Crate)
    ensures PartsPriced(HeadParts(c), NameCost(1, c.name))
  {
    HeadKeyLiterals();
    WordPriced("\n ", ":schema", "1");
    WordPriced("\n ", ":abi", "1");
    NamePriced("\n ", ":crate", c.name);
    ThreePriced(WordPart("\n ", ":schema", "1"), 0, WordPart("\n ", ":abi", "1"), 0,
                NamePart("\n ", ":crate", c.name), NameCost(1, c.name));
  }

  lemma VersionsPriced(c: Crate)
    ensures PartsPriced(VersionParts(c), NameCost(1, c.version) + NameCost(1, c.rulispVersion))
  {
    HeadKeyLiterals();
    LongKeyLiterals();
    NamePriced("\n ", ":crate-version", c.version);
    NamePriced("\n ", ":rulisp-version", c.rulispVersion);
    TwoPriced(NamePart("\n ", ":crate-version", c.version), NameCost(1, c.version),
              NamePart("\n ", ":rulisp-version", c.rulispVersion), NameCost(1, c.rulispVersion));
  }

  lemma TargetPriced(c: Crate)
    ensures PartsPriced(TargetParts(c), NameCost(1, c.target) + NameCost(1, c.prefix))
  {
    HeadKeyLiterals();
    NamePriced("\n ", ":target", c.target);
    NamePriced("\n ", ":prefix", c.prefix);
    TwoPriced(NamePart("\n ", ":target", c.target), NameCost(1, c.target),
              NamePart("\n ", ":prefix", c.prefix), NameCost(1, c.prefix));
  }

  lemma OnDumpPriced(onDump: Option<string>)
    ensures PartsPriced(OnDumpParts(onDump), OptCost(1, onDump))
  {
    if onDump.Some? {
      HeadKeyLiterals();
      LongKeyLiterals();
      NamePriced("\n ", ":on-dump", onDump.value);
      OnePriced(NamePart("\n ", ":on-dump", onDump.value), NameCost(1, onDump.value));
    }
  }

  lemma CrateCostSum(c: Crate, errors: seq<string>)
    ensures CrateCost(1, c, errors) == NameCost(1, c.name) + (NameCost(1, c.version) + NameCost(1, c.rulispVersion))
      + (NameCost(1, c.target) + NameCost(1, c.prefix)) + OptCost(1, c.onDump)
      + (NamesCost(1, errors) + HandlesCost(1, c.handles) + FnsCost(1, c.fns))
  {
  }

  /** The parts before the lists. */
  lemma FrontPriced(c: Crate)
    ensures PartsPriced(HeadParts(c) + VersionParts(c) + TargetParts(c) + OnDumpParts(c.onDump), FrontCost(c))
  {
    var n1, n2, n3, n4 := NameCost(1, c.name), NameCost(1, c.version) + NameCost(1, c.rulispVersion),
      NameCost(1, c.target) + NameCost(1, c.prefix), OptCost(1, c.onDump);
    HeadPriced(c);
    VersionsPriced(c);
    TargetPriced(c);
    OnDumpPriced(c.onDump);
    PricedAppend(HeadParts(c), n1, VersionParts(c), n2);
    PricedAppend(HeadParts(c) + VersionParts(c), n1 + n2, TargetParts(c), n3);
    PricedAppend(HeadParts(c) + VersionParts(c) + TargetParts(c), n1 + n2 + n3, OnDumpParts(c.onDump), n4);
  }

  ghost function FrontCost(c: Crate): nat {
    NameCost(1, c.name) + (NameCost(1, c.version) + NameCost(1, c.rulispVersion))
    + (NameCost(1, c.target) + NameCost(1, c.prefix)) + OptCost(1, c.onDump)
  }

  lemma CratePriced(c: Crate)
    requires ValidCrate(c)
    ensures PartsPriced(CrateParts(c), CrateCost(1, c, Seen(c.fns)))
  {
    var n5 := NamesCost(1, Seen(c.fns)) + HandlesCost(1, c.handles) + FnsCost(1, c.fns);
    FrontPriced(c);
    ListsPriced(c);
    PricedAppend(HeadParts(c) + VersionParts(c) + TargetParts(c) + OnDumpParts(c.onDump), FrontCost(c), ListParts(c), n5);
    CrateCostSum(c, Seen(c.fns));
  }

  lemma ManifestSpent(parts: seq<Part>, n: nat)
    requires PartsPriced(parts, n)
    ensures Spent(Node(":rulisp-manifest", parts) + [PS("\n")]) == n
  {
    ManifestLiteral();
    SpentAppend(Node(":rulisp-manifest", parts), [PS("\n")]);
    SpentPlain(PS("\n"));
    NodePriced(":rulisp-manifest", parts, n);
  }

  lemma CrateSpent(c: Crate)
    requires ValidCrate(c)
    ensures Spent(CratePieces(c)) == CrateCost(1, c, Seen(c.fns))
  {
    CratePriced(c);
    ManifestSpent(CrateParts(c), CrateCost(1, c, Seen(c.fns)));
  }

  // ----- paying two with one ------------------------------------------------

  lemma NameGap(s: string)
    ensures NameCost(1, s) <= NameCost(2, s)
    ensures NameCost(1, s) == NameCost(2, s) ==> Clean(s)
  {
    MarksClean(s);
  }

  lemma OptGap(s: Option<string>)
    ensures OptCost(1, s) <= OptCost(2, s)
    ensures OptCost(1, s) == OptCost(2, s) ==> CleanOpt(s)
  {
    if s.Some? { NameGap(s.value); }
  }

  lemma {:induction false} ParamsGap(ps: seq<ParamMeta>)
    ensures ParamsCost(1, ps) <= ParamsCost(2, ps)
    ensures ParamsCost(1, ps) == ParamsCost(2, ps) ==>
      (forall i :: 0 <= i < |ps| ==> Clean(ps[i].name) && CleanTy(ps[i].ty))
  {
    if ps != [] {
      ParamsGap(ps[1..]);
      NameGap(ps[0].name);
      if ps[0].ty.Handle? { NameGap(ps[0].ty.name); }
      assert forall i :: 0 < i < |ps| ==> ps[i] == ps[1..][i - 1];
    }
  }

  lemma FnGap(f: FnMeta)
    ensures FnCost(1, f) <= FnCost(2, f)
    ensures FnCost(1, f) == FnCost(2, f) ==> CleanFn(f)
  {
    NameGap(f.rustName);
    NameGap(f.lispName);
    NameGap(f.symbol);
    ParamsGap(f.params);
    if f.result.RHandle? { NameGap(f.result.name); }
    OptGap(f.error);
  }

  lemma {:induction false} FnsGap(fns: seq<FnMeta>)
    ensures FnsCost(1, fns) <= FnsCost(2, fns)
    ensures FnsCost(1, fns) == FnsCost(2, fns) ==> (forall i :: 0 <= i < |fns| ==> CleanFn(fns[i]))
  {
    if fns != [] {
      FnsGap(fns[1..]);
      FnGap(fns[0]);
      assert forall i :: 0 < i < |fns| ==> fns[i] == fns[1..][i - 1];
    }
  }

  lemma {:induction false} HandlesGap(hs: seq<HandleMeta>)
    ensures HandlesCost(1, hs) <= HandlesCost(2, hs)
    ensures HandlesCost(1, hs) == HandlesCost(2, hs) ==> (forall i :: 0 <= i < |hs| ==> CleanHandle(hs[i]))
  {
    if hs != [] {
      HandlesGap(hs[1..]);
      NameGap(hs[0].rustName);
      NameGap(hs[0].lispName);
      NameGap(hs[0].freeSymbol);
      assert forall i :: 0 < i < |hs| ==> hs[i] == hs[1..][i - 1];
    }
  }

  lemma {:induction false} NamesGap(ns: seq<string>)
    ensures NamesCost(1, ns) <= NamesCost(2, ns)
  {
    if ns != [] {
      NamesGap(ns[1..]);
      NameGap(ns[0]);
    }
  }

  lemma CrateGap(c: Crate, errors: seq<string>)
    requires CrateCost(2, c, errors) <= CrateCost(1, c, errors)
    ensures CleanCrate(c)
  {
    NameGap(c.name);
    NameGap(c.version);
    NameGap(c.rulispVersion);
    NameGap(c.target);
    NameGap(c.prefix);
    OptGap(c.onDump);
    NamesGap(errors);
    HandlesGap(c.handles);
    FnsGap(c.fns);
  }

  /** Render, read, and get the same metadata: only with clean names. */
  lemma OnlyClean(c: Crate)
    requires ValidCrate(c)
    ensures ReadManifest(TextAll(CratePieces(c))) == Some(LoadedFrom(c)) ==> CleanCrate(c)
  {
    var text := TextAll(CratePieces(c));
    if ReadManifest(text) == Some(LoadedFrom(c)) {
      ReadDue(text);
      CratePrice(Read(text).value);
      CrateSpent(c);
      CrateGap(c, Seen(c.fns));
    }
  }
}

/** The text of a manifest to the byte, as strings: where the spaces, quotes and
    line breaks go, and which of its three shapes a function is printed in. */
module ManifestLayout {
  import opened Wrappers
  import opened Sexp
  import opened Manifest
  import opened ManifestPrinter
  import opened ManifestRoundTrip

  /** Texts with a separator between any two. */
  function Strung(xs: seq<string>, sep: string): string {
    if xs == [] then "" else if |xs| == 1 then xs[0] else Strung(xs[..|xs| - 1], sep) + sep + xs[|xs| - 1]
  }

  function Quote(s: string): string { "\"" + s + "\"" }

  /** A key, and a name between quotes. */
  function Key(key: string, name: string): string { key + " " + Quote(name) }

  function DocText(doc: Option<string>): string {
    if doc.Some? then "\n   :doc " + Quote(Escape(doc.value)) else ""
  }

  // ----- types --------------------------------------------------------------

  function TyText(ty: ParamTy): string {
    match ty
    case Scalar(tok) => tok
    case Str => ":string"
    case Bytes => ":bytes"
    case Handle(n) => "(:handle " + Quote(n) + ")"
    case Callback(ps, r) => "(:callback :params (" + Strung(TyTexts(ps), " ") + ") :result " + r + ")"
    case StoredCallback(ps, r) => "(:stored-callback :params (" + Strung(TyTexts(ps), " ") + ") :result " + r + ")"
    case Opt(inner) => "(:option " + TyText(inner) + ")"
    case Vec(tok) => "(:vec " + tok + ")"
  }

  function TyTexts(ps: seq<ParamTy>): (r: seq<string>)
    ensures |r| == |ps| && forall i :: 0 <= i < |ps| ==> r[i] == TyText(ps[i])
  {
    if ps == [] then [] else [TyText(ps[0])] + TyTexts(ps[1..])
  }

  function ResultText(r: ResultTy): string {
    match r
    case RUnit => ":unit"
    case RScalar(tok) => tok
    case RStr => ":string"
    case RBytes => ":bytes"
    case RHandle(n) => "(:handle " + Quote(n) + ")"
    case ROpt(inner) => "(:option " + ResultText(inner) + ")"
    case RVec(tok) => "(:vec " + tok + ")"
  }

  lemma {:induction false} StrungIs(xs: seq<seq<Piece>>, ts: seq<string>, sep: string)
    requires |ts| == |xs| && forall i :: 0 <= i < |xs| ==> TextAll(xs[i]) == ts[i]
    ensures JoinText(xs, sep) == Strung(ts, sep)
  {
    var n := |xs| - 1;
    if n >= 1 {
      StrungIs(xs[..n], ts[..n], sep);
      TextAppend(Join(xs[..n], sep) + [PS(sep)], xs[n]);
      TextAppend(Join(xs[..n], sep), [PS(sep)]);
      OneText(PS(sep));
    }
  }

  lemma PairIs(head: string, open: string, value: seq<Piece>)
    requires open == "(" + head + " "
    ensures TextAll(Pair(head, value)) == open + TextAll(value) + ")"
  {
    PairText(head, value);
    Assoc2("(" + head, " ", TextAll(value));
  }

  lemma CallbackIs(head: string, open: string, ps: seq<ParamTy>, r: string)
    requires open == "(" + head + " :params (" && JoinText(TysPieces(ps), " ") == Strung(TyTexts(ps), " ")
    ensures TextAll(Node(head, CbParts(TysPieces(ps), TysForms(ps), r))) == open + Strung(TyTexts(ps), " ") + ") :result " + r + ")"
  {
    var j := Strung(TyTexts(ps), " ");
    CbText("", head, ps, r);
    PartTextIs(CbParamsPart(ps));
    WrapText(Join(TysPieces(ps), " "));
    PartTextIs(WordPart(" ", ":result", r));
    OneText(PW(r));
    CallbackStrings(head, open, j, r);
    EmptyFront(TextAll(Node(head, CbParts(TysPieces(ps), TysForms(ps), r))));
  }

  lemma EmptyFront(s: string)
    ensures "" + s == s
  {
  }

  lemma CallbackStrings(head: string, open: string, j: string, r: string)
    requires open == "(" + head + " :params ("
    ensures "" + "(" + head + (" " + ":params" + " " + ("(" + j + ")")) + (" " + ":result" + " " + r) + ")"
         == open + j + ") :result " + r + ")"
  {
    assert " :params (" == " " + ":params" + " " + "(";
    assert ") :result " == ")" + (" " + ":result" + " ");
    assert "" + "(" == "(";
    assert "(" + head + (" " + ":params" + " " + ("(" + j + ")")) == open + j + ")";
    assert open + j + ")" + (" " + ":result" + " " + r) == open + j + ") :result " + r;
  }

  lemma HandleTyIs(n: string)
    ensures TextAll(Pair(":handle", [PN(n)])) == "(:handle " + Quote(n) + ")"
  {
    PairIs(":handle", "(:handle ", [PN(n)]);
    OneText(PN(n));
  }

  lemma VecTyIs(tok: string)
    ensures TextAll(Pair(":vec", [PW(tok)])) == "(:vec " + tok + ")"
  {
    PairIs(":vec", "(:vec ", [PW(tok)]);
    OneText(PW(tok));
  }

  lemma CallbackOpens()
    ensures "(:callback :params (" == "(" + ":callback" + " :params ("
  {
  }

  lemma StoredOpens()
    ensures "(:stored-callback :params (" == "(" + ":stored-callback" + " :params ("
  {
  }

  lemma CallbackTyIs(ps: seq<ParamTy>, r: string)
    requires JoinText(TysPieces(ps), " ") == Strung(TyTexts(ps), " ")
    ensures TextAll(TyPieces(Callback(ps, r))) == TyText(Callback(ps, r))
  {
    CallbackOpens();
    CallbackIs(":callback", "(:callback :params (", ps, r);
  }

  lemma StoredTyIs(ps: seq<ParamTy>, r: string)
    requires JoinText(TysPieces(ps), " ") == Strung(TyTexts(ps), " ")
    ensures TextAll(TyPieces(StoredCallback(ps, r))) == TyText(StoredCallback(ps, r))
  {
    StoredOpens();
    CallbackIs(":stored-callback", "(:stored-callback :params (", ps, r);
  }

  lemma OptTyIs(value: seq<Piece>)
    ensures TextAll(Pair(":option", value)) == "(:option " + TextAll(value) + ")"
  {
    PairIs(":option", "(:option ", value);
  }

  lemma {:induction false} TyTextIs(ty: ParamTy)
    ensures TextAll(TyPieces(ty)) == TyText(ty)
  {
    match ty
    case Scalar(tok) => OneText(PW(tok));
    case Str => OneText(PW(":string"));
    case Bytes => OneText(PW(":bytes"));
    case Handle(n) => HandleTyIs(n);
    case Callback(ps, r) => TyTextsAre(ps); CallbackTyIs(ps, r);
    case StoredCallback(ps, r) => TyTextsAre(ps); StoredTyIs(ps, r);
    case Opt(inner) => TyTextIs(inner); OptTyIs(TyPieces(inner));
    case Vec(tok) => VecTyIs(tok);
  }

  lemma {:induction false} TyTextsAre(ps: seq<ParamTy>)
    ensures JoinText(TysPieces(ps), " ") == Strung(TyTexts(ps), " ")
  {
    forall i | 0 <= i < |ps| ensures TextAll(TysPieces(ps)[i]) == TyTexts(ps)[i] { TyTextIs(ps[i]); }
    StrungIs(TysPieces(ps), TyTexts(ps), " ");
  }

  lemma {:induction false} ResultTextIs(r: ResultTy)
    ensures TextAll(ResultPieces(r)) == ResultText(r)
  {
    match r
    case RUnit => OneText(PW(":unit"));
    case RScalar(tok) => OneText(PW(tok));
    case RStr => OneText(PW(":string"));
    case RBytes => OneText(PW(":bytes"));
    case RHandle(n) => HandleTyIs(n);
    case ROpt(inner) => ResultTextIs(inner); OptTyIs(ResultPieces(inner));
    case RVec(tok) => VecTyIs(tok);
  }

  // ----- one function -------------------------------------------------------

  function ParamText(p: ParamMeta): string { "(" + Key(":name", p.name) + " :type " + TyText(p.ty) + ")" }

  function ParamTexts(ps: seq<ParamMeta>): seq<string> { seq(|ps|, i requires 0 <= i < |ps| => ParamText(ps[i])) }

  function NameLine(f: FnMeta): string {
    "(:fn" + Key(" :rust-name", f.rustName) + Key(" :lisp-name", f.lispName) + Key(" :symbol", f.symbol)
  }

  function ErrorText(error: Option<string>): string { if error.Some? then Quote(error.value) else "nil" }

  function Tail(f: FnMeta): string {
    ":result " + ResultText(f.result) + " :error " + ErrorText(f.error) + DocText(f.doc) + ")"
  }

  function ParamLine(f: FnMeta, sep: string): string { "   :params (" + Strung(ParamTexts(f.params), sep) + ")" }

  // The bytes of a text, and back.

  function Utf8Char(c: char): seq<int> {
    var x := c as int;
    if x < 0x80 then [x]
    else if x < 0x800 then [0xC0 + x / 64, 0x80 + x % 64]
    else if x < 0x1_0000 then [0xE0 + x / 4096, 0x80 + x / 64 % 64, 0x80 + x % 64]
    else [0xF0 + x / 262144, 0x80 + x / 4096 % 64, 0x80 + x / 64 % 64, 0x80 + x % 64]
  }

  function Utf8(s: string): seq<int> { if s == "" then [] else Utf8Char(s[0]) + Utf8(s[1..]) }

  lemma {:induction false} Utf8Length(s: string)
    ensures |Utf8(s)| == Utf8Len(s)
  {
    if s != "" { Utf8Length(s[1..]); }
  }

  /** The character at the front of some bytes, by its first byte, and how many it takes. */
  function FrontChar(bs: seq<int>): (int, nat)
    requires bs != []
  {
    var b, b1, b2, b3 := bs[0], At(bs, 1), At(bs, 2), At(bs, 3);
    if b < 0x80 then (b, 1)
    else if b < 0xE0 then ((b - 0xC0) * 64 + b1, 2)
    else if b < 0xF0 then ((b - 0xE0) * 4096 + b1 * 64 + b2, 3)
    else ((b - 0xF0) * 262144 + b1 * 4096 + b2 * 64 + b3, 4)
  }

  /** What a continuation byte carries. */
  function At(bs: seq<int>, i: nat): int { if i < |bs| then bs[i] - 0x80 else 0 }

  /** The first character of a text is what its bytes begin with. */
  lemma Utf8Front(s: string)
    requires s != ""
    ensures Utf8(s) != [] && FrontChar(Utf8(s)) == (s[0] as int, |Utf8Char(s[0])|)
    ensures Utf8(s)[|Utf8Char(s[0])|..] == Utf8(s[1..])
  {
    FrontOf(s[0], Utf8(s[1..]));
  }

  lemma FrontOf(c: char, rest: seq<int>)
    ensures FrontChar(Utf8Char(c) + rest) == (c as int, |Utf8Char(c)|)
  {
    var x, bs := c as int, Utf8Char(c) + rest;
    assert bs[0] == Utf8Char(c)[0];
    if x < 0x800 {
      SplitOnce(x);
    } else if x < 0x1_0000 {
      SplitTwice(x);
    } else {
      SplitThrice(x);
    }
  }

  lemma SplitOnce(x: nat)
    ensures x == x / 64 * 64 + x % 64 && 0 <= x % 64 < 64
    ensures x < 0x800 ==> x / 64 < 32
  {
  }

  lemma SplitTwice(x: nat)
    ensures x == x / 4096 * 4096 + x / 64 % 64 * 64 + x % 64
    ensures x < 0x1_0000 ==> x / 4096 < 16
  {
    SplitOnce(x);
    SplitOnce(x / 64);
    assert x / 4096 == x / 64 / 64;
  }

  lemma SplitThrice(x: nat)
    ensures x == x / 262144 * 262144 + x / 4096 % 64 * 4096 + x / 64 % 64 * 64 + x % 64
  {
    SplitTwice(x);
    SplitOnce(x / 4096);
    assert x / 262144 == x / 4096 / 64;
  }

  /** Texts with the same bytes are the same. */
  lemma {:induction false} Utf8Injective(s: string, t: string)
    requires Utf8(s) == Utf8(t)
    ensures s == t
  {
    if s != "" && t != "" {
      Utf8Front(s);
      Utf8Front(t);
      Utf8Injective(s[1..], t[1..]);
      assert s == [s[0]] + s[1..] && t == [t[0]] + t[1..];
    } else if s != "" {
      Utf8Front(s);
    } else if t != "" {
      Utf8Front(t);
    }
  }

  /** What follows the name line: all on one line of at most 100 bytes, or the
      parameters on such a line and the rest on the next, or each parameter on a
      line of its own. */
  function Fitted(f: FnMeta): string {
    if |Utf8(ParamLine(f, " ") + " " + Tail(f))| <= 100 then ParamLine(f, " ") + " " + Tail(f)
    else if |Utf8(ParamLine(f, " "))| <= 100 then ParamLine(f, " ") + "\n   " + Tail(f)
    else ParamLine(f, "\n            ") + "\n   " + Tail(f)
  }

  function FnText(f: FnMeta): string { NameLine(f) + "\n" + Fitted(f) }

  lemma NameIs(ws: string, word: string, key: string, name: string)
    requires key == ws + word
    ensures PartText(NamePart(ws, word, name)) == Key(key, name)
  {
    PartTextIs(NamePart(ws, word, name));
    OneText(PN(name));
  }

  lemma ParamTextIs(p: ParamMeta)
    ensures TextAll(ParamPieces(p)) == ParamText(p)
  {
    var a, b := ParamParts(p)[0], ParamParts(p)[1];
    WrapText(PartsPieces([a, b]));
    PartsTextTwo(a, b);
    PartTextIs(b);
    NameIs("", ":name", ":name", p.name);
    TyTextIs(p.ty);
    ParamStrings(Key(":name", p.name), TyText(p.ty));
  }

  lemma ParamStrings(a: string, t: string)
    ensures "(" + (a + (" " + ":type" + " " + t)) + ")" == "(" + a + " :type " + t + ")"
  {
    assert " :type " == " " + ":type" + " ";
  }

  lemma ParamTextsAre(ps: seq<ParamMeta>, sep: string)
    ensures JoinText(ParamsPieces(ps), sep) == Strung(ParamTexts(ps), sep)
  {
    forall i | 0 <= i < |ps| ensures TextAll(ParamsPieces(ps)[i]) == ParamTexts(ps)[i] { ParamTextIs(ps[i]); }
    StrungIs(ParamsPieces(ps), ParamTexts(ps), sep);
  }

  lemma NameLineIs(f: FnMeta)
    ensures "(" + ":fn" + PartsText(NameParts(f)) == NameLine(f)
  {
    var ps := NameParts(f);
    PartsTextThree(ps[0], ps[1], ps[2]);
    NameIs(" ", ":rust-name", " :rust-name", f.rustName);
    NameIs(" ", ":lisp-name", " :lisp-name", f.lispName);
    NameIs(" ", ":symbol", " :symbol", f.symbol);
    assert "(" + ":fn" == "(:fn";
    Assoc3("(:fn", PartText(ps[0]), PartText(ps[1]), PartText(ps[2]));
  }

  lemma DocTextIs(doc: Option<string>)
    ensures PartsText(DocParts(doc)) == DocText(doc)
  {
    if doc.Some? {
      var p := DocParts(doc)[0];
      PartsTextOne(p);
      PartTextIs(p);
      OneText(PD(doc.value));
      assert "\n   :doc " == "\n   " + ":doc" + " ";
    }
  }

  lemma ErrorTextIs(error: Option<string>)
    ensures PartText(ErrorPart(error)) == " :error " + ErrorText(error)
  {
    PartTextIs(ErrorPart(error));
    assert " :error " == " " + ":error" + " ";
    if error.Some? { OneText(PN(error.value)); } else { OneText(PW("nil")); }
  }

  lemma TailIs(f: FnMeta)
    ensures TailText(f) + ")" == Tail(f)
  {
    TailSplit(f, "");
    PartTextIs(Part("", ":result", " ", ResultPieces(f.result), ResultForm(f.result)));
    ResultTextIs(f.result);
    ErrorTextIs(f.error);
    DocTextIs(f.doc);
    assert "" + ":result" + " " == ":result ";
    Assoc2(":result " + ResultText(f.result), " :error ", ErrorText(f.error));
  }

  lemma ParamLineIs(f: FnMeta, sep: string)
    ensures "   " + ":params (" + JoinText(ParamsPieces(f.params), sep) + ")" == ParamLine(f, sep)
  {
    ParamTextsAre(f.params, sep);
    assert "   " + ":params (" == "   :params (";
  }

  /** Whatever the layout, what is printed before and after its breaks. */
  lemma InLayout(f: FnMeta, y: Layout)
    ensures TextAll(Node(":fn", FnParts(f, y))) == NameLine(f) + "\n" + (ParamLine(f, y.sep) + y.ws + Tail(f))
  {
    ManifestPrinter.FnText(f, y);
    NameLineIs(f);
    TailIs(f);
    ParamLineIs(f, y.sep);
    FnStrings(NameLine(f), ParamLine(f, y.sep), y.ws, Tail(f));
  }

  lemma WidthsAre(f: FnMeta)
    ensures OneLine(f) == ParamLine(f, " ") + " " + Tail(f) && ParamsLine(f) == ParamLine(f, " ")
  {
    OneLineText(f);
    TailIs(f);
    ParamLineIs(f, " ");
  }

  /** A function is printed to the byte as this text. */
  lemma FnTextIs(f: FnMeta)
    ensures TextAll(FnPieces(f)) == FnText(f)
  {
    InLayout(f, LayoutOf(f));
    WidthsAre(f);
    Utf8Length(OneLine(f));
    Utf8Length(ParamsLine(f));
  }

  lemma FnStrings(n: string, p: string, ws: string, t: string)
    ensures n + "\n" + p + ws + t == n + "\n" + (p + ws + t)
  {
  }

  // ----- the whole text -----------------------------------------------------

  function HandleText(h: HandleMeta): string {
    "(:handle" + Key(" :rust-name", h.rustName) + Key(" :lisp-name", h.lispName) + Key(" :free", h.freeSymbol)
    + DocText(h.doc) + ")"
  }

  function HandleTexts(hs: seq<HandleMeta>): seq<string> { seq(|hs|, i requires 0 <= i < |hs| => HandleText(hs[i])) }

  function FnTexts(fns: seq<FnMeta>): seq<string> { seq(|fns|, i requires 0 <= i < |fns| => FnText(fns[i])) }

  function Quotes(ns: seq<string>): seq<string> { seq(|ns|, i requires 0 <= i < |ns| => Quote(ns[i])) }

  function Heading(c: Crate): string {
    "(:rulisp-manifest" + "\n :schema 1" + "\n :abi 1" + Key("\n :crate", c.name) + Key("\n :crate-version", c.version)
    + Key("\n :rulisp-version", c.rulispVersion) + Key("\n :target", c.target) + Key("\n :prefix", c.prefix)
    + (if c.onDump.Some? then Key("\n :on-dump", c.onDump.value) else "")
  }

  function Lists(c: Crate): string {
    ("\n :errors (" + Strung(Quotes(Seen(c.fns)), " ") + ")")
    + ("\n :handles\n (" + Strung(HandleTexts(c.handles), "\n  ") + ")")
    + ("\n :functions\n (" + Strung(FnTexts(c.fns), "\n  ") + ")")
  }

  lemma HandleTextIs(h: HandleMeta)
    ensures TextAll(HandlePieces(h)) == HandleText(h)
  {
    var ps := HandleNames(h);
    NodeText(":handle", HandleParts(h));
    PartsTextAppend(ps, DocParts(h.doc));
    PartsTextThree(ps[0], ps[1], ps[2]);
    NameIs(" ", ":rust-name", " :rust-name", h.rustName);
    NameIs(" ", ":lisp-name", " :lisp-name", h.lispName);
    NameIs(" ", ":free", " :free", h.freeSymbol);
    DocTextIs(h.doc);
    assert "(" + ":handle" == "(:handle";
    Assoc4("(:handle", PartText(ps[0]), PartText(ps[1]), PartText(ps[2]), DocText(h.doc));
  }

  lemma ListIs(p: Part, body: seq<Piece>, open: string, inner: string)
    requires p.pieces == Wrap(body) && open == p.ws + p.key + p.gap + "(" && TextAll(body) == inner
    ensures PartText(p) == open + inner + ")"
  {
    PartTextIs(p);
    WrapText(body);
    ListTail("", p.ws + p.key + p.gap, inner);
  }

  lemma ErrorsOpen()
    ensures "\n :errors (" == "\n " + ":errors" + " " + "("
  {
  }

  lemma HandlesOpen()
    ensures "\n :handles\n (" == "\n " + ":handles" + "\n " + "("
  {
  }

  lemma FnsOpen()
    ensures "\n :functions\n (" == "\n " + ":functions" + "\n " + "("
  {
  }

  lemma HandleListTexts(hs: seq<HandleMeta>)
    ensures JoinText(HandlesPieces(hs), "\n  ") == Strung(HandleTexts(hs), "\n  ")
  {
    forall i | 0 <= i < |hs| ensures TextAll(HandlesPieces(hs)[i]) == HandleTexts(hs)[i] { HandleTextIs(hs[i]); }
    StrungIs(HandlesPieces(hs), HandleTexts(hs), "\n  ");
  }

  lemma FnListTexts(fns: seq<FnMeta>)
    ensures JoinText(FnsPieces(fns), "\n  ") == Strung(FnTexts(fns), "\n  ")
  {
    forall i | 0 <= i < |fns| ensures TextAll(FnsPieces(fns)[i]) == FnTexts(fns)[i] { FnTextIs(fns[i]); }
    StrungIs(FnsPieces(fns), FnTexts(fns), "\n  ");
  }

  lemma ErrorListIs(ns: seq<string>)
    ensures PartText(ErrorsPart(ns)) == "\n :errors (" + Strung(Quotes(ns), " ") + ")"
  {
    forall i | 0 <= i < |ns| ensures TextAll(NamesPieces(ns)[i]) == Quotes(ns)[i] { OneText(PN(ns[i])); }
    StrungIs(NamesPieces(ns), Quotes(ns), " ");
    ErrorsOpen();
    ListIs(ErrorsPart(ns), Join(NamesPieces(ns), " "), "\n :errors (", Strung(Quotes(ns), " "));
  }

  lemma HandleListIs(hs: seq<HandleMeta>)
    ensures PartText(HandlesPart(hs)) == "\n :handles\n (" + Strung(HandleTexts(hs), "\n  ") + ")"
  {
    HandleListTexts(hs);
    HandlesOpen();
    ListIs(HandlesPart(hs), Join(HandlesPieces(hs), "\n  "), "\n :handles\n (", Strung(HandleTexts(hs), "\n  "));
  }

  lemma FnListIs(fns: seq<FnMeta>)
    ensures PartText(FnsPart(fns)) == "\n :functions\n (" + Strung(FnTexts(fns), "\n  ") + ")"
  {
    FnListTexts(fns);
    FnsOpen();
    ListIs(FnsPart(fns), Join(FnsPieces(fns), "\n  "), "\n :functions\n (", Strung(FnTexts(fns), "\n  "));
  }

  lemma ListsAre(c: Crate)
    ensures PartsText(ListParts(c)) == Lists(c)
  {
    PartsTextThree(ErrorsPart(Seen(c.fns)), HandlesPart(c.handles), FnsPart(c.fns));
    ErrorListIs(Seen(c.fns));
    HandleListIs(c.handles);
    FnListIs(c.fns);
  }

  lemma HeadIs(c: Crate)
    ensures PartsText(HeadParts(c)) == "\n :schema 1" + "\n :abi 1" + Key("\n :crate", c.name)
  {
    var a := HeadParts(c);
    PartsTextThree(a[0], a[1], a[2]);
    WordIs("\n ", ":schema", "1", "\n :schema 1");
    WordIs("\n ", ":abi", "1", "\n :abi 1");
    NameIs("\n ", ":crate", "\n :crate", c.name);
  }

  lemma VersionsAre(c: Crate)
    ensures PartsText(VersionParts(c)) == Key("\n :crate-version", c.version) + Key("\n :rulisp-version", c.rulispVersion)
  {
    PartsTextTwo(VersionParts(c)[0], VersionParts(c)[1]);
    NameIs("\n ", ":crate-version", "\n :crate-version", c.version);
    NameIs("\n ", ":rulisp-version", "\n :rulisp-version", c.rulispVersion);
  }

  lemma TargetIs(c: Crate)
    ensures PartsText(TargetParts(c)) == Key("\n :target", c.target) + Key("\n :prefix", c.prefix)
  {
    PartsTextTwo(TargetParts(c)[0], TargetParts(c)[1]);
    NameIs("\n ", ":target", "\n :target", c.target);
    NameIs("\n ", ":prefix", "\n :prefix", c.prefix);
  }

  lemma HeadingIs(c: Crate)
    ensures "(" + ":rulisp-manifest" + PartsText(HeadParts(c)) + PartsText(VersionParts(c)) + PartsText(TargetParts(c))
            + PartsText(OnDumpParts(c.onDump)) == Heading(c)
  {
    HeadIs(c);
    VersionsAre(c);
    TargetIs(c);
    OnDumpIs(c.onDump);
    assert "(" + ":rulisp-manifest" == "(:rulisp-manifest";
    HeadingStrings("(:rulisp-manifest", "\n :schema 1", "\n :abi 1", Key("\n :crate", c.name),
                   Key("\n :crate-version", c.version), Key("\n :rulisp-version", c.rulispVersion),
                   Key("\n :target", c.target), Key("\n :prefix", c.prefix));
  }

  lemma HeadingStrings(o: string, a: string, b: string, c: string, d: string, e: string, f: string, g: string)
    ensures o + (a + b + c) + (d + e) + (f + g) == o + a + b + c + d + e + f + g
  {
    Assoc3(o, a, b, c);
    Assoc2(o + a + b + c, d, e);
    Assoc2(o + a + b + c + d + e, f, g);
  }

  lemma WordIs(ws: string, key: string, word: string, all: string)
    requires all == ws + key + " " + word
    ensures PartText(WordPart(ws, key, word)) == all
  {
    PartTextIs(WordPart(ws, key, word));
    OneText(PW(word));
  }

  lemma OnDumpIs(onDump: Option<string>)
    ensures PartsText(OnDumpParts(onDump)) == if onDump.Some? then Key("\n :on-dump", onDump.value) else ""
  {
    if onDump.Some? {
      PartsTextOne(OnDumpParts(onDump)[0]);
      NameIs("\n ", ":on-dump", "\n :on-dump", onDump.value);
    }
  }

  /** The manifest is printed to the byte as this text. */
  lemma TextIs(c: Crate)
    ensures Rendered(c) == Heading(c) + Lists(c) + ")\n"
  {
    HeadingIs(c);
    ListsAre(c);
    CratePartsText("(" + ":rulisp-manifest", c);
    ManifestPrinter.ManifestText(CrateParts(c));
    assert ")" + "\n" == ")\n";
    Assoc2(Heading(c) + Lists(c), ")", "\n");
  }
}

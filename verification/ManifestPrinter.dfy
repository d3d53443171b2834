/** The renderer as it runs: every method appends to one growing text. */
module ManifestPrinter {
  import opened Wrappers
  import opened Sexp
  import opened Manifest
  import opened ManifestRoundTrip

  // ----- texts of lists and parts -------------------------------------------

  lemma Assoc2(o: string, a: string, b: string)
    ensures o + a + b == o + (a + b)
  {
  }

  lemma Assoc3(o: string, a: string, b: string, c: string)
    ensures o + a + b + c == o + (a + b + c)
  {
  }

  lemma Assoc4(o: string, a: string, b: string, c: string, d: string)
    ensures o + a + b + c + d == o + (a + b + c + d)
  {
  }

  lemma OneText(p: Piece)
    ensures TextAll([p]) == Text(p)
  {
    assert [p][1..] == [];
    assert Text(p) + TextAll([]) == Text(p);
  }

  lemma WrapText(ps: seq<Piece>)
    ensures TextAll(Wrap(ps)) == "(" + TextAll(ps) + ")"
  {
    TextAppend([PO] + ps, [PC]);
    TextAppend([PO], ps);
    OneText(PO);
    OneText(PC);
  }

  lemma HeadText(head: string, ps: seq<Piece>)
    ensures TextAll([PW(head)] + ps) == head + TextAll(ps)
  {
    TextAppend([PW(head)], ps);
    OneText(PW(head));
  }

  lemma PairText(head: string, value: seq<Piece>)
    ensures TextAll(Pair(head, value)) == "(" + head + " " + TextAll(value) + ")"
  {
    WrapText([PW(head), PS(" ")] + value);
    assert [PW(head), PS(" ")] + value == [PW(head)] + ([PS(" ")] + value);
    HeadText(head, [PS(" ")] + value);
    TextAppend([PS(" ")], value);
    OneText(PS(" "));
    Assoc3("(", head, " ", TextAll(value));
    Assoc2(head, " ", TextAll(value));
  }

  lemma NodeText(head: string, parts: seq<Part>)
    ensures TextAll(Node(head, parts)) == "(" + head + TextAll(PartsPieces(parts)) + ")"
  {
    WrapText([PW(head)] + PartsPieces(parts));
    HeadText(head, PartsPieces(parts));
    Assoc2("(", head, TextAll(PartsPieces(parts)));
  }

  lemma KeyText(ws: string, key: string, gap: string)
    ensures TextAll([PS(ws), PW(key), PS(gap)]) == ws + key + gap
  {
    assert [PS(ws), PW(key), PS(gap)] == [PS(ws)] + ([PW(key)] + [PS(gap)]);
    TextAppend([PS(ws)], [PW(key)] + [PS(gap)]);
    TextAppend([PW(key)], [PS(gap)]);
    OneText(PS(ws));
    OneText(PW(key));
    OneText(PS(gap));
    Assoc2(ws, key, gap);
  }

  function PartText(p: Part): string { TextAll(PartPieces(p)) }

  function PartsText(ps: seq<Part>): string { TextAll(PartsPieces(ps)) }

  lemma PartTextIs(p: Part)
    ensures PartText(p) == p.ws + p.key + p.gap + TextAll(p.pieces)
  {
    TextAppend([PS(p.ws), PW(p.key), PS(p.gap)], p.pieces);
    KeyText(p.ws, p.key, p.gap);
  }

  lemma PartsTextOne(p: Part)
    ensures PartsText([p]) == PartText(p)
  {
    assert [p][1..] == [];
    assert PartPieces(p) + PartsPieces([]) == PartPieces(p);
  }

  lemma {:induction false} PartsTextAppend(a: seq<Part>, b: seq<Part>)
    ensures PartsText(a + b) == PartsText(a) + PartsText(b)
  {
    if a == [] {
      assert a + b == b;
    } else {
      assert (a + b)[1..] == a[1..] + b;
      PartsTextAppend(a[1..], b);
      TextAppend(PartPieces(a[0]), PartsPieces(a[1..]));
      TextAppend(PartPieces(a[0]), PartsPieces((a + b)[1..]));
      Assoc2(PartText(a[0]), PartsText(a[1..]), PartsText(b));
    }
  }

  lemma PartsTextTwo(p: Part, q: Part)
    ensures PartsText([p, q]) == PartText(p) + PartText(q)
  {
    assert [p, q] == [p] + [q];
    PartsTextAppend([p], [q]);
    PartsTextOne(p);
    PartsTextOne(q);
  }

  lemma PartsTextThree(p: Part, q: Part, r: Part)
    ensures PartsText([p, q, r]) == PartText(p) + PartText(q) + PartText(r)
  {
    assert [p, q, r] == [p, q] + [r];
    PartsTextAppend([p, q], [r]);
    PartsTextTwo(p, q);
    PartsTextOne(r);
  }

  function JoinText(xs: seq<seq<Piece>>, sep: string): string { TextAll(Join(xs, sep)) }

  lemma JoinNext(xs: seq<seq<Piece>>, i: nat, sep: string)
    requires i < |xs|
    ensures JoinText(xs[..i + 1], sep) ==
      JoinText(xs[..i], sep) + (if i > 0 then sep else "") + TextAll(xs[i])
  {
    var ys := xs[..i + 1];
    assert ys[..i] == xs[..i] && ys[i] == xs[i];
    if i > 0 {
      TextAppend(Join(xs[..i], sep) + [PS(sep)], xs[i]);
      TextAppend(Join(xs[..i], sep), [PS(sep)]);
      OneText(PS(sep));
    } else {
      assert xs[..0] == [];
      assert "" + "" + TextAll(xs[0]) == TextAll(xs[0]);
    }
  }

  /** One more element, as the loops print it. */
  lemma JoinPush(o: string, xs: seq<seq<Piece>>, i: nat, sep: string)
    requires i < |xs|
    ensures o + JoinText(xs[..i + 1], sep) == o + JoinText(xs[..i], sep) + (if i > 0 then sep else "") + TextAll(xs[i])
    ensures i == 0 ==> o + JoinText(xs[..1], sep) == o + JoinText(xs[..0], sep) + TextAll(xs[0])
  {
    JoinNext(xs, i, sep);
    Assoc3(o, JoinText(xs[..i], sep), if i > 0 then sep else "", TextAll(xs[i]));
    assert o + JoinText(xs[..i], sep) + "" == o + JoinText(xs[..i], sep);
  }

  lemma {:induction false} EscapeAppend(a: string, c: char)
    ensures Escape(a + [c]) == Escape(a) + (if c == '\\' then "\\\\" else if c == '"' then "\\\"" else [c])
  {
    if a == "" {
      assert a + [c] == [c] && [c][1..] == "";
    } else {
      assert (a + [c])[1..] == a[1..] + [c];
      EscapeAppend(a[1..], c);
    }
  }

  lemma EscapeNext(s: string, i: nat)
    requires i < |s|
    ensures Escape(s[..i + 1]) ==
      Escape(s[..i]) + (if s[i] == '\\' then "\\\\" else if s[i] == '"' then "\\\"" else [s[i]])
  {
    assert s[..i + 1] == s[..i] + [s[i]];
    EscapeAppend(s[..i], s[i]);
  }

  // ----- appending ----------------------------------------------------------

  class Out {
    var text: string

    constructor ()
      ensures text == ""
    {
      text := "";
    }

    method Push(s: string)
      modifies this
      ensures text == old(text) + s
    {
      text := text + s;
    }

    method Push3(a: string, b: string, c: string)
      modifies this
      ensures text == old(text) + (a + b + c)
    {
      Push(a);
      Push(b);
      Push(c);
      Assoc3(old(text), a, b, c);
    }

    /** `push_escaped` */
    method PushEscaped(s: string)
      modifies this
      ensures text == old(text) + TextAll([PD(s)])
    {
      OneText(PD(s));
      Push("\"");
      for i := 0 to |s|
        invariant text == old(text) + "\"" + Escape(s[..i])
      {
        EscapeNext(s, i);
        var e := if s[i] == '\\' then "\\\\" else if s[i] == '"' then "\\\"" else [s[i]];
        Assoc2(old(text) + "\"", Escape(s[..i]), e);
        Push(e);
      }
      assert s[..|s|] == s;
      Push("\"");
      Assoc3(old(text), "\"", Escape(s), "\"");
    }

    method Name(name: string)
      modifies this
      ensures text == old(text) + TextAll([PN(name)])
    {
      OneText(PN(name));
      Push3("\"", name, "\"");
    }

    method Word(word: string)
      modifies this
      ensures text == old(text) + TextAll([PW(word)])
    {
      OneText(PW(word));
      Push(word);
    }

    method KeyName(ws: string, key: string, name: string)
      modifies this
      ensures text == old(text) + PartText(NamePart(ws, key, name))
    {
      Push3(ws, key, " ");
      Name(name);
      PartTextIs(NamePart(ws, key, name));
      Assoc2(old(text), ws + key + " ", TextAll([PN(name)]));
    }

    method KeyWord(ws: string, key: string, word: string)
      modifies this
      ensures text == old(text) + PartText(WordPart(ws, key, word))
    {
      Push3(ws, key, " ");
      Word(word);
      PartTextIs(WordPart(ws, key, word));
      Assoc2(old(text), ws + key + " ", TextAll([PW(word)]));
    }

    method Doc(doc: Option<string>)
      modifies this
      ensures text == old(text) + PartsText(DocParts(doc))
    {
      if doc.Some? {
        Push3("\n   ", ":doc", " ");
        PushEscaped(doc.value);
        PartTextIs(DocParts(doc)[0]);
        PartsTextOne(DocParts(doc)[0]);
        Assoc2(old(text), "\n   " + ":doc" + " ", TextAll([PD(doc.value)]));
      } else {
        assert text + "" == text;
      }
    }

    method PairName(head: string, name: string)
      modifies this
      ensures text == old(text) + TextAll(Pair(head, [PN(name)]))
    {
      Push3("(", head, " ");
      Name(name);
      Push(")");
      PairText(head, [PN(name)]);
      Assoc3(old(text), "(" + head + " ", TextAll([PN(name)]), ")");
    }

    method PairWord(head: string, word: string)
      modifies this
      ensures text == old(text) + TextAll(Pair(head, [PW(word)]))
    {
      Push3("(", head, " ");
      Word(word);
      Push(")");
      PairText(head, [PW(word)]);
      Assoc3(old(text), "(" + head + " ", TextAll([PW(word)]), ")");
    }
  }

  // ----- types --------------------------------------------------------------

  method RenderTy(ty: ParamTy, out: Out)
    modifies out
    ensures out.text == old(out.text) + TextAll(TyPieces(ty))
    decreases ty, 3
  {
    match ty
    case Scalar(tok) => out.Word(tok);
    case Str => out.Word(":string");
    case Bytes => out.Word(":bytes");
    case Handle(n) => out.PairName(":handle", n);
    case Callback(params, result) => RenderCallback(ty, ":callback", params, result, out);
    case StoredCallback(params, result) => RenderCallback(ty, ":stored-callback", params, result, out);
    case Opt(inner) =>
      out.Push3("(", ":option", " ");
      RenderTy(inner, out);
      out.Push(")");
      PairText(":option", TyPieces(inner));
      Assoc3(old(out.text), "(" + ":option" + " ", TextAll(TyPieces(inner)), ")");
    case Vec(tok) => out.PairWord(":vec", tok);
  }

  method RenderNthTy(ghost ty: ParamTy, params: seq<ParamTy>, ghost result: string, i: nat, out: Out)
    requires i < |params| && (ty == Callback(params, result) || ty == StoredCallback(params, result))
    modifies out
    ensures out.text == old(out.text) + (if i > 0 then " " else "") + TextAll(TysPieces(params)[i])
    decreases ty, 0
  {
    if i > 0 {
      out.Push(" ");
    } else {
      assert out.text + "" == out.text;
    }
    RenderTy(params[i], out);
  }

  method RenderCbParams(ghost ty: ParamTy, params: seq<ParamTy>, ghost result: string, out: Out)
    requires ty == Callback(params, result) || ty == StoredCallback(params, result)
    modifies out
    ensures out.text == old(out.text) + JoinText(TysPieces(params), " ")
    decreases ty, 1
  {
    ghost var xs := TysPieces(params);
    for i := 0 to |params|
      invariant out.text == old(out.text) + JoinText(xs[..i], " ")
    {
      RenderNthTy(ty, params, result, i, out);
      JoinPush(old(out.text), xs, i, " ");
    }
    assert xs[..|params|] == xs;
  }

  method RenderCallback(ghost ty: ParamTy, head: string, params: seq<ParamTy>, result: string, out: Out)
    requires ty == Callback(params, result) || ty == StoredCallback(params, result)
    modifies out
    ensures out.text == old(out.text) + TextAll(Node(head, CbParts(TysPieces(params), TysForms(params), result)))
    decreases ty, 2
  {
    out.Push("(");
    out.Push(head);
    ghost var before := out.text;
    out.Push3(" ", ":params", " ");
    out.Push("(");
    RenderCbParams(ty, params, result, out);
    out.Push(")");
    CbParamsText(before, params);
    out.KeyWord(" ", ":result", result);
    out.Push(")");
    CbText(old(out.text), head, params, result);
  }

  function CbParamsPart(params: seq<ParamTy>): Part {
    Part(" ", ":params", " ", Wrap(Join(TysPieces(params), " ")), L(TysForms(params)))
  }

  lemma CbParamsText(o: string, params: seq<ParamTy>)
    ensures o + (" " + ":params" + " ") + "(" + JoinText(TysPieces(params), " ") + ")" == o + PartText(CbParamsPart(params))
  {
    PartTextIs(CbParamsPart(params));
    WrapText(Join(TysPieces(params), " "));
    ListTail(o, " " + ":params" + " ", JoinText(TysPieces(params), " "));
  }

  lemma ListTail(o: string, k: string, j: string)
    ensures o + k + "(" + j + ")" == o + (k + ("(" + j + ")"))
  {
  }

  lemma CbText(o: string, head: string, params: seq<ParamTy>, result: string)
    ensures o + "(" + head + PartText(CbParamsPart(params)) + PartText(WordPart(" ", ":result", result)) + ")"
         == o + TextAll(Node(head, CbParts(TysPieces(params), TysForms(params), result)))
  {
    var a, b := CbParamsPart(params), WordPart(" ", ":result", result);
    NodeText(head, [a, b]);
    PartsTextTwo(a, b);
    Assoc2(o + "(" + head, PartText(a), PartText(b));
    Assoc4(o, "(", head, PartText(a) + PartText(b), ")");
  }

  method RenderResult(r: ResultTy, out: Out)
    modifies out
    ensures out.text == old(out.text) + TextAll(ResultPieces(r))
  {
    match r
    case RUnit => out.Word(":unit");
    case RScalar(tok) => out.Word(tok);
    case RStr => out.Word(":string");
    case RBytes => out.Word(":bytes");
    case RHandle(n) => out.PairName(":handle", n);
    case ROpt(inner) =>
      out.Push3("(", ":option", " ");
      RenderResult(inner, out);
      out.Push(")");
      PairText(":option", ResultPieces(inner));
      Assoc3(old(out.text), "(" + ":option" + " ", TextAll(ResultPieces(inner)), ")");
    case RVec(tok) => out.PairWord(":vec", tok);
  }

  // ----- functions ----------------------------------------------------------

  method RenderParam(p: ParamMeta, out: Out)
    modifies out
    ensures out.text == old(out.text) + TextAll(ParamPieces(p))
  {
    out.Push("(");
    out.KeyName("", ":name", p.name);
    out.Push3(" ", ":type", " ");
    RenderTy(p.ty, out);
    out.Push(")");
    ParamText(old(out.text), p);
  }

  lemma ParamText(o: string, p: ParamMeta)
    ensures o + "(" + PartText(NamePart("", ":name", p.name)) + (" " + ":type" + " ") + TextAll(TyPieces(p.ty)) + ")"
         == o + TextAll(ParamPieces(p))
  {
    var a, b := ParamParts(p)[0], ParamParts(p)[1];
    WrapText(PartsPieces([a, b]));
    PartsTextTwo(a, b);
    PartTextIs(b);
    Assoc2(o + "(" + PartText(a), " " + ":type" + " ", TextAll(TyPieces(p.ty)));
    Assoc2(o + "(", PartText(a), PartText(b));
    Assoc3(o, "(", PartText(a) + PartText(b), ")");
  }

  method RenderParams(params: seq<ParamMeta>, sep: string, out: Out)
    modifies out
    ensures out.text == old(out.text) + JoinText(ParamsPieces(params), sep)
  {
    ghost var xs := ParamsPieces(params);
    for i := 0 to |params|
      invariant out.text == old(out.text) + JoinText(xs[..i], sep)
    {
      JoinPush(old(out.text), xs, i, sep);
      if i > 0 {
        out.Push(sep);
      }
      RenderParam(params[i], out);
    }
    assert xs[..|params|] == xs;
  }

  method RenderError(error: Option<string>, out: Out)
    modifies out
    ensures out.text == old(out.text) + TextAll(ErrorPart(error).pieces)
  {
    if error.Some? {
      out.Name(error.value);
    } else {
      out.Word("nil");
    }
  }

  /** The tail without the white space before it. */
  function TailText(f: FnMeta): string { PartsText(TailParts(f, "")) }

  lemma TailSplit(f: FnMeta, ws: string)
    ensures PartsText(TailParts(f, ws)) ==
      PartText(Part(ws, ":result", " ", ResultPieces(f.result), ResultForm(f.result)))
      + PartText(ErrorPart(f.error)) + PartsText(DocParts(f.doc))
  {
    var r := Part(ws, ":result", " ", ResultPieces(f.result), ResultForm(f.result));
    PartsTextAppend([r, ErrorPart(f.error)], DocParts(f.doc));
    PartsTextTwo(r, ErrorPart(f.error));
  }

  lemma Indent(ws: string, key: string, gap: string, v: string, e: string, d: string)
    ensures ws + key + gap + v + e + d == ws + ("" + key + gap + v + e + d)
  {
    assert "" + key == key;
    Assoc3(ws, key, gap, v);
    Assoc3(ws, key + gap + v, e, d);
  }

  lemma TailIndent(f: FnMeta, ws: string)
    ensures PartsText(TailParts(f, ws)) == ws + TailText(f)
  {
    TailSplit(f, ws);
    TailSplit(f, "");
    PartTextIs(Part(ws, ":result", " ", ResultPieces(f.result), ResultForm(f.result)));
    PartTextIs(Part("", ":result", " ", ResultPieces(f.result), ResultForm(f.result)));
    Indent(ws, ":result", " ", TextAll(ResultPieces(f.result)), PartText(ErrorPart(f.error)), PartsText(DocParts(f.doc)));
  }

  method RenderErrorPart(error: Option<string>, out: Out)
    modifies out
    ensures out.text == old(out.text) + PartText(ErrorPart(error))
  {
    out.Push3(" ", ":error", " ");
    RenderError(error, out);
    PartTextIs(ErrorPart(error));
    Assoc2(old(out.text), " " + ":error" + " ", TextAll(ErrorPart(error).pieces));
  }

  method RenderTail(f: FnMeta, out: Out)
    modifies out
    ensures out.text == old(out.text) + TailText(f) + ")"
  {
    ghost var r := Part("", ":result", " ", ResultPieces(f.result), ResultForm(f.result));
    out.Push3("", ":result", " ");
    RenderResult(f.result, out);
    PartTextIs(r);
    Assoc2(old(out.text), "" + ":result" + " ", TextAll(ResultPieces(f.result)));
    RenderErrorPart(f.error, out);
    out.Doc(f.doc);
    TailSplit(f, "");
    Assoc3(old(out.text), PartText(r), PartText(ErrorPart(f.error)), PartsText(DocParts(f.doc)));
    out.Push(")");
  }

  method RenderNames(f: FnMeta, out: Out)
    modifies out
    ensures out.text == old(out.text) + PartsText(NameParts(f))
  {
    var o := out.text;
    out.KeyName(" ", ":rust-name", f.rustName);
    out.KeyName(" ", ":lisp-name", f.lispName);
    out.KeyName(" ", ":symbol", f.symbol);
    NamesText(o, f);
  }

  lemma NamesText(o: string, f: FnMeta)
    ensures o + PartText(NamePart(" ", ":rust-name", f.rustName)) + PartText(NamePart(" ", ":lisp-name", f.lispName))
            + PartText(NamePart(" ", ":symbol", f.symbol)) == o + PartsText(NameParts(f))
  {
    var ps := NameParts(f);
    PartsTextThree(ps[0], ps[1], ps[2]);
    Assoc3(o, PartText(ps[0]), PartText(ps[1]), PartText(ps[2]));
  }

  lemma ParamsHead()
    ensures "\n" + ("   " + ":params (") == "\n   " + ":params" + " " + "("
  {
    assert "\n" + "   " == "\n   ";
    assert ":params" + " " + "(" == ":params (";
  }

  /** What is printed after the name line, for every layout. */
  lemma FnText(f: FnMeta, y: Layout)
    ensures TextAll(Node(":fn", FnParts(f, y))) ==
      "(" + ":fn" + PartsText(NameParts(f)) + "\n"
      + ("   " + ":params (" + JoinText(ParamsPieces(f.params), y.sep) + ")") + y.ws + (TailText(f) + ")")
  {
    NodeText(":fn", FnParts(f, y));
    PartsTextAppend(NameParts(f) + [ParamsPart(f, y.sep)], TailParts(f, y.ws));
    PartsTextAppend(NameParts(f), [ParamsPart(f, y.sep)]);
    PartsTextOne(ParamsPart(f, y.sep));
    PartTextIs(ParamsPart(f, y.sep));
    WrapText(Join(ParamsPieces(f.params), y.sep));
    TailIndent(f, y.ws);
    ParamsHead();
    FnAssoc("(" + ":fn", PartsText(NameParts(f)), "   " + ":params (", "\n   " + ":params" + " ",
            JoinText(ParamsPieces(f.params), y.sep), y.ws, TailText(f));
  }

  lemma FnAssoc(h: string, n: string, k: string, k': string, j: string, ws: string, t: string)
    requires "\n" + k == k' + "("
    ensures h + (n + (k' + ("(" + j + ")")) + (ws + t)) + ")" == h + n + "\n" + (k + j + ")") + ws + (t + ")")
  {
    var p := k' + ("(" + j + ")");
    assert p == "\n" + (k + j + ")") by {
      assert p == k' + "(" + j + ")";
      assert "\n" + (k + j + ")") == "\n" + k + j + ")";
    }
    assert h + (n + p + (ws + t)) + ")" == h + n + p + ws + (t + ")");
    assert h + n + "\n" + (k + j + ")") == h + n + p;
  }

  lemma OneLineText(f: FnMeta)
    ensures OneLine(f) == ParamsLine(f) + " " + (TailText(f) + ")")
  {
    TailIndent(f, " ");
    Assoc3(ParamsLine(f), " ", TailText(f), ")");
    Assoc2(ParamsLine(f), " ", TailText(f) + ")");
    Assoc2(ParamsLine(f), " " + TailText(f), ")");
    Assoc2(" ", TailText(f), ")");
  }

  /** Everything after the name line, in the layout that fits. */
  method RenderBody(f: FnMeta, out: Out)
    modifies out
    ensures out.text == old(out.text)
      + ("   " + ":params (" + JoinText(ParamsPieces(f.params), LayoutOf(f).sep) + ")") + LayoutOf(f).ws + (TailText(f) + ")")
  {
    ghost var named := out.text;
    var inline := new Out();
    RenderParams(f.params, " ", inline);
    var tail := new Out();
    RenderTail(f, tail);
    assert tail.text == TailText(f) + ")" by { assert "" + TailText(f) == TailText(f); }
    assert inline.text == JoinText(ParamsPieces(f.params), " ") by {
      assert "" + JoinText(ParamsPieces(f.params), " ") == JoinText(ParamsPieces(f.params), " ");
    }
    var paramsLine := "   " + ":params (" + inline.text + ")";
    var oneLine := paramsLine + " " + tail.text;
    OneLineText(f);
    if Utf8Len(oneLine) <= WIDTH {
      out.Push(oneLine);
      Assoc3(named, paramsLine, " ", tail.text);
      return;
    }
    if Utf8Len(paramsLine) <= WIDTH {
      out.Push(paramsLine);
    } else {
      out.Push("   " + ":params (");
      RenderParams(f.params, "\n            ", out);
      out.Push(")");
      Assoc3(named, "   " + ":params (", JoinText(ParamsPieces(f.params), "\n            "), ")");
    }
    out.Push("\n   ");
    out.Push(tail.text);
  }

  /** `render_fn` */
  method RenderFn(f: FnMeta, out: Out)
    modifies out
    ensures out.text == old(out.text) + TextAll(FnPieces(f))
  {
    out.Push3("(", ":fn", "");
    RenderNames(f, out);
    out.Push("\n");
    RenderBody(f, out);
    FnText(f, LayoutOf(f));
    FnOut(old(out.text), PartsText(NameParts(f)),
          "   " + ":params (" + JoinText(ParamsPieces(f.params), LayoutOf(f).sep) + ")", LayoutOf(f).ws, TailText(f) + ")");
  }

  lemma FnOut(o: string, n: string, p: string, ws: string, t: string)
    ensures o + ("(" + ":fn" + "") + n + "\n" + p + ws + t == o + ("(" + ":fn" + n + "\n" + p + ws + t)
  {
    assert "(" + ":fn" + "" == "(" + ":fn";
    Assoc4(o, "(" + ":fn", n, "\n", p);
    Assoc3(o, "(" + ":fn" + n + "\n" + p, ws, t);
  }

  // ----- the whole manifest -------------------------------------------------

  /** The loop over `seen`. */
  method CollectErrors(fns: seq<FnMeta>) returns (seen: seq<string>)
    ensures seen == Seen(fns)
  {
    seen := [];
    for i := 0 to |fns|
      invariant seen == Seen(fns[..i])
    {
      assert fns[..i + 1][..i] == fns[..i];
      var e := fns[i].error;
      if e.Some? && e.value != "Error" && e.value !in seen {
        seen := seen + [e.value];
      }
    }
    assert fns[..|fns|] == fns;
  }

  method RenderErrors(seen: seq<string>, out: Out)
    modifies out
    ensures out.text == old(out.text) + JoinText(NamesPieces(seen), " ")
  {
    ghost var xs := NamesPieces(seen);
    for i := 0 to |seen|
      invariant out.text == old(out.text) + JoinText(xs[..i], " ")
    {
      JoinPush(old(out.text), xs, i, " ");
      if i > 0 {
        out.Push(" ");
      }
      out.Name(seen[i]);
    }
    assert xs[..|seen|] == xs;
  }

  method RenderHandle(h: HandleMeta, out: Out)
    modifies out
    ensures out.text == old(out.text) + TextAll(HandlePieces(h))
  {
    out.Push("(");
    out.Push(":handle");
    out.KeyName(" ", ":rust-name", h.rustName);
    out.KeyName(" ", ":lisp-name", h.lispName);
    out.KeyName(" ", ":free", h.freeSymbol);
    out.Doc(h.doc);
    out.Push(")");
    HandleText(old(out.text), h);
  }

  lemma HandleText(o: string, h: HandleMeta)
    ensures o + "(" + ":handle" + PartText(NamePart(" ", ":rust-name", h.rustName))
            + PartText(NamePart(" ", ":lisp-name", h.lispName)) + PartText(NamePart(" ", ":free", h.freeSymbol))
            + PartsText(DocParts(h.doc)) + ")" == o + TextAll(HandlePieces(h))
  {
    var ps := HandleNames(h);
    NodeText(":handle", HandleParts(h));
    PartsTextAppend(ps, DocParts(h.doc));
    PartsTextThree(ps[0], ps[1], ps[2]);
    Assoc4(o + "(" + ":handle", PartText(ps[0]), PartText(ps[1]), PartText(ps[2]), PartsText(DocParts(h.doc)));
    Assoc4(o, "(", ":handle", PartsText(HandleParts(h)), ")");
  }

  method RenderHandles(hs: seq<HandleMeta>, out: Out)
    modifies out
    ensures out.text == old(out.text) + JoinText(HandlesPieces(hs), "\n  ")
  {
    ghost var xs := HandlesPieces(hs);
    for i := 0 to |hs|
      invariant out.text == old(out.text) + JoinText(xs[..i], "\n  ")
    {
      JoinPush(old(out.text), xs, i, "\n  ");
      if i > 0 {
        out.Push("\n  ");
      }
      RenderHandle(hs[i], out);
    }
    assert xs[..|hs|] == xs;
  }

  method RenderNthFn(fns: seq<FnMeta>, i: nat, out: Out)
    requires i < |fns|
    modifies out
    ensures out.text == old(out.text) + (if i > 0 then "\n  " else "") + TextAll(FnsPieces(fns)[i])
  {
    if i > 0 {
      out.Push("\n  ");
    } else {
      assert out.text + "" == out.text;
    }
    RenderFn(fns[i], out);
  }

  /** The first `i` functions, as far as the loop has come. */
  ghost function FnsText(fns: seq<FnMeta>, i: nat): string
    requires i <= |fns|
  {
    JoinText(FnsPieces(fns)[..i], "\n  ")
  }

  method AppendFn(ghost o: string, fns: seq<FnMeta>, i: nat, out: Out)
    requires i < |fns| && out.text == o + FnsText(fns, i)
    modifies out
    ensures out.text == o + FnsText(fns, i + 1)
  {
    RenderNthFn(fns, i, out);
    JoinPush(o, FnsPieces(fns), i, "\n  ");
  }

  lemma FnsTextEnds(fns: seq<FnMeta>)
    ensures FnsText(fns, 0) == "" && FnsText(fns, |fns|) == JoinText(FnsPieces(fns), "\n  ")
  {
    var xs := FnsPieces(fns);
    assert xs[..0] == [] && xs[..|fns|] == xs;
  }

  method RenderFns(fns: seq<FnMeta>, out: Out)
    modifies out
    ensures out.text == old(out.text) + JoinText(FnsPieces(fns), "\n  ")
  {
    FnsTextEnds(fns);
    assert out.text == out.text + "";
    for i := 0 to |fns|
      invariant out.text == old(out.text) + FnsText(fns, i)
    {
      AppendFn(old(out.text), fns, i, out);
    }
  }

  lemma ListPartText(o: string, p: Part, body: seq<Piece>)
    requires p.pieces == Wrap(body)
    ensures o + (p.ws + p.key + p.gap) + "(" + TextAll(body) + ")" == o + PartText(p)
  {
    PartTextIs(p);
    WrapText(body);
    ListTail(o, p.ws + p.key + p.gap, TextAll(body));
  }

  method RenderLists(c: Crate, out: Out)
    modifies out
    ensures out.text == old(out.text) + PartsText(ListParts(c))
  {
    var o := out.text;
    var seen := CollectErrors(c.fns);
    out.Push3("\n ", ":errors", " ");
    out.Push("(");
    RenderErrors(seen, out);
    out.Push(")");
    ListPartText(o, ErrorsPart(seen), Join(NamesPieces(seen), " "));
    var o1 := out.text;
    out.Push3("\n ", ":handles", "\n ");
    out.Push("(");
    RenderHandles(c.handles, out);
    out.Push(")");
    ListPartText(o1, HandlesPart(c.handles), Join(HandlesPieces(c.handles), "\n  "));
    var o2 := out.text;
    out.Push3("\n ", ":functions", "\n ");
    out.Push("(");
    RenderFns(c.fns, out);
    out.Push(")");
    ListPartText(o2, FnsPart(c.fns), Join(FnsPieces(c.fns), "\n  "));
    PartsTextThree(ErrorsPart(seen), HandlesPart(c.handles), FnsPart(c.fns));
    Assoc3(o, PartText(ErrorsPart(seen)), PartText(HandlesPart(c.handles)), PartText(FnsPart(c.fns)));
  }

  method RenderHead(c: Crate, out: Out)
    modifies out
    ensures out.text == old(out.text) + PartsText(HeadParts(c))
  {
    out.KeyWord("\n ", ":schema", "1");
    out.KeyWord("\n ", ":abi", "1");
    out.KeyName("\n ", ":crate", c.name);
    HeadPartsText(old(out.text), c);
  }

  lemma HeadPartsText(o: string, c: Crate)
    ensures o + PartText(WordPart("\n ", ":schema", "1")) + PartText(WordPart("\n ", ":abi", "1"))
            + PartText(NamePart("\n ", ":crate", c.name)) == o + PartsText(HeadParts(c))
  {
    var ps := HeadParts(c);
    PartsTextThree(ps[0], ps[1], ps[2]);
    Assoc3(o, PartText(ps[0]), PartText(ps[1]), PartText(ps[2]));
  }

  method RenderVersions(c: Crate, out: Out)
    modifies out
    ensures out.text == old(out.text) + PartsText(VersionParts(c))
  {
    out.KeyName("\n ", ":crate-version", c.version);
    out.KeyName("\n ", ":rulisp-version", c.rulispVersion);
    PartsTextTwo(VersionParts(c)[0], VersionParts(c)[1]);
    Assoc2(old(out.text), PartText(VersionParts(c)[0]), PartText(VersionParts(c)[1]));
  }

  method RenderTarget(c: Crate, out: Out)
    modifies out
    ensures out.text == old(out.text) + PartsText(TargetParts(c))
  {
    out.KeyName("\n ", ":target", c.target);
    out.KeyName("\n ", ":prefix", c.prefix);
    PartsTextTwo(TargetParts(c)[0], TargetParts(c)[1]);
    Assoc2(old(out.text), PartText(TargetParts(c)[0]), PartText(TargetParts(c)[1]));
  }

  method RenderOnDump(onDump: Option<string>, out: Out)
    modifies out
    ensures out.text == old(out.text) + PartsText(OnDumpParts(onDump))
  {
    if onDump.Some? {
      out.KeyName("\n ", ":on-dump", onDump.value);
      PartsTextOne(OnDumpParts(onDump)[0]);
    } else {
      assert out.text + "" == out.text;
    }
  }

  lemma CratePartsText(o: string, c: Crate)
    ensures o + PartsText(HeadParts(c)) + PartsText(VersionParts(c)) + PartsText(TargetParts(c))
            + PartsText(OnDumpParts(c.onDump)) + PartsText(ListParts(c)) == o + PartsText(CrateParts(c))
  {
    var a, b, t, d, l := HeadParts(c), VersionParts(c), TargetParts(c), OnDumpParts(c.onDump), ListParts(c);
    PartsTextAppend(a + b + t + d, l);
    PartsTextAppend(a + b + t, d);
    PartsTextAppend(a + b, t);
    PartsTextAppend(a, b);
    Assoc4(o, PartsText(a), PartsText(b), PartsText(t), PartsText(d));
    Assoc2(o, PartsText(a) + PartsText(b) + PartsText(t) + PartsText(d), PartsText(l));
  }

  lemma ManifestText(parts: seq<Part>)
    ensures "(" + ":rulisp-manifest" + PartsText(parts) + ")" + "\n" ==
      TextAll(Node(":rulisp-manifest", parts) + [PS("\n")])
  {
    NodeText(":rulisp-manifest", parts);
    TextAppend(Node(":rulisp-manifest", parts), [PS("\n")]);
    OneText(PS("\n"));
  }

  /** `render_manifest` */
  method RenderManifest(c: Crate) returns (text: string)
    ensures text == Rendered(c)
  {
    var out := new Out();
    out.Push("(");
    out.Push(":rulisp-manifest");
    assert out.text == "(" + ":rulisp-manifest" by { assert "" + "(" == "("; }
    ghost var o := out.text;
    RenderHead(c, out);
    RenderVersions(c, out);
    RenderTarget(c, out);
    RenderOnDump(c.onDump, out);
    RenderLists(c, out);
    CratePartsText(o, c);
    out.Push(")");
    out.Push("\n");
    ManifestText(CrateParts(c));
    text := out.text;
  }
}

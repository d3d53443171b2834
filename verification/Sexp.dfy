/** The reader of the manifest grammar: strings, keywords, integers, NIL and
    lists, as the loader's hardened `read` accepts them. Both stages are folds
    over their input, so reading a concatenation is reading its parts. */
module Sexp {
  import opened Wrappers

  datatype Token = Open | Close | Quoted(s: string) | Word(s: string)

  // ----- characters to tokens -----------------------------------------------

  datatype Mode = Outside | InWord(acc: string) | InString(acc: string) | InEscape(acc: string)

  datatype Lex = Lex(mode: Mode, toks: seq<Token>)

  predicate IsSpace(c: char) { c == ' ' || c == '\n' || c == '\t' || c == '\r' }

  predicate IsWordChar(c: char) { !IsSpace(c) && c != '(' && c != ')' && c != '"' }

  predicate IsWord(s: string) { s != "" && forall i :: 0 <= i < |s| ==> IsWordChar(s[i]) }

  function Begin(c: char): Lex {
    if IsSpace(c) then Lex(Outside, [])
    else if c == '(' then Lex(Outside, [Open])
    else if c == ')' then Lex(Outside, [Close])
    else if c == '"' then Lex(InString(""), [])
    else Lex(InWord([c]), [])
  }

  function Feed(l: Lex, c: char): Lex {
    match l.mode
    case Outside => Lex(Begin(c).mode, l.toks + Begin(c).toks)
    case InWord(acc) =>
      if IsWordChar(c) then Lex(InWord(acc + [c]), l.toks)
      else Lex(Begin(c).mode, l.toks + [Word(acc)] + Begin(c).toks)
    case InString(acc) =>
      if c == '"' then Lex(Outside, l.toks + [Quoted(acc)])
      else if c == '\\' then Lex(InEscape(acc), l.toks)
      else Lex(InString(acc + [c]), l.toks)
    case InEscape(acc) => Lex(InString(acc + [c]), l.toks)
  }

  function Run(l: Lex, s: string): Lex
    decreases |s|
  {
    if s == "" then l else Run(Feed(l, s[0]), s[1..])
  }

  lemma {:induction false} RunAppend(l: Lex, a: string, b: string)
    ensures Run(l, a + b) == Run(Run(l, a), b)
    decreases |a|
  {
    if a == "" {
      assert a + b == b;
    } else {
      assert (a + b)[0] == a[0] && (a + b)[1..] == a[1..] + b;
      RunAppend(Feed(l, a[0]), a[1..], b);
    }
  }

  /** What is read so far does not influence what follows. */
  lemma {:induction false} RunShift(m: Mode, toks: seq<Token>, s: string)
    ensures Run(Lex(m, toks), s) == Lex(Run(Lex(m, []), s).mode, toks + Run(Lex(m, []), s).toks)
    decreases |s|
  {
    if s != "" {
      var l := Feed(Lex(m, []), s[0]);
      assert Feed(Lex(m, toks), s[0]) == Lex(l.mode, toks + l.toks);
      RunShift(l.mode, toks + l.toks, s[1..]);
      RunShift(l.mode, l.toks, s[1..]);
      assert toks + (l.toks + Run(Lex(l.mode, []), s[1..]).toks) == toks + l.toks + Run(Lex(l.mode, []), s[1..]).toks;
    } else {
      assert toks + [] == toks;
    }
  }

  /** The tokens that are complete where the text ends. A string that is not
      closed is none. */
  function Emitted(l: Lex): seq<Token> {
    match l.mode
    case InWord(acc) => l.toks + [Word(acc)]
    case _ => l.toks
  }

  function Tokens(s: string): seq<Token> {
    Emitted(Run(Lex(Outside, []), s))
  }

  // ----- tokens to forms ----------------------------------------------------

  datatype Form = W(s: string) | Q(s: string) | L(items: seq<Form>)

  /** Open lists, outermost first; the bottom one holds the finished forms. */
  type Stack = seq<seq<Form>>

  function Put(k: Stack, f: Form): Option<Stack> {
    if k == [] then None else Some(k[..|k| - 1] + [k[|k| - 1] + [f]])
  }

  function Shift(k: Stack, t: Token): Option<Stack> {
    match t
    case Open => Some(k + [[]])
    case Close => if |k| < 2 then None else Put(k[..|k| - 1], L(k[|k| - 1]))
    case Quoted(s) => Put(k, Q(s))
    case Word(s) => Put(k, W(s))
  }

  /** `read-from-string`: the first form that is complete; what follows it is
      not looked at. */
  function FirstForm(k: Stack, ts: seq<Token>): Option<Form>
    decreases |ts|
  {
    if |k| == 1 && |k[0]| == 1 then Some(k[0][0])
    else if ts == [] then None
    else
      var k' :- Shift(k, ts[0]);
      FirstForm(k', ts[1..])
  }

  function Read(s: string): Option<Form> { FirstForm([[]], Tokens(s)) }

  // ----- forms to tokens: the printer's target ------------------------------

  function Toks(f: Form): seq<Token> {
    match f
    case W(s) => [Word(s)]
    case Q(s) => [Quoted(s)]
    case L(items) => [Open] + ToksAll(items) + [Close]
  }

  function ToksAll(fs: seq<Form>): seq<Token> {
    if fs == [] then [] else Toks(fs[0]) + ToksAll(fs[1..])
  }

  lemma {:induction false} ToksAllAppend(a: seq<Form>, b: seq<Form>)
    ensures ToksAll(a + b) == ToksAll(a) + ToksAll(b)
  {
    if a == [] {
      assert a + b == b;
    } else {
      assert (a + b)[1..] == a[1..] + b;
      ToksAllAppend(a[1..], b);
    }
  }

  /** Inside a list, the tokens of a form add the form to the list. */
  lemma {:induction false} ReadsForm(k: Stack, f: Form, more: seq<Token>)
    requires |k| >= 2
    ensures FirstForm(k, Toks(f) + more) == FirstForm(Put(k, f).value, more)
    decreases f, 0
  {
    var ts := Toks(f) + more;
    match f
    case W(s) => assert ts[0] == Word(s) && ts[1..] == more;
    case Q(s) => assert ts[0] == Quoted(s) && ts[1..] == more;
    case L(items) => ReadsList(k, items, more);
  }

  /** A list is read as one form, wherever it stands. */
  lemma {:induction false} ReadsList(k: Stack, items: seq<Form>, more: seq<Token>)
    requires k != [] && !(|k| == 1 && |k[0]| == 1)
    ensures FirstForm(k, Toks(L(items)) + more) == FirstForm(Put(k, L(items)).value, more)
    decreases items, 2
  {
    var ts := Toks(L(items)) + more;
    var rest := ToksAll(items) + ([Close] + more);
    assert ts[0] == Open && ts[1..] == rest;
    var k1 := k + [[]];
    ReadsForms(k1, items, [Close] + more);
    var k2 := k1[..|k1| - 1] + [k1[|k1| - 1] + items];
    assert k1[|k1| - 1] + items == items;
    assert k2[..|k2| - 1] == k && k2[|k2| - 1] == items;
    assert ([Close] + more)[0] == Close && ([Close] + more)[1..] == more;
  }

  lemma {:induction false} ReadsForms(k: Stack, fs: seq<Form>, more: seq<Token>)
    requires |k| >= 2
    ensures FirstForm(k, ToksAll(fs) + more) == FirstForm(k[..|k| - 1] + [k[|k| - 1] + fs], more)
    decreases fs, 1
  {
    if fs == [] {
      assert k[|k| - 1] + fs == k[|k| - 1];
      assert k == k[..|k| - 1] + [k[|k| - 1]];
      assert ToksAll(fs) + more == more;
    } else {
      var rest := ToksAll(fs[1..]) + more;
      assert ToksAll(fs) + more == Toks(fs[0]) + rest;
      ReadsForm(k, fs[0], rest);
      var k1 := k[..|k| - 1] + [k[|k| - 1] + [fs[0]]];
      ReadsForms(k1, fs[1..], more);
      assert k1[..|k1| - 1] == k[..|k| - 1];
      assert k[|k| - 1] + [fs[0]] + fs[1..] == k[|k| - 1] + fs;
    }
  }

  lemma ReadsFirst(f: Form, more: seq<Token>)
    ensures FirstForm([[]], Toks(f) + more) == Some(f)
  {
    var k: Stack := [[]];
    var ts := Toks(f) + more;
    assert k[0] + [f] == [f];
    assert k[..0] + [[f]] == [[f]];
    match f
    case W(s) => assert ts[0] == Word(s) && ts[1..] == more;
    case Q(s) => assert ts[0] == Quoted(s) && ts[1..] == more;
    case L(items) => ReadsList(k, items, more);
  }

  /** A text that begins with the tokens of a form reads as that form,
      whatever comes after them. */
  lemma ReadsBack(s: string, f: Form, more: seq<Token>)
    requires Tokens(s) == Toks(f) + more
    ensures Read(s) == Some(f)
  {
    ReadsFirst(f, more);
  }

  /** Only one form begins with these tokens, so the text determines the form. */
  lemma ToksInjective(f: Form, g: Form)
    requires Toks(f) == Toks(g)
    ensures f == g
  {
    ReadsFirst(f, []);
    ReadsFirst(g, []);
  }

  // ----- pieces of printed text ---------------------------------------------

  /** How the printer spells a token or the space between tokens. */
  datatype Piece =
    | PO | PC
    | PW(s: string)      // a keyword, an integer or nil
    | PN(s: string)      // a name between quotes, as it is
    | PD(s: string)      // a doc text between quotes, escaped
    | PS(s: string)      // white space

  function Escape(s: string): string {
    if s == "" then ""
    else (if s[0] == '\\' then "\\\\" else if s[0] == '"' then "\\\"" else [s[0]]) + Escape(s[1..])
  }

  function Text(p: Piece): string {
    match p
    case PO => "("
    case PC => ")"
    case PW(s) => s
    case PN(s) => "\"" + s + "\""
    case PD(s) => "\"" + Escape(s) + "\""
    case PS(s) => s
  }

  function TextAll(ps: seq<Piece>): string {
    if ps == [] then "" else Text(ps[0]) + TextAll(ps[1..])
  }

  lemma {:induction false} TextAppend(a: seq<Piece>, b: seq<Piece>)
    ensures TextAll(a + b) == TextAll(a) + TextAll(b)
  {
    if a == [] {
      assert a + b == b;
    } else {
      assert (a + b)[1..] == a[1..] + b;
      TextAppend(a[1..], b);
    }
  }

  function Tok(p: Piece): seq<Token> {
    match p
    case PO => [Open]
    case PC => [Close]
    case PW(s) => [Word(s)]
    case PN(s) => [Quoted(s)]
    case PD(s) => [Quoted(s)]
    case PS(_) => []
  }

  function TokAll(ps: seq<Piece>): seq<Token> {
    if ps == [] then [] else Tok(ps[0]) + TokAll(ps[1..])
  }

  lemma {:induction false} TokAppend(a: seq<Piece>, b: seq<Piece>)
    ensures TokAll(a + b) == TokAll(a) + TokAll(b)
  {
    if a == [] {
      assert a + b == b;
    } else {
      assert (a + b)[1..] == a[1..] + b;
      TokAppend(a[1..], b);
    }
  }

  /** A name that survives being printed between bare quotes. */
  predicate Clean(s: string) {
    forall i :: 0 <= i < |s| ==> s[i] != '"' && s[i] != '\\'
  }

  predicate PieceOk(p: Piece) {
    match p
    case PW(s) => IsWord(s)
    case PN(s) => Clean(s)
    case PS(s) => forall i :: 0 <= i < |s| ==> IsSpace(s[i])
    case _ => true
  }

  /** Two words never touch. */
  predicate Apart(ps: seq<Piece>) {
    forall i :: 0 <= i < |ps| - 1 && ps[i].PW? ==> Delimits(ps[i + 1])
  }

  predicate Delimits(p: Piece) {
    !p.PW? && (p.PS? ==> p.s != "")
  }

  predicate Spelled(ps: seq<Piece>) {
    Apart(ps) && forall i :: 0 <= i < |ps| ==> PieceOk(ps[i])
  }

  lemma {:induction false} RunWord(acc: string, s: string)
    requires forall i :: 0 <= i < |s| ==> IsWordChar(s[i])
    ensures Run(Lex(InWord(acc), []), s) == Lex(InWord(acc + s), [])
    decreases |s|
  {
    if s == "" {
      assert acc + s == acc;
    } else {
      RunWord(acc + [s[0]], s[1..]);
      assert acc + [s[0]] + s[1..] == acc + s;
    }
  }

  lemma {:induction false} RunSpace(s: string)
    requires forall i :: 0 <= i < |s| ==> IsSpace(s[i])
    ensures Run(Lex(Outside, []), s) == Lex(Outside, [])
    decreases |s|
  {
    if s != "" {
      RunSpace(s[1..]);
    }
  }

  lemma {:induction false} RunClean(acc: string, s: string)
    requires Clean(s)
    ensures Run(Lex(InString(acc), []), s) == Lex(InString(acc + s), [])
    decreases |s|
  {
    if s == "" {
      assert acc + s == acc;
    } else {
      RunClean(acc + [s[0]], s[1..]);
      assert acc + [s[0]] + s[1..] == acc + s;
    }
  }

  /** `push_escaped` is undone by the reader, for every text. */
  lemma {:induction false} RunEscaped(acc: string, s: string)
    ensures Run(Lex(InString(acc), []), Escape(s)) == Lex(InString(acc + s), [])
    decreases |s|
  {
    if s == "" {
      assert acc + s == acc;
    } else {
      var e := if s[0] == '\\' then "\\\\" else if s[0] == '"' then "\\\"" else [s[0]];
      RunAppend(Lex(InString(acc), []), e, Escape(s[1..]));
      EscapedOne(acc, s[0]);
      RunEscaped(acc + [s[0]], s[1..]);
      assert acc + [s[0]] + s[1..] == acc + s;
    }
  }

  lemma EscapedOne(acc: string, c: char)
    ensures var e := if c == '\\' then "\\\\" else if c == '"' then "\\\"" else [c];
            Run(Lex(InString(acc), []), e) == Lex(InString(acc + [c]), [])
  {
    if c == '\\' || c == '"' {
      var e := ['\\', c];
      var l := Feed(Lex(InString(acc), []), '\\');
      assert e[1..] == [c];
      assert Run(Lex(InString(acc), []), e) == Run(l, [c]);
      assert [c][1..] == "";
    }
  }

  lemma RunQuoted(s: string, body: string)
    requires Run(Lex(InString(""), []), body) == Lex(InString(s), [])
    ensures Run(Lex(Outside, []), "\"" + body + "\"") == Lex(Outside, [Quoted(s)])
  {
    RunAppend(Lex(Outside, []), "\"" + body, "\"");
    RunAppend(Lex(Outside, []), "\"", body);
    assert Run(Lex(Outside, []), "\"") == Lex(InString(""), []);
    assert Run(Lex(InString(s), []), "\"") == Lex(Outside, [Quoted(s)]);
  }

  lemma RunFirstWord(s: string)
    requires IsWord(s)
    ensures Run(Lex(Outside, []), s) == Lex(InWord(s), [])
  {
    var l := Lex(Outside, []);
    assert IsWordChar(s[0]);
    assert Feed(l, s[0]) == Lex(InWord([s[0]]), []);
    assert forall i :: 0 <= i < |s| - 1 ==> s[1..][i] == s[i + 1];
    RunWord([s[0]], s[1..]);
    assert [s[0]] + s[1..] == s;
  }

  lemma RunPiece(p: Piece)
    requires PieceOk(p)
    ensures Run(Lex(Outside, []), Text(p)) ==
      if p.PW? then Lex(InWord(p.s), []) else Lex(Outside, Tok(p))
  {
    match p
    case PO => assert "("[1..] == "";
    case PC => assert ")"[1..] == "";
    case PW(s) => RunFirstWord(s);
    case PN(s) =>
      RunClean("", s);
      assert "" + s == s;
      RunQuoted(s, s);
    case PD(s) =>
      RunEscaped("", s);
      assert "" + s == s;
      RunQuoted(s, Escape(s));
    case PS(s) => RunSpace(s);
  }

  /** After a word, a piece that delimits is read as if the word had ended. */
  lemma AfterWord(w: string, s: string)
    requires s != "" && !IsWordChar(s[0])
    ensures Run(Lex(InWord(w), []), s) == Run(Lex(Outside, [Word(w)]), s)
  {
    assert [] + [Word(w)] == [Word(w)];
  }

  lemma DelimiterFirst(p: Piece)
    requires PieceOk(p) && Delimits(p)
    ensures Text(p) != "" && !IsWordChar(Text(p)[0])
  {
  }

  /** A spelled text lexes to its tokens. */
  lemma {:induction false} SpelledTokens(ps: seq<Piece>)
    requires Spelled(ps)
    ensures Tokens(TextAll(ps)) == TokAll(ps)
    decreases |ps|
  {
    if ps != [] {
      var p, rest := ps[0], ps[1..];
      assert forall i :: 0 <= i < |rest| ==> rest[i] == ps[i + 1];
      SpelledTokens(rest);
      RunPiece(p);
      RunAppend(Lex(Outside, []), Text(p), TextAll(rest));
      var l := Run(Lex(Outside, []), TextAll(rest));
      assert l.mode.InWord? ==> Tok(p) + l.toks + [Word(l.mode.acc)] == Tok(p) + (l.toks + [Word(l.mode.acc)]);
      if p.PW? {
        if rest == [] {
          var none: seq<Token> := [];
          assert none + [Word(p.s)] == Tok(p) + TokAll(rest);
        } else {
          DelimiterFirst(rest[0]);
          AfterWord(p.s, TextAll(rest));
          RunShift(Outside, [Word(p.s)], TextAll(rest));
        }
      } else {
        RunShift(Outside, Tok(p), TextAll(rest));
      }
    }
  }

  lemma SpelledAppend(a: seq<Piece>, b: seq<Piece>)
    requires Spelled(a) && Spelled(b)
    requires a != [] && b != [] && a[|a| - 1].PW? ==> Delimits(b[0])
    ensures Spelled(a + b)
  {
  }
}

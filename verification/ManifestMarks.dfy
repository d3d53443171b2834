/** Why unescaped names cannot survive: a count of quotes and backslashes.

    A reader needs two of these marks around every string and two for each mark
    inside it; the renderer spends only one on a mark inside a name. So a text
    that reads back as the metadata it was rendered from has no mark in any
    name. `Due` is what reading costs, `Spent` what rendering pays. */
module ManifestMarks {
  import opened Wrappers
  import opened Sexp
  import opened ManifestReader

  function Mark(c: char): nat { if c == '"' || c == '\\' then 1 else 0 }

  function Marks(s: string): nat {
    if s == "" then 0 else Mark(s[0]) + Marks(s[1..])
  }

  lemma {:induction false} MarksAppend(a: string, b: string)
    ensures Marks(a + b) == Marks(a) + Marks(b)
  {
    if a == "" {
      assert a + b == b;
    } else {
      assert (a + b)[1..] == a[1..] + b;
      MarksAppend(a[1..], b);
    }
  }

  lemma {:induction false} MarksClean(s: string)
    ensures Marks(s) == 0 <==> Clean(s)
  {
    if s != "" {
      MarksClean(s[1..]);
      assert forall i :: 0 <= i < |s| - 1 ==> s[1..][i] == s[i + 1];
      assert forall i :: 0 < i < |s| ==> s[i] == s[1..][i - 1];
    }
  }

  lemma {:induction false} MarksEscape(s: string)
    ensures Marks(Escape(s)) == 2 * Marks(s)
  {
    if s != "" {
      var e := if s[0] == '\\' then "\\\\" else if s[0] == '"' then "\\\"" else [s[0]];
      MarksOne(e[0]);
      if |e| == 2 {
        MarksOne(e[1]);
        MarksAppend([e[0]], [e[1]]);
        assert e == [e[0]] + [e[1]];
      }
      assert Marks(e) == 2 * Mark(s[0]);
      MarksAppend(e, Escape(s[1..]));
      MarksEscape(s[1..]);
    }
  }

  lemma MarksOne(c: char)
    ensures Marks([c]) == Mark(c)
  {
    assert [c][1..] == "";
  }

  // ----- what reading costs -------------------------------------------------

  function TokDue(t: Token): nat { if t.Quoted? then 2 + 2 * Marks(t.s) else 0 }

  function ToksDue(ts: seq<Token>): nat {
    if ts == [] then 0 else TokDue(ts[0]) + ToksDue(ts[1..])
  }

  lemma {:induction false} ToksDueAppend(a: seq<Token>, b: seq<Token>)
    ensures ToksDue(a + b) == ToksDue(a) + ToksDue(b)
  {
    if a == [] {
      assert a + b == b;
    } else {
      assert (a + b)[1..] == a[1..] + b;
      ToksDueAppend(a[1..], b);
    }
  }

  lemma ToksDueOne(t: Token)
    ensures ToksDue([t]) == TokDue(t)
  {
    assert [t][1..] == [];
  }

  function ModeDue(m: Mode): nat {
    match m
    case InString(acc) => 1 + 2 * Marks(acc)
    case InEscape(acc) => 2 + 2 * Marks(acc)
    case _ => 0
  }

  function LexDue(l: Lex): nat { ToksDue(l.toks) + ModeDue(l.mode) }

  lemma BeginDue(c: char)
    ensures LexDue(Begin(c)) <= Mark(c)
  {
    ToksDueOne(Open);
    ToksDueOne(Close);
  }

  lemma FeedDue(l: Lex, c: char)
    ensures LexDue(Feed(l, c)) <= LexDue(l) + Mark(c)
  {
    match l.mode
    case Outside =>
      BeginDue(c);
      ToksDueAppend(l.toks, Begin(c).toks);
    case InWord(acc) =>
      BeginDue(c);
      ToksDueAppend(l.toks + [Word(acc)], Begin(c).toks);
      ToksDueAppend(l.toks, [Word(acc)]);
      ToksDueOne(Word(acc));
    case InString(acc) =>
      ToksDueAppend(l.toks, [Quoted(acc)]);
      ToksDueOne(Quoted(acc));
      MarksAppend(acc, [c]);
      MarksOne(c);
    case InEscape(acc) =>
      MarksAppend(acc, [c]);
      MarksOne(c);
  }

  lemma {:induction false} RunDue(l: Lex, s: string)
    ensures LexDue(Run(l, s)) <= LexDue(l) + Marks(s)
    decreases |s|
  {
    if s != "" {
      FeedDue(l, s[0]);
      RunDue(Feed(l, s[0]), s[1..]);
    }
  }

  lemma TokensDue(s: string)
    ensures ToksDue(Tokens(s)) <= Marks(s)
  {
    var l := Run(Lex(Outside, []), s);
    RunDue(Lex(Outside, []), s);
    if l.mode.InWord? {
      ToksDueAppend(l.toks, [Word(l.mode.acc)]);
      ToksDueOne(Word(l.mode.acc));
    }
  }

  function Due(f: Form): nat {
    match f
    case W(_) => 0
    case Q(s) => 2 + 2 * Marks(s)
    case L(items) => DueAll(items)
  }

  function DueAll(fs: seq<Form>): nat {
    if fs == [] then 0 else Due(fs[0]) + DueAll(fs[1..])
  }

  lemma {:induction false} DueAllAppend(a: seq<Form>, b: seq<Form>)
    ensures DueAll(a + b) == DueAll(a) + DueAll(b)
  {
    if a == [] {
      assert a + b == b;
    } else {
      assert (a + b)[1..] == a[1..] + b;
      DueAllAppend(a[1..], b);
    }
  }

  lemma DueAllOne(f: Form)
    ensures DueAll([f]) == Due(f)
  {
    assert [f][1..] == [];
  }

  function StackDue(k: Stack): nat {
    if k == [] then 0 else StackDue(k[..|k| - 1]) + DueAll(k[|k| - 1])
  }

  lemma PutDue(k: Stack, f: Form)
    requires k != []
    ensures StackDue(Put(k, f).value) == StackDue(k) + Due(f)
  {
    var n := |k| - 1;
    var k' := k[..n] + [k[n] + [f]];
    assert k'[..n] == k[..n] && k'[n] == k[n] + [f];
    DueAllAppend(k[n], [f]);
    DueAllOne(f);
  }

  lemma ShiftDue(k: Stack, t: Token)
    requires Shift(k, t).Some?
    ensures StackDue(Shift(k, t).value) == StackDue(k) + TokDue(t)
  {
    match t
    case Open =>
      var k' := k + [[]];
      assert k'[..|k'| - 1] == k;
    case Close => PutDue(k[..|k| - 1], L(k[|k| - 1]));
    case Quoted(s) => PutDue(k, Q(s));
    case Word(s) => PutDue(k, W(s));
  }

  lemma {:induction false} FirstFormDue(k: Stack, ts: seq<Token>)
    requires FirstForm(k, ts).Some?
    ensures Due(FirstForm(k, ts).value) <= StackDue(k) + ToksDue(ts)
    decreases |ts|
  {
    if |k| == 1 && |k[0]| == 1 {
      assert k[0] == [k[0][0]];
      DueAllOne(k[0][0]);
    } else {
      ShiftDue(k, ts[0]);
      FirstFormDue(Shift(k, ts[0]).value, ts[1..]);
    }
  }

  /** No text is read with fewer marks than the strings of the form need. */
  lemma ReadDue(s: string)
    requires Read(s).Some?
    ensures Due(Read(s).value) <= Marks(s)
  {
    var bottom: Stack := [[]];
    TokensDue(s);
    FirstFormDue(bottom, Tokens(s));
    assert bottom[..0] == [];
    assert StackDue(bottom) == 0;
  }

  // ----- what a property list costs at least --------------------------------

  function OptDue(f: Option<Form>): nat { if f.Some? then Due(f.value) else 0 }

  function KeysDue(items: seq<Form>, keys: seq<string>): nat {
    if keys == [] then 0 else OptDue(Getf(items, keys[0])) + KeysDue(items, keys[1..])
  }

  predicate Distinct(keys: seq<string>) { forall i, j :: 0 <= i < j < |keys| ==> keys[i] != keys[j] }

  lemma {:induction false} KeysPeel(items: seq<Form>, keys: seq<string>)
    requires |items| >= 2 && Distinct(keys)
    ensures KeysDue(items, keys) <= KeysDue(items[2..], keys) + Due(items[1])
    ensures (forall i :: 0 <= i < |keys| ==> items[0] != W(keys[i])) ==> KeysDue(items, keys) == KeysDue(items[2..], keys)
  {
    if keys != [] {
      var rest := keys[1..];
      assert forall i :: 0 <= i < |rest| ==> rest[i] == keys[i + 1];
      KeysPeel(items, rest);
    }
  }

  /** Different keys find different entries. */
  lemma {:induction false} KeysWithin(items: seq<Form>, keys: seq<string>)
    requires Distinct(keys)
    ensures KeysDue(items, keys) <= DueAll(items)
    decreases |items|
  {
    if |items| < 2 {
      NoKeys(items, keys);
    } else {
      KeysPeel(items, keys);
      KeysWithin(items[2..], keys);
      assert items == [items[0]] + ([items[1]] + items[2..]);
      DueAllAppend([items[0]], [items[1]] + items[2..]);
      DueAllAppend([items[1]], items[2..]);
      DueAllOne(items[0]);
      DueAllOne(items[1]);
    }
  }

  lemma {:induction false} NoKeys(items: seq<Form>, keys: seq<string>)
    requires |items| < 2
    ensures KeysDue(items, keys) == 0
  {
    if keys != [] { NoKeys(items, keys[1..]); }
  }

  lemma KeysCons(items: seq<Form>, key: string, keys: seq<string>)
    ensures KeysDue(items, [key] + keys) == OptDue(Getf(items, key)) + KeysDue(items, keys)
  {
    assert ([key] + keys)[1..] == keys;
  }
}

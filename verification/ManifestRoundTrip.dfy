/** Reading a rendered manifest gives back what was rendered, exactly when no
    name contains a quote or a backslash. */
module ManifestRoundTrip {
  import opened Wrappers
  import opened Sexp
  import opened Manifest
  import opened ManifestReader
  import opened ManifestText
  import opened ManifestDecode
  import opened ManifestNames

  /** The manifest text of a crate. */
  function Rendered(c: Crate): string { TextAll(CratePieces(c)) }

  lemma RoundTrip(c: Crate)
    requires ValidCrate(c)
    ensures ReadManifest(Rendered(c)) == Some(LoadedFrom(c)) <==> CleanCrate(c)
  {
    if CleanCrate(c) {
      TextReads(c);
      CrateDecode(c);
    } else {
      OnlyClean(c);
    }
  }

  /** Two crates with one text are one crate. */
  lemma RenderedInjective(c: Crate, d: Crate)
    requires ValidCrate(c) && ValidCrate(d)
    ensures CleanCrate(c) && CleanCrate(d) && Rendered(c) == Rendered(d) ==> c == d
  {
    RoundTrip(c);
    RoundTrip(d);
  }

  /** The error classes: each named error of a function once, `Error` never. */
  lemma {:induction false} SeenExactly(fns: seq<FnMeta>, e: string)
    ensures e in Seen(fns) <==> e != "Error" && exists i :: 0 <= i < |fns| && fns[i].error == Some(e)
    ensures forall i, j :: 0 <= i < j < |Seen(fns)| ==> Seen(fns)[i] != Seen(fns)[j]
  {
    if fns != [] {
      var n := |fns| - 1;
      SeenExactly(fns[..n], e);
      if exists i :: 0 <= i < |fns| && fns[i].error == Some(e) {
        var i :| 0 <= i < |fns| && fns[i].error == Some(e);
        if i < n { assert fns[..n][i].error == Some(e); }
      }
    }
  }

  /** And in the order in which they first come up. */
  lemma {:induction false} SeenInOrder(fns: seq<FnMeta>, a: nat, b: nat)
    requires a < b < |Seen(fns)|
    ensures exists i :: 0 <= i < |fns| && fns[i].error == Some(Seen(fns)[a])
                        && forall k :: 0 <= k <= i ==> fns[k].error != Some(Seen(fns)[b])
  {
    var n := |fns| - 1;
    var front := Seen(fns[..n]);
    if b < |front| {
      SeenInOrder(fns[..n], a, b);
      var i :| 0 <= i < n && fns[..n][i].error == Some(front[a]) && forall k :: 0 <= k <= i ==> fns[..n][k].error != Some(front[b]);
      assert forall k :: 0 <= k <= i ==> fns[k] == fns[..n][k];
    } else {
      var e := Seen(fns)[b];
      SeenExactly(fns[..n], e);
      SeenExactly(fns[..n], front[a]);
      assert front[a] in front;
      var i :| 0 <= i < n && fns[..n][i].error == Some(front[a]);
      forall k | 0 <= k <= i ensures fns[k].error != Some(e) { assert fns[..n][k] == fns[k]; }
    }
  }

  // ----- a name that the export check lets through --------------------------

  /** What the check on an explicit constructor name refuses; `white` are the
      Unicode white-space characters. */
  predicate RefusedChar(white: set<char>, c: char) {
    || c in white || c == ':' || c == '"' || c == '(' || c == ')' || c == '|' || c == '#' || c == ';' || c == '\''
  }

  predicate ConstructorNameAccepted(white: set<char>, s: string) {
    s != "" && forall i :: 0 <= i < |s| ==> !RefusedChar(white, s[i])
  }

  /** Of the accepted names exactly those with a backslash are not clean. */
  lemma AcceptedNameClean(white: set<char>, s: string)
    requires ConstructorNameAccepted(white, s)
    ensures Clean(s) <==> '\\' !in s
  {
    if '\\' !in s {
      forall i | 0 <= i < |s| ensures s[i] != '"' && s[i] != '\\' {
        assert !RefusedChar(white, s[i]);
        assert s[i] in s;
      }
    } else {
      var i :| 0 <= i < |s| && s[i] == '\\';
      assert !Clean(s);
    }
  }

  /** A constructor named with a backslash is accepted for export, and its
      manifest does not read back. */
  lemma BackslashNameLost(white: set<char>, c: Crate, i: nat)
    requires ValidCrate(c) && i < |c.fns| && ConstructorNameAccepted(white, c.fns[i].lispName)
    requires '\\' in c.fns[i].lispName
    ensures ReadManifest(Rendered(c)) != Some(LoadedFrom(c))
  {
    AcceptedNameClean(white, c.fns[i].lispName);
    assert !CleanFn(c.fns[i]);
    RoundTrip(c);
  }

  lemma ExampleAccepted(white: set<char>)
    requires '\\' !in white && 'x' !in white
    ensures ConstructorNameAccepted(white, "\\x")
  {
    var s := "\\x";
    assert !RefusedChar(white, s[0]) && !RefusedChar(white, s[1]);
  }

  /** Such a name, `\x`: it is accepted, and it reads as `x`. */
  lemma BackslashNameExample(white: set<char>)
    requires '\\' !in white && 'x' !in white
    ensures ConstructorNameAccepted(white, "\\x")
    ensures Tokens(Text(PN("\\x"))) == [Quoted("x")]
  {
    var l := Lex(InString(""), []);
    assert "\\x"[1..] == "x" && "x"[1..] == "";
    assert Feed(l, '\\') == Lex(InEscape(""), []);
    assert "" + ['x'] == "x";
    assert Feed(Feed(l, '\\'), 'x') == Lex(InString("x"), []);
    assert Run(Feed(l, '\\'), "x") == Lex(InString("x"), []);
    RunQuoted("x", "\\x");
    ExampleAccepted(white);
    assert Run(Lex(Outside, []), Text(PN("\\x"))) == Lex(Outside, [Quoted("x")]);
  }
}

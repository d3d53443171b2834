/** The length a head announces, for every head: lines ended by LF or CRLF, the
    first that begins with the key, and which texts are numbers. */
module HeadLength {
  import opened Wrappers
  import opened ByteSearch
  import opened HeadText

  // ----- numbers ------------------------------------------------------------

  function Zeros(k: nat): Text { seq(k, _ => 48) }

  lemma {:induction false} ZerosRead(k: nat)
    ensures Zeros(k) == [] || Digits(Zeros(k))
    ensures NumberOf(Zeros(k)) == 0
  {
    if k > 0 {
      ZerosRead(k - 1);
      assert Zeros(k)[..k - 1] == Zeros(k - 1);
    }
  }

  lemma {:induction false} PaddedReads(k: nat, n: nat)
    ensures Digits(Zeros(k) + Decimal(n)) && NumberOf(Zeros(k) + Decimal(n)) == n
  {
    var t := Zeros(k) + Decimal(n);
    if n < 10 {
      ZerosRead(k);
      assert t[..|t| - 1] == Zeros(k);
    } else {
      PaddedReads(k, n / 10);
      assert t[..|t| - 1] == Zeros(k) + Decimal(n / 10);
    }
  }

  lemma {:induction false} DigitsAre(t: Text) returns (k: nat)
    requires Digits(t)
    ensures t == Zeros(k) + Decimal(NumberOf(t))
  {
    var n := |t| - 1;
    var front, d := t[..n], t[n] - 48;
    assert t == front + [48 + d];
    if front == [] {
      k := 0;
    } else {
      k := DigitsAre(front);
      var m := NumberOf(front);
      assert NumberOf(t) == 10 * m + d;
      if m == 0 {
        assert front == Zeros(k + 1);
        k := k + 1;
      } else {
        assert (10 * m + d) / 10 == m && (10 * m + d) % 10 == d;
      }
    }
  }

  /** A plus sign or none, any zeros, the decimal digits of n. */
  predicate Spells(t: Text, plus: bool, k: nat, n: nat) {
    t == (if plus then [43] else []) + (Zeros(k) + Decimal(n))
  }

  lemma SpelledIsRead(t: Text, plus: bool, k: nat, n: nat)
    requires Spells(t, plus, k, n) && n <= USIZE_MAX
    ensures ParseUsize(t) == Some(n)
  {
    var ds := Zeros(k) + Decimal(n);
    PaddedReads(k, n);
    if plus { assert t == [43] + ds && t[1..] == ds; } else { assert t == ds; }
  }

  lemma ReadIsSpelled(t: Text) returns (plus: bool, k: nat)
    requires ParseUsize(t).Some?
    ensures Spells(t, plus, k, ParseUsize(t).value)
  {
    plus := |t| > 1 && t[0] == 43;
    var ds := if plus then t[1..] else t;
    k := DigitsAre(ds);
    assert t == (if plus then [43] else []) + ds;
  }

  /** A text is read as n exactly when it spells n, and a usize holds it. */
  lemma ParseExactly(t: Text, n: nat)
    ensures ParseUsize(t) == Some(n) <==> n <= USIZE_MAX && exists plus, k :: Spells(t, plus, k, n)
  {
    if ParseUsize(t) == Some(n) {
      var plus, k := ReadIsSpelled(t);
    } else if n <= USIZE_MAX && exists plus, k :: Spells(t, plus, k, n) {
      var plus, k :| Spells(t, plus, k, n);
      SpelledIsRead(t, plus, k, n);
    }
  }

  // ----- lines --------------------------------------------------------------

  /** From i up to j is a line of the text, without its line feed. */
  predicate LineAt(t: Text, i: nat, j: nat) {
    i < |t| && i <= j <= |t| && (i == 0 || t[i - 1] == LF) && (j == |t| || t[j] == LF) && LF !in t[i..j]
  }

  predicate KeyLine(t: Text, i: nat, j: nat) { LineAt(t, i, j) && StartsWith(t[i..j], LENGTH_KEY) }

  /** The first line with the key. */
  ghost predicate FirstKeyLine(t: Text, i: nat, j: nat) {
    KeyLine(t, i, j) && forall i': nat, j': nat :: KeyLine(t, i', j') ==> i <= i'
  }

  lemma {:induction false} TrimStartCr(v: Text)
    ensures TrimStart(v + [CR]) == TrimStart(v) + [CR] || (TrimStart(v) == [] && TrimStart(v + [CR]) == [])
  {
    if v == [] {
      assert v + [CR] == [CR] && [CR][1..] == [];
    } else if IsWhite(v[0]) {
      assert (v + [CR])[1..] == v[1..] + [CR];
      TrimStartCr(v[1..]);
    }
  }

  lemma TrimCr(v: Text)
    ensures Trim(v + [CR]) == Trim(v)
  {
    TrimStartCr(v);
    var u := TrimStart(v);
    assert (u + [CR])[..|u|] == u;
  }

  lemma KeyIs()
    ensures |LENGTH_KEY| == 15 && LENGTH_KEY[14] == 58
  {
  }

  /** A CR at the end of the line does not matter. */
  lemma KeyWithoutCr(l: Text)
    ensures StartsWith(WithoutCr(l), LENGTH_KEY) <==> StartsWith(l, LENGTH_KEY)
    ensures StartsWith(l, LENGTH_KEY) ==> Trim(WithoutCr(l)[15..]) == Trim(l[15..])
  {
    KeyIs();
    var u := WithoutCr(l);
    if u != l {
      assert l == u + [CR];
      if StartsWith(l, LENGTH_KEY) {
        assert l[14] == LENGTH_KEY[14];
        assert u[..15] == l[..15];
        assert l[15..] == u[15..] + [CR];
        TrimCr(u[15..]);
      }
      if StartsWith(u, LENGTH_KEY) { assert l[..15] == u[..15]; }
    }
  }

  /** The lines after the first line feed are those of the rest. */
  lemma RestLine(t: Text, f: nat, i: nat, j: nat)
    requires f < |t| && t[f] == LF
    ensures KeyLine(t[f + 1..], i, j) <==> KeyLine(t, i + f + 1, j + f + 1)
  {
    if i <= j <= |t| - f - 1 {
      assert t[f + 1..][i..j] == t[i + f + 1..j + f + 1];
    }
  }

  lemma RestFirst(t: Text, f: nat, i: nat, j: nat)
    requires f < |t| && t[f] == LF && FirstKeyLine(t, i, j) && f < i
    ensures f < j && FirstKeyLine(t[f + 1..], i - f - 1, j - f - 1)
  {
    var rest := t[f + 1..];
    forall i': nat, j': nat | KeyLine(rest, i', j') ensures i - f - 1 <= i' {
      RestLine(t, f, i', j');
    }
    RestLine(t, f, i - f - 1, j - f - 1);
  }

  /** The first line, up to the first line feed. */
  lemma ValueHere(t: Text, f: nat)
    requires f < |t| && Find(t, [LF]) == Some(f) && KeyLine(t, 0, f)
    ensures var v := LengthValue(Lines(t)); v.Some? && 15 <= f && Trim(v.value) == Trim(t[15..f])
  {
    KeyIs();
    KeyWithoutCr(t[..f]);
    assert t[0..f] == t[..f] && t[..f][15..] == t[15..f];
  }

  lemma ValueLater(t: Text, f: nat)
    requires f < |t| && Find(t, [LF]) == Some(f) && LF !in t[..f] && t[f] == LF && !KeyLine(t, 0, f)
    ensures LengthValue(Lines(t)) == LengthValue(Lines(t[f + 1..]))
  {
    KeyWithoutCr(t[..f]);
    assert t[0..f] == t[..f];
    FirstOfLines(t, f);
    var rest := Lines(t[f + 1..]);
    assert ([WithoutCr(t[..f])] + rest)[1..] == rest;
  }

  lemma FirstOfLines(t: Text, f: nat)
    requires f < |t| && Find(t, [LF]) == Some(f)
    ensures Lines(t) == [WithoutCr(t[..f])] + Lines(t[f + 1..])
  {
  }

  lemma {:induction false} ValueOfFirst(t: Text, i: nat, j: nat)
    requires FirstKeyLine(t, i, j)
    ensures var v := LengthValue(Lines(t)); v.Some? && i + 15 <= j && Trim(v.value) == Trim(t[i + 15..j])
    decreases |t|
  {
    KeyIs();
    match Find(t, [LF]) {
      case None =>
        NoLf(t);
        assert t[0..|t|] == t;
      case Some(f) =>
        FirstLf(t, f);
        if i == 0 {
          OneEnd(t, f, j);
          ValueHere(t, f);
        } else {
          LaterLine(t, f, i, j);
          RestFirst(t, f, i, j);
          ValueOfFirst(t[f + 1..], i - f - 1, j - f - 1);
          ValueLater(t, f);
          ShiftedValue(t, f, i, j);
        }
    }
  }

  lemma ShiftedValue(t: Text, f: nat, i: nat, j: nat)
    requires f < i && i + 15 <= j <= |t|
    ensures t[f + 1..][i - f - 1 + 15..j - f - 1] == t[i + 15..j]
  {
  }

  lemma OneEnd(t: Text, f: nat, j: nat)
    requires f < |t| && t[f] == LF && LF !in t[..f] && LineAt(t, 0, j)
    ensures j == f
  {
    assert forall k :: 0 <= k < j ==> t[k] in t[0..j];
  }

  lemma LaterLine(t: Text, f: nat, i: nat, j: nat)
    requires f < |t| && t[f] == LF && LF !in t[..f] && LineAt(t, i, j) && i > 0
    ensures f < i
  {
    assert t[i - 1] == LF;
  }

  lemma NoLf(t: Text)
    requires Find(t, [LF]).None?
    ensures LF !in t
  {
    FindIsFirst(t, [LF], 0);
    forall k | 0 <= k < |t| ensures t[k] != LF {
      assert t[k..k + 1] == [t[k]];
      assert !At(t, [LF], k);
    }
  }

  lemma FirstLf(t: Text, f: nat)
    requires Find(t, [LF]) == Some(f)
    ensures f < |t| && t[f] == LF && LF !in t[..f]
  {
    FindIsFirst(t, [LF], 0);
    assert t[f..f + 1] == [LF];
    forall k | 0 <= k < f ensures t[k] != LF {
      assert t[k..k + 1] == [t[k]];
      assert !At(t, [LF], k);
    }
  }

  lemma {:induction false} NoValue(t: Text)
    requires forall i: nat, j: nat :: !KeyLine(t, i, j)
    ensures LengthValue(Lines(t)).None?
    decreases |t|
  {
    FindIsFirst(t, [LF], 0);
    if t != [] {
      match Find(t, [LF]) {
        case None =>
          NoLf(t);
          assert t[0..|t|] == t && !KeyLine(t, 0, |t|);
        case Some(f) =>
          FirstLf(t, f);
          ValueLater(t, f);
          var rest := t[f + 1..];
          forall i: nat, j: nat | KeyLine(rest, i, j) ensures false {
            RestLine(t, f, i, j);
          }
          NoValue(t[f + 1..]);
      }
    }
  }

  /** The length of any head: the number on its first line with the key, with
      blanks trimmed off; 0 when there is none, or it is not a number. */
  lemma LengthOfHead(t: Text, i: nat, j: nat)
    requires FirstKeyLine(t, i, j)
    ensures i + 15 <= j
    ensures forall n: nat :: ParseUsize(Trim(t[i + 15..j])) == Some(n) ==> ContentLength(t) == n
    ensures ParseUsize(Trim(t[i + 15..j])).None? ==> ContentLength(t) == 0
  {
    ValueOfFirst(t, i, j);
  }

  lemma LengthOfNone(t: Text)
    requires forall i: nat, j: nat :: !KeyLine(t, i, j)
    ensures ContentLength(t) == 0
  {
    NoValue(t);
  }

  /** The line every server writes, with one space, wherever it is. */
  lemma UsualLine(before: seq<Text>, n: nat, after: seq<Text>)
    requires OneLines(before) && NoKey(before) && OneLines(after)
    ensures ContentLength(Joined(before + [Codes("content-length: ") + Decimal(n)] + after)) == if n <= USIZE_MAX then n else 0
  {
    UsualLineIs(n);
    AnnouncedLength(before, [32], n, [], after);
  }

  lemma UsualLineIs(n: nat)
    ensures Codes("content-length: ") + Decimal(n) == LengthLine([32], n, [])
  {
    assert Codes("content-length: ") == LENGTH_KEY + [32];
    assert [32] + Decimal(n) + [] == [32] + Decimal(n);
    assert (LENGTH_KEY + [32]) + Decimal(n) == LENGTH_KEY + ([32] + Decimal(n));
  }
}

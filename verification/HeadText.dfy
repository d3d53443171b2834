/** The text of a response head: its lines, and the length it announces. */
module HeadText {
  import opened Wrappers
  import opened ByteSearch

  type Text = seq<int>   // code points

  const CR := 13
  const LF := 10
  const USIZE_MAX: nat := 0xFFFF_FFFF_FFFF_FFFF

  function Codes(s: string): Text { seq(|s|, i requires 0 <= i < |s| => s[i] as int) }

  const LENGTH_KEY: Text := Codes("content-length:")

  // ----- lines --------------------------------------------------------------

  function WithoutCr(l: Text): Text { if l != [] && l[|l| - 1] == CR then l[..|l| - 1] else l }

  /** `str::lines` */
  function Lines(t: Text): seq<Text>
    decreases |t|
  {
    if t == [] then []
    else
      match Find(t, [LF])
      case None => [t]
      case Some(i) => FindIsFirst(t, [LF], 0); [WithoutCr(t[..i])] + Lines(t[i + 1..])
  }

  // ----- numbers ------------------------------------------------------------

  /** `char::is_whitespace` */
  predicate IsWhite(c: int) {
    9 <= c <= 13 || c == 0x20 || c == 0x85 || c == 0xA0 || c == 0x1680 || 0x2000 <= c <= 0x200A
    || c == 0x2028 || c == 0x2029 || c == 0x202F || c == 0x205F || c == 0x3000
  }

  function TrimStart(t: Text): Text { if t != [] && IsWhite(t[0]) then TrimStart(t[1..]) else t }

  function TrimEnd(t: Text): Text { if t != [] && IsWhite(t[|t| - 1]) then TrimEnd(t[..|t| - 1]) else t }

  function Trim(t: Text): Text { TrimEnd(TrimStart(t)) }

  predicate Digits(t: Text) { t != [] && forall i :: 0 <= i < |t| ==> 48 <= t[i] <= 57 }

  function NumberOf(t: Text): nat
    requires t == [] || Digits(t)
  {
    if t == [] then 0 else NumberOf(t[..|t| - 1]) * 10 + (t[|t| - 1] - 48)
  }

  /** `parse::<usize>().ok()`: a plus sign may lead, a number too large is refused. */
  function ParseUsize(t: Text): (r: Option<nat>)
    ensures r.Some? ==> r.value <= USIZE_MAX
  {
    var ds := if |t| > 1 && t[0] == 43 then t[1..] else t;
    if Digits(ds) && NumberOf(ds) <= USIZE_MAX then Some(NumberOf(ds)) else None
  }

  // ----- the announced length -----------------------------------------------

  /** What follows the key on the first line that has it. */
  function LengthValue(ls: seq<Text>): Option<Text> {
    if ls == [] then None
    else if StartsWith(ls[0], LENGTH_KEY) then Some(ls[0][|LENGTH_KEY|..])
    else LengthValue(ls[1..])
  }

  function ContentLength(t: Text): (n: nat)
    ensures n <= USIZE_MAX
  {
    match LengthValue(Lines(t))
    case None => 0
    case Some(v) => match ParseUsize(Trim(v)) case None => 0 case Some(n) => n
  }

  // ----- what a writer writes -----------------------------------------------

  /** Lines, each with its CRLF. */
  function Joined(ls: seq<Text>): Text {
    if ls == [] then [] else ls[0] + [CR, LF] + Joined(ls[1..])
  }

  function Decimal(n: nat): Text { if n < 10 then [48 + n] else Decimal(n / 10) + [48 + n % 10] }

  /** A header line that announces n, with blanks around the number. */
  function LengthLine(pad: Text, n: nat, pad': Text): Text { LENGTH_KEY + (pad + Decimal(n) + pad') }

  predicate OneLine(l: Text) { LF !in l }

  predicate OneLines(ls: seq<Text>) { forall i :: 0 <= i < |ls| ==> OneLine(ls[i]) }

  predicate NoKey(ls: seq<Text>) { forall i :: 0 <= i < |ls| ==> !StartsWith(ls[i], LENGTH_KEY) }

  predicate Blank(t: Text) { forall i :: 0 <= i < |t| ==> IsWhite(t[i]) && t[i] != LF }

  lemma FindLf(l: Text, rest: Text)
    requires OneLine(l)
    ensures Find(l + [CR, LF] + rest, [LF]) == Some(|l| + 1)
  {
    var t := l + [CR, LF] + rest;
    assert t[|l| + 1] == LF && t[|l| + 1..|l| + 2] == [LF];
    forall j | 0 <= j < |l| + 1 ensures !At(t, [LF], j) {
      assert t[j] != LF;
    }
    FindUnique(t, [LF], |l| + 1);
  }

  lemma {:induction false} LinesJoined(ls: seq<Text>)
    requires OneLines(ls)
    ensures Lines(Joined(ls)) == ls
  {
    if ls != [] {
      var t := Joined(ls);
      var l, rest := ls[0], Joined(ls[1..]);
      LinesJoined(ls[1..]);
      FindLf(l, rest);
      assert t[..|l| + 1] == l + [CR];
      assert WithoutCr(l + [CR]) == l;
      assert t[|l| + 2..] == rest;
      assert ls == [ls[0]] + ls[1..];
    }
  }

  lemma {:induction false} DecimalReads(n: nat)
    ensures Digits(Decimal(n)) && NumberOf(Decimal(n)) == n
  {
    if n >= 10 {
      DecimalReads(n / 10);
      var d := Decimal(n / 10);
      assert (d + [48 + n % 10])[..|d|] == d;
    } else {
      assert [48 + n][..0] == [];
    }
  }

  lemma {:induction false} TrimStartPad(pad: Text, t: Text)
    requires Blank(pad) && t != [] && !IsWhite(t[0])
    ensures TrimStart(pad + t) == t
  {
    if pad == [] {
      assert pad + t == t;
    } else {
      assert (pad + t)[1..] == pad[1..] + t;
      TrimStartPad(pad[1..], t);
    }
  }

  lemma {:induction false} TrimEndPad(t: Text, pad: Text)
    requires Blank(pad) && t != [] && !IsWhite(t[|t| - 1])
    ensures TrimEnd(t + pad) == t
  {
    if pad == [] {
      assert t + pad == t;
    } else {
      assert (t + pad)[..|t + pad| - 1] == t + pad[..|pad| - 1];
      TrimEndPad(t, pad[..|pad| - 1]);
    }
  }

  /** The number of a header line is read back; one that no usize holds is as
      good as none. */
  lemma NumberReads(pad: Text, n: nat, pad': Text)
    requires Blank(pad) && Blank(pad')
    ensures ParseUsize(Trim(pad + Decimal(n) + pad')) == if n <= USIZE_MAX then Some(n) else None
  {
    var d := Decimal(n);
    DecimalReads(n);
    assert pad + d + pad' == pad + (d + pad');
    TrimStartPad(pad, d + pad');
    TrimEndPad(d, pad');
  }

  lemma {:induction false} FirstLine(before: seq<Text>, l: Text, after: seq<Text>)
    requires NoKey(before) && StartsWith(l, LENGTH_KEY)
    ensures LengthValue(before + [l] + after) == Some(l[|LENGTH_KEY|..])
  {
    var ls := before + [l] + after;
    if before != [] {
      assert ls[1..] == before[1..] + [l] + after;
      FirstLine(before[1..], l, after);
    }
  }

  lemma {:induction false} NoLine(ls: seq<Text>)
    requires NoKey(ls)
    ensures LengthValue(ls) == None
  {
    if ls != [] { NoLine(ls[1..]); }
  }

  lemma LengthLineIs(pad: Text, n: nat, pad': Text)
    requires Blank(pad) && Blank(pad')
    ensures var l := LengthLine(pad, n, pad');
            OneLine(l) && StartsWith(l, LENGTH_KEY) && l[|LENGTH_KEY|..] == pad + Decimal(n) + pad'
  {
    DecimalReads(n);
    var v := pad + Decimal(n) + pad';
    assert OneLine(v);
    assert LF !in LENGTH_KEY;
    assert (LENGTH_KEY + v)[..|LENGTH_KEY|] == LENGTH_KEY && (LENGTH_KEY + v)[|LENGTH_KEY|..] == v;
  }

  lemma JoinedLength(before: seq<Text>, l: Text, after: seq<Text>)
    requires OneLines(before) && NoKey(before) && OneLines(after) && OneLine(l) && StartsWith(l, LENGTH_KEY)
    ensures var n := ParseUsize(Trim(l[|LENGTH_KEY|..]));
            ContentLength(Joined(before + [l] + after)) == if n.Some? then n.value else 0
  {
    FirstLine(before, l, after);
    OneLinesAround(before, l, after);
    LengthOfLines(before + [l] + after, l[|LENGTH_KEY|..]);
  }

  lemma OneLinesAround(before: seq<Text>, l: Text, after: seq<Text>)
    requires OneLines(before) && OneLine(l) && OneLines(after)
    ensures OneLines(before + [l] + after)
  {
  }

  lemma LengthOfLines(ls: seq<Text>, v: Text)
    requires OneLines(ls) && LengthValue(ls) == Some(v)
    ensures var n := ParseUsize(Trim(v)); ContentLength(Joined(ls)) == if n.Some? then n.value else 0
  {
    LinesJoined(ls);
  }

  /** The length of a written head: the number of its first Content-Length line,
      whatever blanks are around it and whatever comes after. */
  lemma AnnouncedLength(before: seq<Text>, pad: Text, n: nat, pad': Text, after: seq<Text>)
    requires Blank(pad) && Blank(pad') && OneLines(before) && NoKey(before) && OneLines(after)
    ensures ContentLength(Joined(before + [LengthLine(pad, n, pad')] + after)) == if n <= USIZE_MAX then n else 0
  {
    LengthLineIs(pad, n, pad');
    NumberReads(pad, n, pad');
    JoinedLength(before, LengthLine(pad, n, pad'), after);
  }

  /** A head without such a line announces nothing. */
  lemma NothingAnnounced(ls: seq<Text>)
    requires OneLines(ls) && NoKey(ls)
    ensures ContentLength(Joined(ls)) == 0
  {
    LinesJoined(ls);
    NoLine(ls);
  }
}

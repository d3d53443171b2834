/** Which header blocks the two decoders accept, and what they read in them: a
    grammar of the lines, which names neither decoder. */
module HeaderAccept {
  import opened Wrappers
  import opened HeaderCodec

  // ----- lines --------------------------------------------------------------

  /** Pieces with a line feed between any two. */
  function Rejoined(ps: seq<Bytes>): Bytes {
    if ps == [] then [] else if |ps| == 1 then ps[0] else ps[0] + [LF] + Rejoined(ps[1..])
  }

  /** b is at k and nowhere before. */
  predicate First(s: Bytes, b: int, k: nat) { k < |s| && s[k] == b && forall i :: 0 <= i < k ==> s[i] != b }

  lemma FirstIs(s: Bytes, b: int)
    ensures Position(s, b) < |s| ==> First(s, b, Position(s, b))
    ensures Position(s, b) == |s| ==> b !in s
  {
  }

  lemma Around(s: Bytes, b: int, k: nat)
    requires First(s, b, k)
    ensures b !in s[..k] && s == s[..k] + [b] + s[k + 1..]
  {
  }

  lemma SplitFront(s: Bytes, k: nat)
    requires First(s, LF, k)
    ensures SplitLines(s) == [s[..k]] + SplitLines(s[k + 1..])
  {
    PositionIs(s, LF, k);
  }

  /** The pieces of a block: what lies between its line feeds. */
  lemma {:induction false} SplitLinesExact(s: Bytes)
    ensures Rejoined(SplitLines(s)) == s && forall i :: 0 <= i < |SplitLines(s)| ==> LF !in SplitLines(s)[i]
    decreases |s|
  {
    var k := Position(s, LF);
    FirstIs(s, LF);
    if k < |s| {
      SplitFront(s, k);
      Around(s, LF, k);
      SplitLinesExact(s[k + 1..]);
      assert SplitLines(s)[1..] == SplitLines(s[k + 1..]);
    }
  }

  predicate EndsCr(p: Bytes) { p != [] && p[|p| - 1] == CR }

  function Bare(p: Bytes): Bytes { if EndsCr(p) then p[..|p| - 1] else p }

  /** The bare lines that are not empty, in order. */
  function Bares(ps: seq<Bytes>): seq<Bytes> {
    if ps == [] then [] else (if Bare(ps[0]) == [] then [] else [Bare(ps[0])]) + Bares(ps[1..])
  }

  // ----- one line -----------------------------------------------------------

  predicate Spaces(s: Bytes) { forall i :: 0 <= i < |s| ==> AsciiSpace(s[i]) }

  predicate Blanks(s: Bytes) { forall i :: 0 <= i < |s| ==> Blank(s[i]) }

  /** The name with its capitals made small. */
  predicate Lowered(name: Bytes, low: Bytes) {
    |low| == |name| && forall i :: 0 <= i < |name| ==> low[i] == if 65 <= name[i] <= 90 then name[i] + 32 else name[i]
  }

  /** Spaces, a token, spaces, a colon, spaces, and value bytes that do not begin
      with a space. */
  ghost predicate ServerLineOf(line: Bytes, f: Field) {
    exists a, name, b, c :: line == a + name + b + [COLON] + c + f.value
      && Spaces(a) && IsToken(name) && Spaces(b) && Spaces(c) && Lowered(name, f.name)
      && IsValue(f.value) && (f.value == [] || !AsciiSpace(f.value[0]))
  }

  /** What the standard library trims to a token, a colon, blanks, and value bytes
      that do not begin with a blank. */
  ghost predicate FetchLineOf(std: Std, line: Bytes, f: Field) {
    exists raw, c :: line == raw + [COLON] + c + f.value
      && COLON !in raw && std.utf8(raw) && IsToken(std.trim(raw)) && Blanks(c) && Lowered(std.trim(raw), f.name)
      && IsValue(f.value) && (f.value == [] || !Blank(f.value[0]))
  }

  lemma {:induction false} TrimStartParts(s: Bytes)
    ensures var t := TrimStart(s); var n := |s| - |t|;
            n >= 0 && s == s[..n] + t && Spaces(s[..n]) && (t == [] || !AsciiSpace(t[0]))
  {
    if s != [] && AsciiSpace(s[0]) {
      TrimStartParts(s[1..]);
      var n := |s| - |TrimStart(s)|;
      assert s[..n] == [s[0]] + s[1..][..n - 1];
    }
  }

  lemma {:induction false} TrimEndParts(s: Bytes)
    ensures var t := TrimEnd(s); |t| <= |s| && s == t + s[|t|..] && Spaces(s[|t|..])
  {
    if s != [] && AsciiSpace(s[|s| - 1]) {
      TrimEndParts(s[..|s| - 1]);
      var n := |TrimEnd(s)|;
      assert s[n..] == s[..|s| - 1][n..] + [s[|s| - 1]];
    }
  }

  lemma {:induction false} SkipBlankParts(s: Bytes)
    ensures var t := SkipBlank(s); var n := |s| - |t|;
            n >= 0 && s == s[..n] + t && Blanks(s[..n]) && (t == [] || !Blank(t[0]))
  {
    if s != [] && Blank(s[0]) {
      SkipBlankParts(s[1..]);
      var n := |s| - |SkipBlank(s)|;
      assert s[..n] == [s[0]] + s[1..][..n - 1];
    }
  }

  lemma {:induction false} TrimStartIs(a: Bytes, t: Bytes)
    requires Spaces(a) && (t == [] || !AsciiSpace(t[0]))
    ensures TrimStart(a + t) == t
  {
    if a == [] {
      assert a + t == t;
    } else {
      assert (a + t)[1..] == a[1..] + t;
      TrimStartIs(a[1..], t);
    }
  }

  lemma {:induction false} TrimEndIs(t: Bytes, b: Bytes)
    requires Spaces(b) && t != [] && !AsciiSpace(t[|t| - 1])
    ensures TrimEnd(t + b) == t
  {
    if b == [] {
      assert t + b == t;
    } else {
      assert (t + b)[..|t + b| - 1] == t + b[..|b| - 1];
      TrimEndIs(t, b[..|b| - 1]);
    }
  }

  lemma {:induction false} SkipBlankIs(a: Bytes, t: Bytes)
    requires Blanks(a) && (t == [] || !Blank(t[0]))
    ensures SkipBlank(a + t) == t
  {
    if a == [] {
      assert a + t == t;
    } else {
      assert (a + t)[1..] == a[1..] + t;
      SkipBlankIs(a[1..], t);
    }
  }

  lemma LoweredIs(name: Bytes, low: Bytes)
    ensures Lowered(name, low) <==> low == Lower(name)
  {
  }

  lemma TokenEnds(name: Bytes)
    requires IsToken(name)
    ensures COLON !in name && !AsciiSpace(name[0]) && !AsciiSpace(name[|name| - 1])
  {
    assert IsTchar(name[0]) && IsTchar(name[|name| - 1]);
  }

  /** Where the first colon is, the line falls apart. */
  lemma AtColon(raw: Bytes, rest: Bytes)
    requires COLON !in raw
    ensures var line := raw + [COLON] + rest;
            Position(line, COLON) == |raw| < |line| && line[..|raw|] == raw && line[|raw| + 1..] == rest
  {
    var line := raw + [COLON] + rest;
    forall i | 0 <= i < |raw| ensures line[i] != COLON { assert line[i] == raw[i] && raw[i] in raw; }
    PositionIs(line, COLON, |raw|);
  }

  lemma ServerLineIntro(a: Bytes, name: Bytes, b: Bytes, c: Bytes, f: Field)
    requires Spaces(a) && IsToken(name) && Spaces(b) && Spaces(c) && Lowered(name, f.name)
    requires IsValue(f.value) && (f.value == [] || !AsciiSpace(f.value[0]))
    ensures ServerLineOf((a + (name + b)) + [COLON] + (c + f.value), f)
  {
    assert (a + (name + b)) + [COLON] + (c + f.value) == a + name + b + [COLON] + c + f.value;
  }

  lemma ServerFieldAt(line: Bytes, c: nat, f: Field)
    requires First(line, COLON, c)
    ensures ServerField(line) == Ok(f) <==>
              var name := TrimEnd(TrimStart(line[..c]));
              IsToken(name) && IsValue(f.value) && f == Field(Lower(name), TrimStart(line[c + 1..]))
  {
    PositionIs(line, COLON, c);
  }

  lemma ServerFieldSound(line: Bytes, c: nat, f: Field)
    requires First(line, COLON, c) && ServerField(line) == Ok(f)
    ensures ServerLineOf(line, f)
  {
    ServerFieldAt(line, c, f);
    Around(line, COLON, c);
    var raw, rest := line[..c], line[c + 1..];
    var t := TrimStart(raw);
    TrimStartParts(raw);
    TrimEndParts(t);
    TrimStartParts(rest);
    LoweredIs(TrimEnd(t), f.name);
    ServerLineIntro(raw[..|raw| - |t|], TrimEnd(t), t[|TrimEnd(t)|..], rest[..|rest| - |f.value|], f);
  }

  lemma ServerFieldComplete(a: Bytes, name: Bytes, b: Bytes, c: Bytes, f: Field)
    requires Spaces(a) && IsToken(name) && Spaces(b) && Spaces(c) && Lowered(name, f.name)
    requires IsValue(f.value) && (f.value == [] || !AsciiSpace(f.value[0]))
    ensures ServerField(a + name + b + [COLON] + c + f.value) == Ok(f)
  {
    TokenEnds(name);
    var raw := a + name + b;
    assert COLON !in raw;
    AtColon(raw, c + f.value);
    assert a + name + b + [COLON] + c + f.value == raw + [COLON] + (c + f.value);
    assert raw == a + (name + b);
    TrimStartIs(a, name + b);
    TrimEndIs(name, b);
    TrimStartIs(c, f.value);
    LoweredIs(name, f.name);
  }

  lemma ServerFieldIs(line: Bytes, f: Field)
    ensures ServerField(line) == Ok(f) <==> ServerLineOf(line, f)
  {
    if ServerField(line) == Ok(f) {
      FirstIs(line, COLON);
      ServerFieldSound(line, Position(line, COLON), f);
    } else if ServerLineOf(line, f) {
      var a, name, b, c :| line == a + name + b + [COLON] + c + f.value
        && Spaces(a) && IsToken(name) && Spaces(b) && Spaces(c) && Lowered(name, f.name)
        && IsValue(f.value) && (f.value == [] || !AsciiSpace(f.value[0]));
      ServerFieldComplete(a, name, b, c, f);
    }
  }

  lemma FetchLineIntro(std: Std, raw: Bytes, c: Bytes, f: Field)
    requires COLON !in raw && std.utf8(raw) && IsToken(std.trim(raw)) && Blanks(c) && Lowered(std.trim(raw), f.name)
    requires IsValue(f.value) && (f.value == [] || !Blank(f.value[0]))
    ensures FetchLineOf(std, raw + [COLON] + (c + f.value), f)
  {
    assert raw + [COLON] + (c + f.value) == raw + [COLON] + c + f.value;
  }

  lemma FetchFieldAt(std: Std, line: Bytes, c: nat, f: Field)
    requires First(line, COLON, c)
    ensures FetchField(std, line) == Ok(f) <==>
              var raw := line[..c];
              std.utf8(raw) && IsToken(std.trim(raw)) && IsValue(f.value)
              && f == Field(Lower(std.trim(raw)), SkipBlank(line[c + 1..]))
  {
    PositionIs(line, COLON, c);
  }

  lemma FetchFieldSound(std: Std, line: Bytes, c: nat, f: Field)
    requires First(line, COLON, c) && FetchField(std, line) == Ok(f)
    ensures FetchLineOf(std, line, f)
  {
    FetchFieldAt(std, line, c, f);
    Around(line, COLON, c);
    var raw, rest := line[..c], line[c + 1..];
    SkipBlankParts(rest);
    LoweredIs(std.trim(raw), f.name);
    FetchLineIntro(std, raw, rest[..|rest| - |f.value|], f);
  }

  lemma FetchFieldComplete(std: Std, raw: Bytes, c: Bytes, f: Field)
    requires COLON !in raw && std.utf8(raw) && IsToken(std.trim(raw)) && Blanks(c) && Lowered(std.trim(raw), f.name)
    requires IsValue(f.value) && (f.value == [] || !Blank(f.value[0]))
    ensures FetchField(std, raw + [COLON] + c + f.value) == Ok(f)
  {
    assert raw + [COLON] + c + f.value == raw + [COLON] + (c + f.value);
    AtColon(raw, c + f.value);
    SkipBlankIs(c, f.value);
    LoweredIs(std.trim(raw), f.name);
  }

  lemma FetchFieldIs(std: Std, line: Bytes, f: Field)
    ensures FetchField(std, line) == Ok(f) <==> FetchLineOf(std, line, f)
  {
    if FetchField(std, line) == Ok(f) {
      FirstIs(line, COLON);
      FetchFieldSound(std, line, Position(line, COLON), f);
    } else if FetchLineOf(std, line, f) {
      var raw, c :| line == raw + [COLON] + c + f.value
        && COLON !in raw && std.utf8(raw) && IsToken(std.trim(raw)) && Blanks(c) && Lowered(std.trim(raw), f.name)
        && IsValue(f.value) && (f.value == [] || !Blank(f.value[0]));
      FetchFieldComplete(std, raw, c, f);
    }
  }

  // ----- blocks -------------------------------------------------------------

  /** Every piece that a line feed ended ends in CR. */
  predicate EndedByCrlf(ps: seq<Bytes>) { forall i :: 0 <= i < |ps| - 1 ==> EndsCr(ps[i]) }

  /** So does the last one, unless it is empty; so may any other that is empty. */
  predicate AllCrOrEmpty(ps: seq<Bytes>) { forall i :: 0 <= i < |ps| ==> ps[i] == [] || EndsCr(ps[i]) }

  /** One field for each line, in order. */
  ghost predicate LinesAre(of: (Bytes, Field) -> bool, lines: seq<Bytes>, fs: seq<Field>) {
    |fs| == |lines| && forall i :: 0 <= i < |lines| ==> of(lines[i], fs[i])
  }

  ghost function ServerOf(): (Bytes, Field) -> bool { (line, f) => ServerLineOf(line, f) }

  ghost function FetchOf(std: Std): (Bytes, Field) -> bool { (line, f) => FetchLineOf(std, line, f) }

  lemma ServerLineIs(p: Bytes, ended: bool, fs: seq<Field>)
    ensures ServerLine(p, ended) == Ok(fs) <==> (ended ==> EndsCr(p)) && LinesAre(ServerOf(), Bares([p]), fs)
  {
    assert [p][1..] == [];
    if Bare(p) != [] {
      assert Bares([p]) == [Bare(p)];
      if |fs| == 1 {
        ServerFieldIs(Bare(p), fs[0]);
        assert fs == [fs[0]];
      }
    }
  }

  lemma LinesSplit(of: (Bytes, Field) -> bool, a: seq<Bytes>, b: seq<Bytes>, fs: seq<Field>, gs: seq<Field>)
    requires |fs| == |a|
    ensures LinesAre(of, a + b, fs + gs) <==> LinesAre(of, a, fs) && LinesAre(of, b, gs)
  {
    if LinesAre(of, a + b, fs + gs) {
      forall i | 0 <= i < |a| ensures of(a[i], fs[i]) { assert (a + b)[i] == a[i] && (fs + gs)[i] == fs[i]; }
      forall i | 0 <= i < |b| ensures of(b[i], gs[i]) {
        assert (a + b)[|a| + i] == b[i] && (fs + gs)[|a| + i] == gs[i];
      }
    }
  }

  /** The lines in front, and the rest. */
  lemma LinesFront(of: (Bytes, Field) -> bool, a: seq<Bytes>, b: seq<Bytes>, fs: seq<Field>)
    ensures LinesAre(of, a + b, fs) <==> |a| <= |fs| && LinesAre(of, a, fs[..|a|]) && LinesAre(of, b, fs[|a|..])
  {
    if |a| <= |fs| {
      assert fs == fs[..|a|] + fs[|a|..];
      LinesSplit(of, a, b, fs[..|a|], fs[|a|..]);
    }
  }

  lemma BaresFront(p: Bytes, ps: seq<Bytes>)
    ensures Bares([p] + ps) == Bares([p]) + Bares(ps) && |Bares([p])| <= 1
  {
    assert ([p] + ps)[1..] == ps && [p][1..] == [];
  }

  lemma EndedFront(p: Bytes, ps: seq<Bytes>)
    requires ps != []
    ensures EndedByCrlf([p] + ps) <==> EndsCr(p) && EndedByCrlf(ps)
  {
    var all := [p] + ps;
    assert all[0] == p && forall i :: 0 <= i < |ps| ==> all[i + 1] == ps[i];
    if EndedByCrlf(all) {
      forall i | 0 <= i < |ps| - 1 ensures EndsCr(ps[i]) { assert EndsCr(all[i + 1]); }
    }
  }

  /** The pieces of a block that the server accepts as these fields: every piece
      that a line feed ended ends in CR, and the fields are those of the lines
      that are not empty, in order. */
  ghost predicate ServerBlock(ps: seq<Bytes>, fs: seq<Field>) { EndedByCrlf(ps) && LinesAre(ServerOf(), Bares(ps), fs) }

  lemma ServerBlockFront(p: Bytes, ps: seq<Bytes>, fs: seq<Field>, n: nat)
    requires ps != [] && n == |Bares([p])|
    ensures ServerBlock([p] + ps, fs) <==>
              n <= |fs| && EndsCr(p) && LinesAre(ServerOf(), Bares([p]), fs[..n]) && ServerBlock(ps, fs[n..])
  {
    BaresFront(p, ps);
    EndedFront(p, ps);
    LinesFront(ServerOf(), Bares([p]), Bares(ps), fs);
  }

  lemma ServerDecodeFront(block: Bytes, k: nat, fs: seq<Field>, n: nat)
    requires First(block, LF, k) && n == |Bares([block[..k]])|
    ensures ServerDecode(block) == Ok(fs) <==>
              n <= |fs| && ServerLine(block[..k], true) == Ok(fs[..n]) && ServerDecode(block[k + 1..]) == Ok(fs[n..])
  {
    PositionIs(block, LF, k);
    ServerStep(block);
    var line := ServerLine(block[..k], true);
    if line.Ok? {
      ServerLineIs(block[..k], true, line.value);
      if ServerDecode(block) == Ok(fs) { assert fs[..n] == line.value; }
    }
    if n <= |fs| { assert fs == fs[..n] + fs[n..]; }
  }

  /** The server accepts a block, as these fields, exactly when its pieces between
      line feeds are such a block. */
  lemma {:induction false} ServerAccepts(block: Bytes, fs: seq<Field>)
    ensures ServerDecode(block) == Ok(fs) <==> ServerBlock(SplitLines(block), fs)
    decreases |block|
  {
    var k := Position(block, LF);
    FirstIs(block, LF);
    if k < |block| {
      var n := |Bares([block[..k]])|;
      SplitFront(block, k);
      ServerBlockFront(block[..k], SplitLines(block[k + 1..]), fs, n);
      ServerDecodeFront(block, k, fs, n);
      if n <= |fs| {
        ServerLineIs(block[..k], true, fs[..n]);
        ServerAccepts(block[k + 1..], fs[n..]);
      }
    } else {
      ServerOnly(block, fs);
    }
  }

  lemma ServerOnly(block: Bytes, fs: seq<Field>)
    requires LF !in block && Position(block, LF) == |block|
    ensures ServerDecode(block) == Ok(fs) <==> ServerBlock(SplitLines(block), fs)
  {
    ServerLineIs(block, false, fs);
    assert SplitLines(block) == [block];
    if block != [] {
      assert block[..|block|] == block;
      ServerStep(block);
      var line := ServerLine(block, false);
      if line.Ok? { assert line.value + [] == line.value; }
    }
  }

  // ----- ... of the client --------------------------------------------------

  lemma FetchLineIs(std: Std, p: Bytes, fs: seq<Field>)
    ensures FetchLine(std, p) == Ok(fs) <==> (p == [] || EndsCr(p)) && LinesAre(FetchOf(std), Bares([p]), fs)
  {
    assert [p][1..] == [];
    if Bare(p) != [] {
      assert Bares([p]) == [Bare(p)];
      if |fs| == 1 {
        FetchFieldIs(std, Bare(p), fs[0]);
        assert fs == [fs[0]];
      }
    }
  }

  lemma AllCrFront(p: Bytes, ps: seq<Bytes>)
    ensures AllCrOrEmpty([p] + ps) <==> (p == [] || EndsCr(p)) && AllCrOrEmpty(ps)
  {
    var all := [p] + ps;
    assert all[0] == p && forall i :: 0 <= i < |ps| ==> all[i + 1] == ps[i];
    if AllCrOrEmpty(all) {
      forall i | 0 <= i < |ps| ensures ps[i] == [] || EndsCr(ps[i]) { assert all[i + 1] == [] || EndsCr(all[i + 1]); }
    }
  }

  /** The pieces of a block that the client accepts as these fields: every piece
      that is not empty ends in CR, and the fields are those of the lines that are
      not empty, in order. */
  ghost predicate FetchBlock(std: Std, ps: seq<Bytes>, fs: seq<Field>) {
    AllCrOrEmpty(ps) && LinesAre(FetchOf(std), Bares(ps), fs)
  }

  lemma FetchBlockFront(std: Std, p: Bytes, ps: seq<Bytes>, fs: seq<Field>, n: nat)
    requires n == |Bares([p])|
    ensures FetchBlock(std, [p] + ps, fs) <==>
              n <= |fs| && (p == [] || EndsCr(p)) && LinesAre(FetchOf(std), Bares([p]), fs[..n]) && FetchBlock(std, ps, fs[n..])
  {
    BaresFront(p, ps);
    AllCrFront(p, ps);
    LinesFront(FetchOf(std), Bares([p]), Bares(ps), fs);
  }

  lemma FetchDecodeFront(std: Std, p: Bytes, ps: seq<Bytes>, fs: seq<Field>, n: nat)
    requires n == |Bares([p])|
    ensures FetchLines(std, [p] + ps) == Ok(fs) <==>
              n <= |fs| && FetchLine(std, p) == Ok(fs[..n]) && FetchLines(std, ps) == Ok(fs[n..])
  {
    FetchFront(std, p, ps);
    var line := FetchLine(std, p);
    if line.Ok? {
      FetchLineIs(std, p, line.value);
      if FetchLines(std, [p] + ps) == Ok(fs) { assert fs[..n] == line.value; }
    }
    if n <= |fs| { assert fs == fs[..n] + fs[n..]; }
  }

  lemma {:induction false} FetchReadsLines(std: Std, ps: seq<Bytes>, fs: seq<Field>)
    ensures FetchLines(std, ps) == Ok(fs) <==> FetchBlock(std, ps, fs)
  {
    if ps != [] {
      var p, rest, n := ps[0], ps[1..], |Bares([ps[0]])|;
      assert ps == [p] + rest;
      FetchBlockFront(std, p, rest, fs, n);
      FetchDecodeFront(std, p, rest, fs, n);
      if n <= |fs| {
        FetchLineIs(std, p, fs[..n]);
        FetchReadsLines(std, rest, fs[n..]);
      }
    }
  }

  /** The client accepts a block, as these fields, exactly when its pieces between
      line feeds are such a block. */
  lemma FetchAccepts(std: Std, block: Bytes, fs: seq<Field>)
    ensures FetchDecode(std, block) == Ok(fs) <==> FetchBlock(std, SplitLines(block), fs)
  {
    FetchReadsLines(std, SplitLines(block), fs);
  }

  // ----- what was read is a header map --------------------------------------

  lemma LoweredName(name: Bytes, low: Bytes)
    requires IsToken(name) && Lowered(name, low)
    ensures IsName(low)
  {
    forall i | 0 <= i < |low| ensures IsTchar(low[i]) && !IsUpper(low[i]) { assert IsTchar(name[i]); }
  }

  predicate NoBlankFirst(fs: seq<Field>) { forall i :: 0 <= i < |fs| ==> fs[i].value == [] || !Blank(fs[i].value[0]) }

  lemma NoBlanksFirst(fs: seq<Field>)
    requires forall i :: 0 <= i < |fs| ==> NoBlankFirst([fs[i]])
    ensures NoBlankFirst(fs)
  {
    forall i | 0 <= i < |fs| ensures fs[i].value == [] || !Blank(fs[i].value[0]) {
      assert NoBlankFirst([fs[i]]) && [fs[i]][0] == fs[i];
    }
  }

  lemma FieldValid(name: Bytes, f: Field)
    requires IsToken(name) && Lowered(name, f.name) && IsValue(f.value) && (f.value == [] || !Blank(f.value[0]))
    ensures IsField(f) && NoBlankFirst([f])
  {
    LoweredName(name, f.name);
  }

  lemma ServerFieldValid(line: Bytes, f: Field)
    requires ServerLineOf(line, f)
    ensures IsField(f) && NoBlankFirst([f])
  {
    var a, name, b, c :| line == a + name + b + [COLON] + c + f.value
      && Spaces(a) && IsToken(name) && Spaces(b) && Spaces(c) && Lowered(name, f.name)
      && IsValue(f.value) && (f.value == [] || !AsciiSpace(f.value[0]));
    FieldValid(name, f);
  }

  lemma FetchFieldValid(std: Std, line: Bytes, f: Field)
    requires FetchLineOf(std, line, f)
    ensures IsField(f) && NoBlankFirst([f])
  {
    var raw, c :| line == raw + [COLON] + c + f.value
      && COLON !in raw && std.utf8(raw) && IsToken(std.trim(raw)) && Blanks(c) && Lowered(std.trim(raw), f.name)
      && IsValue(f.value) && (f.value == [] || !Blank(f.value[0]));
    FieldValid(std.trim(raw), f);
  }

  lemma UntrimmedAre(fs: seq<Field>)
    requires NoBlankFirst(fs)
    ensures AllTrimmed(fs) == fs
  {
    forall i | 0 <= i < |fs| ensures Trimmed(fs[i]) == fs[i] { SkipChanges(fs[i].value); }
  }

  /** What the server accepts are valid fields with small names, and encoding them
      again is a block that both decoders read as the same fields. */
  lemma ServerNormal(std: Std, block: Bytes, fs: seq<Field>)
    requires Sound(std) && ServerDecode(block) == Ok(fs)
    ensures AreFields(fs) && ServerDecode(Encode(fs)) == FetchDecode(std, Encode(fs)) == Ok(fs)
  {
    ServerAccepts(block, fs);
    var lines := Bares(SplitLines(block));
    forall i | 0 <= i < |fs| ensures IsField(fs[i]) && NoBlankFirst([fs[i]]) { ServerFieldValid(lines[i], fs[i]); }
    NoBlanksFirst(fs);
    UntrimmedAre(fs);
    ServerReads(fs);
    FetchReads(std, fs);
  }

  /** The same for the client. */
  lemma FetchNormal(std: Std, block: Bytes, fs: seq<Field>)
    requires Sound(std) && FetchDecode(std, block) == Ok(fs)
    ensures AreFields(fs) && ServerDecode(Encode(fs)) == FetchDecode(std, Encode(fs)) == Ok(fs)
  {
    FetchAccepts(std, block, fs);
    var lines := Bares(SplitLines(block));
    forall i | 0 <= i < |fs| ensures IsField(fs[i]) && NoBlankFirst([fs[i]]) { FetchFieldValid(std, lines[i], fs[i]); }
    NoBlanksFirst(fs);
    UntrimmedAre(fs);
    ServerReads(fs);
    FetchReads(std, fs);
  }
}

/** The header block: `name ": " value CRLF`, repeated. One encoder, and the two
    decoders of the fetch client and of the server. */
module HeaderCodec {
  import opened Wrappers

  type Bytes = seq<int>

  datatype Field = Field(name: Bytes, value: Bytes)

  /** A header map: for each name its values, in order of appending. */
  type HeaderMap = map<Bytes, seq<Bytes>>

  datatype Reason = NotCrlf | NoColon | NameNotAscii | BadName | BadValue

  const CR := 13
  const LF := 10
  const SP := 32
  const HTAB := 9
  const COLON := 58

  // ----- names and values ---------------------------------------------------

  predicate IsLower(b: int) { 97 <= b <= 122 }

  predicate IsUpper(b: int) { 65 <= b <= 90 }

  /** The token characters of section 5.6.2 of RFC 9110. */
  predicate IsTchar(b: int) {
    IsLower(b) || IsUpper(b) || 48 <= b <= 57
    || b == 33 || 35 <= b <= 39 || b == 42 || b == 43 || b == 45 || b == 46 || 94 <= b <= 96 || b == 124 || b == 126
  }

  const NAME_LIMIT := 65535

  predicate IsToken(s: Bytes) { 0 < |s| <= NAME_LIMIT && forall i :: 0 <= i < |s| ==> IsTchar(s[i]) }

  predicate IsName(s: Bytes) { IsToken(s) && forall i :: 0 <= i < |s| ==> !IsUpper(s[i]) }

  function Lower(s: Bytes): Bytes { seq(|s|, i requires 0 <= i < |s| => if IsUpper(s[i]) then s[i] + 32 else s[i]) }

  /** `HeaderName::from_bytes` */
  function NameOf(s: Bytes): Outcome<Bytes, Reason> { if IsToken(s) then Ok(Lower(s)) else Err(BadName) }

  predicate IsValueByte(b: int) { (32 <= b <= 255 && b != 127) || b == HTAB }

  predicate IsValue(s: Bytes) { forall i :: 0 <= i < |s| ==> IsValueByte(s[i]) }

  /** `HeaderValue::from_bytes` */
  function ValueOf(s: Bytes): Outcome<Bytes, Reason> { if IsValue(s) then Ok(s) else Err(BadValue) }

  predicate IsField(f: Field) { IsName(f.name) && IsValue(f.value) }

  predicate AreFields(fs: seq<Field>) { forall i :: 0 <= i < |fs| ==> IsField(fs[i]) }

  // ----- the encoder --------------------------------------------------------

  function Line(f: Field): Bytes { f.name + [COLON, SP] + f.value + [CR] }

  function Encode(fs: seq<Field>): Bytes {
    if fs == [] then [] else Line(fs[0]) + [LF] + Encode(fs[1..])
  }

  lemma {:induction false} EncodeAppend(fs: seq<Field>, f: Field)
    ensures Encode(fs + [f]) == Encode(fs) + Line(f) + [LF]
  {
    if fs == [] {
      assert fs + [f] == [f] && [f][1..] == [];
      assert Encode([f]) == Line(f) + [LF] + [];
    } else {
      assert (fs + [f])[1..] == fs[1..] + [f];
      EncodeAppend(fs[1..], f);
    }
  }

  method EncodeHeaders(fs: seq<Field>) returns (out: Bytes)
    ensures out == Encode(fs)
  {
    out := [];
    for i := 0 to |fs|
      invariant out == Encode(fs[..i])
    {
      assert fs[..i + 1] == fs[..i] + [fs[i]];
      EncodeAppend(fs[..i], fs[i]);
      ghost var was := out;
      out := out + fs[i].name;
      out := out + [COLON, SP];
      out := out + fs[i].value;
      out := out + [CR, LF];
      assert out == was + Line(fs[i]) + [LF];
    }
    assert fs[..|fs|] == fs;
  }

  // ----- pieces of decoding -------------------------------------------------

  /** The first position of a byte, or the length. */
  function Position(s: Bytes, b: int): (k: nat)
    ensures k <= |s| && (k < |s| ==> s[k] == b) && forall i :: 0 <= i < k ==> s[i] != b
  {
    if s == [] then 0 else if s[0] == b then 0 else
    var k := Position(s[1..], b);
    assert forall i :: 0 < i < k + 1 ==> s[i] == s[1..][i - 1];
    k + 1
  }

  predicate Blank(b: int) { b == SP || b == HTAB }

  /** `trim_ascii_start`'s idea of white space. */
  predicate AsciiSpace(b: int) { b == SP || b == HTAB || b == LF || b == 12 || b == CR }

  function SkipBlank(s: Bytes): Bytes { if s != [] && Blank(s[0]) then SkipBlank(s[1..]) else s }

  function TrimStart(s: Bytes): Bytes { if s != [] && AsciiSpace(s[0]) then TrimStart(s[1..]) else s }

  function TrimEnd(s: Bytes): Bytes { if s != [] && AsciiSpace(s[|s| - 1]) then TrimEnd(s[..|s| - 1]) else s }

  /** What the standard library decides about names: UTF-8 and trimming. */
  datatype Std = Std(utf8: Bytes -> bool, trim: Bytes -> Bytes)

  /** ASCII tokens are UTF-8 and have nothing to trim. */
  ghost predicate Sound(std: Std) { forall s :: IsToken(s) ==> std.utf8(s) && std.trim(s) == s }

  // ----- the client's decoder -----------------------------------------------

  function FetchField(std: Std, line: Bytes): Outcome<Field, Reason> {
    var c := Position(line, COLON);
    if c == |line| then Err(NoColon)
    else if !std.utf8(line[..c]) then Err(NameNotAscii)
    else
      var name :- NameOf(std.trim(line[..c]));
      var value :- ValueOf(SkipBlank(line[c + 1..]));
      Ok(Field(name, value))
  }

  /** One piece between line feeds: no field, a field, or an error. */
  function FetchLine(std: Std, line: Bytes): Outcome<seq<Field>, Reason> {
    if line == [] then Ok([])
    else if line[|line| - 1] != CR then Err(NotCrlf)
    else if |line| == 1 then Ok([])
    else
      var f :- FetchField(std, line[..|line| - 1]);
      Ok([f])
  }

  /** `split(|b| b == b'\n')`: one piece more than there are line feeds. */
  function SplitLines(s: Bytes): (r: seq<Bytes>)
    ensures |r| > 0
    decreases |s|
  {
    var k := Position(s, LF);
    if k == |s| then [s] else [s[..k]] + SplitLines(s[k + 1..])
  }

  function FetchLines(std: Std, lines: seq<Bytes>): Outcome<seq<Field>, Reason> {
    if lines == [] then Ok([]) else
    var front :- FetchLines(std, lines[..|lines| - 1]);
    var f :- FetchLine(std, lines[|lines| - 1]);
    Ok(front + f)
  }

  function FetchDecode(std: Std, block: Bytes): Outcome<seq<Field>, Reason> { FetchLines(std, SplitLines(block)) }

  // ----- the server's decoder -----------------------------------------------

  function ServerField(line: Bytes): Outcome<Field, Reason> {
    var c := Position(line, COLON);
    if c == |line| then Err(NoColon)
    else
      var name :- NameOf(TrimEnd(TrimStart(line[..c])));
      var value :- ValueOf(TrimStart(line[c + 1..]));
      Ok(Field(name, value))
  }

  /** A line, and whether a line feed ended it. */
  function ServerLine(line: Bytes, ended: bool): Outcome<seq<Field>, Reason> {
    if (line == [] || line[|line| - 1] != CR) && ended then Err(NotCrlf)
    else
      var bare := if line != [] && line[|line| - 1] == CR then line[..|line| - 1] else line;
      if bare == [] then Ok([]) else
      var f :- ServerField(bare);
      Ok([f])
  }

  function ServerDecode(rest: Bytes): Outcome<seq<Field>, Reason>
    decreases |rest|
  {
    if rest == [] then Ok([]) else
    var k := Position(rest, LF);
    var f :- ServerLine(rest[..k], k < |rest|);
    var more :- ServerDecode(if k == |rest| then [] else rest[k + 1..]);
    Ok(f + more)
  }

  // ----- maps ---------------------------------------------------------------

  /** `map.append` */
  function AppendTo(m: HeaderMap, f: Field): HeaderMap {
    m[f.name := (if f.name in m then m[f.name] else []) + [f.value]]
  }

  function ToMap(fs: seq<Field>): HeaderMap {
    if fs == [] then map[] else AppendTo(ToMap(fs[..|fs| - 1]), fs[|fs| - 1])
  }

  function Mapped(r: Outcome<seq<Field>, Reason>): Outcome<HeaderMap, Reason> {
    if r.Ok? then Ok(ToMap(r.value)) else Err(r.error)
  }

  lemma {:induction false} FetchLinesStop(std: Std, lines: seq<Bytes>, i: nat)
    requires i < |lines| && FetchLines(std, lines[..i]).Ok? && FetchLine(std, lines[i]).Err?
    ensures FetchLines(std, lines) == Err(FetchLine(std, lines[i]).error)
    decreases |lines|
  {
    var n := |lines| - 1;
    if i < n {
      assert lines[..n][..i] == lines[..i];
      FetchLinesStop(std, lines[..n], i);
    }
  }

  lemma ToMapAppend(fs: seq<Field>, f: Field)
    ensures ToMap(fs + [f]) == AppendTo(ToMap(fs), f)
  {
    assert (fs + [f])[..|fs|] == fs;
  }

  lemma FetchNext(std: Std, lines: seq<Bytes>, i: nat)
    requires i < |lines| && FetchLines(std, lines[..i]).Ok? && FetchLine(std, lines[i]).Ok?
    ensures FetchLines(std, lines[..i + 1]) == Ok(FetchLines(std, lines[..i]).value + FetchLine(std, lines[i]).value)
    ensures |FetchLine(std, lines[i]).value| <= 1
  {
    assert lines[..i + 1][..i] == lines[..i];
  }

  /** Appending what a line gave: nothing, or one field. */
  lemma ToMapLine(fs: seq<Field>, line: seq<Field>)
    requires |line| <= 1
    ensures ToMap(fs + line) == if line == [] then ToMap(fs) else AppendTo(ToMap(fs), line[0])
  {
    if line == [] {
      assert fs + line == fs;
    } else {
      assert line == [line[0]];
      ToMapAppend(fs, line[0]);
    }
  }

  method FetchDecodeHeaders(std: Std, block: Bytes) returns (r: Outcome<HeaderMap, Reason>)
    ensures r == Mapped(FetchDecode(std, block))
  {
    var m: HeaderMap := map[];
    ghost var fs: seq<Field> := [];
    var lines := SplitLines(block);
    for i := 0 to |lines|
      invariant FetchLines(std, lines[..i]) == Ok(fs) && m == ToMap(fs)
    {
      var line := FetchLine(std, lines[i]);
      if line.Err? {
        FetchLinesStop(std, lines, i);
        return Err(line.error);
      }
      FetchNext(std, lines, i);
      ToMapLine(fs, line.value);
      fs := fs + line.value;
      if line.value != [] {
        m := AppendTo(m, line.value[0]);
      }
    }
    assert lines[..|lines|] == lines;
    return Ok(m);
  }

  /** Fields already read, before the rest. */
  function After(fs: seq<Field>, rest: Outcome<seq<Field>, Reason>): Outcome<seq<Field>, Reason> {
    if rest.Ok? then Ok(fs + rest.value) else rest
  }

  lemma AfterNothing(rest: Outcome<seq<Field>, Reason>)
    ensures After([], rest) == rest
  {
    if rest.Ok? { assert [] + rest.value == rest.value; }
  }

  lemma AfterLine(fs: seq<Field>, line: seq<Field>, rest: Outcome<seq<Field>, Reason>)
    ensures After(fs, After(line, rest)) == After(fs + line, rest)
  {
    if rest.Ok? { assert fs + (line + rest.value) == fs + line + rest.value; }
  }

  lemma ServerStep(rest: Bytes)
    requires rest != []
    ensures var k := Position(rest, LF);
            var line := ServerLine(rest[..k], k < |rest|);
            var tail := if k == |rest| then [] else rest[k + 1..];
            ServerDecode(rest) == (if line.Err? then Err(line.error) else After(line.value, ServerDecode(tail)))
            && (line.Ok? ==> |line.value| <= 1)
  {
  }

  method ServerDecodeHeaders(block: Bytes) returns (r: Outcome<HeaderMap, Reason>)
    ensures r == Mapped(ServerDecode(block))
  {
    var m: HeaderMap := map[];
    ghost var fs: seq<Field> := [];
    var rest := block;
    AfterNothing(ServerDecode(block));
    while rest != []
      invariant m == ToMap(fs)
      invariant ServerDecode(block) == After(fs, ServerDecode(rest))
      decreases |rest|
    {
      ServerStep(rest);
      var k := Position(rest, LF);
      var line := ServerLine(rest[..k], k < |rest|);
      if line.Err? {
        return Err(line.error);
      }
      rest := if k == |rest| then [] else rest[k + 1..];
      AfterLine(fs, line.value, ServerDecode(rest));
      ToMapLine(fs, line.value);
      fs := fs + line.value;
      if line.value != [] {
        m := AppendTo(m, line.value[0]);
      }
    }
    assert fs + [] == fs;
    return Ok(m);
  }

  // ----- round trips --------------------------------------------------------

  function Trimmed(f: Field): Field { Field(f.name, SkipBlank(f.value)) }

  function AllTrimmed(fs: seq<Field>): (r: seq<Field>)
    ensures |r| == |fs| && forall i :: 0 <= i < |fs| ==> r[i] == Trimmed(fs[i])
  {
    seq(|fs|, i requires 0 <= i < |fs| => Trimmed(fs[i]))
  }

  lemma TrimmedFront(fs: seq<Field>)
    requires fs != []
    ensures AllTrimmed(fs) == [Trimmed(fs[0])] + AllTrimmed(fs[1..])
  {
  }

  lemma PositionIs(s: Bytes, b: int, k: nat)
    requires k <= |s| && (k < |s| ==> s[k] == b) && forall i :: 0 <= i < k ==> s[i] != b
    ensures Position(s, b) == k
  {
  }

  lemma LowerName(s: Bytes)
    requires IsName(s)
    ensures NameOf(s) == Ok(s)
  {
    assert Lower(s) == s;
  }

  lemma {:induction false} SkipIsValue(s: Bytes)
    requires IsValue(s)
    ensures IsValue(SkipBlank(s)) && TrimStart(s) == SkipBlank(s)
  {
    if s != [] && Blank(s[0]) { SkipIsValue(s[1..]); }
  }

  /** The line of a field, without its CR: where its parts are. */
  lemma LineParts(f: Field)
    requires IsField(f)
    ensures var bare := f.name + [COLON, SP] + f.value;
            && Line(f) == bare + [CR] && Line(f)[..|Line(f)| - 1] == bare && |bare| > 0
            && Position(bare, COLON) == |f.name| < |bare|
            && bare[..|f.name|] == f.name && bare[|f.name| + 1..] == [SP] + f.value
  {
    var bare := f.name + [COLON, SP] + f.value;
    assert forall i :: 0 <= i < |f.name| ==> bare[i] == f.name[i] && IsTchar(f.name[i]);
    PositionIs(bare, COLON, |f.name|);
    assert bare[|f.name| + 1..] == [SP] + f.value;
  }

  lemma FetchLineReads(std: Std, f: Field)
    requires Sound(std) && IsField(f)
    ensures FetchLine(std, Line(f)) == Ok([Trimmed(f)])
  {
    LineParts(f);
    LowerName(f.name);
    SkipIsValue(f.value);
    assert ([SP] + f.value)[1..] == f.value;
  }

  lemma NoTrim(s: Bytes)
    requires IsName(s)
    ensures TrimEnd(TrimStart(s)) == s
  {
    assert IsTchar(s[0]) && IsTchar(s[|s| - 1]);
  }

  lemma ServerLineReads(f: Field)
    requires IsField(f)
    ensures ServerLine(Line(f), true) == Ok([Trimmed(f)])
  {
    LineParts(f);
    NoTrim(f.name);
    LowerName(f.name);
    SkipIsValue(f.value);
    assert ([SP] + f.value)[1..] == f.value;
  }

  /** A line feed only at the end of the line. */
  lemma LineEnds(f: Field, rest: Bytes)
    requires IsField(f)
    ensures var s := Line(f) + [LF] + rest;
            Position(s, LF) == |Line(f)| < |s| && s[..|Line(f)|] == Line(f) && s[|Line(f)| + 1..] == rest
  {
    var s := Line(f) + [LF] + rest;
    var line := Line(f);
    forall i | 0 <= i < |line| ensures line[i] != LF {
      if i < |f.name| {
        assert line[i] == f.name[i] && IsTchar(f.name[i]);
      } else if |f.name| + 2 <= i < |line| - 1 {
        assert line[i] == f.value[i - |f.name| - 2] && IsValueByte(f.value[i - |f.name| - 2]);
      }
    }
    assert forall i :: 0 <= i < |line| ==> s[i] == line[i];
    PositionIs(s, LF, |line|);
  }

  /** One line more in front. */
  function Joined(line: Outcome<seq<Field>, Reason>, rest: Outcome<seq<Field>, Reason>): Outcome<seq<Field>, Reason> {
    var f :- line;
    After(f, rest)
  }

  lemma {:induction false} FetchFront(std: Std, line: Bytes, lines: seq<Bytes>)
    ensures FetchLines(std, [line] + lines) == Joined(FetchLine(std, line), FetchLines(std, lines))
  {
    var all := [line] + lines;
    if lines == [] {
      assert all[..0] == [] && all[0] == line;
      var f := FetchLine(std, line);
      if f.Ok? { assert [] + f.value == f.value && f.value + [] == f.value; }
    } else {
      var n := |lines| - 1;
      assert all[..n + 1] == [line] + lines[..n] && all[n + 1] == lines[n];
      FetchFront(std, line, lines[..n]);
      FetchLast(std, all);
      FetchLast(std, lines);
      JoinedNext(FetchLine(std, line), FetchLines(std, lines[..n]), FetchLine(std, lines[n]));
    }
  }

  /** What one more line adds. */
  function Next(front: Outcome<seq<Field>, Reason>, line: Outcome<seq<Field>, Reason>): Outcome<seq<Field>, Reason> {
    var fs :- front;
    var f :- line;
    Ok(fs + f)
  }

  lemma FetchLast(std: Std, lines: seq<Bytes>)
    requires lines != []
    ensures FetchLines(std, lines) == Next(FetchLines(std, lines[..|lines| - 1]), FetchLine(std, lines[|lines| - 1]))
  {
  }

  lemma JoinedNext(a: Outcome<seq<Field>, Reason>, b: Outcome<seq<Field>, Reason>, c: Outcome<seq<Field>, Reason>)
    ensures Next(Joined(a, b), c) == Joined(a, Next(b, c))
  {
    if a.Ok? && b.Ok? && c.Ok? { assert a.value + b.value + c.value == a.value + (b.value + c.value); }
  }

  lemma FetchNothing(std: Std)
    ensures FetchDecode(std, []) == Ok([])
  {
    var e: Bytes := [];
    var lines: seq<Bytes> := [e];
    assert SplitLines(e) == lines && lines[..0] == [] && lines[|lines| - 1] == e;
    assert FetchLine(std, e) == Ok([]);
    assert FetchLines(std, lines[..|lines| - 1]) == Ok([]);
    var none: seq<Field> := [];
    assert none + none == none;
    assert FetchLines(std, lines) == Ok(none);
  }

  lemma FetchStep(std: Std, f: Field, rest: Bytes)
    requires Sound(std) && IsField(f)
    ensures FetchDecode(std, Line(f) + [LF] + rest) == After([Trimmed(f)], FetchDecode(std, rest))
  {
    LineEnds(f, rest);
    FetchLineReads(std, f);
    FetchFront(std, Line(f), SplitLines(rest));
  }

  /** The client's decoder rebuilds every field, with leading blanks of
      values dropped. */
  lemma {:induction false} FetchReads(std: Std, fs: seq<Field>)
    requires Sound(std) && AreFields(fs)
    ensures FetchDecode(std, Encode(fs)) == Ok(AllTrimmed(fs))
  {
    if fs == [] {
      FetchNothing(std);
    } else {
      FetchStep(std, fs[0], Encode(fs[1..]));
      FetchReads(std, fs[1..]);
      TrimmedFront(fs);
    }
  }

  lemma {:induction false} ServerReads(fs: seq<Field>)
    requires AreFields(fs)
    ensures ServerDecode(Encode(fs)) == Ok(AllTrimmed(fs))
  {
    if fs != [] {
      var f, rest := fs[0], Encode(fs[1..]);
      LineEnds(f, rest);
      ServerLineReads(f);
      ServerReads(fs[1..]);
      TrimmedFront(fs);
    }
  }

  // ----- ... of header maps -------------------------------------------------

  /** The values that a name has in a list of fields, in order. */
  function ValuesOf(fs: seq<Field>, name: Bytes): seq<Bytes> {
    if fs == [] then [] else (if fs[0].name == name then [fs[0].value] else []) + ValuesOf(fs[1..], name)
  }

  /** The map has every name of the fields, with all its values in order, and no other. */
  ghost predicate Holds(m: HeaderMap, fs: seq<Field>) {
    && (forall i :: 0 <= i < |fs| ==> fs[i].name in m)
    && (forall n :: n in m ==> m[n] != [] && m[n] == ValuesOf(fs, n))
  }

  /** A header map and an order in which it is iterated. */
  ghost predicate Iterates(m: HeaderMap, fs: seq<Field>) { Holds(m, fs) && AreFields(fs) }

  lemma {:induction false} ValuesAppend(fs: seq<Field>, f: Field, name: Bytes)
    ensures ValuesOf(fs + [f], name) == ValuesOf(fs, name) + if f.name == name then [f.value] else []
  {
    if fs == [] {
      assert fs + [f] == [f] && [f][1..] == [];
    } else {
      assert (fs + [f])[1..] == fs[1..] + [f];
      ValuesAppend(fs[1..], f, name);
    }
  }

  lemma {:induction false} NoValues(fs: seq<Field>, name: Bytes)
    requires forall i :: 0 <= i < |fs| ==> fs[i].name != name
    ensures ValuesOf(fs, name) == []
  {
    if fs != [] { NoValues(fs[1..], name); }
  }

  lemma {:induction false} SomeValue(fs: seq<Field>, name: Bytes)
    requires ValuesOf(fs, name) != []
    ensures exists i :: 0 <= i < |fs| && fs[i].name == name
  {
    if fs[0].name != name {
      SomeValue(fs[1..], name);
      var i :| 0 <= i < |fs| - 1 && fs[1..][i].name == name;
      assert fs[i + 1].name == name;
    }
  }

  /** The map a decoder builds holds its fields, duplicates included. */
  lemma {:induction false} MapHolds(fs: seq<Field>)
    ensures Holds(ToMap(fs), fs)
  {
    if fs != [] {
      var k := |fs| - 1;
      var m, f := ToMap(fs[..k]), fs[k];
      MapHolds(fs[..k]);
      assert fs[..k] + [f] == fs;
      forall i | 0 <= i < |fs| ensures fs[i].name in ToMap(fs) {
        if i < k { assert fs[..k][i].name in m; }
      }
      forall n | n in ToMap(fs) ensures ToMap(fs)[n] != [] && ToMap(fs)[n] == ValuesOf(fs, n) {
        ValuesAppend(fs[..k], f, n);
        if n !in m { NoValues(fs[..k], n); }
      }
    }
  }

  /** No other map does. */
  lemma OnlyMap(m: HeaderMap, fs: seq<Field>)
    requires Holds(m, fs)
    ensures m == ToMap(fs)
  {
    MapHolds(fs);
    forall n ensures n in m <==> n in ToMap(fs) {
      if n in m { SomeValue(fs, n); }
      if n in ToMap(fs) { SomeValue(fs, n); }
    }
  }

  function TrimSeq(vs: seq<Bytes>): (r: seq<Bytes>)
    ensures |r| == |vs| && forall i :: 0 <= i < |vs| ==> r[i] == SkipBlank(vs[i])
  {
    seq(|vs|, i requires 0 <= i < |vs| => SkipBlank(vs[i]))
  }

  /** No value starts with a space or a tab. */
  predicate NoLeadingBlank(m: HeaderMap) {
    forall n, i :: n in m && 0 <= i < |m[n]| ==> m[n][i] == [] || !Blank(m[n][i][0])
  }

  lemma {:induction false} TrimmedMap(fs: seq<Field>)
    ensures ToMap(AllTrimmed(fs)).Keys == ToMap(fs).Keys
    ensures forall n :: n in ToMap(fs) ==> ToMap(AllTrimmed(fs))[n] == TrimSeq(ToMap(fs)[n])
  {
    if fs != [] {
      var k := |fs| - 1;
      assert AllTrimmed(fs)[..k] == AllTrimmed(fs[..k]);
      TrimmedMap(fs[..k]);
    }
  }

  lemma {:induction false} SkipChanges(s: Bytes)
    ensures SkipBlank(s) == s <==> s == [] || !Blank(s[0])
    ensures |SkipBlank(s)| <= |s|
  {
    if s != [] && Blank(s[0]) { SkipChanges(s[1..]); }
  }

  lemma TrimmedSame(m: HeaderMap, t: HeaderMap)
    requires t.Keys == m.Keys && forall n :: n in m ==> t[n] == TrimSeq(m[n])
    ensures t == m <==> NoLeadingBlank(m)
  {
    if t == m {
      forall n, i | n in m && 0 <= i < |m[n]| ensures m[n][i] == [] || !Blank(m[n][i][0]) {
        assert t[n][i] == SkipBlank(m[n][i]);
        SkipChanges(m[n][i]);
      }
    }
    if NoLeadingBlank(m) {
      forall n | n in m ensures t[n] == m[n] {
        forall i | 0 <= i < |m[n]| ensures t[n][i] == m[n][i] { SkipChanges(m[n][i]); }
      }
    }
  }

  /** Both decoders rebuild the map, duplicates and their order included,
      exactly when no value starts with a space or a tab. Values may hold any
      octet a header value may, also beyond ASCII. */
  lemma HeadersRoundTrip(std: Std, m: HeaderMap, fs: seq<Field>)
    requires Sound(std) && Iterates(m, fs)
    ensures Mapped(FetchDecode(std, Encode(fs))) == Ok(m) <==> NoLeadingBlank(m)
    ensures Mapped(ServerDecode(Encode(fs))) == Ok(m) <==> NoLeadingBlank(m)
  {
    FetchReads(std, fs);
    ServerReads(fs);
    OnlyMap(m, fs);
    TrimmedMap(fs);
    TrimmedSame(m, ToMap(AllTrimmed(fs)));
  }

  lemma OneField(f: Field)
    ensures ToMap([f]) == map[f.name := [f.value]]
  {
    assert [f][..0] == [];
    assert ToMap([f]) == AppendTo(ToMap([]), f);
    assert [] + [f.value] == [f.value];
  }

  lemma OneTrimmed(f: Field)
    ensures AllTrimmed([f]) == [Trimmed(f)]
  {
  }

  /** A map that does not survive: the value ` b` under the name `a`. Both
      decoders give back another map. */
  lemma BlankLost(std: Std, f: Field)
    requires Sound(std) && f == Field([97], [SP, 98])
    ensures Iterates(map[[97] := [[SP, 98]]], [f])
    ensures Mapped(FetchDecode(std, Encode([f]))) == Mapped(ServerDecode(Encode([f]))) == Ok(map[[97] := [[98]]])
  {
    OneField(f);
    MapHolds([f]);
    assert f.value[1..] == [98];
    assert SkipBlank(f.value) == SkipBlank(f.value[1..]) == [98];
    OneField(Trimmed(f));
    OneTrimmed(f);
    FetchReads(std, [f]);
    ServerReads([f]);
  }

  /** The two decoders differ on a last line without CRLF: the server takes
      it, the client refuses the block. */
  lemma DecodersDiffer(std: Std)
    requires Sound(std)
    ensures FetchDecode(std, [97, COLON]) == Err(NotCrlf)
    ensures ServerDecode([97, COLON]) == Ok([Field([97], [])])
  {
    var s: Bytes := [97, COLON];
    var lines: seq<Bytes> := [s];
    PositionIs(s, LF, 2);
    assert SplitLines(s) == lines && lines[..0] == [];
    assert FetchLines(std, []) == Ok([]);
    PositionIs(s, COLON, 1);
    assert s[..2] == s && s[..1] == [97] && s[2..] == [];
    NoTrim([97]);
    LowerName([97]);
    assert ServerLine(s, false) == Ok([Field([97], [])]);
    assert ServerDecode([]) == Ok([]);
    assert [Field([97], [])] + [] == [Field([97], [])];
  }
}

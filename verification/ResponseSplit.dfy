/** The probe's response splitter: complete HTTP/1.1 responses are cut off the
    front of a buffer that grows by arbitrary inputs. */
module ResponseSplit {
  import opened Wrappers
  import opened ByteSearch
  import opened HeadText

  const CRLF2: Bytes := [13, 10, 13, 10]
  const LAST_CHUNK: Bytes := [48, 13, 10]                 // "0\r\n"
  const CRLF_LAST_CHUNK: Bytes := [13, 10, 48, 13, 10]    // "\r\n0\r\n"

  /** How a response head is understood: whether it announces chunks, and the
      length it announces, or 0. */
  datatype Heads = Heads(chunked: Bytes -> bool, length: Bytes -> nat)

  /** How the splitter understands it; `text` is the lossy decoding of a head in
      lower case, as code points. */
  function Understood(text: Bytes -> Text): Heads {
    Heads(head => Find(text(head), Codes("transfer-encoding: chunked")).Some?, head => ContentLength(text(head)))
  }

  /** A head announces chunks exactly when its text has the phrase somewhere. */
  lemma ChunksAnnounced(text: Bytes -> Text, head: Bytes)
    ensures Understood(text).chunked(head) <==> Contains(text(head), Codes("transfer-encoding: chunked"))
  {
    FindIsFirst(text(head), Codes("transfer-encoding: chunked"), 0);
  }

  function Saturating(a: nat, b: nat): nat { if a + b > USIZE_MAX then USIZE_MAX else a + b }

  /** Where the last chunk begins in a chunked body. */
  function LastChunk(body: Bytes): Option<nat> {
    if StartsWith(body, LAST_CHUNK) then Some(0)
    else match Find(body, CRLF_LAST_CHUNK) case None => None case Some(i) => Some(i + 2)
  }

  /** How much of a chunked body belongs to the response. */
  function ChunkedEnd(body: Bytes): (r: Option<nat>)
    ensures r.Some? ==> r.value <= |body|
  {
    match LastChunk(body)
    case None => None
    case Some(z) =>
      LastChunkInside(body);
      match Find(body[z..], CRLF2)
      case None => None
      case Some(i) => FindIsFirst(body[z..], CRLF2, 0); Some(i + z + 4)
  }

  lemma LastChunkInside(body: Bytes)
    ensures LastChunk(body).Some? ==> LastChunk(body).value <= |body|
  {
    FindIsFirst(body, CRLF_LAST_CHUNK, 0);
  }

  /** With the end of the head known, the rest of the decision. */
  function BodyEnd(h: Heads, head: Bytes, body: Bytes): Option<nat> {
    if h.chunked(head) then
      match ChunkedEnd(body) case None => None case Some(n) => Some(|head| + n)
    else Some(Saturating(|head|, h.length(head)))
  }

  /** The end of the first response, when its head is complete. */
  function End(h: Heads, buf: Bytes): Option<nat> {
    match Find(buf, CRLF2)
    case None => None
    case Some(i) =>
      FindIsFirst(buf, CRLF2, 0);
      BodyEnd(h, buf[..i + 4], buf[i + 4..])
  }

  /** `split_response`: how many bytes to drain. */
  function Split(h: Heads, buf: Bytes): (r: Option<nat>)
    ensures r.Some? ==> 0 < r.value <= |buf|
  {
    match End(h, buf)
    case None => None
    case Some(e) => EndPositive(h, buf); if |buf| >= e then Some(e) else None
  }

  lemma EndPositive(h: Heads, buf: Bytes)
    ensures End(h, buf).Some? ==> End(h, buf).value > 0
  {
    if Find(buf, CRLF2).Some? {
      FindIsFirst(buf, CRLF2, 0);
      var head := Find(buf, CRLF2).value + 4;
      assert Saturating(head, h.length(buf[..head])) > 0;
    }
  }

  // ----- extension ----------------------------------------------------------

  lemma LastChunkStable(body: Bytes, more: Bytes)
    requires LastChunk(body).Some?
    ensures LastChunk(body + more) == LastChunk(body)
  {
    if StartsWith(body, LAST_CHUNK) {
      assert (body + more)[..3] == body[..3];
    } else {
      FindIsFirst(body, CRLF_LAST_CHUNK, 0);
      assert |body| >= 3;
      assert (body + more)[..3] == body[..3];
      FindStable(body, more, CRLF_LAST_CHUNK);
    }
  }

  lemma ChunkedEndStable(body: Bytes, more: Bytes)
    requires ChunkedEnd(body).Some?
    ensures ChunkedEnd(body + more) == ChunkedEnd(body)
  {
    LastChunkStable(body, more);
    LastChunkInside(body);
    var z := LastChunk(body).value;
    FindStable(body[z..], more, CRLF2);
    assert (body + more)[z..] == body[z..] + more;
  }

  /** Once known, the end of a response does not move. */
  lemma EndStable(h: Heads, buf: Bytes, more: Bytes)
    requires End(h, buf).Some?
    ensures End(h, buf + more) == End(h, buf)
  {
    FindIsFirst(buf, CRLF2, 0);
    FindStable(buf, more, CRLF2);
    var head := Find(buf, CRLF2).value + 4;
    assert (buf + more)[..head] == buf[..head];
    assert (buf + more)[head..] == buf[head..] + more;
    if h.chunked(buf[..head]) {
      ChunkedEndStable(buf[head..], more);
    }
  }

  /** A response that is complete stays the same whatever follows. */
  lemma SplitStable(h: Heads, buf: Bytes, more: Bytes)
    requires Split(h, buf).Some?
    ensures Split(h, buf + more) == Split(h, buf)
    ensures (buf + more)[..Split(h, buf).value] == buf[..Split(h, buf).value]
    ensures (buf + more)[Split(h, buf).value..] == buf[Split(h, buf).value..] + more
  {
    EndStable(h, buf, more);
  }

  // ----- what is split off --------------------------------------------------

  /** `z` is where the last chunk of a body begins. */
  ghost predicate LastChunkAt(body: Bytes, z: nat) {
    if StartsWith(body, LAST_CHUNK) then z == 0 else z >= 2 && FirstAt(body, CRLF_LAST_CHUNK, z - 2)
  }

  /** One complete response: a head up to its first empty line, then as many
      bytes as it announces, or chunks up to the first empty line after the
      beginning of the last one. */
  ghost predicate IsResponse(h: Heads, r: Bytes) {
    exists head :: 4 <= head <= |r| && FirstAt(r, CRLF2, head - 4) && IsBody(h, r[..head], r[head..])
  }

  ghost predicate IsBody(h: Heads, head: Bytes, body: Bytes) {
    if h.chunked(head)
    then exists z :: 0 <= z <= |body| - 4 && LastChunkAt(body, z) && FirstAt(body[z..], CRLF2, |body| - z - 4)
    else |body| == h.length(head)
  }

  lemma LastChunkIs(body: Bytes)
    ensures LastChunk(body).Some? ==> LastChunkAt(body, LastChunk(body).value)
  {
    FindIsFirst(body, CRLF_LAST_CHUNK, 0);
  }

  lemma LastChunkFound(body: Bytes, z: nat)
    requires LastChunkAt(body, z)
    ensures LastChunk(body) == Some(z)
  {
    if !StartsWith(body, LAST_CHUNK) { FindUnique(body, CRLF_LAST_CHUNK, z - 2); }
  }

  /** A body that has come in completely is cut where it ends. */
  lemma ChunkedEndIs(body: Bytes)
    requires ChunkedEnd(body).Some?
    ensures var b := body[..ChunkedEnd(body).value];
            exists z :: 0 <= z <= |b| - 4 && LastChunkAt(b, z) && FirstAt(b[z..], CRLF2, |b| - z - 4)
  {
    var n := ChunkedEnd(body).value;
    var b := body[..n];
    LastChunkIs(body);
    LastChunkInside(body);
    var z := LastChunk(body).value;
    FindIsFirst(body[z..], CRLF2, 0);
    var i := Find(body[z..], CRLF2).value;
    assert n == z + i + 4;
    FirstAtPrefix(body[z..], CRLF2, i, i + 4);
    assert body[z..][..i + 4] == b[z..];
    LastChunkPrefix(body, z, i);
  }

  /** The cut does not move the last chunk: it keeps at least the chunk's own
      line and an empty line. */
  lemma LastChunkPrefix(body: Bytes, z: nat, i: nat)
    requires LastChunkAt(body, z) && z + i + 4 <= |body| && FirstAt(body[z..], CRLF2, i)
    ensures LastChunkAt(body[..z + i + 4], z)
  {
    var n := z + i + 4;
    assert body[..n][..3] == body[..3];
    if !StartsWith(body, LAST_CHUNK) {
      assert body[z - 2..z + 3] == CRLF_LAST_CHUNK;
      FirstAtPrefix(body, CRLF_LAST_CHUNK, z - 2, n);
    }
  }

  lemma ChunkedEndFound(body: Bytes, z: nat)
    requires z <= |body| - 4 && LastChunkAt(body, z) && FirstAt(body[z..], CRLF2, |body| - z - 4)
    ensures ChunkedEnd(body) == Some(|body|)
  {
    LastChunkFound(body, z);
    FindUnique(body[z..], CRLF2, |body| - z - 4);
  }

  lemma EndAt(h: Heads, buf: Bytes, head: nat)
    requires 4 <= head <= |buf| && FirstAt(buf, CRLF2, head - 4)
    ensures End(h, buf) == BodyEnd(h, buf[..head], buf[head..])
  {
    FindUnique(buf, CRLF2, head - 4);
  }

  lemma BodyEndIs(h: Heads, head: Bytes, body: Bytes)
    requires BodyEnd(h, head, body).Some? && |head| <= BodyEnd(h, head, body).value <= |head| + |body| < USIZE_MAX
    ensures IsBody(h, head, body[..BodyEnd(h, head, body).value - |head|])
  {
    if h.chunked(head) { ChunkedEndIs(body); }
  }

  lemma BodyEndFound(h: Heads, head: Bytes, body: Bytes)
    requires IsBody(h, head, body) && |head| + |body| < USIZE_MAX
    ensures BodyEnd(h, head, body) == Some(|head| + |body|)
  {
    if h.chunked(head) {
      var z :| 0 <= z <= |body| - 4 && LastChunkAt(body, z) && FirstAt(body[z..], CRLF2, |body| - z - 4);
      ChunkedEndFound(body, z);
    }
  }

  lemma SplitsResponse(h: Heads, buf: Bytes)
    requires Split(h, buf).Some? && |buf| < USIZE_MAX
    ensures IsResponse(h, buf[..Split(h, buf).value])
  {
    var e := Split(h, buf).value;
    FindIsFirst(buf, CRLF2, 0);
    var head := Find(buf, CRLF2).value + 4;
    EndAt(h, buf, head);
    BodyEndIs(h, buf[..head], buf[head..]);
    IsResponseAt(h, buf, head, e);
  }

  lemma IsResponseAt(h: Heads, buf: Bytes, head: nat, e: nat)
    requires 4 <= head <= e <= |buf| && FirstAt(buf, CRLF2, head - 4) && IsBody(h, buf[..head], buf[head..][..e - head])
    ensures IsResponse(h, buf[..e])
  {
    var r := buf[..e];
    FirstAtPrefix(buf, CRLF2, head - 4, e);
    assert r[..head] == buf[..head] && r[head..] == buf[head..][..e - head];
  }

  lemma FindsResponse(h: Heads, r: Bytes)
    requires IsResponse(h, r) && |r| < USIZE_MAX
    ensures Split(h, r) == Some(|r|)
  {
    var head :| 4 <= head <= |r| && FirstAt(r, CRLF2, head - 4) && IsBody(h, r[..head], r[head..]);
    FoundAt(h, r, head);
  }

  lemma FoundAt(h: Heads, r: Bytes, head: nat)
    requires 4 <= head <= |r| < USIZE_MAX && FirstAt(r, CRLF2, head - 4) && IsBody(h, r[..head], r[head..])
    ensures End(h, r) == Some(|r|)
  {
    EndAt(h, r, head);
    BodyEndFound(h, r[..head], r[head..]);
  }

  /** `split_response` cuts off `e` bytes exactly when the first `e` bytes are
      one complete response; there is at most one such `e`. (A buffer is shorter
      than the largest `usize`.) */
  lemma SplitExactly(h: Heads, buf: Bytes, e: nat)
    requires |buf| < USIZE_MAX
    ensures Split(h, buf) == Some(e) <==> e <= |buf| && IsResponse(h, buf[..e])
  {
    if Split(h, buf) == Some(e) {
      SplitsResponse(h, buf);
    } else if e <= |buf| && IsResponse(h, buf[..e]) {
      assert buf[..e] + buf[e..] == buf;
      FindsResponse(h, buf[..e]);
      SplitStable(h, buf[..e], buf[e..]);
    }
  }

  // ----- what a writer writes -----------------------------------------------

  /** A header line as written: not empty, no line end inside. */
  predicate HeaderLine(l: Bytes) { l != [] && CR !in l && LF !in l }

  predicate HeaderLines(ls: seq<Bytes>) { forall i :: 0 <= i < |ls| ==> HeaderLine(ls[i]) }

  function WrittenHead(ls: seq<Bytes>): Bytes { Joined(ls) + [CR, LF] }

  predicate EmptyLineLast(head: Bytes) { |head| >= 4 && FirstAt(head, CRLF2, |head| - 4) }

  /** Its first empty line is its end. */
  lemma {:induction false} WrittenHeadEnds(ls: seq<Bytes>)
    requires ls != [] && HeaderLines(ls)
    ensures EmptyLineLast(WrittenHead(ls))
  {
    var head, l, rest := WrittenHead(ls), ls[0], WrittenHead(ls[1..]);
    assert head == l + [CR, LF] + rest;
    if |ls| == 1 {
      assert head[|l|..] == CRLF2;
    } else {
      WrittenHeadEnds(ls[1..]);
      assert rest[0] == ls[1][0];
      assert head[|l| + 2..] == rest;
    }
    forall j | 0 <= j < |head| - 4 ensures !At(head, CRLF2, j) { NotYet(ls, j); }
  }

  /** No empty line earlier. */
  lemma NotYet(ls: seq<Bytes>, j: nat)
    requires ls != [] && HeaderLines(ls) && j < |WrittenHead(ls)| - 4
    requires |ls| > 1 ==> EmptyLineLast(WrittenHead(ls[1..]))
    ensures !At(WrittenHead(ls), CRLF2, j)
  {
    var head, l, rest := WrittenHead(ls), ls[0], WrittenHead(ls[1..]);
    assert head == l + [CR, LF] + rest;
    if j < |l| {
      assert head[j] == l[j];
    } else if j >= |l| + 2 {
      assert head[j..j + 4] == rest[j - |l| - 2..j - |l| + 2];
      assert !At(rest, CRLF2, j - |l| - 2);
    } else if |ls| > 1 {
      assert head[|l| + 1] == LF && head[|l| + 2] == rest[0] == ls[1][0];
    }
  }

  /** A head text in lower case with a Content-Length line between two groups of
      lines. */
  function LengthHead(before: seq<Text>, pad: Text, n: nat, pad': Text, after: seq<Text>): Text {
    WrittenHead(before + [LengthLine(pad, n, pad')] + after)
  }

  /** The first Content-Length line of the text announces n. */
  ghost predicate Announces(t: Text, n: nat) {
    exists before, pad, pad', after :: t == LengthHead(before, pad, n, pad', after)
      && Blank(pad) && Blank(pad') && OneLines(before) && NoKey(before) && OneLines(after)
  }

  lemma AnnouncesLength(t: Text, n: nat)
    requires Announces(t, n) && n <= USIZE_MAX
    ensures ContentLength(t) == n
  {
    var before, pad, pad', after :| t == LengthHead(before, pad, n, pad', after)
      && Blank(pad) && Blank(pad') && OneLines(before) && NoKey(before) && OneLines(after);
    WrittenLength(before, pad, n, pad', after);
  }

  /** A written response is cut off whole, whatever follows: header lines whose
      text announces n, an empty line, and n bytes. */
  lemma WrittenSplits(text: Bytes -> Text, lines: seq<Bytes>, body: Bytes, more: Bytes)
    requires lines != [] && HeaderLines(lines) && |WrittenHead(lines)| + |body| + |more| < USIZE_MAX
    requires Announces(text(WrittenHead(lines)), |body|)
    requires !Contains(text(WrittenHead(lines)), Codes("transfer-encoding: chunked"))
    ensures Split(Understood(text), WrittenHead(lines) + body + more) == Some(|WrittenHead(lines)| + |body|)
  {
    WrittenHeadEnds(lines);
    ChunksAnnounced(text, WrittenHead(lines));
    AnnouncedSplits(text, WrittenHead(lines), body, more);
  }

  lemma AnnouncedSplits(text: Bytes -> Text, head: Bytes, body: Bytes, more: Bytes)
    requires EmptyLineLast(head) && |head| + |body| + |more| < USIZE_MAX
    requires Announces(text(head), |body|) && !Understood(text).chunked(head)
    ensures Split(Understood(text), head + body + more) == Some(|head| + |body|)
  {
    AnnouncesLength(text(head), |body|);
    HeadAndBodySplit(Understood(text), head, body, more);
  }

  lemma HeadAndBodySplit(h: Heads, head: Bytes, body: Bytes, more: Bytes)
    requires EmptyLineLast(head) && !h.chunked(head) && h.length(head) == |body|
    requires |head| + |body| + |more| < USIZE_MAX
    ensures Split(h, head + body + more) == Some(|head| + |body|)
  {
    var r := head + body;
    assert r[..|head|] == head && r[|head|..] == body;
    FirstAtPrefix(r, CRLF2, |head| - 4, |head|);
    FoundAt(h, r, |head|);
    SplitStable(h, r, more);
  }

  // ----- what a writer writes in chunks -------------------------------------

  const TERMINATOR: Bytes := [48, 13, 10, 13, 10]         // "0\r\n\r\n"

  /** Chunks as written, each ended by CRLF. */
  predicate ChunkText(c: Bytes) { c == [] || (|c| >= 2 && c[|c| - 2] == CR && c[|c| - 1] == LF) }

  /** Something inside the chunks looks like the last chunk, with an empty line
      after it. */
  ghost predicate EndsEarly(c: Bytes) {
    exists z: nat, j: nat :: LastChunkAt(c, z) && z <= j && At(c, CRLF2, j)
  }

  /** Behind chunk text, neither the last chunk's line nor the empty line begins
      before its own place. */
  lemma TerminatorApart(c: Bytes, j: nat)
    requires ChunkText(c)
    ensures var body := c + TERMINATOR;
      && (|c| <= j + 3 && j <= |c| ==> !At(body, CRLF2, j)) && At(body, CRLF2, |c| + 1)
      && (|c| <= j + 4 && j + 2 < |c| ==> !At(body, CRLF_LAST_CHUNK, j))
      && (c != [] ==> At(body, CRLF_LAST_CHUNK, |c| - 2) && (StartsWith(body, LAST_CHUNK) <==> StartsWith(c, LAST_CHUNK)))
      && (j + 4 <= |c| ==> At(body, CRLF2, j) == At(c, CRLF2, j))
      && (j + 5 <= |c| ==> At(body, CRLF_LAST_CHUNK, j) == At(c, CRLF_LAST_CHUNK, j))
  {
    var body := c + TERMINATOR;
    if j + 4 <= |c| { AtStable(c, TERMINATOR, CRLF2, j); }
    if j + 5 <= |c| { AtStable(c, TERMINATOR, CRLF_LAST_CHUNK, j); }
    assert body[|c|] == 48 && body[|c| + 1..|c| + 5] == CRLF2;
    if |c| <= j + 4 && j + 2 < |c| {
      assert body[j + 2] != 48 && body[j..j + 5][2] == body[j + 2];
    }
    if c != [] {
      assert body[|c| - 2..|c| + 3] == CRLF_LAST_CHUNK;
      assert body[..2] == c[..2];
    }
  }

  lemma LastChunkBehind(c: Bytes)
    requires ChunkText(c) && LastChunk(c).None?
    ensures LastChunk(c + TERMINATOR) == Some(|c|)
  {
    var body := c + TERMINATOR;
    TerminatorApart(c, 0);
    if c == [] {
      assert body[..3] == LAST_CHUNK;
    } else {
      FindIsFirst(c, CRLF_LAST_CHUNK, 0);
      forall j | 0 <= j < |c| - 2 ensures !At(body, CRLF_LAST_CHUNK, j) { TerminatorApart(c, j); }
      FindUnique(body, CRLF_LAST_CHUNK, |c| - 2);
    }
  }

  lemma EmptyLineAt(c: Bytes, z: nat, j: nat)
    requires ChunkText(c) && z <= |c| && j <= |c| - z + 1
    ensures At((c + TERMINATOR)[z..], CRLF2, j) <==> j == |c| - z + 1 || At(c, CRLF2, z + j)
  {
    AtBehind(c + TERMINATOR, CRLF2, z, j);
    TerminatorApart(c, z + j);
  }

  /** With the last chunk's line found at z, the end is the terminator's exactly
      when no empty line is found earlier. */
  lemma EmptyLineBehind(c: Bytes, z: nat)
    requires ChunkText(c) && z <= |c|
    ensures Find((c + TERMINATOR)[z..], CRLF2).Some?
    ensures Find((c + TERMINATOR)[z..], CRLF2) == Some(|c| - z + 1) <==> forall j :: z <= j ==> !At(c, CRLF2, j)
  {
    var rest := (c + TERMINATOR)[z..];
    EmptyLineAt(c, z, |c| - z + 1);
    FindIsFirst(rest, CRLF2, 0);
    if j :| z <= j && At(c, CRLF2, j) {
      EmptyLineAt(c, z, j - z);
    } else {
      forall j | 0 <= j < |c| - z + 1 ensures !At(rest, CRLF2, j) { EmptyLineAt(c, z, j); }
      FindUnique(rest, CRLF2, |c| - z + 1);
    }
  }

  lemma ChunksEnd(c: Bytes)
    requires ChunkText(c)
    ensures ChunkedEnd(c + TERMINATOR).Some?
    ensures ChunkedEnd(c + TERMINATOR) == Some(|c| + 5) <==> !EndsEarly(c)
  {
    match LastChunk(c)
    case None =>
      LastChunkBehind(c);
      EmptyLineBehind(c, |c|);
      forall z: nat ensures !LastChunkAt(c, z) {
        if LastChunkAt(c, z) { LastChunkFound(c, z); }
      }
    case Some(z) =>
      LastChunkStable(c, TERMINATOR);
      LastChunkInside(c);
      LastChunkIs(c);
      EmptyLineBehind(c, z);
      forall y: nat | LastChunkAt(c, y) ensures y == z { LastChunkFound(c, y); }
  }

  /** A chunked response is cut off whole, whatever follows: header lines whose
      text has the phrase, chunks, and the terminator. That is so exactly unless
      the chunks themselves look like an end. */
  lemma WrittenChunks(text: Bytes -> Text, lines: seq<Bytes>, chunks: Bytes, more: Bytes)
    requires lines != [] && HeaderLines(lines) && ChunkText(chunks)
    requires Contains(text(WrittenHead(lines)), Codes("transfer-encoding: chunked"))
    ensures var whole := WrittenHead(lines) + (chunks + TERMINATOR);
            Split(Understood(text), whole + more) == Some(|whole|) <==> !EndsEarly(chunks)
  {
    WrittenHeadEnds(lines);
    ChunksAnnounced(text, WrittenHead(lines));
    CutWhole(Understood(text), WrittenHead(lines), chunks, more);
  }

  lemma CutWhole(h: Heads, head: Bytes, chunks: Bytes, more: Bytes)
    requires EmptyLineLast(head) && ChunkText(chunks) && h.chunked(head)
    ensures var whole := head + (chunks + TERMINATOR);
            Split(h, whole + more) == Some(|whole|) <==> !EndsEarly(chunks)
  {
    ChunksEnd(chunks);
    ChunkedSplits(h, head, chunks + TERMINATOR, more);
  }

  lemma ChunkedSplits(h: Heads, head: Bytes, body: Bytes, more: Bytes)
    requires EmptyLineLast(head) && h.chunked(head) && ChunkedEnd(body).Some?
    ensures Split(h, head + body + more) == Some(|head| + ChunkedEnd(body).value)
  {
    var r := head + body;
    assert r[..|head|] == head && r[|head|..] == body;
    FirstAtPrefix(r, CRLF2, |head| - 4, |head|);
    EndAt(h, r, |head|);
    SplitStable(h, r, more);
  }

  lemma WrittenLength(before: seq<Text>, pad: Text, n: nat, pad': Text, after: seq<Text>)
    requires Blank(pad) && Blank(pad') && OneLines(before) && NoKey(before) && OneLines(after) && n <= USIZE_MAX
    ensures ContentLength(LengthHead(before, pad, n, pad', after)) == n
  {
    var ls := before + [LengthLine(pad, n, pad')] + after;
    var after' := after + [[]];
    assert before + [LengthLine(pad, n, pad')] + after' == ls + [[]];
    JoinedLast(ls);
    AnnouncedLength(before, pad, n, pad', after');
  }

  lemma {:induction false} JoinedLast(ls: seq<Bytes>)
    ensures Joined(ls + [[]]) == WrittenHead(ls)
  {
    if ls == [] {
      var one: seq<Bytes> := [[]];
      assert ls + one == one && Joined(one[1..]) == [];
    } else {
      assert (ls + [[]])[1..] == ls[1..] + [[]];
      JoinedLast(ls[1..]);
    }
  }

  // ----- everything that can be split off -----------------------------------

  datatype Cut = Cut(ready: seq<Bytes>, rest: Bytes)

  function SplitAll(h: Heads, buf: Bytes): Cut
    decreases |buf|
  {
    match Split(h, buf)
    case None => Cut([], buf)
    case Some(e) =>
      var next := SplitAll(h, buf[e..]);
      Cut([buf[..e]] + next.ready, next.rest)
  }

  function Concat(rs: seq<Bytes>): Bytes {
    if rs == [] then [] else rs[0] + Concat(rs[1..])
  }

  lemma {:induction false} ConcatAppend(a: seq<Bytes>, b: seq<Bytes>)
    ensures Concat(a + b) == Concat(a) + Concat(b)
  {
    if a == [] {
      assert a + b == b;
    } else {
      assert (a + b)[1..] == a[1..] + b;
      ConcatAppend(a[1..], b);
    }
  }

  /** Nothing is lost, and nothing complete is left. */
  lemma {:induction false} SplitAllExact(h: Heads, buf: Bytes)
    ensures Concat(SplitAll(h, buf).ready) + SplitAll(h, buf).rest == buf
    ensures Split(h, SplitAll(h, buf).rest) == None
    decreases |buf|
  {
    if Split(h, buf).Some? {
      var e := Split(h, buf).value;
      SplitAllExact(h, buf[e..]);
      var next := SplitAll(h, buf[e..]);
      ConcatFront(buf[..e], next.ready, next.rest);
      assert buf == buf[..e] + buf[e..];
    }
  }

  lemma ConcatFront(r: Bytes, rs: seq<Bytes>, rest: Bytes)
    ensures Concat([r] + rs) + rest == r + (Concat(rs) + rest)
  {
    assert ([r] + rs)[1..] == rs;
    assert r + Concat(rs) + rest == r + (Concat(rs) + rest);
  }

  /** Splitting early and then going on is splitting late. */
  lemma {:induction false} SplitAllLater(h: Heads, a: Bytes, b: Bytes)
    ensures var first := SplitAll(h, a);
            var later := SplitAll(h, first.rest + b);
            SplitAll(h, a + b) == Cut(first.ready + later.ready, later.rest)
    decreases |a|
  {
    if Split(h, a).Some? {
      var e := Split(h, a).value;
      SplitStable(h, a, b);
      SplitAllLater(h, a[e..], b);
      var first := SplitAll(h, a[e..]);
      var later := SplitAll(h, first.rest + b);
      assert [a[..e]] + (first.ready + later.ready) == [a[..e]] + first.ready + later.ready;
    } else {
      var later := SplitAll(h, a + b);
      assert [] + later.ready == later.ready;
    }
  }

  /** The read loop over a sequence of inputs. */
  function Reads(h: Heads, inputs: seq<Bytes>): Cut {
    if inputs == [] then Cut([], [])
    else
      var before := Reads(h, inputs[..|inputs| - 1]);
      var now := SplitAll(h, before.rest + inputs[|inputs| - 1]);
      Cut(before.ready + now.ready, now.rest)
  }

  lemma ConcatLast(rs: seq<Bytes>)
    requires rs != []
    ensures Concat(rs) == Concat(rs[..|rs| - 1]) + rs[|rs| - 1]
  {
    var n := |rs| - 1;
    ConcatAppend(rs[..n], [rs[n]]);
    assert rs == rs[..n] + [rs[n]];
    assert [rs[n]][1..] == [];
    assert rs[n] + [] == rs[n];
  }

  lemma {:induction false} ReadsAreOne(h: Heads, inputs: seq<Bytes>)
    ensures Reads(h, inputs) == SplitAll(h, Concat(inputs))
  {
    if inputs == [] {
      assert Split(h, []) == None;
    } else {
      var n := |inputs| - 1;
      ReadsAreOne(h, inputs[..n]);
      ConcatLast(inputs);
      SplitAllLater(h, Concat(inputs[..n]), inputs[n]);
    }
  }

  /** Responses and leftover depend on the bytes, not on how they arrive. */
  lemma CutIndependent(h: Heads, a: seq<Bytes>, b: seq<Bytes>)
    requires Concat(a) == Concat(b)
    ensures Reads(h, a) == Reads(h, b)
    ensures Concat(Reads(h, a).ready) + Reads(h, a).rest == Concat(a)
  {
    ReadsAreOne(h, a);
    ReadsAreOne(h, b);
    SplitAllExact(h, Concat(a));
  }

  /** Part of the way: `done` is off, `buf` is left. */
  ghost predicate IsCut(h: Heads, all: Bytes, done: seq<Bytes>, buf: Bytes) {
    SplitAll(h, all) == Cut(done + SplitAll(h, buf).ready, SplitAll(h, buf).rest)
  }

  lemma StartCut(h: Heads, all: Bytes)
    ensures IsCut(h, all, [], all)
  {
    assert [] + SplitAll(h, all).ready == SplitAll(h, all).ready;
  }

  lemma NextCut(h: Heads, all: Bytes, done: seq<Bytes>, was: Bytes, r: Bytes, buf: Bytes)
    requires IsCut(h, all, done, was) && Split(h, was) == Some(|r|) && r + buf == was
    ensures IsCut(h, all, done + [r], buf)
  {
    assert was[..|r|] == r && was[|r|..] == buf;
    assert done + ([r] + SplitAll(h, buf).ready) == done + [r] + SplitAll(h, buf).ready;
  }

  lemma EndCut(h: Heads, all: Bytes, done: seq<Bytes>, buf: Bytes)
    requires IsCut(h, all, done, buf) && Split(h, buf).None?
    ensures SplitAll(h, all) == Cut(done, buf)
  {
    assert done + [] == done;
  }

  // ----- the slot as it is mutated ------------------------------------------

  class Slot {
    var ready: seq<Bytes>
    var buf: Bytes
    var closed: bool

    constructor ()
      ensures ready == [] && buf == [] && !closed
    {
      ready, buf, closed := [], [], false;
    }

    /** Drains one response off the front. */
    method SplitResponse(h: Heads) returns (r: Option<Bytes>)
      modifies this`buf
      ensures r.None? ==> Split(h, old(buf)).None? && buf == old(buf)
      ensures r.Some? ==> Split(h, old(buf)) == Some(|r.value|) && r.value + buf == old(buf)
    {
      match Split(h, buf)
      case None => r := None;
      case Some(e) =>
        r := Some(buf[..e]);
        buf := buf[e..];
    }

    /** One successful read: append, then split while there is a response. */
    method OnRead(h: Heads, chunk: Bytes) returns (got: bool)
      modifies this`ready, this`buf
      ensures var now := SplitAll(h, old(buf) + chunk);
              ready == old(ready) + now.ready && buf == now.rest && got == (now.ready != [])
    {
      buf := buf + chunk;
      ghost var all := buf;
      ghost var done: seq<Bytes> := [];
      got := false;
      StartCut(h, all);
      while true
        invariant ready == old(ready) + done && got == (done != [])
        invariant IsCut(h, all, done, buf)
        decreases |buf|
      {
        ghost var was := buf;
        var r := SplitResponse(h);
        if r.None? {
          EndCut(h, all, done, buf);
          break;
        }
        NextCut(h, all, done, was, r.value, buf);
        ready := ready + [r.value];
        done := done + [r.value];
        got := true;
      }
    }

    /** The stream ended: a partial response is handed over as it is. */
    method Finish()
      modifies this
      ensures closed && buf == [] && Concat(ready) == Concat(old(ready)) + old(buf)
      ensures old(ready) <= ready
    {
      if buf != [] {
        ConcatAppend(ready, [buf]);
        assert Concat([buf]) == buf by { assert [buf][1..] == []; assert buf + [] == buf; }
        ready, buf := ready + [buf], [];
      }
      closed := true;
    }
  }
}

/** The first occurrence of one sequence in another. */
module ByteSearch {
  import opened Wrappers

  type Bytes = seq<int>

  predicate At(hay: Bytes, needle: Bytes, i: nat) { i + |needle| <= |hay| && hay[i..i + |needle|] == needle }

  predicate FirstAt(hay: Bytes, needle: Bytes, i: nat) {
    At(hay, needle, i) && forall j :: 0 <= j < i ==> !At(hay, needle, j)
  }

  /** The needle is somewhere in it. */
  ghost predicate Contains(hay: Bytes, needle: Bytes) { exists i: nat :: At(hay, needle, i) }

  /** The first occurrence from position `from` on. */
  function FindFrom(hay: Bytes, needle: Bytes, from: nat): Option<nat>
    decreases |hay| - from
  {
    if from + |needle| > |hay| then None
    else if At(hay, needle, from) then Some(from)
    else if from == |hay| then None
    else FindFrom(hay, needle, from + 1)
  }

  function Find(hay: Bytes, needle: Bytes): Option<nat> { FindFrom(hay, needle, 0) }

  /** `find`: the first index of the needle, or none when it is nowhere. */
  lemma {:induction false} FindIsFirst(hay: Bytes, needle: Bytes, from: nat)
    requires forall j :: 0 <= j < from ==> !At(hay, needle, j)
    ensures FindFrom(hay, needle, from).Some? ==> FirstAt(hay, needle, FindFrom(hay, needle, from).value)
    ensures FindFrom(hay, needle, from).None? ==> forall j: nat :: !At(hay, needle, j)
    decreases |hay| - from
  {
    if from + |needle| <= |hay| && !At(hay, needle, from) && from != |hay| {
      FindIsFirst(hay, needle, from + 1);
    }
  }

  /** An occurrence stays the first one when bytes arrive behind it. */
  lemma FindStable(hay: Bytes, more: Bytes, needle: Bytes)
    requires Find(hay, needle).Some?
    ensures Find(hay + more, needle) == Find(hay, needle)
  {
    FindIsFirst(hay, needle, 0);
    FindIsFirst(hay + more, needle, 0);
    var i := Find(hay, needle).value;
    AtStable(hay, more, needle, i);
    assert Find(hay + more, needle).Some?;
    var k := Find(hay + more, needle).value;
    if k < i {
      assert k + |needle| <= |hay|;
      AtStable(hay, more, needle, k);
    }
  }

  lemma AtStable(hay: Bytes, more: Bytes, needle: Bytes, i: nat)
    requires i + |needle| <= |hay|
    ensures At(hay + more, needle, i) == At(hay, needle, i)
  {
    assert (hay + more)[i..i + |needle|] == hay[i..i + |needle|];
  }

  lemma AtBehind(hay: Bytes, needle: Bytes, from: nat, i: nat)
    requires from <= |hay|
    ensures At(hay[from..], needle, i) == At(hay, needle, from + i)
  {
    if from + i + |needle| <= |hay| {
      assert hay[from..][i..i + |needle|] == hay[from + i..from + i + |needle|];
    }
  }

  predicate StartsWith(s: Bytes, p: Bytes) { |p| <= |s| && s[..|p|] == p }

  lemma FindUnique(hay: Bytes, needle: Bytes, i: nat)
    requires FirstAt(hay, needle, i)
    ensures Find(hay, needle) == Some(i)
  {
    FindIsFirst(hay, needle, 0);
  }

  lemma FirstAtPrefix(hay: Bytes, needle: Bytes, i: nat, n: nat)
    requires i + |needle| <= n <= |hay|
    ensures FirstAt(hay[..n], needle, i) <==> FirstAt(hay, needle, i)
  {
    var pre := hay[..n];
    assert hay == pre + hay[n..];
    forall j | 0 <= j <= i ensures At(hay, needle, j) == At(pre, needle, j) {
      AtStable(pre, hay[n..], needle, j);
    }
  }
}

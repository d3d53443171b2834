/** Byte-addressed memory, and numbers of several bytes in it. A number is its
    bit pattern, low byte first; sign and floating point are how the two sides
    read the same pattern. */
module ByteMemory {

  type Memory = int -> int

  function Cells(mem: Memory, at: int, n: nat): (r: seq<int>)
    ensures |r| == n
  {
    seq(n, i => mem(at + i))
  }

  function Store(mem: Memory, at: int, xs: seq<int>): Memory {
    (a: int) => if at <= a < at + |xs| then xs[a - at] else mem(a)
  }

  lemma StoredCells(mem: Memory, at: int, xs: seq<int>)
    ensures Cells(Store(mem, at, xs), at, |xs|) == xs
  {
  }

  /** A borrowed slice of bytes: nothing is read through the pointer of an
      empty one. */
  function Borrow(mem: Memory, at: int, n: int): seq<int> {
    if n <= 0 then [] else Cells(mem, at, n)
  }

  // ----- numbers ------------------------------------------------------------

  /** How many patterns fit into w bytes. */
  function Limit(w: nat): nat { if w == 0 then 1 else 256 * Limit(w - 1) }

  function Digits(x: int, w: nat): seq<int>
    decreases w
  {
    if w == 0 then [] else [x % 256] + Digits(x / 256, w - 1)
  }

  function Number(bs: seq<int>): int {
    if bs == [] then 0 else bs[0] + 256 * Number(bs[1..])
  }

  lemma {:induction false} NumberDigits(x: int, w: nat)
    requires 0 <= x < Limit(w)
    ensures |Digits(x, w)| == w && Number(Digits(x, w)) == x
  {
    if w > 0 {
      NumberDigits(x / 256, w - 1);
      assert Digits(x, w)[1..] == Digits(x / 256, w - 1);
    }
  }

  /** The w low bytes of a word. */
  function Low(x: int, w: nat): int { Number(Digits(x, w)) }

  // ----- arrays of numbers --------------------------------------------------

  predicate Fits(xs: seq<int>, w: nat) { forall i :: 0 <= i < |xs| ==> 0 <= xs[i] < Limit(w) }

  function Spread(xs: seq<int>, w: nat): seq<int> {
    if xs == [] then [] else Digits(xs[0], w) + Spread(xs[1..], w)
  }

  function Elems(bs: seq<int>, w: nat): seq<int>
    requires w > 0
    decreases |bs|
  {
    if |bs| < w then [] else [Number(bs[..w])] + Elems(bs[w..], w)
  }

  lemma {:induction false} ElemsSpread(xs: seq<int>, w: nat)
    requires w > 0 && Fits(xs, w)
    ensures |Spread(xs, w)| == |xs| * w && Elems(Spread(xs, w), w) == xs
  {
    if xs != [] {
      var ds, rest := Digits(xs[0], w), Spread(xs[1..], w);
      NumberDigits(xs[0], w);
      ElemsSpread(xs[1..], w);
      assert |xs| * w == w + (|xs| - 1) * w;
      assert (ds + rest)[..w] == ds && (ds + rest)[w..] == rest;
    }
  }

  /** A borrowed slice of n numbers of w bytes. */
  function BorrowElems(mem: Memory, at: int, n: int, w: nat): seq<int>
    requires w > 0
  {
    if n <= 0 then [] else Elems(Cells(mem, at, n * w), w)
  }
}

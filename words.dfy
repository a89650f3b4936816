/**
 * Unsigned machine words as the firmware's C code uses them (`u8`, `u16`,
 * `u32`), modelled as their bit strings, most significant bit first: for a
 * word w, w[0] is bit |w|-1 and w[|w|-1] is bit 0.  The C operators become
 * width-preserving operations on these strings, so that every truncation to
 * the word width is explicit.
 */
module Words {
  type Byte = w: seq<bool> | |w| == 8 witness seq(8, _ => false)
  type Half = w: seq<bool> | |w| == 16 witness seq(16, _ => false)
  type Word = w: seq<bool> | |w| == 32 witness seq(32, _ => false)

  /** The n-bit word 0. */
  function Zeros(n: nat): (z: seq<bool>)
    ensures |z| == n && forall i :: 0 <= i < n ==> !z[i]
  {
    seq(n, _ => false)
  }

  /** The n-bit word 1. */
  function One(n: nat): (w: seq<bool>)
    requires n >= 1
    ensures |w| == n && w[n - 1] && forall i :: 0 <= i < n - 1 ==> !w[i]
  {
    Zeros(n - 1) + [true]
  }

  /** Bit j of w, bit 0 being the least significant. */
  predicate Bit(w: seq<bool>, j: nat)
    requires j < |w|
  {
    w[|w| - 1 - j]
  }

  /** `w << n` at the width of w: bits shifted past the top are lost. */
  function Shl(w: seq<bool>, n: nat): (r: seq<bool>)
    requires n <= |w|
    ensures |r| == |w|
    ensures forall i :: 0 <= i < |w| - n ==> r[i] == w[i + n]
    ensures forall i :: |w| - n <= i < |w| ==> !r[i]
  {
    w[n..] + Zeros(n)
  }

  /** `a | b` for words of one width. */
  function Or(a: seq<bool>, b: seq<bool>): (r: seq<bool>)
    requires |a| == |b|
    ensures |r| == |a| && forall i :: 0 <= i < |a| ==> r[i] == (a[i] || b[i])
  {
    seq(|a|, i requires 0 <= i < |a| => a[i] || b[i])
  }

  /** `a & b` for words of one width. */
  function And(a: seq<bool>, b: seq<bool>): (r: seq<bool>)
    requires |a| == |b|
    ensures |r| == |a| && forall i :: 0 <= i < |a| ==> r[i] == (a[i] && b[i])
  {
    seq(|a|, i requires 0 <= i < |a| => a[i] && b[i])
  }

  /** `~w`. */
  function Not(w: seq<bool>): (r: seq<bool>)
    ensures |r| == |w| && forall i :: 0 <= i < |w| ==> r[i] == !w[i]
  {
    seq(|w|, i requires 0 <= i < |w| => !w[i])
  }

  /** A C condition on a word: true when some bit is set. */
  predicate Nonzero(w: seq<bool>)
  {
    exists i :: 0 <= i < |w| && w[i]
  }

  /** Zero extension to n bits (C's promotion of an unsigned value). */
  function Widen(w: seq<bool>, n: nat): (r: seq<bool>)
    requires |w| <= n
    ensures |r| == n && r[n - |w|..] == w
    ensures forall i :: 0 <= i < n - |w| ==> !r[i]
  {
    Zeros(n - |w|) + w
  }

  /** The low n bits of w (a cast to a narrower unsigned type, or `& (2^n - 1)`). */
  function Low(w: seq<bool>, n: nat): (r: seq<bool>)
    requires n <= |w|
    ensures |r| == n && forall i :: 0 <= i < n ==> r[i] == Bit(w, n - 1 - i)
  {
    w[|w| - n..]
  }

  /** The number w denotes. */
  function Value(w: seq<bool>): (v: nat)
  {
    if w == [] then 0 else 2 * Value(w[..|w| - 1]) + (if w[|w| - 1] then 1 else 0)
  }

  /**
   * Testing a word against `1 << j` (a mask with bit j alone) reads bit j.
   */
  lemma MaskTest(w: seq<bool>, j: nat)
    requires j < |w|
    ensures Nonzero(And(w, Shl(One(|w|), j))) == Bit(w, j)
  {
    var m := Shl(One(|w|), j);
    var a := And(w, m);
    var p := |w| - 1 - j;
    assert m[p];
    forall i | 0 <= i < |w| && i != p
      ensures !a[i]
    {
      if i < |w| - j {
        assert m[i] == One(|w|)[i + j];
      }
    }
    if Bit(w, j) {
      assert a[p];
    }
  }

  /** Bit j of `w << n` is bit j - n of w, and 0 below bit n. */
  lemma BitShl(w: seq<bool>, n: nat, j: nat)
    requires n <= |w| && j < |w|
    ensures Bit(Shl(w, n), j) == (j >= n && Bit(w, j - n))
  {}

  /** Bit j of `a | b` is set when bit j of a or of b is. */
  lemma BitOr(a: seq<bool>, b: seq<bool>, j: nat)
    requires |a| == |b| && j < |a|
    ensures Bit(Or(a, b), j) == (Bit(a, j) || Bit(b, j))
  {}

  /** `w << 1` drops the top bit and brings in a 0. */
  lemma ShlOne(w: seq<bool>)
    requires |w| >= 1
    ensures Shl(w, 1) == w[1..] + [false]
  {}

  /** `w | 1` sets bit 0 and keeps the others. */
  lemma OrOne(w: seq<bool>)
    requires |w| >= 1
    ensures Or(w, One(|w|)) == w[..|w| - 1] + [true]
  {}

  /**
   * `(d << n) | r` where r fits in n bits: the low n bits are r, and above
   * them sit the low |d|-n bits of d.
   */
  lemma ShlOrLow(d: seq<bool>, r: seq<bool>, n: nat)
    requires |r| == n <= |d|
    ensures Or(Shl(d, n), Widen(r, |d|)) == d[n..] + r
  {
    var lhs := Or(Shl(d, n), Widen(r, |d|));
    var rhs := d[n..] + r;
    forall i | 0 <= i < |d|
      ensures lhs[i] == rhs[i]
    {
      if i < |d| - n {
        assert Widen(r, |d|)[i] == false;
      } else {
        assert Widen(r, |d|)[i] == Widen(r, |d|)[|d| - n..][i - (|d| - n)];
      }
    }
  }
}

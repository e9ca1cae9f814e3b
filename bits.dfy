/** Integer bit operations the serial decoders use on their byte
    accumulators (`<<`, `>>`, `|`, `&`), on the small non-negative values
    they hold, where JavaScript's 32-bit operators agree with these. */
module Bits {
  import opened Wrappers
  import opened Waveforms

  function Pow2(n: nat): (p: nat)
    ensures p >= 1
  {
    if n == 0 then 1 else 2 * Pow2(n - 1)
  }

  /** `a | b` on non-negative integers, bit by bit from the lowest. */
  function BitOr(a: nat, b: nat): nat
    decreases a + b
  {
    if a == 0 then b
    else if b == 0 then a
    else 2 * BitOr(a / 2, b / 2) + (if a % 2 == 1 || b % 2 == 1 then 1 else 0)
  }

  /** `(a & (1 << i)) != 0`: bit `i` of `a` is set. */
  predicate TestBit(a: nat, i: nat) {
    if i == 0 then a % 2 == 1 else TestBit(a / 2, i - 1)
  }

  /** A sample read as a bit operand: JavaScript's `ToInt32` of a binary
      sample (0 or 1) is the sample itself, and of `undefined` is 0. */
  function ToBit(v: Option<real>): Bit {
    if v == Some(1.0) then 1 else 0
  }

  /** A binary sample used as a bit operand is the sample itself, and
      `undefined` is 0. */
  lemma {:induction false} SampleBit(v: Option<real>)
    ensures v.Some? && (v.value == 0.0 || v.value == 1.0) ==> ToBit(v) as real == v.value
    ensures v.None? ==> ToBit(v) == 0
  {
  }

  /** Or-ing a value into a lower range of bits that are all clear in the
      other operand adds it. */
  lemma {:induction false} BitOrDisjoint(m: nat, b: nat, k: nat)
    requires b < Pow2(k)
    ensures BitOr(m * Pow2(k), b) == m * Pow2(k) + b
    decreases k
  {
    var a := m * Pow2(k);
    if k == 0 {
      assert b == 0;
    } else if a != 0 && b != 0 {
      var p := Pow2(k - 1);
      assert a == 2 * (m * p);
      assert a / 2 == m * p && a % 2 == 0;
      BitOrDisjoint(m, b / 2, k - 1);
    }
  }

  /** `(byte << 1) | bit` for a single bit appends that bit at the bottom. */
  lemma {:induction false} ShiftInBit(byte: nat, bit: Bit)
    ensures BitOr(2 * byte, bit) == 2 * byte + bit
  {
    BitOrDisjoint(byte, bit, 1);
  }

  /** The left fold of `(acc << 1) | bit`: the first bit of `bits` ends up
      as the most significant. */
  function FoldMsb(bits: seq<Bit>): (v: nat)
    ensures v < Pow2(|bits|)
  {
    if bits == [] then 0 else 2 * FoldMsb(bits[..|bits| - 1]) + bits[|bits| - 1]
  }

  /** The `n` low bits of `v`, most significant first: the inverse of `FoldMsb`. */
  function ToBitsMsb(v: nat, n: nat): (bits: seq<Bit>)
    ensures |bits| == n
  {
    if n == 0 then [] else ToBitsMsb(v / 2, n - 1) + [v % 2]
  }

  /** Reading a value back into bits gives the bits it was folded from. */
  lemma {:induction false} FoldThenSplit(bits: seq<Bit>)
    ensures ToBitsMsb(FoldMsb(bits), |bits|) == bits
  {
    if bits != [] {
      var init := bits[..|bits| - 1];
      FoldThenSplit(init);
      DivOfSum(FoldMsb(init), 2, bits[|bits| - 1]);
      assert (2 * FoldMsb(init) + bits[|bits| - 1]) / 2 == FoldMsb(init);
      assert init + [bits[|bits| - 1]] == bits;
    }
  }

  /** Folding the bits of a value that fits in `n` bits gives the value back. */
  lemma {:induction false} SplitThenFold(v: nat, n: nat)
    requires v < Pow2(n)
    ensures FoldMsb(ToBitsMsb(v, n)) == v
  {
    if n > 0 {
      SplitThenFold(v / 2, n - 1);
      var bits := ToBitsMsb(v, n);
      assert bits[..n - 1] == ToBitsMsb(v / 2, n - 1);
    }
  }

  /** The first bit received is the top bit of the folded value. */
  lemma {:induction false} FirstBitIsMsb(bits: seq<Bit>)
    requires |bits| > 0
    ensures FoldMsb(bits) / Pow2(|bits| - 1) == bits[0]
  {
    if |bits| > 1 {
      var init := bits[..|bits| - 1];
      FirstBitIsMsb(init);
      assert init[0] == bits[0];
      assert Pow2(|bits| - 1) == 2 * Pow2(|bits| - 2);
      TopBitStep(FoldMsb(init), Pow2(|bits| - 2), bits[0], bits[|bits| - 1]);
    }
  }

  /** Appending a bit at the bottom keeps the top bit: if `f / p` is the
      bit `top`, so is `(2 * f + last) / (2 * p)`. */
  lemma {:induction false} TopBitStep(f: nat, p: nat, top: Bit, last: Bit)
    requires p >= 1 && f / p == top
    ensures (2 * f + last) / (2 * p) == top
  {
    var low := 2 * (f % p) + last;
    assert low < 2 * p;
    if top == 0 {
      assert f == f % p;
      DivOfSum(0, 2 * p, low);
    } else {
      assert f == p + f % p;
      assert 2 * f + last == 2 * p + low;
      DivOfSum(1, 2 * p, low);
    }
  }

  lemma {:induction false} MulAtLeast(k: int, d: nat)
    requires k >= 1 && d > 0
    ensures k * d >= d
  {
    assert k * d == (k - 1) * d + d;
  }

  /** Euclidean division undoes `q * d + r` for a remainder below `d`. */
  lemma {:induction false} DivOfSum(q: nat, d: nat, r: nat)
    requires d > 0 && r < d
    ensures (q * d + r) / d == q
  {
    var x := q * d + r;
    var k := x / d - q;
    assert x == (x / d) * d + x % d;
    assert k * d == r - x % d;
    if k >= 1 {
      MulAtLeast(k, d);
      assert false;
    } else if k <= -1 {
      MulAtLeast(-k, d);
      assert false;
    }
  }

  /** Dropping the last of the folded bits is `>> 1`. */
  lemma {:induction false} ShiftOutLast(bits: seq<Bit>)
    requires |bits| > 0
    ensures FoldMsb(bits) / 2 == FoldMsb(bits[..|bits| - 1])
  {
  }

  /** Bit `i` of the folded value is the `i`-th bit from the end. */
  lemma {:induction false} FoldMsbBit(bits: seq<Bit>, i: nat)
    requires i < |bits|
    ensures TestBit(FoldMsb(bits), i) <==> bits[|bits| - 1 - i] == 1
  {
    var init := bits[..|bits| - 1];
    var v := FoldMsb(bits);
    if i == 0 {
      assert v % 2 == bits[|bits| - 1];
    } else {
      FoldMsbBit(init, i - 1);
      ShiftOutLast(bits);
      assert init[|init| - 1 - (i - 1)] == bits[|bits| - 1 - i];
    }
  }

  /** The number of set bits among the low `n` bits of `v`. */
  function Ones(v: nat, n: nat): nat {
    if n == 0 then 0 else Ones(v, n - 1) + (if TestBit(v, n - 1) then 1 else 0)
  }

  /** The number of ones in a bit sequence. */
  function CountOnes(bits: seq<Bit>): nat {
    if bits == [] then 0 else bits[0] + CountOnes(bits[1..])
  }

  /** Counting the set bits of the folded value counts the received ones. */
  lemma {:induction false} OnesOfFold(bits: seq<Bit>, n: nat)
    requires n <= |bits|
    ensures Ones(FoldMsb(bits), n) == CountOnes(bits[|bits| - n..])
  {
    if n > 0 {
      OnesOfFold(bits, n - 1);
      FoldMsbBit(bits, n - 1);
      var tail := bits[|bits| - n..];
      assert tail[1..] == bits[|bits| - (n - 1)..];
      assert tail[0] == bits[|bits| - 1 - (n - 1)];
    }
  }

  /** All the bits of the folded value: as many set bits as ones received. */
  lemma {:induction false} OnesOfFoldAll(bits: seq<Bit>)
    ensures Ones(FoldMsb(bits), |bits|) == CountOnes(bits)
  {
    OnesOfFold(bits, |bits|);
    assert bits[|bits| - |bits|..] == bits;
  }
}

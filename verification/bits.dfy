/**
  The `bitbybit` bitfield registers of the CMSDK drivers.  A 32-bit
  register value is represented by the set of positions of its 1 bits, and
  a one-bit field `#[bit(n, rw)]` by its position `n`: reading the field
  tests membership, and `with_<field>(b)` / `set_<field>(b)` add or remove
  that one position.  `Raw` gives the value as an unsigned number.
*/
module Bits {
  const Width: nat := 32

  /** A 32-bit register value: the positions of its 1 bits. */
  type Word = s: set<nat> | forall i | i in s :: i < Width

  /** Reading a one-bit field. */
  predicate Test(x: Word, bit: nat) {
    bit in x
  }

  /** `with_<field>(b)`: the value with the field's bit set to `b`, every other bit kept. */
  function With(x: Word, bit: nat, b: bool): (r: Word)
    requires bit < Width
    ensures Test(r, bit) == b
    ensures r - {bit} == x - {bit}
  {
    if b then x + {bit} else x - {bit}
  }

  function Pow2(n: nat): (p: nat)
    ensures p >= 1
  {
    if n == 0 then 1 else 2 * Pow2(n - 1)
  }

  /** The value of the bits of `x` below position `n`. */
  function RawBelow(x: Word, n: nat): nat {
    if n == 0 then 0 else RawBelow(x, n - 1) + (if n - 1 in x then Pow2(n - 1) else 0)
  }

  /** `raw_value()`: the register value as an unsigned number. */
  function Raw(x: Word): nat {
    RawBelow(x, Width)
  }

  /** The bits below `n` make a number below 2^n. */
  lemma {:induction false} RawBelowBound(x: Word, n: nat)
    ensures RawBelow(x, n) < Pow2(n)
  {
    if n > 0 {
      RawBelowBound(x, n - 1);
    }
  }

  /** Every raw value fits in a `u32`. */
  lemma RawFits(x: Word)
    ensures Raw(x) < Pow2(Width)
  {
    RawBelowBound(x, Width);
  }

  /** Bits at or above `n` do not contribute once the count has passed them all. */
  lemma {:induction false} RawBelowAbove(x: Word, n: nat, m: nat)
    requires n <= m
    requires forall i | i in x :: i < n
    ensures RawBelow(x, m) == RawBelow(x, n)
    decreases m
  {
    if m > n {
      RawBelowAbove(x, n, m - 1);
    }
  }

  /** The raw value of a word whose bits all lie below `n` is the value of its low `n` bits. */
  lemma RawLow(x: Word, n: nat)
    requires n <= Width
    requires forall i | i in x :: i < n
    ensures Raw(x) == RawBelow(x, n)
  {
    RawBelowAbove(x, n, Width);
  }

  /** Setting one field leaves every other field as it was. */
  lemma WithOthers(x: Word, bit: nat, b: bool, other: nat)
    requires bit < Width && other != bit
    ensures Test(With(x, bit, b), other) == Test(x, other)
  {
    assert other in With(x, bit, b) - {bit} <==> other in x - {bit};
  }
}

/**
  The byte layout of a `#[repr(C)]` register block made of `u32` words and
  `[u32; N]` arrays, as `derive_mmio::Mmio` maps it onto the peripheral's
  address space: fields are placed one after the other, in declaration
  order, with no padding (every field is a whole number of 4-byte words).
*/
module MmioLayout {
  import opened Wrappers

  /** The fields of a register block in declaration order, each with its length in 32-bit words. */
  datatype Layout<F> = End | Field(name: F, words: nat, rest: Layout<F>)

  /** `size_of` the block, in bytes. */
  function Size<F>(l: Layout<F>): nat {
    match l
    case End => 0
    case Field(_, words, rest) => 4 * words + Size(rest)
  }

  /** The byte offset of the first field called `f`, if there is one. */
  function OffsetOf<F(==)>(l: Layout<F>, f: F): Option<nat> {
    match l
    case End => None
    case Field(name, words, rest) =>
      if name == f then Some(0)
      else match OffsetOf(rest, f)
        case None => None
        case Some(o) => Some(4 * words + o)
  }

  /** The length in words of the first field called `f` (0 when there is none). */
  function WordsOf<F(==)>(l: Layout<F>, f: F): nat {
    match l
    case End => 0
    case Field(name, words, rest) => if name == f then words else WordsOf(rest, f)
  }

  /**
    Every field sits at a word-aligned offset and lies wholly inside the
    block: the MMIO accessors never read or write past its end.
  */
  lemma {:induction false} FieldInside<F>(l: Layout<F>, f: F)
    requires OffsetOf(l, f).Some?
    ensures OffsetOf(l, f).value % 4 == 0
    ensures OffsetOf(l, f).value + 4 * WordsOf(l, f) <= Size(l)
  {
    match l
    case Field(name, words, rest) =>
      if name != f {
        FieldInside(rest, f);
      }
  }

  /**
    Fields do not overlap: of two fields, the one at the lower offset ends
    at or before the other begins.
  */
  lemma {:induction false} FieldsDisjoint<F>(l: Layout<F>, f: F, g: F)
    requires OffsetOf(l, f).Some? && OffsetOf(l, g).Some?
    requires OffsetOf(l, f).value < OffsetOf(l, g).value
    ensures OffsetOf(l, f).value + 4 * WordsOf(l, f) <= OffsetOf(l, g).value
  {
    match l
    case Field(name, words, rest) =>
      if name != f && name != g {
        FieldsDisjoint(rest, f, g);
      }
  }
}

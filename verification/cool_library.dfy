/**
  `cool_library_function` (example-code/native/ffi/use-c-in-rust/src/cool_library.c):
  parse a NUL-terminated string of decimal digits into an `unsigned int`.
  The loop multiplies by ten before looking at each character, gives up
  with 0 at the first character outside `'0'..'9'`, and every operation
  wraps around modulo 2^32.
*/
module CoolLibrary {
  import opened Wrappers

  /** `unsigned int` arithmetic is modulo 2^32. */
  const UIntModulus: nat := 0x1_0000_0000

  newtype Byte = b: int | 0 <= b < 0x100
  type UInt = x: nat | x < UIntModulus

  const Nul: Byte := 0
  const Zero: Byte := 0x30  // '0'
  const Nine: Byte := 0x39  // '9'

  predicate IsDigit(c: Byte) {
    Zero <= c <= Nine
  }

  /** `*p - '0'`. */
  function DigitValue(c: Byte): int {
    c as int - Zero as int
  }

  /** The index of the terminating NUL: the first zero byte. */
  function NulIndex(mem: seq<Byte>): (i: nat)
    requires Nul in mem
    ensures i < |mem| && mem[i] == Nul && Nul !in mem[..i]
  {
    if mem[0] == Nul then 0
    else
      assert mem == [mem[0]] + mem[1..];
      1 + NulIndex(mem[1..])
  }

  /** The C string stored at the start of `mem`: every byte before the NUL. */
  function CString(mem: seq<Byte>): seq<Byte>
    requires Nul in mem
  {
    mem[..NulIndex(mem)]
  }

  /** One pass of the loop body: `result *= 10`, then the digit check, then `result += *p - '0'`. */
  function Step(acc: Option<UInt>, c: Byte): Option<UInt> {
    match acc
    case None => None
    case Some(result) =>
      var times10 := (result * 10) % UIntModulus;
      if c < Zero || c > Nine then None
      else Some((times10 + DigitValue(c)) % UIntModulus)
  }

  /** The loop over the string's characters: `None` once it has returned 0 early. */
  function Run(s: seq<Byte>): Option<UInt> {
    if s == [] then Some(0) else Step(Run(s[..|s| - 1]), s[|s| - 1])
  }

  /** What `cool_library_function` returns for the characters `s` before the NUL. */
  function Parse(s: seq<Byte>): UInt {
    match Run(s)
    case None => 0
    case Some(result) => result
  }

  /** The value of a string of decimal digits, in unbounded integers (Horner's rule). */
  function Decimal(s: seq<Byte>): nat
    requires forall k :: 0 <= k < |s| ==> IsDigit(s[k])
  {
    if s == [] then 0
    else
      assert IsDigit(s[|s| - 1]);
      Decimal(s[..|s| - 1]) * 10 + DigitValue(s[|s| - 1])
  }

  /** `cool_library_function`, reading the string out of memory until the NUL. */
  method CoolLibraryFunction(s: array<Byte>) returns (r: UInt)
    requires Nul in s[..]
    ensures r == Parse(CString(s[..]))
  {
    var nul := NulIndex(s[..]);
    var result: UInt := 0;
    var p := 0;
    while s[p] != Nul
      invariant p <= nul
      invariant Run(s[..p]) == Some(result)
      decreases nul - p
    {
      assert s[..p + 1][..p] == s[..p];
      result := (result * 10) % UIntModulus;
      if s[p] < Zero || s[p] > Nine {
        RunStopped(s[..p + 1], s[p + 1..nul]);
        assert s[..p + 1] + s[p + 1..nul] == s[..nul];
        return 0;
      }
      result := (result + DigitValue(s[p])) % UIntModulus;
      p := p + 1;
    }
    r := result;
  }

  /** After an early return, further characters change nothing. */
  lemma {:induction false} RunStopped(a: seq<Byte>, b: seq<Byte>)
    requires Run(a) == None
    ensures Run(a + b) == None
    decreases |b|
  {
    if b == [] {
      assert a + b == a;
    } else {
      assert (a + b)[..|a + b| - 1] == a + b[..|b| - 1];
      RunStopped(a, b[..|b| - 1]);
    }
  }

  /** Wrapping after every step is the same as wrapping once at the end. */
  lemma WrapStep(x: nat, d: nat)
    ensures ((x % UIntModulus) * 10 % UIntModulus + d) % UIntModulus == (x * 10 + d) % UIntModulus
  {
    var m := UIntModulus;
    var q := x / m;
    assert x == q * m + x % m;
    assert x * 10 + d == (x % m) * 10 + d + (q * 10) * m;
    var y := (x % m) * 10;
    assert y == (y / m) * m + y % m;
    assert (x % m) * 10 + d == y % m + d + (y / m) * m;
    ModAddMultiple(y % m + d, y / m);
    ModAddMultiple((x % m) * 10 + d, q * 10);
  }

  lemma ModAddMultiple(a: nat, k: nat)
    ensures (a + k * UIntModulus) % UIntModulus == a % UIntModulus
  {
    var m := UIntModulus;
    var n := a + k * m;
    assert n == (a / m + k) * m + a % m;
  }

  /**
    On a string of digits the function returns its decimal value reduced
    modulo 2^32, as `unsigned int` wrap-around makes it.
  */
  lemma {:induction false} ParseDigits(s: seq<Byte>)
    requires forall k :: 0 <= k < |s| ==> IsDigit(s[k])
    ensures Run(s) == Some(Decimal(s) % UIntModulus)
    ensures Parse(s) == Decimal(s) % UIntModulus
    decreases |s|
  {
    if s != [] {
      var init := s[..|s| - 1];
      ParseDigits(init);
      WrapStep(Decimal(init), DigitValue(s[|s| - 1]));
    }
  }

  /** A character outside `'0'..'9'`, wherever it is, makes the result 0. */
  lemma ParseNonDigit(s: seq<Byte>, i: nat)
    requires i < |s| && !IsDigit(s[i])
    ensures Parse(s) == 0
  {
    var a := s[..i + 1];
    assert a[..i] == s[..i];
    RunStopped(a, s[i + 1..]);
    assert a + s[i + 1..] == s;
  }

  /** The empty string gives 0. */
  lemma ParseEmpty()
    ensures Parse([]) == 0
  {
    assert Run([]) == Some(0);
  }

  /** Appending a digit to a string of digits multiplies by ten and adds the digit, modulo 2^32. */
  lemma ParseAppendDigit(s: seq<Byte>, c: Byte)
    requires forall k :: 0 <= k < |s| ==> IsDigit(s[k])
    requires IsDigit(c)
    ensures Parse(s + [c]) == (Parse(s) * 10 + DigitValue(c)) % UIntModulus
  {
    ParseDigits(s);
    ParseDigits(s + [c]);
    assert (s + [c])[..|s|] == s;
    WrapStep(Decimal(s), DigitValue(c));
    assert Parse(s) == Decimal(s) % UIntModulus;
    assert (Parse(s) * 10 + DigitValue(c)) % UIntModulus
        == ((Decimal(s) % UIntModulus) * 10 + DigitValue(c)) % UIntModulus;
    WrapStep2(Decimal(s), DigitValue(c));
  }

  lemma WrapStep2(x: nat, d: nat)
    ensures ((x % UIntModulus) * 10 + d) % UIntModulus == (x * 10 + d) % UIntModulus
  {
    var m := UIntModulus;
    var q := x / m;
    assert x == q * m + x % m;
    assert x * 10 + d == (x % m) * 10 + d + (q * 10) * m;
    ModAddMultiple((x % m) * 10 + d, q * 10);
  }

  /** The first call the Rust side's tests make: `"123"` gives 123. */
  lemma ParseOneTwoThree()
    ensures Parse([0x31, 0x32, 0x33]) == 123
  {
    var s: seq<Byte> := [0x31, 0x32, 0x33];
    assert s[..2] == [0x31, 0x32];
    assert s[..2][..1] == [0x31];
    assert Run([0x31]) == Some(1) by {
      assert [0x31 as Byte][..0] == [];
    }
    assert Run(s[..2]) == Some(12);
  }

  /** The second call the Rust side's tests make: `"x123"` gives 0. */
  lemma ParseLeadingX()
    ensures Parse([0x78, 0x31, 0x32, 0x33]) == 0
  {
    ParseNonDigit([0x78, 0x31, 0x32, 0x33], 0);
  }
}

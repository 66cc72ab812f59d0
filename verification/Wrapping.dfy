/**
 Wrapping `u16` arithmetic: ticks, packet indices and message indices all live in
 `u16` and are compared with a half-range window (`shared/src/wrapping_number.rs`).

 Every structure built on it is reasoned about through unbounded logical ticks
 (`int`), of which the `u16` values are the residues.
 */
module Wrapping {

  type u16 = x: int | 0 <= x < 0x1_0000

  const HALF: int := 0x8000

  /** The residue that a logical tick is transmitted as. */
  function Wrap(x: int): u16 {
    x % 0x1_0000
  }

  function WrappingAdd(a: u16, b: int): u16 {
    (a + b) % 0x1_0000
  }

  function WrappingSub(a: u16, b: int): u16 {
    (a - b) % 0x1_0000
  }

  /** How far `a` lies ahead of `b` going forward round the circle. */
  function Ahead(a: u16, b: u16): u16 {
    (a - b) % 0x1_0000
  }

  predicate SequenceGreaterThan(s1: u16, s2: u16) {
    || (s1 > s2 && s1 - s2 <= 32768)
    || (s1 < s2 && s2 - s1 > 32768)
  }

  predicate SequenceLessThan(s1: u16, s2: u16) {
    SequenceGreaterThan(s2, s1)
  }

  /** `Overflow` stands for the "integer overflow" panic. */
  datatype Diff = Diff(value: int) | Overflow

  function WrappingDiffChecked(a: u16, b: u16): Diff {
    var result := b - a;
    if -0x8000 <= result <= 0x7FFF then Diff(result)
    else if b > a then
      var result := b - (a + 0x1_0000);
      if -0x8000 <= result <= 0x7FFF then Diff(result) else Overflow
    else
      var result := (b + 0x1_0000) - a;
      if -0x8000 <= result <= 0x7FFF then Diff(result) else Overflow
  }

  /** `wrapping_diff` never panics; its result is the one `i16` that leads from `a` to `b`. */
  function WrappingDiff(a: u16, b: u16): (d: int)
    ensures -0x8000 <= d <= 0x7FFF
    ensures WrappingAdd(a, d) == b
    ensures WrappingDiffChecked(a, b) == Diff(d)
  {
    WrappingDiffChecked(a, b).value
  }

  /** Inside the half-range window the wrapped comparison is integer order and wrapping loses nothing. */
  lemma WindowOrder(x: int, y: int)
    requires -HALF < x - y < HALF
    ensures SequenceGreaterThan(Wrap(x), Wrap(y)) <==> x > y
    ensures SequenceLessThan(Wrap(x), Wrap(y)) <==> x < y
    ensures Wrap(x) == Wrap(y) <==> x == y
  {
  }

  /** Inside the (closed below) window `wrapping_diff` is integer difference, and nowhere else. */
  lemma WindowDiff(x: int, y: int)
    ensures WrappingDiff(Wrap(x), Wrap(y)) == y - x <==> -HALF <= y - x < HALF
  {
  }

  /** The comparison in terms of the forward distance; at exactly half range it falls back to raw order. */
  lemma GreaterByDistance(a: u16, b: u16)
    ensures SequenceGreaterThan(a, b) <==>
            (1 <= Ahead(a, b) < HALF || (Ahead(a, b) == HALF && a > b))
  {
  }

  /** Any two values are equal or ordered one way, never both. */
  lemma Trichotomy(a: u16, b: u16)
    ensures (a == b) != (SequenceGreaterThan(a, b) != SequenceGreaterThan(b, a))
    ensures !(SequenceGreaterThan(a, b) && SequenceGreaterThan(b, a))
  {
  }

  /** The order has cycles: 0 < 30000 < 60000 < 0. */
  lemma OrderHasCycles()
    ensures SequenceGreaterThan(30000, 0) && SequenceGreaterThan(60000, 30000) && SequenceGreaterThan(0, 60000)
  {
  }

  /** When chaining two comparisons is sound: exactly when the two forward distances still fit in the window. */
  lemma TransitiveIff(a: u16, b: u16, c: u16)
    requires SequenceGreaterThan(a, b) && SequenceGreaterThan(b, c)
    ensures SequenceGreaterThan(a, c) <==>
            (Ahead(a, b) + Ahead(b, c) < HALF || (Ahead(a, b) + Ahead(b, c) == HALF && a > c))
  {
  }

  /** The comparison and the sign of the difference disagree exactly at half range, for the raw-larger operand. */
  lemma SignDisagreesIff(a: u16, b: u16)
    ensures (SequenceGreaterThan(b, a) <==> WrappingDiff(a, b) > 0) <==> !(Ahead(b, a) == HALF && b > a)
  {
  }

  /** The first index at or after `base` that has this residue. */
  function FirstFrom(base: int, index: u16): (j: int)
    ensures base <= j < base + 0x1_0000 && Wrap(j) == index
  {
    base + Ahead(index, Wrap(base))
  }

  /** A residue finds its own index again exactly within one full range of the base. */
  lemma FirstFromIff(base: int, j: int)
    requires base <= j
    ensures FirstFrom(base, Wrap(j)) == j <==> j - base < 0x1_0000
    ensures FirstFrom(base, Wrap(j)) <= j
  {
  }
}

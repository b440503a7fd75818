/** Small shared definitions: an optional value (Java's nullable results) and Java's 32-bit int. */
module Common {

  /** A value that may be absent; stands for a Java reference that may be null. */
  datatype Option<T> = None | Some(value: T)

  const INT_MIN: int := -0x8000_0000
  const INT_MAX: int := 0x7fff_ffff

  /** Java's `int`. */
  type Int32 = x: int | INT_MIN <= x <= INT_MAX

  /** Reduces an unbounded integer to the Java `int` with the same low 32 bits. */
  function Wrap32(v: int): (r: Int32)
    ensures INT_MIN <= v <= INT_MAX ==> r == v
    ensures (r - v) % 0x1_0000_0000 == 0
  {
    (v - INT_MIN) % 0x1_0000_0000 + INT_MIN
  }

  /** Wrapping commutes with a successor: incrementing the wrapped value wraps like the unwrapped one. */
  lemma WrapSucc(v: int)
    ensures Wrap32(Wrap32(v) + 1) == Wrap32(v + 1)
  {
    var q := (v - INT_MIN) / 0x1_0000_0000;
    assert v - INT_MIN == q * 0x1_0000_0000 + (Wrap32(v) - INT_MIN);
    assert v + 1 - INT_MIN == q * 0x1_0000_0000 + (Wrap32(v) + 1 - INT_MIN);
  }

  lemma ModOfShifted(d: int, m: int)
    requires 0 <= d < m
    ensures (d + m) % m == d
  {
  }
}

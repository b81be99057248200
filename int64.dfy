/**
  Go's `int64` and its wrap-around addition. Go defines signed overflow:
  the result of `val + pair.Value` is the mathematical sum reduced into the
  two's-complement range, so the model writes that reduction out.
 */
module Int64 {

  newtype int64 = x: int | -0x8000_0000_0000_0000 <= x <= 0x7fff_ffff_ffff_ffff

  /** The int64 that two's-complement arithmetic yields for the exact value `x`. */
  function Wrap(x: int): (r: int64)
    ensures (r as int - x) % 0x1_0000_0000_0000_0000 == 0
    ensures -0x8000_0000_0000_0000 <= x <= 0x7fff_ffff_ffff_ffff ==> r as int == x
  {
    ((x + 0x8000_0000_0000_0000) % 0x1_0000_0000_0000_0000 - 0x8000_0000_0000_0000) as int64
  }

  /** Wrapping a partial sum before adding more gives the same int64 as
      wrapping once at the end: this is why the order of additions does not
      matter to the stored value. */
  lemma WrapAddLeft(a: int, b: int)
    ensures Wrap(Wrap(a) as int + b) == Wrap(a + b)
  {
  }

  /** Go's `a + b` on int64. */
  function Add(a: int64, b: int64): (r: int64)
    ensures (r as int - (a as int + b as int)) % 0x1_0000_0000_0000_0000 == 0
    ensures -0x8000_0000_0000_0000 <= a as int + b as int <= 0x7fff_ffff_ffff_ffff ==> r as int == a as int + b as int
  {
    Wrap(a as int + b as int)
  }
}

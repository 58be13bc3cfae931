/**
 * Java's fixed-width integer arithmetic: `int` and `long` wrap around modulo 2^32 and 2^64,
 * and the hash codes the source relies on (`String.hashCode`, `UUID.hashCode`, `Objects.hash`)
 * are computed in that arithmetic.
 */
module JavaInt {

  const TWO_31: int := 0x8000_0000
  const TWO_32: int := 0x1_0000_0000
  const TWO_63: int := 0x8000_0000_0000_0000
  const TWO_64: int := 0x1_0000_0000_0000_0000

  predicate IsInt32(x: int) {
    -TWO_31 <= x < TWO_31
  }

  predicate IsInt64(x: int) {
    -TWO_63 <= x < TWO_63
  }

  /** The Java `int` that an exact result `x` wraps around to. */
  function Wrap32(x: int): (r: int)
    ensures IsInt32(r)
    ensures IsInt32(x) ==> r == x
    ensures (x - r) % TWO_32 == 0
  {
    (x + TWO_31) % TWO_32 - TWO_31
  }

  /** The Java `long` that an exact result `x` wraps around to. */
  function Wrap64(x: int): (r: int)
    ensures IsInt64(r)
    ensures IsInt64(x) ==> r == x
    ensures (x - r) % TWO_64 == 0
  {
    (x + TWO_63) % TWO_64 - TWO_63
  }

  /** Wrapping after every addition gives the same `int` as wrapping once at the end. */
  lemma Wrap32Add(a: int, b: int)
    ensures Wrap32(Wrap32(a) + b) == Wrap32(a + b)
  {
    var q := (a + TWO_31) / TWO_32;
    assert a + TWO_31 == q * TWO_32 + (a + TWO_31) % TWO_32;
    assert Wrap32(a) + b + TWO_31 == (a + b + TWO_31) - q * TWO_32;
    ModShift32(a + b + TWO_31, q);
  }

  /** Wrapping after every addition gives the same `long` as wrapping once at the end. */
  lemma Wrap64Add(a: int, b: int)
    ensures Wrap64(Wrap64(a) + b) == Wrap64(a + b)
  {
    var q := (a + TWO_63) / TWO_64;
    assert a + TWO_63 == q * TWO_64 + (a + TWO_63) % TWO_64;
    assert Wrap64(a) + b + TWO_63 == (a + b + TWO_63) - q * TWO_64;
    ModShift64(a + b + TWO_63, q);
  }

  lemma ModShift32(x: int, q: int)
    ensures (x - q * TWO_32) % TWO_32 == x % TWO_32
  {
  }

  lemma ModShift64(x: int, q: int)
    ensures (x - q * TWO_64) % TWO_64 == x % TWO_64
  {
  }

  /** The signed value of a 32-bit pattern (Java's cast to `int`). */
  function Signed32(b: bv32): (r: int)
    ensures IsInt32(r)
  {
    if b as int < TWO_31 then b as int else b as int - TWO_32
  }

  /** The UTF-16 code units of a string, which is what Java's `String` stores. */
  function Utf16(s: string): (units: seq<int>)
    ensures |units| >= |s|
    ensures forall i :: 0 <= i < |units| ==> 0 <= units[i] < 0x1_0000
  {
    if s == [] then []
    else
      var c := s[|s| - 1] as int;
      Utf16(s[..|s| - 1]) +
        (if c < 0x1_0000 then [c]
         else [0xD800 + (c - 0x1_0000) / 0x400, 0xDC00 + (c - 0x1_0000) % 0x400])
  }

  /** Java's `String.hashCode`: s[0]*31^(n-1) + ... + s[n-1] over the UTF-16 units, as an `int`. */
  function StringHash(s: string): (h: int)
    ensures IsInt32(h)
  {
    UnitsHash(Utf16(s))
  }

  function UnitsHash(units: seq<int>): (h: int)
    ensures IsInt32(h)
  {
    if units == [] then 0
    else Wrap32(31 * UnitsHash(units[..|units| - 1]) + units[|units| - 1])
  }

  /** Java's `Objects.hash(a)` for one field with hash `ha`. */
  function Hash1(ha: int): (h: int)
    ensures IsInt32(h)
  {
    Wrap32(31 + ha)
  }

  /** Java's `Objects.hash(a, b)` for two fields with hashes `ha` and `hb`. */
  function Hash2(ha: int, hb: int): (h: int)
    ensures IsInt32(h)
  {
    Wrap32(31 * Hash1(ha) + hb)
  }
}

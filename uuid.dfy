/** `java.util.UUID`: a 128-bit value held as two 64-bit halves. */
module Uuids {
  import opened JavaInt

  /** Equality of UUIDs is equality of both halves, which is datatype equality. */
  datatype Uuid = Uuid(mostSigBits: bv64, leastSigBits: bv64)

  /** `UUID.hashCode`: the two halves xor-ed together, then the high and low words xor-ed. */
  function UuidHash(u: Uuid): (h: int)
    ensures IsInt32(h)
  {
    var hilo := u.mostSigBits ^ u.leastSigBits;
    Signed32(((hilo >> 32) as bv32) ^ ((hilo & 0xFFFF_FFFF) as bv32))
  }
}

/** Elements of the native field of the proof system (o1js `Field`): integers
    modulo the Pallas base-field prime, always held in canonical form. */
module Fields {

  /** The field modulus. */
  const P: nat := 0x40000000000000000000000000000000224698fc094cf91b992d30ed00000001

  /** A canonical field element. */
  type Field = x: int | 0 <= x < P

  /** `Field.add`: addition modulo P; it wraps at most once. */
  function Add(a: Field, b: Field): (r: Field)
    ensures a + b < P ==> r == a + b
    ensures a + b >= P ==> r == a + b - P
  {
    (a + b) % P
  }

  /** `Field.sub`: subtraction modulo P; it never goes below zero, it wraps. */
  function Sub(a: Field, b: Field): (r: Field)
    ensures b <= a ==> r == a - b
    ensures a < b ==> r == a - b + P
  {
    (a - b) % P
  }
}

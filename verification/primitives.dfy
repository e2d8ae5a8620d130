/** Value types of the circuit library the contract is written against: field elements,
    64-bit unsigned integers, keys and signatures, and the cryptographic primitives,
    which the model takes as parameters instead of defining them. */
module Primitives {

  import opened Wrappers

  /** Order of the base field of the Pallas curve, the native field of the circuits. */
  const FIELD_MODULUS: nat := 0x4000_0000_0000_0000_0000_0000_0000_0000_2246_98fc_094c_f91b_992d_30ed_0000_0001

  /** A field element in its canonical representative. */
  type Field = x: nat | x < FIELD_MODULUS

  /** Field addition wraps around the modulus. */
  function FieldAdd(a: Field, b: Field): (r: Field)
    ensures a + b < FIELD_MODULUS ==> r == a + b
    ensures a + b >= FIELD_MODULUS ==> r == a + b - FIELD_MODULUS
  {
    (a + b) % FIELD_MODULUS
  }

  const U64_LIMIT: nat := 0x1_0000_0000_0000_0000

  /** An unsigned 64-bit integer (timestamps and durations). */
  type U64 = x: nat | x < U64_LIMIT

  /** 64-bit addition is range-checked: a sum that does not fit fails the call. */
  function AddU64(a: U64, b: U64): Option<U64>
  {
    if a + b < U64_LIMIT then Some(a + b) else None
  }

  /** A public key in compressed form: the x coordinate and the parity of y. */
  datatype PublicKey = PublicKey(x: Field, isOdd: bool)

  /** A Schnorr signature: a field element and a scalar. */
  datatype Signature = Signature(r: Field, s: nat)

  /** The primitives the contract calls but that are not part of this model:
      - `hash` is the Poseidon hash of a sequence of field elements;
      - `verify(sig, pk, msg)` is the signature check of `sig` by `pk` over `msg`;
      - `keyFields(pk)` is the field encoding of the curve point of `pk`. */
  datatype Crypto = Crypto(
    hash: seq<Field> -> Field,
    verify: (Signature, PublicKey, seq<Field>) -> bool,
    keyFields: PublicKey -> seq<Field>)

  /** Two different inputs on which the hash agrees. The binding lemmas of the model
      show that any failure of binding hands out such a pair. */
  ghost predicate IsCollision(h: seq<Field> -> Field, x: seq<Field>, y: seq<Field>)
  {
    x != y && h(x) == h(y)
  }

}

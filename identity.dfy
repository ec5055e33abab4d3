/**
 * The identity-element capability (`IdAdd`, `IdMul`) and its instances for the
 * primitive integer types of src/identity.rs. Every instance returns the literal
 * 0 for `id_add` and 1 for `id_mul`; the contracts say why those literals are the
 * right ones: each lies in its type's range and is neutral for every value of
 * that type.
 */
module Identity {

  /** The primitive integer types that implement `IdAdd` and `IdMul`. */
  datatype IntType = U8 | U16 | U32 | U64 | Usize | I8 | I16 | I32 | I64 | Isize

  /** Smallest value of the type (`usize`/`isize` taken as 64 bits wide). */
  function MinValue(t: IntType): int {
    match t
    case U8 | U16 | U32 | U64 | Usize => 0
    case I8 => -0x80
    case I16 => -0x8000
    case I32 => -0x8000_0000
    case I64 | Isize => -0x8000_0000_0000_0000
  }

  /** Largest value of the type (`usize`/`isize` taken as 64 bits wide). */
  function MaxValue(t: IntType): int {
    match t
    case U8 => 0xFF
    case U16 => 0xFFFF
    case U32 => 0xFFFF_FFFF
    case U64 | Usize => 0xFFFF_FFFF_FFFF_FFFF
    case I8 => 0x7F
    case I16 => 0x7FFF
    case I32 => 0x7FFF_FFFF
    case I64 | Isize => 0x7FFF_FFFF_FFFF_FFFF
  }

  predicate InRange(t: IntType, x: int) {
    MinValue(t) <= x <= MaxValue(t)
  }

  /** `<t as IdAdd>::id_add()`: a value of the type that adding leaves every value unchanged. */
  function IdAdd(t: IntType): (zero: int)
    ensures InRange(t, zero)
    ensures forall x :: InRange(t, x) ==> x + zero == x && zero + x == x
  {
    0
  }

  /** `<t as IdMul>::id_mul()`: a value of the type that multiplying leaves every value unchanged. */
  function IdMul(t: IntType): (one: int)
    ensures InRange(t, one)
    ensures forall x :: InRange(t, x) ==> x * one == x && one * x == x
  {
    1
  }

  /**
   * All integer instances agree on both identities, so a model whose entries
   * are unbounded integers has one zero and one one, whichever integer type the
   * source instantiates.
   */
  lemma IdentitiesAgree(s: IntType, t: IntType)
    ensures IdAdd(s) == IdAdd(t) == 0
    ensures IdMul(s) == IdMul(t) == 1
  {
  }

  /** `x + id_add() == x` holds of every integer, not only those in a type's range. */
  lemma IdAddNeutral(t: IntType, x: int)
    ensures x + IdAdd(t) == x
  {
  }

  /** `x * id_mul() == x` holds of every integer. */
  lemma IdMulNeutral(t: IntType, x: int)
    ensures x * IdMul(t) == x
  {
  }
}

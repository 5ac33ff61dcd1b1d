/**
 * The `items` row: an immutable record whose `id` is the primary key, generated
 * by the store when it is left at its default of 0.
 */
module ItemEntity {
  import opened KotlinText

  /**
   * A Kotlin `Double`, kept as its IEEE 754 bit pattern.  The model never computes
   * with prices; it only copies them.
   */
  datatype Double = Double(bits: bv64)

  /** `0.0`: the all-zero bit pattern. */
  const Zero: Double := Double(0)

  /** NaN: all eleven exponent bits set and a nonzero fraction. */
  predicate IsNaN(d: Double) {
    (d.bits >> 52) & 0x7FF == 0x7FF && d.bits & 0xF_FFFF_FFFF_FFFF != 0
  }

  /** `Double.NaN` (the JVM's canonical pattern) is a NaN; `0.0` is not. */
  lemma NaNPatterns()
    ensures IsNaN(Double(0x7FF8_0000_0000_0000))
    ensures !IsNaN(Zero)
  {
  }

  /** The id value that means "not assigned yet; generate one on insert". */
  const UnsetId: int := 0

  /** `data class Item(id: Int = 0, name, price, quantity)`. */
  datatype Item = Item(id: int := UnsetId, name: string, price: Double, quantity: Int32)

  /** An item built without an explicit id carries the "unset" id 0. */
  lemma DefaultIdIsUnset(name: string, price: Double, quantity: Int32)
    ensures Item(name := name, price := price, quantity := quantity).id == 0
  {
  }

  /** Data-class equality: two items are equal exactly when all four fields are. */
  lemma ItemEquality(a: Item, b: Item)
    ensures a == b <==> a.id == b.id && a.name == b.name && a.price == b.price && a.quantity == b.quantity
  {
  }
}

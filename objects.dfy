/** Value entities shared by the storefront's customer interfaces. */
module Objects {

  /** Stands in for a Java reference that may be null. */
  datatype Option<+T> = None | Some(value: T)

  /** A catalogue product, as read from one row of the product table. */
  datatype Product = Product(id: int, name: string)

  /** What the warehouse_stock rows of one product add up to: the quantity that may be
      ordered and the unit price quoted for it, in cents. */
  datatype Stock = Stock(qty: int, unitPrice: int)

  /** One cart line: the product, the requested quantity, the largest quantity the user may
      ask for, and the quoted unit price in cents. */
  datatype CartItem = CartItem(productId: int, productName: string, qty: int, maxQty: int, unitPrice: int)

  /** Smallest and largest Java `int`. */
  const IntMin: int := -0x8000_0000
  const IntMax: int := 0x7FFF_FFFF

  /** Java's narrowing of an exact integer to a 32-bit `int` (two's-complement wrap-around). */
  function ToInt(x: int): (r: int)
    ensures IntMin <= r <= IntMax
    ensures IntMin <= x <= IntMax ==> r == x
  {
    (x + 0x8000_0000) % 0x1_0000_0000 - 0x8000_0000
  }

  /** The narrowed value differs from the exact one by a whole number of 2^32 steps. */
  lemma ToIntCongruent(x: int)
    ensures (ToInt(x) - x) % 0x1_0000_0000 == 0
  {
    var q := (x + 0x8000_0000) / 0x1_0000_0000;
    assert ToInt(x) - x == -q * 0x1_0000_0000;
  }
}

/**
 * The cart line the backend returns for `/carts/:userId`, and the two sums the
 * storefront derives from a list of lines: the item count shown on the badge
 * and the amount to pay. Prices are whole VND.
 */
module CartLines {

  /** One cart row: its own id, the product it holds, the unit price and the quantity. */
  datatype CartLine = CartLine(id: int, productId: int, price: int, quantity: int)

  /** Every line has a quantity of at least one. */
  predicate AllPositive(lines: seq<CartLine>) {
    forall i :: 0 <= i < |lines| ==> lines[i].quantity >= 1
  }

  /** Every line has a non-negative price. */
  predicate AllPriced(lines: seq<CartLine>) {
    forall i :: 0 <= i < |lines| ==> lines[i].price >= 0 && lines[i].quantity >= 0
  }

  /** `lines.reduce((sum, item) => sum + item.quantity, 0)`. */
  function Quantities(lines: seq<CartLine>): (n: int)
    ensures AllPositive(lines) ==> n >= |lines|
    ensures |lines| == 1 ==> n == lines[0].quantity
  {
    if lines == [] then 0 else lines[0].quantity + Quantities(lines[1..])
  }

  /** `lines.reduce((sum, item) => sum + item.price * item.quantity, 0)`. */
  function Total(lines: seq<CartLine>): (t: int)
    ensures AllPriced(lines) ==> t >= 0
    ensures |lines| == 1 ==> t == lines[0].price * lines[0].quantity
  {
    if lines == [] then 0 else lines[0].price * lines[0].quantity + Total(lines[1..])
  }

  /** The badge count of two lists laid end to end is the sum of their counts. */
  lemma {:induction false} QuantitiesAppend(a: seq<CartLine>, b: seq<CartLine>)
    ensures Quantities(a + b) == Quantities(a) + Quantities(b)
  {
    if a != [] {
      assert (a + b)[1..] == a[1..] + b;
      QuantitiesAppend(a[1..], b);
    } else {
      assert a + b == b;
    }
  }

  /** The amount of two lists laid end to end is the sum of their amounts. */
  lemma {:induction false} TotalAppend(a: seq<CartLine>, b: seq<CartLine>)
    ensures Total(a + b) == Total(a) + Total(b)
  {
    if a != [] {
      assert (a + b)[1..] == a[1..] + b;
      TotalAppend(a[1..], b);
    } else {
      assert a + b == b;
    }
  }
}

/**
 The cart state kept by the `useCart` hook of a storefront: an ordered sequence
 of line items, the five transformations the hook exposes, and the two values it
 derives from the sequence. Every operation is a pure function from the current
 cart to the next one; storage and rendering are outside this module.
 */
module Cart {

  /** Lowest quantity a line may hold. */
  const MIN_ITEMS: int := 1
  /** Highest quantity a line may hold. */
  const MAX_ITEMS: int := 5

  type Id = int

  /** A catalog record. Prices are whole cents so that totals are exact. */
  datatype Product = Product(id: Id, name: string, price: nat)

  /** A catalog record together with the quantity selected. The quantity is a
      plain `int`: a cart restored from storage is not checked, so the
      operations are defined on any sequence and `Valid` states what they keep. */
  datatype LineItem = LineItem(product: Product, quantity: int)

  type Cart = seq<LineItem>

  predicate InBounds(line: LineItem) {
    MIN_ITEMS <= line.quantity <= MAX_ITEMS
  }

  predicate AllInBounds(c: Cart) {
    forall i :: 0 <= i < |c| ==> InBounds(c[i])
  }

  /** At most one line per product id. */
  predicate UniqueIds(c: Cart) {
    forall i, j :: 0 <= i < j < |c| ==> c[i].product.id != c[j].product.id
  }

  /** The cart invariant: bounded quantities and one line per id. */
  predicate Valid(c: Cart) {
    AllInBounds(c) && UniqueIds(c)
  }

  predicate Contains(c: Cart, id: Id) {
    exists i :: 0 <= i < |c| && c[i].product.id == id
  }

  /** Every line for `id` is already at the ceiling. */
  predicate AtCeiling(c: Cart, id: Id) {
    forall i :: 0 <= i < |c| && c[i].product.id == id ==> c[i].quantity >= MAX_ITEMS
  }

  /** Every line for `id` is already at the floor. */
  predicate AtFloor(c: Cart, id: Id) {
    forall i :: 0 <= i < |c| && c[i].product.id == id ==> c[i].quantity <= MIN_ITEMS
  }

  /** Position of the first line for `id`, or -1 when there is none. */
  function FindIndex(c: Cart, id: Id): (k: int)
    ensures -1 <= k < |c|
    ensures k == -1 <==> !Contains(c, id)
    ensures k >= 0 ==> c[k].product.id == id
    ensures k >= 0 ==> forall j :: 0 <= j < k ==> c[j].product.id != id
  {
    if |c| == 0 then -1
    else if c[0].product.id == id then 0
    else
      var k := FindIndex(c[1..], id);
      if k < 0 then -1 else k + 1
  }

  /** Quantity of the first line for `id`, or 0 when the cart has none. */
  function QuantityOf(c: Cart, id: Id): (q: int)
    ensures !Contains(c, id) ==> q == 0
    ensures AllInBounds(c) && Contains(c, id) ==> MIN_ITEMS <= q <= MAX_ITEMS
  {
    var k := FindIndex(c, id);
    if k < 0 then 0 else c[k].quantity
  }

  /** Adds one unit of `p`: the first line for its id gains one unless it is at
      the ceiling; with no such line, a new line of quantity one is appended. */
  function AddToCart(c: Cart, p: Product): (r: Cart)
    ensures !Contains(c, p.id) ==> r == c + [LineItem(p, 1)]
    ensures Contains(c, p.id) ==> |r| == |c|
    ensures Contains(c, p.id) ==>
      forall i :: 0 <= i < |c| && i != FindIndex(c, p.id) ==> r[i] == c[i]
    ensures Contains(c, p.id) ==>
      var k := FindIndex(c, p.id);
      && r[k].product == c[k].product
      && (c[k].quantity >= MAX_ITEMS ==> r == c)
      && (c[k].quantity < MAX_ITEMS ==> r[k].quantity == c[k].quantity + 1)
  {
    var k := FindIndex(c, p.id);
    if k >= 0 then
      if c[k].quantity >= MAX_ITEMS then c
      else c[k := c[k].(quantity := c[k].quantity + 1)]
    else
      c + [LineItem(p, 1)]
  }

  /** Drops every line for `id`, keeping the others in order. */
  function RemoveFromCart(c: Cart, id: Id): (r: Cart)
    ensures !Contains(r, id)
    ensures |r| <= |c|
    ensures Contains(c, id) ==> |r| < |c|
    ensures !Contains(c, id) ==> r == c
    decreases |c|
  {
    if |c| == 0 then []
    else if c[0].product.id == id then RemoveFromCart(c[1..], id)
    else [c[0]] + RemoveFromCart(c[1..], id)
  }

  /** One more unit on a line, unless it is at the ceiling already. */
  function Raised(line: LineItem): LineItem {
    if line.quantity < MAX_ITEMS then line.(quantity := line.quantity + 1) else line
  }

  /** One unit less on a line, unless it is at the floor already. */
  function Lowered(line: LineItem): LineItem {
    if line.quantity > MIN_ITEMS then line.(quantity := line.quantity - 1) else line
  }

  /** Raises by one every line for `id` that is below the ceiling. */
  function IncreaseQuantity(c: Cart, id: Id): (r: Cart)
    ensures |r| == |c|
    ensures forall i :: 0 <= i < |c| ==> r[i].product == c[i].product
    ensures forall i :: 0 <= i < |c| && c[i].product.id != id ==> r[i] == c[i]
    ensures forall i :: 0 <= i < |c| && c[i].product.id == id && c[i].quantity < MAX_ITEMS ==>
      r[i].quantity == c[i].quantity + 1
    ensures forall i :: 0 <= i < |c| && c[i].quantity >= MAX_ITEMS ==> r[i] == c[i]
    ensures AtCeiling(c, id) ==> r == c
    ensures !Contains(c, id) ==> r == c
  {
    seq(|c|, i requires 0 <= i < |c| =>
      if c[i].product.id == id then Raised(c[i]) else c[i])
  }

  /** Lowers by one every line for `id` that is above the floor. */
  function DecreaseQuantity(c: Cart, id: Id): (r: Cart)
    ensures |r| == |c|
    ensures forall i :: 0 <= i < |c| ==> r[i].product == c[i].product
    ensures forall i :: 0 <= i < |c| && c[i].product.id != id ==> r[i] == c[i]
    ensures forall i :: 0 <= i < |c| && c[i].product.id == id && c[i].quantity > MIN_ITEMS ==>
      r[i].quantity == c[i].quantity - 1
    ensures forall i :: 0 <= i < |c| && c[i].quantity <= MIN_ITEMS ==> r[i] == c[i]
    ensures AtFloor(c, id) ==> r == c
    ensures !Contains(c, id) ==> r == c
  {
    seq(|c|, i requires 0 <= i < |c| =>
      if c[i].product.id == id then Lowered(c[i]) else c[i])
  }

  /** Adding keeps quantities in bounds and ids unique. */
  lemma AddToCartValid(c: Cart, p: Product)
    requires Valid(c)
    ensures Valid(AddToCart(c, p))
  {
    var r := AddToCart(c, p);
    if !Contains(c, p.id) {
      forall i, j | 0 <= i < j < |r|
        ensures r[i].product.id != r[j].product.id
      {
        if j == |c| {
          assert r[i] == c[i];
        }
      }
    }
  }

  /** A line survives removal exactly when it was in the cart under another id. */
  lemma {:induction false} RemoveMembership(c: Cart, id: Id, line: LineItem)
    ensures line in RemoveFromCart(c, id) <==> line in c && line.product.id != id
    decreases |c|
  {
    if |c| > 0 {
      RemoveMembership(c[1..], id, line);
      assert c == [c[0]] + c[1..];
    }
  }

  /** Removing keeps quantities in bounds and ids unique. */
  lemma {:induction false} RemoveFromCartValid(c: Cart, id: Id)
    requires Valid(c)
    ensures Valid(RemoveFromCart(c, id))
    decreases |c|
  {
    if |c| > 0 {
      var rest := RemoveFromCart(c[1..], id);
      assert Valid(c[1..]);
      RemoveFromCartValid(c[1..], id);
      if c[0].product.id != id {
        var r := [c[0]] + rest;
        forall i, j | 0 <= i < j < |r|
          ensures r[i].product.id != r[j].product.id
        {
          if i == 0 {
            RemoveMembership(c[1..], id, r[j]);
            var m :| 0 <= m < |c[1..]| && c[1..][m] == r[j];
            assert c[m + 1] == r[j];
          } else {
            assert r[i] == rest[i - 1] && r[j] == rest[j - 1];
          }
        }
        forall i | 0 <= i < |r|
          ensures InBounds(r[i])
        {
          if i > 0 {
            assert r[i] == rest[i - 1];
          }
        }
      }
    }
  }

  /** Increasing keeps quantities in bounds and ids unique. */
  lemma IncreaseQuantityValid(c: Cart, id: Id)
    requires Valid(c)
    ensures Valid(IncreaseQuantity(c, id))
  {
    var r := IncreaseQuantity(c, id);
    assert forall i :: 0 <= i < |r| ==> r[i].product.id == c[i].product.id;
  }

  /** Decreasing keeps quantities in bounds and ids unique. */
  lemma DecreaseQuantityValid(c: Cart, id: Id)
    requires Valid(c)
    ensures Valid(DecreaseQuantity(c, id))
  {
    var r := DecreaseQuantity(c, id);
    assert forall i :: 0 <= i < |r| ==> r[i].product.id == c[i].product.id;
  }

  /** Empties the cart, whatever it held. */
  function ClearCart(c: Cart): (r: Cart)
    ensures |r| == 0
    ensures Valid(r)
    ensures forall id :: !Contains(r, id)
  {
    []
  }

  /** What one line contributes to the total. */
  function LineTotal(line: LineItem): int {
    line.product.price * line.quantity
  }

  /** Reference definition of the total: the sum of price times quantity. */
  function Sum(c: Cart): int
  {
    if |c| == 0 then 0 else LineTotal(c[0]) + Sum(c[1..])
  }

  lemma {:induction false} SumConcat(a: Cart, b: Cart)
    ensures Sum(a + b) == Sum(a) + Sum(b)
    decreases |a|
  {
    if |a| == 0 {
      assert a + b == b;
    } else {
      assert (a + b)[1..] == a[1..] + b;
      SumConcat(a[1..], b);
    }
  }

  /** With every quantity in bounds the total cannot be negative. */
  lemma {:induction false} SumNonNegative(c: Cart)
    requires AllInBounds(c)
    ensures Sum(c) >= 0
    decreases |c|
  {
    if |c| > 0 {
      assert InBounds(c[0]);
      assert AllInBounds(c[1..]);
      SumNonNegative(c[1..]);
    }
  }

  /** The derived `isEmpty` value. */
  function IsEmpty(c: Cart): (b: bool)
    ensures b <==> c == []
    ensures b ==> Sum(c) == 0 && forall id :: !Contains(c, id)
  {
    |c| == 0
  }

  /** The derived `cartTotal` value, accumulated left to right from 0 as the
      hook's reduce does. */
  method CartTotal(c: Cart) returns (total: int)
    ensures total == Sum(c)
    ensures AllInBounds(c) ==> total >= 0
    ensures |c| == 0 ==> total == 0
  {
    total := 0;
    var i := 0;
    while i < |c|
      invariant 0 <= i <= |c|
      invariant total == Sum(c[..i])
    {
      assert c[..i + 1] == c[..i] + [c[i]];
      SumConcat(c[..i], [c[i]]);
      total := total + LineTotal(c[i]);
      i := i + 1;
    }
    assert c[..|c|] == c;
    if AllInBounds(c) {
      SumNonNegative(c);
    }
  }
}

/**
 Properties that relate several cart operations to one another, to the total,
 and to the per-id quantity view of a cart.
 */
module CartProperties {
  import opened Cart

  function Min(a: int, b: int): int { if a <= b then a else b }
  function Max(a: int, b: int): int { if a >= b then a else b }

  /** The line at `k` is the only one carrying `id`. */
  predicate SoleLine(c: Cart, id: Id, k: int) {
    && 0 <= k < |c|
    && c[k].product.id == id
    && forall i :: 0 <= i < |c| && i != k ==> c[i].product.id != id
  }

  /** With unique ids, the line `FindIndex` reports is the only one for its id. */
  lemma UniqueSoleLine(c: Cart, id: Id)
    requires UniqueIds(c)
    requires Contains(c, id)
    ensures SoleLine(c, id, FindIndex(c, id))
  {
    var k := FindIndex(c, id);
    forall i | 0 <= i < |c| && i != k
      ensures c[i].product.id != id
    {
      if i < k {
        assert c[i].product.id != c[k].product.id;
      } else {
        assert c[k].product.id != c[i].product.id;
      }
    }
  }

  /** Removal distributes over concatenation, so it keeps the relative order
      of the lines it does not drop. */
  lemma {:induction false} RemoveConcat(a: Cart, b: Cart, id: Id)
    ensures RemoveFromCart(a + b, id) == RemoveFromCart(a, id) + RemoveFromCart(b, id)
    decreases |a|
  {
    if |a| == 0 {
      assert a + b == b;
    } else {
      assert (a + b)[0] == a[0];
      assert (a + b)[1..] == a[1..] + b;
      RemoveConcat(a[1..], b, id);
    }
  }

  /** Removing the id of a sole line cuts out exactly that line. */
  lemma RemoveSoleLine(c: Cart, id: Id, k: int)
    requires SoleLine(c, id, k)
    ensures RemoveFromCart(c, id) == c[..k] + c[k + 1..]
  {
    var before, after := c[..k], c[k + 1..];
    assert c == before + ([c[k]] + after);
    RemoveConcat(before, [c[k]] + after, id);
    RemoveConcat([c[k]], after, id);
    assert !Contains(before, id) by {
      forall j | 0 <= j < |before|
        ensures before[j].product.id != id
      {
        assert before[j] == c[j];
      }
    }
    assert !Contains(after, id) by {
      forall j | 0 <= j < |after|
        ensures after[j].product.id != id
      {
        assert after[j] == c[k + 1 + j];
      }
    }
    assert RemoveFromCart([c[k]], id) == [];
  }

  /** In a cart with one line per id, removing a present id cuts out exactly
      the line at its position. */
  lemma RemovePresent(c: Cart, id: Id)
    requires UniqueIds(c)
    requires Contains(c, id)
    ensures var k := FindIndex(c, id);
      RemoveFromCart(c, id) == c[..k] + c[k + 1..]
  {
    UniqueSoleLine(c, id);
    RemoveSoleLine(c, id, FindIndex(c, id));
  }

  /** Increasing the id of a sole line rewrites only that line. */
  lemma IncreaseSoleLine(c: Cart, id: Id, k: int)
    requires SoleLine(c, id, k)
    ensures IncreaseQuantity(c, id) == c[k := Raised(c[k])]
  {
    var r := IncreaseQuantity(c, id);
    forall i | 0 <= i < |c|
      ensures r[i] == c[k := Raised(c[k])][i]
    {
    }
  }

  /** Decreasing the id of a sole line rewrites only that line. */
  lemma DecreaseSoleLine(c: Cart, id: Id, k: int)
    requires SoleLine(c, id, k)
    ensures DecreaseQuantity(c, id) == c[k := Lowered(c[k])]
  {
    var r := DecreaseQuantity(c, id);
    forall i | 0 <= i < |c|
      ensures r[i] == c[k := Lowered(c[k])][i]
    {
    }
  }

  /** On a cart with one line per id, increasing a present id rewrites only
      the line found by `FindIndex`, raising it unless it is at the ceiling. */
  lemma IncreaseIsUpdate(c: Cart, id: Id)
    requires UniqueIds(c)
    requires Contains(c, id)
    ensures var k := FindIndex(c, id);
      IncreaseQuantity(c, id) == c[k := Raised(c[k])]
  {
    UniqueSoleLine(c, id);
    IncreaseSoleLine(c, id, FindIndex(c, id));
  }

  /** On a cart with one line per id, decreasing a present id rewrites only
      the line found by `FindIndex`, lowering it unless it is at the floor. */
  lemma DecreaseIsUpdate(c: Cart, id: Id)
    requires UniqueIds(c)
    requires Contains(c, id)
    ensures var k := FindIndex(c, id);
      DecreaseQuantity(c, id) == c[k := Lowered(c[k])]
  {
    UniqueSoleLine(c, id);
    DecreaseSoleLine(c, id, FindIndex(c, id));
  }

  /** Adding a product that already has a line does what `IncreaseQuantity`
      does for its id, once every id has one line. */
  lemma AddPresentIsIncrease(c: Cart, p: Product)
    requires UniqueIds(c)
    requires Contains(c, p.id)
    ensures AddToCart(c, p) == IncreaseQuantity(c, p.id)
  {
    IncreaseIsUpdate(c, p.id);
    var k := FindIndex(c, p.id);
    if c[k].quantity >= MAX_ITEMS {
      assert c[k := Raised(c[k])] == c;
    }
  }

  /** Replacing one line changes the total by the difference of the two lines. */
  lemma {:induction false} SumUpdate(c: Cart, k: int, line: LineItem)
    requires 0 <= k < |c|
    ensures Sum(c[k := line]) == Sum(c) - LineTotal(c[k]) + LineTotal(line)
    decreases |c|
  {
    if k > 0 {
      assert c[k := line][1..] == c[1..][k - 1 := line];
      SumUpdate(c[1..], k - 1, line);
    } else {
      assert c[k := line][1..] == c[1..];
    }
  }

  /** The total splits around any line. */
  lemma SumSplit(c: Cart, k: int)
    requires 0 <= k < |c|
    ensures Sum(c) == Sum(c[..k]) + LineTotal(c[k]) + Sum(c[k + 1..])
  {
    var before, after := c[..k], c[k + 1..];
    assert c == (before + [c[k]]) + after;
    SumConcat(before + [c[k]], after);
    SumConcat(before, [c[k]]);
    assert [c[k]][1..] == [];
  }

  /** Raising a line below the ceiling adds one unit price to its amount. */
  lemma RaisedTotal(line: LineItem)
    ensures LineTotal(Raised(line)) ==
      LineTotal(line) + (if line.quantity < MAX_ITEMS then line.product.price else 0)
  {
    var p := line.product.price;
    assert p * (line.quantity + 1) == p * line.quantity + p;
  }

  /** Lowering a line above the floor takes one unit price off its amount. */
  lemma LoweredTotal(line: LineItem)
    ensures LineTotal(Lowered(line)) ==
      LineTotal(line) - (if line.quantity > MIN_ITEMS then line.product.price else 0)
  {
    var p := line.product.price;
    assert p * (line.quantity - 1) == p * line.quantity - p;
  }

  /** Adding a product with no line yet raises the total by its price. */
  lemma AddNewLineTotal(c: Cart, p: Product)
    requires !Contains(c, p.id)
    ensures Sum(AddToCart(c, p)) == Sum(c) + p.price
  {
    SumConcat(c, [LineItem(p, 1)]);
    assert [LineItem(p, 1)][1..] == [];
  }

  /** Adding a product that has a line raises the total by that line's unit
      price below the ceiling, and not at all at the ceiling. */
  lemma AddExistingLineTotal(c: Cart, p: Product)
    requires Contains(c, p.id)
    ensures var k := FindIndex(c, p.id);
      Sum(AddToCart(c, p)) ==
        Sum(c) + (if c[k].quantity < MAX_ITEMS then c[k].product.price else 0)
  {
    var k := FindIndex(c, p.id);
    assert AddToCart(c, p) == c[k := Raised(c[k])];
    SumUpdate(c, k, Raised(c[k]));
    RaisedTotal(c[k]);
  }

  /** Removing a present id lowers the total by exactly that line's amount. */
  lemma RemoveTotal(c: Cart, id: Id)
    requires UniqueIds(c)
    ensures !Contains(c, id) ==> Sum(RemoveFromCart(c, id)) == Sum(c)
    ensures Contains(c, id) ==>
      Sum(RemoveFromCart(c, id)) == Sum(c) - LineTotal(c[FindIndex(c, id)])
  {
    if Contains(c, id) {
      var k := FindIndex(c, id);
      RemovePresent(c, id);
      SumSplit(c, k);
      SumConcat(c[..k], c[k + 1..]);
    }
  }

  /** Increasing a present id below the ceiling adds one unit price to the total. */
  lemma IncreaseTotal(c: Cart, id: Id)
    requires UniqueIds(c)
    ensures !Contains(c, id) ==> Sum(IncreaseQuantity(c, id)) == Sum(c)
    ensures Contains(c, id) ==>
      var k := FindIndex(c, id);
      Sum(IncreaseQuantity(c, id)) ==
        Sum(c) + (if c[k].quantity < MAX_ITEMS then c[k].product.price else 0)
  {
    if Contains(c, id) {
      var k := FindIndex(c, id);
      IncreaseIsUpdate(c, id);
      SumUpdate(c, k, Raised(c[k]));
      RaisedTotal(c[k]);
    }
  }

  /** Decreasing a present id above the floor takes one unit price off the total. */
  lemma DecreaseTotal(c: Cart, id: Id)
    requires UniqueIds(c)
    ensures !Contains(c, id) ==> Sum(DecreaseQuantity(c, id)) == Sum(c)
    ensures Contains(c, id) ==>
      var k := FindIndex(c, id);
      Sum(DecreaseQuantity(c, id)) ==
        Sum(c) - (if c[k].quantity > MIN_ITEMS then c[k].product.price else 0)
  {
    if Contains(c, id) {
      var k := FindIndex(c, id);
      DecreaseIsUpdate(c, id);
      SumUpdate(c, k, Lowered(c[k]));
      LoweredTotal(c[k]);
    }
  }

  /** Decreasing undoes an increase that was not absorbed by the ceiling. */
  lemma DecreaseUndoesIncrease(c: Cart, id: Id)
    requires forall i :: 0 <= i < |c| && c[i].product.id == id ==>
      MIN_ITEMS <= c[i].quantity < MAX_ITEMS
    ensures DecreaseQuantity(IncreaseQuantity(c, id), id) == c
  {
    var r := DecreaseQuantity(IncreaseQuantity(c, id), id);
    forall i | 0 <= i < |c|
      ensures r[i] == c[i]
    {
    }
  }

  /** Increasing undoes a decrease that was not absorbed by the floor. */
  lemma IncreaseUndoesDecrease(c: Cart, id: Id)
    requires forall i :: 0 <= i < |c| && c[i].product.id == id ==>
      MIN_ITEMS < c[i].quantity <= MAX_ITEMS
    ensures IncreaseQuantity(DecreaseQuantity(c, id), id) == c
  {
    var r := IncreaseQuantity(DecreaseQuantity(c, id), id);
    forall i | 0 <= i < |c|
      ensures r[i] == c[i]
    {
    }
  }

  /** In a valid cart, adding raises the product's quantity by one up to the
      ceiling, and leaves the quantity of every other id alone. */
  lemma AddToCartQuantity(c: Cart, p: Product, id: Id)
    requires Valid(c)
    ensures QuantityOf(AddToCart(c, p), p.id) == Min(QuantityOf(c, p.id) + 1, MAX_ITEMS)
    ensures id != p.id ==> QuantityOf(AddToCart(c, p), id) == QuantityOf(c, id)
  {
    var r := AddToCart(c, p);
    if Contains(c, p.id) {
      var k := FindIndex(c, p.id);
      assert FindIndex(r, p.id) == k;
      if id != p.id {
        SameIdsSameIndex(c, r, id);
        if Contains(c, id) {
          assert FindIndex(c, id) != k;
        }
      }
    } else {
      assert r[|c|].product.id == p.id;
      assert FindIndex(r, p.id) == |c|;
      if id != p.id {
        if Contains(c, id) {
          var j := FindIndex(c, id);
          assert r[j] == c[j];
          assert FindIndex(r, id) == j;
        } else {
          assert !Contains(r, id) by {
            forall i | 0 <= i < |r|
              ensures r[i].product.id != id
            {
              if i < |c| {
                assert r[i] == c[i];
              }
            }
          }
        }
      }
    }
  }

  /** In a cart with bounded quantities, increasing raises the quantity of
      `id` by one up to the ceiling and leaves every other id alone. */
  lemma IncreaseQuantityOf(c: Cart, id: Id, other: Id)
    requires AllInBounds(c)
    ensures QuantityOf(IncreaseQuantity(c, id), id) ==
      if Contains(c, id) then Min(QuantityOf(c, id) + 1, MAX_ITEMS) else 0
    ensures other != id ==> QuantityOf(IncreaseQuantity(c, id), other) == QuantityOf(c, other)
  {
    var r := IncreaseQuantity(c, id);
    SameIdsSameIndex(c, r, id);
    SameIdsSameIndex(c, r, other);
  }

  /** In a cart with bounded quantities, decreasing lowers the quantity of
      `id` by one down to the floor and leaves every other id alone. */
  lemma DecreaseQuantityOf(c: Cart, id: Id, other: Id)
    requires AllInBounds(c)
    ensures QuantityOf(DecreaseQuantity(c, id), id) ==
      if Contains(c, id) then Max(QuantityOf(c, id) - 1, MIN_ITEMS) else 0
    ensures other != id ==> QuantityOf(DecreaseQuantity(c, id), other) == QuantityOf(c, other)
  {
    var r := DecreaseQuantity(c, id);
    SameIdsSameIndex(c, r, id);
    SameIdsSameIndex(c, r, other);
  }

  /** Two carts with the same id at every position find every id at the same
      position. */
  lemma {:induction false} SameIdsSameIndex(a: Cart, b: Cart, id: Id)
    requires |a| == |b|
    requires forall i :: 0 <= i < |a| ==> a[i].product.id == b[i].product.id
    ensures FindIndex(a, id) == FindIndex(b, id)
    decreases |a|
  {
    if |a| > 0 && a[0].product.id != id {
      SameIdsSameIndex(a[1..], b[1..], id);
    }
  }

  /** `n` successive additions of the same product. */
  function AddTimes(c: Cart, p: Product, n: nat): Cart
  {
    if n == 0 then c else AddToCart(AddTimes(c, p, n - 1), p)
  }

  /** Any number of successive additions keeps a valid cart valid. */
  lemma {:induction false} AddTimesValid(c: Cart, p: Product, n: nat)
    requires Valid(c)
    ensures Valid(AddTimes(c, p, n))
  {
    if n > 0 {
      AddTimesValid(c, p, n - 1);
      AddToCartValid(AddTimes(c, p, n - 1), p);
    }
  }

  /** However often a product is added, its quantity stops at the ceiling. */
  lemma {:induction false} AddTimesQuantity(c: Cart, p: Product, n: nat)
    requires Valid(c)
    ensures QuantityOf(AddTimes(c, p, n), p.id) == Min(QuantityOf(c, p.id) + n, MAX_ITEMS)
  {
    if n > 0 {
      AddTimesQuantity(c, p, n - 1);
      AddTimesValid(c, p, n - 1);
      AddToCartQuantity(AddTimes(c, p, n - 1), p, p.id);
    } else {
      assert QuantityOf(c, p.id) <= MAX_ITEMS;
    }
  }

  /** Starting from an empty cart, `n` additions of one product leave a single
      line whose quantity is `n` capped at the ceiling. */
  lemma {:induction false} AddTimesFromEmpty(p: Product, n: nat)
    requires n >= 1
    ensures AddTimes([], p, n) == [LineItem(p, Min(n, MAX_ITEMS))]
  {
    if n == 1 {
      assert AddTimes([], p, 0) == [];
    } else {
      AddTimesFromEmpty(p, n - 1);
      var c := AddTimes([], p, n - 1);
      assert FindIndex(c, p.id) == 0;
    }
  }

  /** Adding the same product six times to an empty cart leaves one line of
      quantity five. */
  lemma SixAddsCapAtFive(p: Product)
    ensures AddTimes([], p, 6) == [LineItem(p, MAX_ITEMS)]
  {
    AddTimesFromEmpty(p, 6);
  }

  /** With every price positive, a valid cart totals zero exactly when it is empty. */
  lemma {:induction false} EmptyIffZeroTotal(c: Cart)
    requires AllInBounds(c)
    requires forall i :: 0 <= i < |c| ==> c[i].product.price > 0
    ensures IsEmpty(c) <==> Sum(c) == 0
    decreases |c|
  {
    if |c| > 0 {
      assert InBounds(c[0]);
      var p, q := c[0].product.price, c[0].quantity;
      assert p * q >= p * 1 > 0;
      assert AllInBounds(c[1..]);
      SumNonNegative(c[1..]);
    }
  }

  /** A four-step example: add a product, add it again, decrease it once,
      then remove it. */
  lemma Scenario()
    ensures var p := Product(1, "guitar", 10);
      var c1 := AddToCart([], p);
      var c2 := AddToCart(c1, p);
      var c3 := DecreaseQuantity(c2, 1);
      var c4 := RemoveFromCart(c3, 1);
      && c1 == [LineItem(p, 1)] && Sum(c1) == 10
      && c2 == [LineItem(p, 2)] && Sum(c2) == 20
      && c3 == [LineItem(p, 1)]
      && c4 == [] && IsEmpty(c4)
  {
    var p := Product(1, "guitar", 10);
    var c1 := AddToCart([], p);
    assert c1 == [LineItem(p, 1)];
    var c2 := AddToCart(c1, p);
    assert FindIndex(c1, 1) == 0;
    assert c2 == [LineItem(p, 2)];
    var c3 := DecreaseQuantity(c2, 1);
    assert c3[0] == LineItem(p, 1);
    assert c3 == [LineItem(p, 1)];
  }
}

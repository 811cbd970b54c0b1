# Shopping-cart state of the `useCart` hook

The storefront's `useCart` hook keeps the shopping cart as an ordered array of
line items. Each line is a catalog product (id, display fields, unit price) plus
a selected quantity. The hook exposes five transformations: `addToCart`,
`removeFromCart`, `increaseQuantity`, `decreaseQuantity` and `clearCart`. It
also derives two values, `isEmpty` and `cartTotal`. Quantities are kept between
`MIN_ITEMS = 1` and `MAX_ITEMS = 5`. A cart holds at most one line per product id.

This project models the cart as a Dafny `seq<LineItem>`. Each operation is a pure
function from the current cart to the next one. Two modules hold the model:

- `Cart` (`cart.dfy`): the data model, the `Valid` invariant (bounded quantities
  and unique ids), the five operations, `IsEmpty`, the reference total `Sum` and
  the left-to-right `CartTotal` fold. The contracts of `AddToCart`,
  `IncreaseQuantity` and `DecreaseQuantity` state which lines change and how,
  and that all other lines stay as they were. `RemoveFromCart`'s contract
  states that no line for the id remains and when the length changes;
  `RemoveMembership` and `CartProperties.RemoveConcat` state that the other
  lines are kept, in order. A companion lemma for each operation other than
  `ClearCart` (`AddToCartValid`, `RemoveFromCartValid`, ...) states that it
  preserves `Valid`; `ClearCart`'s own contract states that its result is
  valid.
- `CartProperties` (`cart_properties.dfy`): lemmas that relate the operations to
  each other and to the total. Removal keeps order. With one line per id,
  adding a present product is the same as increasing its id. Increase and
  decrease undo each other away from the bounds. With one line per id, adding,
  increasing and decreasing move the total by at most one unit price (by nothing
  at the ceiling or floor), and removal lowers it by the removed line's amount.
  Repeated additions stop at the ceiling. A four-step example (add, add,
  decrease, remove) is also stated as a lemma.

Quantities are plain `int`s, not a bounded type. The cart restored from storage
is not checked, so every operation is defined on any sequence. The contracts that
do not mention `Valid` hold for such carts too.

Two details of the code that the model keeps:

- `addToCart` treats a line as full when its quantity is `>= 5`, not only when it
  is exactly 5.
- `addToCart` looks only at the first line with the id, as `findIndex` does.
  `increaseQuantity` and `decreaseQuantity` change every line with the id.
  `removeFromCart` drops every line with the id. All of these agree once ids are
  unique (`CartProperties.AddPresentIsIncrease`, `CartProperties.RemovePresent`).

## Model

| member | source | states |
|---|---|---|
| `Cart.FindIndex` | src/hooks/useCart.ts:17 | the result is -1 exactly when no line has the id; otherwise it is the position of a line with the id, and no earlier line has it |
| `Cart.QuantityOf` | src/hooks/useCart.ts:17-19 | the quantity of the line `findIndex` reports is 0 for an absent id and lies in [1, 5] for a present id when all quantities are in bounds |
| `Cart.AddToCart` | src/hooks/useCart.ts:16-27 | an absent id gets exactly one new line at the end, holding the product with quantity 1; for a present id the length and every other line stay the same, the first matching line keeps its product, the cart is unchanged when that line is at 5 or more, and otherwise its quantity goes up by exactly 1 |
| `Cart.AddToCartValid` | src/hooks/useCart.ts:16-27 | adding to a valid cart leaves quantities in [1, 5] and ids unique |
| `Cart.RemoveFromCart` | src/hooks/useCart.ts:30-32 | no line for the id remains; the cart never grows, shrinks when the id was present and is unchanged when it was absent |
| `Cart.RemoveMembership` | src/hooks/useCart.ts:31 | a line is in the result exactly when it was in the cart and carries another id |
| `Cart.RemoveFromCartValid` | src/hooks/useCart.ts:30-32 | removing from a valid cart leaves quantities in [1, 5] and ids unique |
| `Cart.IncreaseQuantity` | src/hooks/useCart.ts:34-41 | length and products are kept; lines with other ids are unchanged; a matching line below 5 gains exactly 1; lines at the ceiling are unchanged; the whole cart is unchanged when the id is absent or all its lines are at the ceiling |
| `Cart.IncreaseQuantityValid` | src/hooks/useCart.ts:34-41 | increasing in a valid cart leaves quantities in [1, 5] and ids unique |
| `Cart.DecreaseQuantity` | src/hooks/useCart.ts:43-50 | length and products are kept; lines with other ids are unchanged; a matching line above 1 loses exactly 1; lines at the floor are unchanged; the whole cart is unchanged when the id is absent or all its lines are at the floor |
| `Cart.DecreaseQuantityValid` | src/hooks/useCart.ts:43-50 | decreasing in a valid cart leaves quantities in [1, 5] and ids unique |
| `Cart.ClearCart` | src/hooks/useCart.ts:52-54 | whatever the input, the result has no lines, is valid and contains no id |
| `Cart.IsEmpty` | src/hooks/useCart.ts:60 | true exactly when the cart is the empty sequence, and then the total is 0 and no id is present |
| `Cart.SumConcat` | src/hooks/useCart.ts:63 | the total of two carts joined is the sum of their totals |
| `Cart.SumNonNegative` | src/hooks/useCart.ts:61-65 | with every quantity in bounds, the sum of price times quantity is not negative |
| `Cart.CartTotal` | src/hooks/useCart.ts:61-65 | the left-to-right accumulation starting at 0 equals the sum of price times quantity; it is non-negative for in-bounds quantities and 0 for the empty cart |
| `CartProperties.UniqueSoleLine` | src/hooks/useCart.ts:17 | with unique ids, the line `findIndex` reports is the only line for its id |
| `CartProperties.RemoveConcat` | src/hooks/useCart.ts:31 | removal applied to two joined carts equals the two removals joined, so relative order is kept |
| `CartProperties.RemoveSoleLine` | src/hooks/useCart.ts:31 | when exactly one line carries the id, removal deletes that line and keeps the rest in order |
| `CartProperties.RemovePresent` | src/hooks/useCart.ts:31 | with unique ids, removing a present id deletes exactly the line at its position and keeps the rest in order |
| `CartProperties.IncreaseSoleLine` | src/hooks/useCart.ts:35-39 | when exactly one line carries the id, increasing rewrites only that line, raising it unless it is at the ceiling |
| `CartProperties.DecreaseSoleLine` | src/hooks/useCart.ts:44-48 | when exactly one line carries the id, decreasing rewrites only that line, lowering it unless it is at the floor |
| `CartProperties.IncreaseIsUpdate` | src/hooks/useCart.ts:34-40 | with unique ids, increasing a present id rewrites only the line at its position |
| `CartProperties.DecreaseIsUpdate` | src/hooks/useCart.ts:43-49 | with unique ids, decreasing a present id rewrites only the line at its position |
| `CartProperties.AddPresentIsIncrease` | src/hooks/useCart.ts:16-40 | with unique ids, adding a product that already has a line gives the same cart as increasing its id |
| `CartProperties.SumUpdate` | src/hooks/useCart.ts:63 | replacing one line changes the total by the new line's amount minus the old one's |
| `CartProperties.SumSplit` | src/hooks/useCart.ts:63 | the total is the total before a line, plus that line's amount, plus the total after it |
| `CartProperties.RaisedTotal` | src/hooks/useCart.ts:36-37 | raising a line below the ceiling adds one unit price to its amount, and at the ceiling adds nothing |
| `CartProperties.LoweredTotal` | src/hooks/useCart.ts:45-46 | lowering a line above the floor takes one unit price off its amount, and at the floor takes nothing |
| `CartProperties.AddNewLineTotal` | src/hooks/useCart.ts:23-26 | adding a product with no line yet raises the total by exactly the product's price |
| `CartProperties.AddExistingLineTotal` | src/hooks/useCart.ts:17-22 | adding a product that has a line raises the total by that line's stored unit price below the ceiling, and by nothing at the ceiling |
| `CartProperties.RemoveTotal` | src/hooks/useCart.ts:30-31 | with unique ids, removing a present id lowers the total by exactly that line's amount; an absent id leaves the total unchanged |
| `CartProperties.IncreaseTotal` | src/hooks/useCart.ts:34-40 | with unique ids, increasing adds one unit price to the total below the ceiling and nothing at the ceiling or for an absent id |
| `CartProperties.DecreaseTotal` | src/hooks/useCart.ts:43-49 | with unique ids, decreasing takes one unit price off the total above the floor and nothing at the floor or for an absent id |
| `CartProperties.DecreaseUndoesIncrease` | src/hooks/useCart.ts:34-49 | when every line for the id is in [1, 4], decreasing after increasing gives back the original cart |
| `CartProperties.IncreaseUndoesDecrease` | src/hooks/useCart.ts:34-49 | when every line for the id is in [2, 5], increasing after decreasing gives back the original cart |
| `CartProperties.AddToCartQuantity` | src/hooks/useCart.ts:17-26 | in a valid cart, adding sets the product's quantity to its old quantity plus one, capped at 5 (an absent product goes to 1); every other id keeps its quantity |
| `CartProperties.IncreaseQuantityOf` | src/hooks/useCart.ts:34-40 | with in-bounds quantities, increasing sets the id's quantity to one more, capped at 5; an absent id stays absent; other ids keep their quantities |
| `CartProperties.DecreaseQuantityOf` | src/hooks/useCart.ts:43-49 | with in-bounds quantities, decreasing sets the id's quantity to one less, but not below 1; an absent id stays absent; other ids keep their quantities |
| `CartProperties.SameIdsSameIndex` | src/hooks/useCart.ts:17 | two carts with the same id at every position give the same `findIndex` result for every id |
| `CartProperties.AddTimesValid` | src/hooks/useCart.ts:16-27 | any number of successive additions keeps a valid cart valid |
| `CartProperties.AddTimesQuantity` | src/hooks/useCart.ts:17-21 | in a valid cart, after n additions the product's quantity is its old quantity plus n, capped at 5 |
| `CartProperties.AddTimesFromEmpty` | src/hooks/useCart.ts:16-27 | from an empty cart, n ≥ 1 additions of one product leave a single line holding that product with quantity min(n, 5) |
| `CartProperties.SixAddsCapAtFive` | src/hooks/useCart.ts:19 | six additions to an empty cart leave one line of quantity 5 |
| `CartProperties.EmptyIffZeroTotal` | src/hooks/useCart.ts:60-65 | with in-bounds quantities and positive prices, the cart is empty exactly when its total is 0 |
| `CartProperties.Scenario` | src/hooks/useCart.ts:16-53 | add a product with price 10 (one line, total 10), add it again (quantity 2, total 20), decrease it (quantity 1), remove it (empty cart) |

## Left out

- Reading the initial cart from `localStorage` and parsing it with `JSON.parse` (src/hooks/useCart.ts:5-8) is browser I/O. The operations are instead defined on arbitrary sequences, including invalid ones.
- Writing the cart back to `localStorage` on every change (src/hooks/useCart.ts:56-58) is browser I/O and serialisation.
- The React machinery (`useState`, `useMemo`, the updater callback passed to `setCart`) is left out. Each operation is a function from the previous cart to the next one.
- The catalog `db` and the `data` value the hook returns (src/hooks/useCart.ts:2, 10) are external read-only data. The catalog data file is not part of this model. So `Product` carries only the id, a name and the price. The other display fields would be copied unchanged by every operation.
- `addToCart` increments the quantity through a shallow copy of the array (src/hooks/useCart.ts:20-21). That also mutates the line object shared with the previous state. The model uses value semantics: the previous cart is never changed.
- Prices are JavaScript numbers (floating point) in the source. Here they are natural numbers (whole cents), so `Sum` and `CartTotal` are exact.
- Ids are compared with `===` in the source. Here they are integers compared with `==`.

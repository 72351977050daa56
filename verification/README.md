# Storefront catalog and cart, modelled in Dafny

This project models the logic inside two React views of a small storefront.

- **Product list** (`ProductList.js`). The view derives what it shows from
  the fetched products, the search box and the sort selector. A product is
  kept when the lower-cased search term occurs in its lower-cased name or
  description. An empty term keeps every product. The kept products are then
  stably sorted by price, low to high for `'price-low'` and high to low for
  `'price-high'`. Any other selector value leaves the order alone. Each
  product card also looks up how many of the product the cart already holds.
- **Shopping cart** (`ShoppingCart.js`). `removeItem` drops the lines of a
  product. `updateQuantity` adds a signed delta to a product's lines and
  deletes a line whose new quantity is not positive. The order summary is the
  subtotal (the sum of price times quantity), a 10% tax and their sum.

Both views are read as pure functions. The React functional updater
`setCart(prev => next)` becomes a function from the previous cart to the
next one. The `useMemo` derivation becomes a function of its three inputs.

Files and modules:

- `sequences.dfy` (`Sequences`): `Option`, `Array.prototype.filter` as
  `Filter`, the drop-the-nulls step as `Somes`, `Reverse`, and the relations
  `IsSubsequence` and `Distinct`.
- `text.dfy` (`Text`): ASCII `toLowerCase` and `String.prototype.includes`.
  `Includes` is proved equal to "the needle occurs at some position".
- `products.dfy` (`Products`): the `Product` record.
- `price_sort.dfy` (`PriceSort`): the two comparators and a stable insertion
  sort. The sort is proved sorted, a permutation, and order-preserving within
  each price class. It is also proved to be the *only* sequence with those
  properties, so any stable sort that honours the comparator returns it.
- `cart.dfy` (`ShoppingCart`): the cart line, `removeItem`, `updateQuantity`
  and the totals, with the cart invariant (positive quantities, one line per
  product id) and what each operation does to it.
- `catalog.dfy` (`Catalog`): the search filter, the derived product list and
  the cart-quantity lookup.

Prices are exact rationals (`real`) and the tax rate is exactly 1/10.

Points of the code worth noting:

- The selector is a string, not an enumeration. The model compares it with
  the two literals, as the code does.
- `removeItem` drops *every* line with the id, not just one. This matters
  only when the one-line-per-product invariant is broken.
- The code skips the filter when the term is empty. `EmptyTermIsFilter`
  shows that this gives the same result as filtering, because every string
  includes the empty string.

## Model

| member | source | states |
|---|---|---|
| `Text.Includes` | ProductList.js:33-34 | `includes` is true exactly when the needle occurs at some position of the haystack; the empty needle always occurs |
| `Text.LowerChar` | ProductList.js:33-34 | lower-casing maps each ASCII capital to its small letter (code point + 32) and keeps every other character |
| `Text.ToLower` | ProductList.js:33-34 | ASCII `toLowerCase` keeps the length, moves each ASCII capital to its small letter (code point + 32) and keeps every other character in place |
| `Catalog.Matches` | ProductList.js:32-35 | the filter callback accepts a product exactly when the lower-cased term occurs at some position of the lower-cased name or of the lower-cased description |
| `Sequences.Filter` | ProductList.js:32-35 | `filter` returns a subsequence of its input, never longer, whose every element the callback accepts (with `FilterMultiset`: each accepted value keeps all its copies, each rejected value none) |
| `Catalog.SearchIgnoresTermCase` | ProductList.js:33-34 | because both sides are lower-cased, searching for the lower-cased term finds the same products as the term itself |
| `Catalog.SearchResults` | ProductList.js:28-36 | an empty term returns the products unchanged; every kept product matches in name or description; every dropped product matches in neither; each matching product is kept as often as it occurs; the result is a subsequence of the input |
| `Catalog.EmptyTermIsFilter` | ProductList.js:31-35 | skipping the filter for an empty term gives exactly what filtering with the empty term would |
| `Catalog.SearchExample` | ProductList.js:31-36 | searching "shirt" among "Red Shirt" and "Blue Hat" keeps only the shirt |
| `Catalog.SortOrder` | ProductList.js:39-43 | `'price-low'` selects low-to-high, `'price-high'` selects high-to-low, and every other value (the default `''` included) selects no sort |
| `PriceSort.Compare` | ProductList.js:40-42 | the comparator is zero exactly on equal prices; `a.price - b.price` lets `a` go first exactly when it is not dearer, `b.price - a.price` exactly when it is not cheaper |
| `PriceSort.Insert` | ProductList.js:40-42 | inserting into a list sorted by the comparator keeps it sorted and adds exactly one copy of the product |
| `PriceSort.StableSort` | ProductList.js:39-43 | the sort result is ordered by the comparator and is a permutation of its input |
| `PriceSort.InsertStable` | ProductList.js:40-42 | insertion puts the product at the front of its price class and leaves every other class unchanged |
| `PriceSort.StableSortKeepsClasses` | ProductList.js:40-42 | stability: for every price, the products of that price appear in the sorted list in their input order |
| `PriceSort.SortedClassesUnique` | ProductList.js:39-43 | two lists sorted by the same comparator with the same price classes are equal, so sortedness and stability fix the result |
| `PriceSort.StableSortCharacterized` | ProductList.js:39-43 | a list is the stable sort of the input exactly when it is sorted by the comparator and keeps every price class of the input in order |
| `PriceSort.OrdersReverseWithoutTies` | ProductList.js:39-43 | when no two products share a price, the high-to-low result is the reverse of the low-to-high result |
| `Catalog.VisibleProducts` | ProductList.js:27-46 | the shown list holds exactly the matching products with their multiplicities; it has non-decreasing prices for `'price-low'` and non-increasing prices for `'price-high'`; equal prices keep the search order; any other selector returns the search result as is, and with an empty term that is the fetched list |
| `Catalog.VisibleProductsUnique` | ProductList.js:39-45 | with a price order selected, the shown list is the unique list sorted by that comparator whose price classes equal those of the search result |
| `Catalog.FindItem` | ProductList.js:79 | `find` returns nothing exactly when no line has the id, and otherwise the line at the first index with that id |
| `Catalog.QuantityInCart` | ProductList.js:79-80 | the card's quantity is the quantity of the first line with the product's id, or 0 when no line has it |
| `Catalog.QuantityInValidCart` | ProductList.js:79-94 | in a cart with positive quantities and unique ids, the card shows a positive quantity exactly when the product has a line, and that quantity is the line's |
| `ShoppingCart.RemoveItem` | ShoppingCart.js:8-10 | no line with the id remains; every other line keeps its multiplicity; the result is a subsequence of the cart, so order is kept |
| `ShoppingCart.RemoveAbsent` | ShoppingCart.js:9 | removing an id that has no line returns the cart unchanged |
| `ShoppingCart.RemoveIdempotent` | ShoppingCart.js:9 | removing the same id twice is the same as removing it once |
| `ShoppingCart.RemoveAt` | ShoppingCart.js:9 | with unique ids, removing the id of line `i` deletes exactly line `i` |
| `ShoppingCart.RemoveKeepsValid` | ShoppingCart.js:9 | positive quantities and unique ids survive a removal |
| `ShoppingCart.Adjust` | ShoppingCart.js:16-23 | a line with another id is kept as is; a matching line whose new quantity is not positive becomes null; otherwise the line gets the new quantity and no other field changes |
| `ShoppingCart.AdjustedLines` | ShoppingCart.js:15-23 | the mapped cart has one entry per line; lines of other products pass through unchanged; an entry is `null` exactly when it is a line of the product whose new quantity is not positive; any other line of the product becomes the same line with quantity plus delta |
| `Sequences.Somes` | ShoppingCart.js:24 | dropping the `null`s never lengthens the list and keeps exactly the non-null values (copies and order in `SomesMultiset` and `SomesAppend`) |
| `Sequences.SomesMultiset` | ShoppingCart.js:24 | dropping the `null`s keeps every copy of every non-null value |
| `Sequences.SomesAppend` | ShoppingCart.js:24 | dropping the `null`s works piece by piece, so the kept values stay in their original order |
| `ShoppingCart.UpdateQuantity` | ShoppingCart.js:13-28 | the result is never longer than the cart; every line of another product comes from the cart; every line of the product has a positive quantity |
| `ShoppingCart.UpdateAbsent` | ShoppingCart.js:15-24 | changing the quantity of an id with no line returns the cart unchanged |
| `ShoppingCart.UpdateLeavesOthers` | ShoppingCart.js:15-24 | with the product's own lines removed, the carts before and after are equal, so other lines are unchanged and keep their relative order |
| `ShoppingCart.UpdateAt` | ShoppingCart.js:16-21 | with unique ids, a positive new quantity rewrites only line `i`'s quantity; a non-positive one deletes exactly line `i` |
| `ShoppingCart.UpdateByNegatedQuantityRemoves` | ShoppingCart.js:17-19 | with unique ids, a delta of minus the line's quantity deletes exactly that line and shortens the cart by one |
| `ShoppingCart.IncrementOne` | ShoppingCart.js:15-24 | in a valid cart the "+" step (delta 1) raises line `i` by exactly one and leaves the length and every other line unchanged |
| `ShoppingCart.UpdateKeepsValid` | ShoppingCart.js:15-24 | positive quantities and unique ids survive any quantity change |
| `ShoppingCart.Subtotal` | ShoppingCart.js:31 | the subtotal of an empty cart is 0, and it is never negative when prices and quantities are not negative |
| `ShoppingCart.SubtotalAppend` | ShoppingCart.js:31 | the subtotal is additive over concatenation, so it is the sum of price times quantity whatever the fold order |
| `ShoppingCart.SubtotalAfterUpdate` | ShoppingCart.js:13-31 | with unique ids, changing line `i`'s quantity swaps its old line total for the new one in the subtotal, or subtracts it when the line is deleted |
| `ShoppingCart.LineTotalSign` | ShoppingCart.js:31 | a line's `price * quantity` is zero when its price or quantity is, never negative for non-negative price and quantity, and for a positive quantity positive exactly when the price is |
| `ShoppingCart.LineTotalShift` | ShoppingCart.js:31 | raising a line's quantity by `delta` raises its line total by price times `delta` |
| `ShoppingCart.SubtotalShift` | ShoppingCart.js:13-31 | with unique ids, the "-" and "+" buttons (delta -1 and 1) on a line they keep move the subtotal by exactly minus or plus the line's price |
| `ShoppingCart.SubtotalAfterRemove` | ShoppingCart.js:9-31 | with unique ids, removing line `i`'s product lowers the subtotal by exactly that line's total |
| `ShoppingCart.OrderSummary` | ShoppingCart.js:31-34 | tax is one tenth of the subtotal and the total is eleven tenths of it |
| `ShoppingCart.OrderSummaryExample` | ShoppingCart.js:31-34 | one line of price 100 and quantity 1 gives subtotal 100, tax 10 and total 110 |

## Left out

- Fetching the products, the loading and error states and the error text
  (ProductList.js:13-24, 48-49): network I/O and React effect plumbing. The
  product list is a parameter.
- All JSX rendering and presentation: CSS classes, the "no products found"
  message, the empty-cart message, `substring(0, 80)` and `toFixed(2)`.
- Floating point. Prices and totals are exact rationals. The tax is exactly
  one tenth, not the double nearest 0.10, and no rounding is modelled.
  Quantities and deltas are unbounded integers, while the code's numbers are
  doubles that hold integers exactly only below 2^53.
- `addToCart`. It is supplied by a parent component that is not part of this
  model; only its call sites are visible.
- `Text.LowerChar` and `Text.ToLower`: lower-case ASCII capitals only. Full Unicode
  `toLowerCase` (accented capitals, characters that change length) is not
  modelled. Strings are sequences of Unicode scalar values, while
  `toLowerCase` and `includes` work on UTF-16 code units. The two agree on
  well-formed text, but a string holding a lone surrogate cannot be
  represented.
- Product and cart ids are integers compared with `==`. The code compares
  whatever the product API sends with `===`; values of other types are not
  modelled.
- `CartItem` has exactly the five fields the cart view reads. The spread
  `{ ...item, quantity: newQuantity }` (ShoppingCart.js:21) copies whatever
  fields `addToCart` stored; the model's copy changes the quantity and keeps
  the other four.
- Products are assumed to carry string `name` and `description`. A product
  without one makes `toLowerCase()` (ProductList.js:33-34) throw, and that
  failure is not modelled.
- React `useState`, `useMemo` and the functional `setCart` updater. They are
  read as plain functions of their inputs, and the copy `[...products]`
  becomes the value itself.

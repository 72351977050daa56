/** The cart view's state transitions and order totals. The cart itself is
    owned by a parent component; each operation here is the pure
    previous-cart to next-cart function handed to its functional updater.
 */
module ShoppingCart {
  import opened Sequences
  import opened Products

  /** A line of the cart: a product's identity, the product fields copied
      when it was added, and how many of it are wanted. */
  datatype CartItem = CartItem(id: Id, name: string, price: real, image: string, quantity: int)

  /** The cart is an ordered list of lines. */
  type Cart = seq<CartItem>

  /** The ids of the lines, in cart order. */
  function Ids(cart: Cart): seq<Id> {
    seq(|cart|, i requires 0 <= i < |cart| => cart[i].id)
  }

  /** Every line asks for at least one unit. */
  ghost predicate PositiveQuantities(cart: Cart) {
    forall i :: 0 <= i < |cart| ==> cart[i].quantity > 0
  }

  /** At most one line per product. */
  ghost predicate UniqueIds(cart: Cart) {
    Distinct(Ids(cart))
  }

  /** The cart invariant: positive quantities, one line per product. */
  ghost predicate Valid(cart: Cart) {
    PositiveQuantities(cart) && UniqueIds(cart)
  }

  // ---------------------------------------------------------------------
  // Removing a product
  // ---------------------------------------------------------------------

  /** `removeItem(id)`: keep the lines whose id differs from `id`. */
  function RemoveItem(cart: Cart, id: Id): (r: Cart)
    ensures forall i :: 0 <= i < |r| ==> r[i].id != id
    ensures forall x :: multiset(r)[x] == if x.id == id then 0 else multiset(cart)[x]
    ensures IsSubsequence(r, cart)
  {
    FilterMultiset(cart, (item: CartItem) => item.id != id);
    Filter(cart, (item: CartItem) => item.id != id)
  }

  /** Removing a product that has no line leaves the cart as it is. */
  lemma {:induction false} RemoveAbsent(cart: Cart, id: Id)
    requires id !in Ids(cart)
    ensures RemoveItem(cart, id) == cart
  {
    forall i | 0 <= i < |cart|
      ensures cart[i].id != id
    {
      assert Ids(cart)[i] == cart[i].id;
    }
    FilterAllKept(cart, (item: CartItem) => item.id != id);
  }

  /** Removing the same product twice is removing it once. */
  lemma {:induction false} RemoveIdempotent(cart: Cart, id: Id)
    ensures RemoveItem(RemoveItem(cart, id), id) == RemoveItem(cart, id)
  {
    FilterIdempotent(cart, (item: CartItem) => item.id != id);
  }

  /** The ids of a subsequence form a subsequence of the ids. */
  lemma {:induction false} IdsSubsequence(sub: Cart, cart: Cart)
    requires IsSubsequence(sub, cart)
    ensures IsSubsequence(Ids(sub), Ids(cart))
    decreases |cart|
  {
    if |sub| > 0 {
      assert Ids(cart)[1..] == Ids(cart[1..]);
      assert Ids(sub)[1..] == Ids(sub[1..]);
      if sub[0] == cart[0] && IsSubsequence(sub[1..], cart[1..]) {
        IdsSubsequence(sub[1..], cart[1..]);
      } else {
        IdsSubsequence(sub, cart[1..]);
      }
    }
  }

  /** Removing a product keeps the cart invariant. */
  lemma {:induction false} RemoveKeepsValid(cart: Cart, id: Id)
    requires Valid(cart)
    ensures Valid(RemoveItem(cart, id))
  {
    var r := RemoveItem(cart, id);
    forall i | 0 <= i < |r|
      ensures r[i].quantity > 0
    {
      assert multiset(r)[r[i]] > 0;
      assert r[i] in cart;
    }
    IdsSubsequence(r, cart);
    SubsequenceDistinct(Ids(r), Ids(cart));
  }

  /** Lines of a cart with unique ids other than line `i` carry other ids. */
  lemma {:induction false} OthersHaveOtherIds(cart: Cart, i: int)
    requires UniqueIds(cart) && 0 <= i < |cart|
    ensures cart[i].id !in Ids(cart[..i])
    ensures cart[i].id !in Ids(cart[i + 1..])
  {
    assert Ids(cart[..i]) == Ids(cart)[..i];
    assert Ids(cart[i + 1..]) == Ids(cart)[i + 1..];
    assert Ids(cart)[i] == cart[i].id;
  }

  /** In a cart with one line per product, removing the product of line `i`
      deletes exactly that line. */
  lemma {:induction false} RemoveAt(cart: Cart, i: int)
    requires UniqueIds(cart) && 0 <= i < |cart|
    ensures RemoveItem(cart, cart[i].id) == cart[..i] + cart[i + 1..]
  {
    var id := cart[i].id;
    var keep := (item: CartItem) => item.id != id;
    assert cart == cart[..i] + ([cart[i]] + cart[i + 1..]);
    FilterAppend(cart[..i], [cart[i]] + cart[i + 1..], keep);
    FilterAppend([cart[i]], cart[i + 1..], keep);
    OthersHaveOtherIds(cart, i);
    RemoveAbsent(cart[..i], id);
    RemoveAbsent(cart[i + 1..], id);
  }

  // ---------------------------------------------------------------------
  // Changing a quantity
  // ---------------------------------------------------------------------

  /** The per-line step of `updateQuantity`: a matching line gets the new
      quantity, or becomes `null` when that quantity is not positive. */
  function Adjust(item: CartItem, id: Id, delta: int): (r: Option<CartItem>)
    ensures item.id != id ==> r == Some(item)
    ensures item.id == id && item.quantity + delta <= 0 ==> r == None
    ensures item.id == id && item.quantity + delta > 0 ==>
              r.Some? && r.value.quantity == item.quantity + delta
              && r.value.(quantity := item.quantity) == item
  {
    if item.id == id then
      var newQuantity := item.quantity + delta;
      if newQuantity <= 0 then None else Some(item.(quantity := newQuantity))
    else
      Some(item)
  }

  /** `cart.map(...)`: the per-line step applied to every line. */
  function Adjusted(cart: Cart, id: Id, delta: int): seq<Option<CartItem>> {
    seq(|cart|, i requires 0 <= i < |cart| => Adjust(cart[i], id, delta))
  }

  /** The mapped cart has one entry per line: lines of other products pass
      through unchanged, and an entry is `null` exactly when it is a line of
      the product whose new quantity is not positive. */
  lemma {:induction false} AdjustedLines(cart: Cart, id: Id, delta: int)
    ensures |Adjusted(cart, id, delta)| == |cart|
    ensures forall i :: 0 <= i < |cart| && cart[i].id != id ==> Adjusted(cart, id, delta)[i] == Some(cart[i])
    ensures forall i :: 0 <= i < |cart| ==>
              (Adjusted(cart, id, delta)[i].None? <==> cart[i].id == id && cart[i].quantity + delta <= 0)
    ensures forall i :: 0 <= i < |cart| && cart[i].id == id && cart[i].quantity + delta > 0 ==>
              Adjusted(cart, id, delta)[i] == Some(cart[i].(quantity := cart[i].quantity + delta))
  {
  }

  /** `updateQuantity(id, delta)`: adjust every line, then drop the `null`s. */
  function UpdateQuantity(cart: Cart, id: Id, delta: int): (r: Cart)
    ensures |r| <= |cart|
    ensures forall x :: x in r && x.id != id ==> x in cart
    ensures forall x :: x in r && x.id == id ==> x.quantity > 0
  {
    var r := Somes(Adjusted(cart, id, delta));
    assert forall x :: x in r ==> Some(x) in Adjusted(cart, id, delta);
    r
  }

  /** The result of one line as a sequence of zero or one lines. */
  function AdjustedLine(item: CartItem, id: Id, delta: int): Cart {
    match Adjust(item, id, delta)
    case None => []
    case Some(y) => [y]
  }

  /** `updateQuantity` works line by line. */
  lemma {:induction false} UpdateCons(cart: Cart, id: Id, delta: int)
    requires |cart| > 0
    ensures UpdateQuantity(cart, id, delta)
         == AdjustedLine(cart[0], id, delta) + UpdateQuantity(cart[1..], id, delta)
  {
    assert Adjusted(cart, id, delta)[1..] == Adjusted(cart[1..], id, delta);
  }

  /** `updateQuantity` distributes over concatenation. */
  lemma {:induction false} UpdateAppend(a: Cart, b: Cart, id: Id, delta: int)
    ensures UpdateQuantity(a + b, id, delta) == UpdateQuantity(a, id, delta) + UpdateQuantity(b, id, delta)
  {
    if |a| == 0 {
      assert a + b == b;
    } else {
      UpdateCons(a + b, id, delta);
      UpdateCons(a, id, delta);
      assert (a + b)[1..] == a[1..] + b;
      UpdateAppend(a[1..], b, id, delta);
    }
  }

  /** Changing the quantity of a product that has no line leaves the cart
      as it is. */
  lemma {:induction false} UpdateAbsent(cart: Cart, id: Id, delta: int)
    requires id !in Ids(cart)
    ensures UpdateQuantity(cart, id, delta) == cart
  {
    if |cart| > 0 {
      assert Ids(cart)[0] == cart[0].id;
      assert Ids(cart)[1..] == Ids(cart[1..]);
      UpdateCons(cart, id, delta);
      UpdateAbsent(cart[1..], id, delta);
    }
  }

  /** Lines of other products are untouched and keep their relative order:
      with the product's own lines removed, the carts before and after
      agree. */
  lemma {:induction false} UpdateLeavesOthers(cart: Cart, id: Id, delta: int)
    ensures RemoveItem(UpdateQuantity(cart, id, delta), id) == RemoveItem(cart, id)
  {
    if |cart| > 0 {
      var keep := (item: CartItem) => item.id != id;
      var head, tail := cart[0], cart[1..];
      assert cart == [head] + tail;
      calc {
        RemoveItem(UpdateQuantity(cart, id, delta), id);
        { UpdateCons(cart, id, delta); }
        Filter(AdjustedLine(head, id, delta) + UpdateQuantity(tail, id, delta), keep);
        { FilterAppend(AdjustedLine(head, id, delta), UpdateQuantity(tail, id, delta), keep); }
        Filter(AdjustedLine(head, id, delta), keep) + RemoveItem(UpdateQuantity(tail, id, delta), id);
        { UpdateLeavesOthers(tail, id, delta); }
        Filter(AdjustedLine(head, id, delta), keep) + RemoveItem(tail, id);
        { assert Filter(AdjustedLine(head, id, delta), keep) == Filter([head], keep); }
        Filter([head], keep) + Filter(tail, keep);
        { FilterAppend([head], tail, keep); }
        RemoveItem(cart, id);
      }
    }
  }

  /** In a cart with one line per product, changing the quantity of line
      `i` to a positive value rewrites that line's quantity and nothing
      else; a non-positive value deletes exactly that line. */
  lemma {:induction false} UpdateAt(cart: Cart, i: int, delta: int)
    requires UniqueIds(cart) && 0 <= i < |cart|
    ensures cart[i].quantity + delta > 0 ==>
      UpdateQuantity(cart, cart[i].id, delta) == cart[i := cart[i].(quantity := cart[i].quantity + delta)]
    ensures cart[i].quantity + delta <= 0 ==>
      UpdateQuantity(cart, cart[i].id, delta) == cart[..i] + cart[i + 1..]
  {
    UpdateSplit(cart, i, delta);
    if cart[i].quantity + delta > 0 {
      var updated := cart[i := cart[i].(quantity := cart[i].quantity + delta)];
      assert updated == cart[..i] + [updated[i]] + cart[i + 1..];
    }
  }

  /** With one line per product, only line `i` is affected by a change to
      its product. */
  lemma {:induction false} UpdateSplit(cart: Cart, i: int, delta: int)
    requires UniqueIds(cart) && 0 <= i < |cart|
    ensures UpdateQuantity(cart, cart[i].id, delta)
         == cart[..i] + AdjustedLine(cart[i], cart[i].id, delta) + cart[i + 1..]
  {
    var id := cart[i].id;
    var a, b := cart[..i], cart[i + 1..];
    assert cart == a + [cart[i]] + b;
    OthersHaveOtherIds(cart, i);
    UpdateAbsent(a, id, delta);
    UpdateAbsent(b, id, delta);
    UpdateCons([cart[i]], id, delta);
    assert [cart[i]][1..] == [];
    calc {
      UpdateQuantity(cart, id, delta);
      UpdateQuantity(a + [cart[i]] + b, id, delta);
      { UpdateAppend(a + [cart[i]], b, id, delta); }
      UpdateQuantity(a + [cart[i]], id, delta) + UpdateQuantity(b, id, delta);
      { UpdateAppend(a, [cart[i]], id, delta); }
      UpdateQuantity(a, id, delta) + UpdateQuantity([cart[i]], id, delta) + UpdateQuantity(b, id, delta);
      a + AdjustedLine(cart[i], id, delta) + b;
    }
  }

  /** Lowering a line by its whole quantity deletes exactly that line. */
  lemma {:induction false} UpdateByNegatedQuantityRemoves(cart: Cart, i: int)
    requires UniqueIds(cart) && 0 <= i < |cart|
    ensures UpdateQuantity(cart, cart[i].id, -cart[i].quantity) == cart[..i] + cart[i + 1..]
    ensures |UpdateQuantity(cart, cart[i].id, -cart[i].quantity)| == |cart| - 1
  {
    UpdateAt(cart, i, -cart[i].quantity);
  }

  /** The "+" button: in a valid cart, line `i` gains exactly one unit and
      every other line stays as it was. */
  lemma {:induction false} IncrementOne(cart: Cart, i: int)
    requires Valid(cart) && 0 <= i < |cart|
    ensures |UpdateQuantity(cart, cart[i].id, 1)| == |cart|
    ensures UpdateQuantity(cart, cart[i].id, 1)[i].quantity == cart[i].quantity + 1
    ensures UpdateQuantity(cart, cart[i].id, 1)[i].(quantity := cart[i].quantity) == cart[i]
    ensures forall j :: 0 <= j < |cart| && j != i ==> UpdateQuantity(cart, cart[i].id, 1)[j] == cart[j]
  {
    UpdateAt(cart, i, 1);
  }

  /** The ids after a quantity change are a subsequence of the ids before. */
  lemma {:induction false} UpdateIdsSubsequence(cart: Cart, id: Id, delta: int)
    ensures IsSubsequence(Ids(UpdateQuantity(cart, id, delta)), Ids(cart))
  {
    var r := UpdateQuantity(cart, id, delta);
    if |cart| > 0 {
      UpdateCons(cart, id, delta);
      UpdateIdsSubsequence(cart[1..], id, delta);
      var rest := UpdateQuantity(cart[1..], id, delta);
      assert Ids(cart)[1..] == Ids(cart[1..]);
      if Adjust(cart[0], id, delta).Some? {
        assert r == [r[0]] + rest;
        assert Ids(r)[0] == Ids(cart)[0];
        assert Ids(r)[1..] == Ids(rest);
      } else {
        assert r == rest;
        if |Ids(r)| > 0 {
          assert IsSubsequence(Ids(r), Ids(cart)[1..]);
        }
      }
    }
  }

  /** Changing a quantity keeps the cart invariant. */
  lemma {:induction false} UpdateKeepsValid(cart: Cart, id: Id, delta: int)
    requires Valid(cart)
    ensures Valid(UpdateQuantity(cart, id, delta))
  {
    var r := UpdateQuantity(cart, id, delta);
    forall i | 0 <= i < |r|
      ensures r[i].quantity > 0
    {
      assert r[i] in r;
      if r[i].id != id {
        var k :| 0 <= k < |cart| && cart[k] == r[i];
      }
    }
    UpdateIdsSubsequence(cart, id, delta);
    SubsequenceDistinct(Ids(r), Ids(cart));
  }

  // ---------------------------------------------------------------------
  // Order totals
  // ---------------------------------------------------------------------

  /** The tax rate, ten percent, as an exact rational. */
  const TaxRate: real := 0.10

  /** What one line contributes to the subtotal. */
  function LineTotal(item: CartItem): real {
    item.price * item.quantity as real
  }

  /** A line's total is zero when its price or quantity is, and has the sign
      of the price when the quantity is positive. */
  lemma {:induction false} LineTotalSign(item: CartItem)
    ensures item.quantity == 0 || item.price == 0.0 ==> LineTotal(item) == 0.0
    ensures item.price >= 0.0 && item.quantity >= 0 ==> LineTotal(item) >= 0.0
    ensures item.quantity > 0 ==> (LineTotal(item) > 0.0 <==> item.price > 0.0)
  {
  }

  /** `cart.reduce((total, item) => total + price * quantity, 0)`: the fold
      runs from the first line to the last. */
  function Subtotal(cart: Cart): (s: real)
    ensures |cart| == 0 ==> s == 0.0
    ensures (forall i :: 0 <= i < |cart| ==> cart[i].price >= 0.0 && cart[i].quantity >= 0) ==> s >= 0.0
  {
    if |cart| == 0 then 0.0
    else
      var last := cart[|cart| - 1];
      LineTotalSign(last);
      Subtotal(cart[..|cart| - 1]) + LineTotal(last)
  }

  /** The three figures of the order summary. */
  datatype Summary = Summary(subtotal: real, tax: real, total: real)

  /** Subtotal, ten percent tax, and their sum. */
  function OrderSummary(cart: Cart): (s: Summary)
    ensures s.subtotal == Subtotal(cart)
    ensures s.tax * 10.0 == s.subtotal
    ensures s.total * 10.0 == s.subtotal * 11.0
  {
    var subtotal := Subtotal(cart);
    var tax := subtotal * TaxRate;
    Summary(subtotal, tax, subtotal + tax)
  }

  /** The subtotal of two carts side by side is the sum of their subtotals. */
  lemma {:induction false} SubtotalAppend(a: Cart, b: Cart)
    ensures Subtotal(a + b) == Subtotal(a) + Subtotal(b)
    decreases |b|
  {
    if |b| == 0 {
      assert a + b == a;
    } else {
      assert (a + b)[..|a + b| - 1] == a + b[..|b| - 1];
      SubtotalAppend(a, b[..|b| - 1]);
    }
  }

  /** The subtotal of a cart with line `i` taken apart. */
  lemma {:induction false} SubtotalSplit(cart: Cart, i: int)
    requires 0 <= i < |cart|
    ensures Subtotal(cart) == Subtotal(cart[..i]) + LineTotal(cart[i]) + Subtotal(cart[i + 1..])
  {
    assert cart == cart[..i] + ([cart[i]] + cart[i + 1..]);
    SubtotalAppend(cart[..i], [cart[i]] + cart[i + 1..]);
    SubtotalAppend([cart[i]], cart[i + 1..]);
    assert [cart[i]][..0] == [];
  }

  /** Changing the quantity of line `i` of a cart with one line per product
      replaces that line's contribution to the subtotal by the contribution
      of the new quantity, or takes it away when the line is deleted. */
  lemma {:induction false} SubtotalAfterUpdate(cart: Cart, i: int, delta: int)
    requires UniqueIds(cart) && 0 <= i < |cart|
    ensures cart[i].quantity + delta > 0 ==>
      Subtotal(UpdateQuantity(cart, cart[i].id, delta))
      == Subtotal(cart) - LineTotal(cart[i]) + LineTotal(cart[i].(quantity := cart[i].quantity + delta))
    ensures cart[i].quantity + delta <= 0 ==>
      Subtotal(UpdateQuantity(cart, cart[i].id, delta)) == Subtotal(cart) - LineTotal(cart[i])
  {
    UpdateSplit(cart, i, delta);
    var line := AdjustedLine(cart[i], cart[i].id, delta);
    SubtotalThree(cart[..i], line, cart[i + 1..]);
    SubtotalSplit(cart, i);
    if cart[i].quantity + delta > 0 {
      var u := cart[i].(quantity := cart[i].quantity + delta);
      assert line == [u];
      SubtotalSingle(u);
    } else {
      assert line == [];
    }
  }

  /** The subtotal of three carts side by side. */
  lemma {:induction false} SubtotalThree(a: Cart, b: Cart, c: Cart)
    ensures Subtotal(a + b + c) == Subtotal(a) + Subtotal(b) + Subtotal(c)
  {
    SubtotalAppend(a + b, c);
    SubtotalAppend(a, b);
  }

  /** A one-line cart costs that line. */
  lemma {:induction false} SubtotalSingle(item: CartItem)
    ensures Subtotal([item]) == LineTotal(item)
  {
    assert [item][..0] == [];
  }

  /** Raising a line's quantity by `delta` raises its total by price times `delta`. */
  lemma {:induction false} LineTotalShift(item: CartItem, delta: int)
    ensures LineTotal(item.(quantity := item.quantity + delta))
         == LineTotal(item) + item.price * delta as real
  {
    assert (item.quantity + delta) as real == item.quantity as real + delta as real;
  }

  /** The order summary's subtotal under the "-" and "+" buttons: changing
      line `i` by `delta` while keeping it moves the subtotal by price times
      `delta`. */
  lemma {:induction false} SubtotalShift(cart: Cart, i: int, delta: int)
    requires UniqueIds(cart) && 0 <= i < |cart| && cart[i].quantity + delta > 0
    ensures Subtotal(UpdateQuantity(cart, cart[i].id, delta)) == Subtotal(cart) + cart[i].price * delta as real
  {
    calc {
      Subtotal(UpdateQuantity(cart, cart[i].id, delta));
      { SubtotalAfterUpdate(cart, i, delta); }
      Subtotal(cart) - LineTotal(cart[i]) + LineTotal(cart[i].(quantity := cart[i].quantity + delta));
      { ReplaceLine(Subtotal(cart), cart[i], delta); }
      Subtotal(cart) + cart[i].price * delta as real;
    }
  }

  /** Swapping a line's total for that of the line raised by `delta` adds
      price times `delta` to a sum. */
  lemma {:induction false} ReplaceLine(sum: real, item: CartItem, delta: int)
    ensures sum - LineTotal(item) + LineTotal(item.(quantity := item.quantity + delta))
         == sum + item.price * delta as real
  {
    LineTotalShift(item, delta);
  }

  /** Removing the product of line `i` lowers the subtotal by that line. */
  lemma {:induction false} SubtotalAfterRemove(cart: Cart, i: int)
    requires UniqueIds(cart) && 0 <= i < |cart|
    ensures Subtotal(RemoveItem(cart, cart[i].id)) == Subtotal(cart) - LineTotal(cart[i])
  {
    RemoveAt(cart, i);
    SubtotalSplit(cart, i);
    SubtotalAppend(cart[..i], cart[i + 1..]);
  }

  /** One line of price 100 and quantity 1 gives 100, 10 and 110. */
  lemma {:induction false} OrderSummaryExample()
    ensures OrderSummary([CartItem(1, "", 100.0, "", 1)]) == Summary(100.0, 10.0, 110.0)
  {
    assert Subtotal([CartItem(1, "", 100.0, "", 1)]) == 100.0;
  }
}

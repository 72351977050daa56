/** The product list's derived view: the fetched products narrowed by the
    search box and ordered by the sort selector, plus the lookup that tells
    each product card how many of it are already in the cart.
 */
module Catalog {
  import opened Sequences
  import opened Text
  import opened Products
  import opened PriceSort
  import ShoppingCart

  // ---------------------------------------------------------------------
  // Search
  // ---------------------------------------------------------------------

  /** The search test: the lower-cased term occurs in the lower-cased name
      or in the lower-cased description. */
  function Matches(p: Product, term: string): (r: bool)
    ensures r <==> (exists i :: OccursAt(ToLower(p.name), ToLower(term), i))
                   || (exists i :: OccursAt(ToLower(p.description), ToLower(term), i))
  {
    Includes(ToLower(p.name), ToLower(term)) || Includes(ToLower(p.description), ToLower(term))
  }

  /** The empty term matches every product. */
  lemma {:induction false} EmptyTermMatches(p: Product)
    ensures Matches(p, "")
  {
    assert ToLower("") == "";
    IncludesEmpty(ToLower(p.name));
  }

  /** Filtering with the empty term keeps every product, so skipping the
      filter for an empty term changes nothing. */
  lemma {:induction false} EmptyTermIsFilter(products: seq<Product>)
    ensures SearchResults(products, "") == Filter(products, (p: Product) => Matches(p, ""))
  {
    forall i | 0 <= i < |products|
      ensures Matches(products[i], "")
    {
      EmptyTermMatches(products[i]);
    }
    FilterAllKept(products, (p: Product) => Matches(p, ""));
  }

  /** The search step: an empty term keeps the list as it is, any other term
      keeps the matching products. Either way the result is exactly the
      matching products, in their input order. */
  function SearchResults(products: seq<Product>, term: string): (r: seq<Product>)
    ensures |term| == 0 ==> r == products
    ensures forall i :: 0 <= i < |r| ==> Matches(r[i], term)
    ensures forall p :: p in products && p !in r ==> !Matches(p, term)
    ensures forall p :: multiset(r)[p] == if Matches(p, term) then multiset(products)[p] else 0
    ensures IsSubsequence(r, products)
  {
    if |term| == 0 then
      assert term == "";
      assert forall p :: Matches(p, term) by {
        forall p: Product
          ensures Matches(p, term)
        {
          EmptyTermMatches(p);
        }
      }
      SubsequenceOfItself(products);
      products
    else
      var keep := (p: Product) => Matches(p, term);
      FilterMultiset(products, keep);
      var r := Filter(products, keep);
      assert forall p :: p in products && p !in r ==> !Matches(p, term) by {
        forall p | p in products && p !in r
          ensures !Matches(p, term)
        {
          assert multiset(products)[p] > 0 && multiset(r)[p] == 0;
        }
      }
      r
  }

  /** Lower-casing the term first does not change what is found. */
  lemma {:induction false} SearchIgnoresTermCase(products: seq<Product>, term: string)
    ensures SearchResults(products, ToLower(term)) == SearchResults(products, term)
  {
    ToLowerIsLower(term);
    if |term| > 0 {
      FilterCongruent(products, (p: Product) => Matches(p, ToLower(term)), (p: Product) => Matches(p, term));
    }
  }

  // ---------------------------------------------------------------------
  // The derived view
  // ---------------------------------------------------------------------

  /** The sort selector: two values pick a price order, every other value
      (the default `''` included) leaves the order alone. */
  function SortOrder(sortMethod: string): (r: Option<PriceOrder>)
    ensures r == Some(LowToHigh) <==> sortMethod == "price-low"
    ensures r == Some(HighToLow) <==> sortMethod == "price-high"
    ensures r == None <==> sortMethod != "price-low" && sortMethod != "price-high"
  {
    if sortMethod == "price-low" then Some(LowToHigh)
    else if sortMethod == "price-high" then Some(HighToLow)
    else None
  }

  /** The memoised list the product grid shows. */
  function VisibleProducts(products: seq<Product>, searchTerm: string, sortMethod: string): (r: seq<Product>)
    ensures forall p :: multiset(r)[p] == if Matches(p, searchTerm) then multiset(products)[p] else 0
    ensures sortMethod == "price-low" ==> forall i, j :: 0 <= i < j < |r| ==> r[i].price <= r[j].price
    ensures sortMethod == "price-high" ==> forall i, j :: 0 <= i < j < |r| ==> r[i].price >= r[j].price
    ensures forall v :: WithPrice(r, v) == WithPrice(SearchResults(products, searchTerm), v)
    ensures sortMethod != "price-low" && sortMethod != "price-high" ==> r == SearchResults(products, searchTerm)
    ensures |searchTerm| == 0 && sortMethod != "price-low" && sortMethod != "price-high" ==> r == products
  {
    var found := SearchResults(products, searchTerm);
    match SortOrder(sortMethod)
    case None => found
    case Some(order) =>
      StableSortKeepsAllClasses(found, order);
      StableSort(found, order)
  }

  /** When a price order is selected, the view is the only sequence that is
      ordered by that comparator and keeps equally priced search results in
      their fetched order. */
  lemma {:induction false} VisibleProductsUnique(products: seq<Product>, searchTerm: string, sortMethod: string, r: seq<Product>)
    requires SortOrder(sortMethod).Some?
    ensures r == VisibleProducts(products, searchTerm, sortMethod)
        <==> SortedBy(r, SortOrder(sortMethod).value)
             && forall v :: WithPrice(r, v) == WithPrice(SearchResults(products, searchTerm), v)
  {
    StableSortCharacterized(SearchResults(products, searchTerm), SortOrder(sortMethod).value, r);
  }

  // ---------------------------------------------------------------------
  // Quantity already in the cart
  // ---------------------------------------------------------------------

  /** `cart.find(item => item.id === id)`: the first line with that id. */
  function FindItem(cart: ShoppingCart.Cart, id: Id): (r: Option<ShoppingCart.CartItem>)
    ensures r.None? <==> id !in ShoppingCart.Ids(cart)
    ensures r.Some? ==> exists i :: 0 <= i < |cart| && cart[i] == r.value && cart[i].id == id
                                   && forall j :: 0 <= j < i ==> cart[j].id != id
  {
    if |cart| == 0 then None
    else
      assert ShoppingCart.Ids(cart)[0] == cart[0].id;
      assert ShoppingCart.Ids(cart)[1..] == ShoppingCart.Ids(cart[1..]);
      if cart[0].id == id then
        Some(cart[0])
      else
        var r := FindItem(cart[1..], id);
        assert r.Some? ==> exists i :: 0 <= i < |cart[1..]| && cart[1..][i] == r.value && cart[1..][i].id == id
                                       && forall j :: 0 <= j < i ==> cart[1..][j].id != id;
        assert r.Some? ==> exists i :: 1 <= i < |cart| && cart[i] == r.value && cart[i].id == id
                                       && forall j :: 1 <= j < i ==> cart[j].id != id;
        r
  }

  /** The quantity a product card shows: that of the first line with the
      product's id, or 0 when there is none. */
  function QuantityInCart(cart: ShoppingCart.Cart, id: Id): (q: int)
    ensures id !in ShoppingCart.Ids(cart) ==> q == 0
    ensures forall i :: 0 <= i < |cart| && cart[i].id == id && (forall j :: 0 <= j < i ==> cart[j].id != id)
                        ==> q == cart[i].quantity
  {
    assert forall i :: 0 <= i < |cart| ==> ShoppingCart.Ids(cart)[i] == cart[i].id;
    match FindItem(cart, id)
    case None => 0
    case Some(item) => item.quantity
  }

  /** In a valid cart a product's card shows a positive quantity exactly
      when the product has a line, and then it shows that line's quantity. */
  lemma {:induction false} QuantityInValidCart(cart: ShoppingCart.Cart, id: Id)
    requires ShoppingCart.Valid(cart)
    ensures QuantityInCart(cart, id) > 0 <==> id in ShoppingCart.Ids(cart)
    ensures forall i :: 0 <= i < |cart| && cart[i].id == id ==> QuantityInCart(cart, id) == cart[i].quantity
  {
    forall i | 0 <= i < |cart| && cart[i].id == id
      ensures QuantityInCart(cart, id) == cart[i].quantity
    {
      forall j | 0 <= j < i
        ensures cart[j].id != id
      {
        assert ShoppingCart.Ids(cart)[j] == cart[j].id && ShoppingCart.Ids(cart)[i] == cart[i].id;
      }
    }
    if id in ShoppingCart.Ids(cart) {
      var i :| 0 <= i < |cart| && ShoppingCart.Ids(cart)[i] == id;
      assert cart[i].quantity > 0;
    }
  }

  /** Searching for "shirt" among a red shirt and a blue hat finds the shirt. */
  lemma {:induction false} SearchExample()
    ensures SearchResults([Product(1, "Red Shirt", "Cotton", "Clothing", 20.0, ""),
                           Product(2, "Blue Hat", "Wool", "Clothing", 15.0, "")], "shirt")
         == [Product(1, "Red Shirt", "Cotton", "Clothing", 20.0, "")]
  {
    var shirt := Product(1, "Red Shirt", "Cotton", "Clothing", 20.0, "");
    var hat := Product(2, "Blue Hat", "Wool", "Clothing", 15.0, "");
    ShirtMatches();
    HatDoesNotMatch();
    var keep := (p: Product) => Matches(p, "shirt");
    assert [shirt, hat] == [shirt] + [hat];
    FilterAppend([shirt], [hat], keep);
    assert Filter([hat], keep) == [];
    assert Filter([shirt], keep) == [shirt];
  }

  /** "shirt" occurs in "red shirt". */
  lemma {:induction false} ShirtMatches()
    ensures Matches(Product(1, "Red Shirt", "Cotton", "Clothing", 20.0, ""), "shirt")
  {
    assert ToLower("shirt") == "shirt";
    assert ToLower("Red Shirt") == "red shirt";
    assert OccursAt("red shirt", "shirt", 4);
  }

  /** "shirt" occurs neither in "blue hat" nor in "wool". */
  lemma {:induction false} HatDoesNotMatch()
    ensures !Matches(Product(2, "Blue Hat", "Wool", "Clothing", 15.0, ""), "shirt")
  {
    assert ToLower("shirt") == "shirt";
    assert ToLower("Blue Hat") == "blue hat";
    assert ToLower("Wool") == "wool";
    assert !Includes("wool", "shirt");
    forall i
      ensures !OccursAt("blue hat", "shirt", i)
    {
      if 0 <= i <= 3 {
        assert "blue hat"[i] != 's';
      }
    }
  }
}

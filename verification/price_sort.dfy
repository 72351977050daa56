/** The two price sorts of the catalog. The array is sorted with the
    comparators `(a, b) => a.price - b.price` and `(a, b) => b.price - a.price`,
    and `Array.prototype.sort` is stable, so the result is the unique
    arrangement that is ordered by the comparator and keeps equally priced
    products in their input order. The model sorts by insertion and proves
    that characterisation.
 */
module PriceSort {
  import opened Sequences
  import opened Products

  /** The two non-trivial values of the sort selector. */
  datatype PriceOrder = LowToHigh | HighToLow

  /** The comparator of each order: not positive when `a` may precede `b`. */
  function Compare(a: Product, b: Product, order: PriceOrder): (c: real)
    ensures c == 0.0 <==> a.price == b.price
    ensures order == LowToHigh ==> (c <= 0.0 <==> a.price <= b.price)
    ensures order == HighToLow ==> (c <= 0.0 <==> b.price <= a.price)
  {
    match order
    case LowToHigh => a.price - b.price
    case HighToLow => b.price - a.price
  }

  /** Every product may precede every later one under the comparator. */
  ghost predicate SortedBy(s: seq<Product>, order: PriceOrder) {
    forall i, j :: 0 <= i < j < |s| ==> Compare(s[i], s[j], order) <= 0.0
  }

  /** The products of `s` priced exactly `price`, in their order in `s`. */
  function WithPrice(s: seq<Product>, price: real): seq<Product> {
    Filter(s, (p: Product) => p.price == price)
  }

  /** Places `x` before the first product it may precede, so that `x` lands
      ahead of every equally priced product of `t`. */
  function Insert(x: Product, t: seq<Product>, order: PriceOrder): (r: seq<Product>)
    requires SortedBy(t, order)
    ensures SortedBy(r, order)
    ensures multiset(r) == multiset{x} + multiset(t)
  {
    if |t| == 0 || Compare(x, t[0], order) <= 0.0 then
      PrecedesAll(x, t, order);
      SortedPrepend(x, t, order);
      [x] + t
    else
      SortedTail(t, order);
      var rest := Insert(x, t[1..], order);
      InsertHeadPrecedes(x, t, rest, order);
      SortedPrepend(t[0], rest, order);
      assert t == [t[0]] + t[1..];
      [t[0]] + rest
  }

  /** A sorted sequence stays sorted without its head. */
  lemma {:induction false} SortedTail(s: seq<Product>, order: PriceOrder)
    requires |s| > 0 && SortedBy(s, order)
    ensures SortedBy(s[1..], order)
  {
    forall i, j | 0 <= i < j < |s[1..]|
      ensures Compare(s[1..][i], s[1..][j], order) <= 0.0
    {
      assert s[1..][i] == s[i + 1] && s[1..][j] == s[j + 1];
    }
  }

  /** A product that may precede every element of a sorted sequence can be
      put in front of it. */
  lemma {:induction false} SortedPrepend(x: Product, t: seq<Product>, order: PriceOrder)
    requires SortedBy(t, order)
    requires forall k :: 0 <= k < |t| ==> Compare(x, t[k], order) <= 0.0
    ensures SortedBy([x] + t, order)
  {
    var s := [x] + t;
    forall i, j | 0 <= i < j < |s|
      ensures Compare(s[i], s[j], order) <= 0.0
    {
      assert s[j] == t[j - 1];
      if i > 0 {
        assert s[i] == t[i - 1];
      }
    }
  }

  /** A product that may precede the head of a sorted sequence may precede
      all of it. */
  lemma {:induction false} PrecedesAll(x: Product, t: seq<Product>, order: PriceOrder)
    requires SortedBy(t, order)
    requires |t| == 0 || Compare(x, t[0], order) <= 0.0
    ensures forall k :: 0 <= k < |t| ==> Compare(x, t[k], order) <= 0.0
  {
    forall k | 0 < k < |t|
      ensures Compare(x, t[k], order) <= 0.0
    {
      assert Compare(t[0], t[k], order) <= 0.0;
    }
  }

  /** When `x` must go after the head of `t`, that head may precede `x` and
      everything else that is inserted after it. */
  lemma {:induction false} InsertHeadPrecedes(x: Product, t: seq<Product>, rest: seq<Product>, order: PriceOrder)
    requires |t| > 0 && SortedBy(t, order)
    requires Compare(x, t[0], order) > 0.0
    requires multiset(rest) == multiset{x} + multiset(t[1..])
    ensures forall k :: 0 <= k < |rest| ==> Compare(t[0], rest[k], order) <= 0.0
  {
    forall k | 0 <= k < |rest|
      ensures Compare(t[0], rest[k], order) <= 0.0
    {
      assert rest[k] in multiset(rest);
      if rest[k] != x {
        assert rest[k] in multiset(t[1..]);
        var m :| 0 <= m < |t[1..]| && t[1..][m] == rest[k];
        assert t[m + 1] == rest[k];
      }
    }
  }

  /** The stable sort: the head of the input is inserted into the sorted tail. */
  function StableSort(s: seq<Product>, order: PriceOrder): (r: seq<Product>)
    ensures SortedBy(r, order)
    ensures multiset(r) == multiset(s)
  {
    if |s| == 0 then []
    else
      assert s == [s[0]] + s[1..];
      Insert(s[0], StableSort(s[1..], order), order)
  }

  /** Price classes of a sequence with a known head. */
  lemma {:induction false} WithPriceCons(x: Product, t: seq<Product>, price: real)
    ensures WithPrice([x] + t, price) == (if x.price == price then [x] else []) + WithPrice(t, price)
  {
    assert ([x] + t)[0] == x;
    assert ([x] + t)[1..] == t;
  }

  /** The price class of `price` holds exactly the products of that price. */
  lemma {:induction false} InWithPrice(s: seq<Product>, x: Product, price: real)
    ensures x in WithPrice(s, price) <==> x in s && x.price == price
  {
    FilterMultiset(s, (p: Product) => p.price == price);
    assert multiset(WithPrice(s, price))[x] == if x.price == price then multiset(s)[x] else 0;
  }

  /** Insertion puts `x` at the front of its price class and leaves every
      other class as it was. */
  lemma {:induction false} InsertStable(x: Product, t: seq<Product>, order: PriceOrder, price: real)
    requires SortedBy(t, order)
    ensures WithPrice(Insert(x, t, order), price)
         == (if x.price == price then [x] else []) + WithPrice(t, price)
  {
    if |t| == 0 || Compare(x, t[0], order) <= 0.0 {
      WithPriceCons(x, t, price);
    } else {
      SortedTail(t, order);
      var rest := Insert(x, t[1..], order);
      var cx: seq<Product> := if x.price == price then [x] else [];
      var ct: seq<Product> := if t[0].price == price then [t[0]] else [];
      assert Insert(x, t, order) == [t[0]] + rest;
      assert cx == [] || ct == [];
      calc {
        WithPrice([t[0]] + rest, price);
        { WithPriceCons(t[0], rest, price); }
        ct + WithPrice(rest, price);
        { InsertStable(x, t[1..], order, price); }
        ct + (cx + WithPrice(t[1..], price));
        cx + (ct + WithPrice(t[1..], price));
        { WithPriceCons(t[0], t[1..], price); assert [t[0]] + t[1..] == t; }
        cx + WithPrice(t, price);
      }
    }
  }

  /** The sort keeps every price class in its input order. */
  lemma {:induction false} StableSortKeepsClasses(s: seq<Product>, order: PriceOrder, price: real)
    ensures WithPrice(StableSort(s, order), price) == WithPrice(s, price)
  {
    if |s| > 0 {
      var head: seq<Product> := if s[0].price == price then [s[0]] else [];
      calc {
        WithPrice(StableSort(s, order), price);
        WithPrice(Insert(s[0], StableSort(s[1..], order), order), price);
        { InsertStable(s[0], StableSort(s[1..], order), order, price); }
        head + WithPrice(StableSort(s[1..], order), price);
        { StableSortKeepsClasses(s[1..], order, price); }
        head + WithPrice(s[1..], price);
        { WithPriceCons(s[0], s[1..], price); assert [s[0]] + s[1..] == s; }
        WithPrice(s, price);
      }
    }
  }

  /** The stable sort keeps every price class, stated for all prices. */
  lemma {:induction false} StableSortKeepsAllClasses(s: seq<Product>, order: PriceOrder)
    ensures forall v :: WithPrice(StableSort(s, order), v) == WithPrice(s, v)
  {
    forall v
      ensures WithPrice(StableSort(s, order), v) == WithPrice(s, v)
    {
      StableSortKeepsClasses(s, order, v);
    }
  }

  /** Two sorted sequences with the same price classes are equal: sortedness
      and stability determine the result of any stable sort completely. */
  lemma {:induction false} SortedClassesUnique(a: seq<Product>, b: seq<Product>, order: PriceOrder)
    requires SortedBy(a, order) && SortedBy(b, order)
    requires forall v :: WithPrice(a, v) == WithPrice(b, v)
    ensures a == b
    decreases |a|
  {
    if |a| == 0 || |b| == 0 {
      // An element on one side would have an empty price class on the other.
      if |b| > 0 {
        InWithPrice(b, b[0], b[0].price);
      } else if |a| > 0 {
        InWithPrice(a, a[0], a[0].price);
      }
    } else {
      SortedHeadsAgree(a, b, order);
      TailClassesAgree(a, b);
      SortedTail(a, order);
      SortedTail(b, order);
      SortedClassesUnique(a[1..], b[1..], order);
      assert a == [a[0]] + a[1..];
      assert b == [b[0]] + b[1..];
    }
  }

  /** Two non-empty sorted sequences with the same price classes start
      with the same product. */
  lemma {:induction false} SortedHeadsAgree(a: seq<Product>, b: seq<Product>, order: PriceOrder)
    requires |a| > 0 && |b| > 0
    requires SortedBy(a, order) && SortedBy(b, order)
    requires forall v :: WithPrice(a, v) == WithPrice(b, v)
    ensures a[0] == b[0]
  {
    var p := a[0].price;
    InWithPrice(a, a[0], p);
    InWithPrice(b, a[0], p);
    var k :| 0 <= k < |b| && b[k] == a[0];
    assert k == 0 || Compare(b[0], b[k], order) <= 0.0;
    InWithPrice(b, b[0], b[0].price);
    InWithPrice(a, b[0], b[0].price);
    var m :| 0 <= m < |a| && a[m] == b[0];
    assert m == 0 || Compare(a[0], a[m], order) <= 0.0;
    assert b[0].price == p;
    WithPriceCons(a[0], a[1..], p);
    WithPriceCons(b[0], b[1..], p);
    assert a == [a[0]] + a[1..];
    assert b == [b[0]] + b[1..];
  }

  /** Dropping a common head keeps the price classes equal. */
  lemma {:induction false} TailClassesAgree(a: seq<Product>, b: seq<Product>)
    requires |a| > 0 && |b| > 0 && a[0] == b[0]
    requires forall v :: WithPrice(a, v) == WithPrice(b, v)
    ensures forall v :: WithPrice(a[1..], v) == WithPrice(b[1..], v)
  {
    assert a == [a[0]] + a[1..];
    assert b == [b[0]] + b[1..];
    forall v
      ensures WithPrice(a[1..], v) == WithPrice(b[1..], v)
    {
      WithPriceCons(a[0], a[1..], v);
      WithPriceCons(b[0], b[1..], v);
    }
  }

  /** A sequence is the stable sort of `s` exactly when it is sorted by the
      comparator and keeps every price class of `s` in order. */
  lemma {:induction false} StableSortCharacterized(s: seq<Product>, order: PriceOrder, r: seq<Product>)
    ensures r == StableSort(s, order)
        <==> SortedBy(r, order) && forall v :: WithPrice(r, v) == WithPrice(s, v)
  {
    forall v
      ensures WithPrice(StableSort(s, order), v) == WithPrice(s, v)
    {
      StableSortKeepsClasses(s, order, v);
    }
    if SortedBy(r, order) && forall v :: WithPrice(r, v) == WithPrice(s, v) {
      SortedClassesUnique(r, StableSort(s, order), order);
    }
  }

  /** No two products share a price. */
  ghost predicate DistinctPrices(s: seq<Product>) {
    forall i, j :: 0 <= i < j < |s| ==> s[i].price != s[j].price
  }

  /** Without ties every price class holds at most one product. */
  lemma {:induction false} ClassAtMostOne(s: seq<Product>, price: real)
    requires DistinctPrices(s)
    ensures |WithPrice(s, price)| <= 1
  {
    if |s| > 0 {
      var t := s[1..];
      assert DistinctPrices(t) by {
        forall i, j | 0 <= i < j < |t|
          ensures t[i].price != t[j].price
        {
          assert t[i] == s[i + 1] && t[j] == s[j + 1];
        }
      }
      ClassAtMostOne(t, price);
      WithPriceCons(s[0], t, price);
      assert s == [s[0]] + t;
      if s[0].price == price {
        forall k | 0 <= k < |t|
          ensures t[k].price != price
        {
          assert t[k] == s[k + 1];
        }
        // A member of the class would be a later product of the same price.
        if |WithPrice(t, price)| > 0 {
          InWithPrice(t, WithPrice(t, price)[0], price);
        }
      }
    }
  }

  /** Reversing a low-to-high sequence gives a high-to-low one. */
  lemma {:induction false} ReverseSorted(s: seq<Product>)
    requires SortedBy(s, LowToHigh)
    ensures SortedBy(Reverse(s), HighToLow)
  {
    var r := Reverse(s);
    forall i, j | 0 <= i < j < |r|
      ensures Compare(r[i], r[j], HighToLow) <= 0.0
    {
      assert Compare(s[|s| - 1 - j], s[|s| - 1 - i], LowToHigh) <= 0.0;
    }
  }

  /** Without price ties, reversing the low-to-high sort keeps each
      (at most one-element) price class of the input. */
  lemma {:induction false} ReversedSortKeepsClass(s: seq<Product>, price: real)
    requires DistinctPrices(s)
    ensures WithPrice(Reverse(StableSort(s, LowToHigh)), price) == WithPrice(s, price)
  {
    var low := StableSort(s, LowToHigh);
    FilterReverse(low, (p: Product) => p.price == price);
    StableSortKeepsClasses(s, LowToHigh, price);
    ClassAtMostOne(s, price);
    var c := WithPrice(s, price);
    assert Reverse(c) == c;
  }

  /** Without price ties the two orders are each other's reverse. */
  lemma {:induction false} OrdersReverseWithoutTies(s: seq<Product>)
    requires DistinctPrices(s)
    ensures StableSort(s, HighToLow) == Reverse(StableSort(s, LowToHigh))
  {
    var low := StableSort(s, LowToHigh);
    var r := Reverse(low);
    ReverseSorted(low);
    forall v
      ensures WithPrice(r, v) == WithPrice(s, v)
    {
      ReversedSortKeepsClass(s, v);
    }
    StableSortCharacterized(s, HighToLow, r);
  }
}

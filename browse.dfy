/** Browsing the catalog: the search and category filter and the sort of the
    product list. */
module Browse {
  import opened Types
  import opened Text

  /** The values of the sort selector: 'name', 'price-low', 'price-high' and anything else. */
  datatype SortKey = ByName | PriceLow | PriceHigh | Unsorted

  /** The comparator handed to `sort`: negative keeps `a` ahead of `b`, positive
      puts `b` first, and 0 leaves the two as they are. */
  function Compare(a: Product, b: Product, key: SortKey): (c: int)
    ensures key == PriceLow ==> (c < 0 <==> a.price < b.price) && (c == 0 <==> a.price == b.price)
    ensures key == PriceHigh ==> (c < 0 <==> a.price > b.price) && (c == 0 <==> a.price == b.price)
    ensures key == ByName ==> -1 <= c <= 1 && (c == 0 <==> a.title == b.title)
    ensures key == Unsorted ==> c == 0
  {
    match key
    case ByName => LexCompare(a.title, b.title)
    case PriceLow => a.price - b.price
    case PriceHigh => b.price - a.price
    case Unsorted => 0
  }

  /** The comparator lets `a` stay ahead of `b`. */
  predicate InOrder(a: Product, b: Product, key: SortKey) {
    Compare(a, b, key) <= 0
  }

  lemma InOrderTotal(a: Product, b: Product, key: SortKey)
    ensures InOrder(a, b, key) || InOrder(b, a, key)
  {
    if key == ByName {
      LexCompareAntisymmetric(a.title, b.title);
    }
  }

  lemma InOrderTransitive(a: Product, b: Product, c: Product, key: SortKey)
    requires InOrder(a, b, key) && InOrder(b, c, key)
    ensures InOrder(a, c, key)
  {
    if key == ByName {
      LexCompareTransitive(a.title, b.title, c.title);
    }
  }

  predicate Sorted(s: seq<Product>, key: SortKey) {
    forall i, j :: 0 <= i < j < |s| ==> InOrder(s[i], s[j], key)
  }

  /** Put `x` ahead of the first element it may precede. */
  function Insert(x: Product, s: seq<Product>, key: SortKey): (r: seq<Product>)
    ensures multiset(r) == multiset(s) + multiset{x}
  {
    if s == [] then [x]
    else if InOrder(x, s[0], key) then [x] + s
    else
      assert s == [s[0]] + s[1..];
      [s[0]] + Insert(x, s[1..], key)
  }

  /** The stable sort `Array.prototype.sort` performs with the comparator,
      written as an insertion sort: each element goes ahead of the first later
      element it may precede, so elements the comparator ties keep their order. */
  function SortProducts(s: seq<Product>, key: SortKey): (r: seq<Product>)
    ensures multiset(r) == multiset(s)
  {
    if s == [] then []
    else
      assert s == [s[0]] + s[1..];
      Insert(s[0], SortProducts(s[1..], key), key)
  }

  /** `a` may stay ahead of every element of `s`. */
  predicate Precedes(a: Product, s: seq<Product>, key: SortKey) {
    forall j :: 0 <= j < |s| ==> InOrder(a, s[j], key)
  }

  /** A list with a head is sorted when its head may precede the rest and the rest is sorted. */
  lemma SortedCons(h: Product, t: seq<Product>, key: SortKey)
    ensures Sorted([h] + t, key) <==> Precedes(h, t, key) && Sorted(t, key)
  {
    var r := [h] + t;
    if Precedes(h, t, key) && Sorted(t, key) {
      forall i, j | 0 <= i < j < |r| ensures InOrder(r[i], r[j], key) {
        if i == 0 {
          assert r[j] == t[j - 1];
        } else {
          assert r[i] == t[i - 1] && r[j] == t[j - 1];
        }
      }
    }
    if Sorted(r, key) {
      forall j | 0 <= j < |t| ensures InOrder(h, t[j], key) {
        assert r[0] == h && r[j + 1] == t[j];
      }
      forall i, j | 0 <= i < j < |t| ensures InOrder(t[i], t[j], key) {
        assert r[i + 1] == t[i] && r[j + 1] == t[j];
      }
    }
  }

  /** Inserting an element that `a` may precede keeps `a` ahead of the whole list. */
  lemma {:induction false} InsertPrecedes(a: Product, x: Product, s: seq<Product>, key: SortKey)
    requires Precedes(a, s, key) && InOrder(a, x, key)
    ensures Precedes(a, Insert(x, s, key), key)
  {
    var r := Insert(x, s, key);
    if s == [] {
      assert r == [x];
    } else if InOrder(x, s[0], key) {
      assert r == [x] + s;
      forall j | 0 <= j < |r| ensures InOrder(a, r[j], key) {
        if j > 0 {
          assert r[j] == s[j - 1];
        }
      }
    } else {
      InsertPrecedes(a, x, s[1..], key);
      var t := Insert(x, s[1..], key);
      assert r == [s[0]] + t;
      forall j | 0 <= j < |r| ensures InOrder(a, r[j], key) {
        if j > 0 {
          assert r[j] == t[j - 1];
        }
      }
    }
  }

  /** Inserting into a sorted list keeps it sorted. */
  lemma {:induction false} InsertSorted(x: Product, s: seq<Product>, key: SortKey)
    requires Sorted(s, key)
    ensures Sorted(Insert(x, s, key), key)
  {
    if s == [] {
      SortedCons(x, [], key);
    } else {
      assert s == [s[0]] + s[1..];
      SortedCons(s[0], s[1..], key);
      if InOrder(x, s[0], key) {
        forall j | 0 <= j < |s| ensures InOrder(x, s[j], key) {
          if j > 0 {
            InOrderTransitive(x, s[0], s[j], key);
          }
        }
        SortedCons(x, s, key);
      } else {
        InOrderTotal(x, s[0], key);
        InsertSorted(x, s[1..], key);
        InsertPrecedes(s[0], x, s[1..], key);
        SortedCons(s[0], Insert(x, s[1..], key), key);
      }
    }
  }

  /** Sorting leaves the comparator's order between every two elements. */
  lemma {:induction false} SortProductsSorted(s: seq<Product>, key: SortKey)
    ensures Sorted(SortProducts(s, key), key)
  {
    if s != [] {
      SortProductsSorted(s[1..], key);
      InsertSorted(s[0], SortProducts(s[1..], key), key);
    }
  }

  /** A comparator that always answers 0 leaves the list as it is. */
  lemma {:induction false} UnsortedKeepsOrder(s: seq<Product>)
    ensures SortProducts(s, Unsorted) == s
  {
    if s != [] {
      UnsortedKeepsOrder(s[1..]);
      assert s == [s[0]] + s[1..];
    }
  }

  /** A product passes the filter when its lowercased title or description
      contains the lowercased search term and, unless the category filter is
      empty, its category is the selected one. */
  predicate Matches(p: Product, searchTerm: string, category: string) {
    && (Contains(Lower(p.title), searchTerm) || Contains(Lower(p.description), searchTerm))
    && (category == "" || p.category == category)
  }

  /** `products.filter(...)` with that test. */
  function Filtered(products: seq<Product>, searchTerm: string, category: string): (r: seq<Product>)
    ensures forall p :: p in r ==> Matches(p, searchTerm, category)
    ensures forall p :: multiset(r)[p] == if Matches(p, searchTerm, category) then multiset(products)[p] else 0
  {
    if products == [] then []
    else
      assert products == [products[0]] + products[1..];
      (if Matches(products[0], searchTerm, category) then [products[0]] else [])
      + Filtered(products[1..], searchTerm, category)
  }

  /** An empty search term and an empty category keep the whole catalog, in order. */
  lemma {:induction false} EmptyFilterKeepsAll(products: seq<Product>)
    ensures Filtered(products, "", "") == products
  {
    if products != [] {
      ContainsEmpty(Lower(products[0].title));
      EmptyFilterKeepsAll(products[1..]);
      assert products == [products[0]] + products[1..];
    }
  }

  /** `filterProducts`: the search input is lowercased, the catalog filtered,
      and the result sorted by the selected key. */
  function FilterProducts(products: seq<Product>, searchInput: string, category: string, sortBy: SortKey): (r: seq<Product>)
    ensures multiset(r) == multiset(Filtered(products, Lower(searchInput), category))
  {
    SortProducts(Filtered(products, Lower(searchInput), category), sortBy)
  }

  /** What the product list shows: a permutation of the matching products,
      non-decreasing in price for 'price-low', non-increasing for 'price-high',
      by title for 'name', and in catalog order for any other key. */
  lemma FilterProductsSpec(products: seq<Product>, searchInput: string, category: string, sortBy: SortKey)
    ensures multiset(FilterProducts(products, searchInput, category, sortBy))
         == multiset(Filtered(products, Lower(searchInput), category))
    ensures forall p :: p in FilterProducts(products, searchInput, category, sortBy) <==>
      p in products && Matches(p, Lower(searchInput), category)
    ensures sortBy == PriceLow ==> forall i, j :: 0 <= i < j < |FilterProducts(products, searchInput, category, sortBy)| ==>
      FilterProducts(products, searchInput, category, sortBy)[i].price <= FilterProducts(products, searchInput, category, sortBy)[j].price
    ensures sortBy == PriceHigh ==> forall i, j :: 0 <= i < j < |FilterProducts(products, searchInput, category, sortBy)| ==>
      FilterProducts(products, searchInput, category, sortBy)[i].price >= FilterProducts(products, searchInput, category, sortBy)[j].price
    ensures sortBy == ByName ==> forall i, j :: 0 <= i < j < |FilterProducts(products, searchInput, category, sortBy)| ==>
      LexCompare(FilterProducts(products, searchInput, category, sortBy)[i].title,
                 FilterProducts(products, searchInput, category, sortBy)[j].title) <= 0
    ensures sortBy == Unsorted ==> FilterProducts(products, searchInput, category, sortBy) == Filtered(products, Lower(searchInput), category)
  {
    var kept := Filtered(products, Lower(searchInput), category);
    var r := FilterProducts(products, searchInput, category, sortBy);
    SortProductsSorted(kept, sortBy);
    UnsortedKeepsOrder(kept);
    forall p ensures p in r <==> p in products && Matches(p, Lower(searchInput), category) {
      assert p in r <==> p in multiset(r);
      assert p in products <==> p in multiset(products);
    }
    forall i, j | 0 <= i < j < |r| ensures InOrder(r[i], r[j], sortBy) {
    }
  }
}

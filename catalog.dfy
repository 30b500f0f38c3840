/** The catalog: looking products up, deleting, editing and bulk-importing them. */
module Catalog {
  import opened Types
  import opened Text

  /** Index of the first product with this id, as `products.find` and
      `products.findIndex` locate it. */
  function FindProduct(products: seq<Product>, id: int): (r: Option<nat>)
    ensures r.Some? ==> r.value < |products| && products[r.value].id == id
    ensures r.Some? ==> forall k :: 0 <= k < r.value ==> products[k].id != id
    ensures r.None? <==> forall k :: 0 <= k < |products| ==> products[k].id != id
  {
    if products == [] then None
    else if products[0].id == id then Some(0)
    else match FindProduct(products[1..], id)
      case None => None
      case Some(k) => Some(k + 1)
  }

  /** The product `find` returns for this id, if any. */
  function ProductOf(products: seq<Product>, id: int): (r: Option<Product>)
    ensures r.Some? <==> exists k :: 0 <= k < |products| && products[k].id == id
    ensures r.Some? ==> r.value.id == id && r.value in products
  {
    match FindProduct(products, id)
    case None => None
    case Some(k) => Some(products[k])
  }

  /** Two catalogs that agree on the id at every position answer every lookup alike. */
  lemma {:induction false} FindProductSameIds(ps: seq<Product>, qs: seq<Product>, id: int)
    requires |ps| == |qs|
    requires forall k :: 0 <= k < |ps| ==> ps[k].id == qs[k].id
    ensures FindProduct(ps, id) == FindProduct(qs, id)
  {
    if ps != [] && ps[0].id != id {
      FindProductSameIds(ps[1..], qs[1..], id);
    }
  }

  predicate UniqueIds(products: seq<Product>) {
    forall i, j :: 0 <= i < j < |products| ==> products[i].id != products[j].id
  }

  /** `Math.max(...products.map(p => p.id), 0)`. */
  function MaxId(products: seq<Product>): (m: nat)
    ensures forall k :: 0 <= k < |products| ==> products[k].id <= m
    ensures m == 0 || exists k :: 0 <= k < |products| && products[k].id == m
  {
    if products == [] then 0
    else
      var m0 := MaxId(products[..|products| - 1]);
      var last := products[|products| - 1].id;
      if last > m0 then last else m0
  }

  // ---------------------------------------------------------------------------
  // Deleting
  // ---------------------------------------------------------------------------

  /** `products.filter(p => p.id !== id)`. */
  function WithoutProduct(products: seq<Product>, id: int): (r: seq<Product>)
    ensures forall p :: p in r <==> p in products && p.id != id
    ensures |r| <= |products|
  {
    if products == [] then []
    else (if products[0].id != id then [products[0]] else []) + WithoutProduct(products[1..], id)
  }

  /** The filter works piecewise, so the kept products stay in their original order. */
  lemma {:induction false} WithoutProductAppend(a: seq<Product>, b: seq<Product>, id: int)
    ensures WithoutProduct(a + b, id) == WithoutProduct(a, id) + WithoutProduct(b, id)
  {
    if a != [] {
      assert (a + b)[1..] == a[1..] + b;
      WithoutProductAppend(a[1..], b, id);
    } else {
      assert a + b == b;
    }
  }

  /** Deleting an id that is not in the catalog changes nothing. */
  lemma {:induction false} WithoutAbsentProduct(products: seq<Product>, id: int)
    requires forall k :: 0 <= k < |products| ==> products[k].id != id
    ensures WithoutProduct(products, id) == products
  {
    if products != [] {
      WithoutAbsentProduct(products[1..], id);
      assert products == [products[0]] + products[1..];
    }
  }

  /** Deleting twice is deleting once. */
  lemma DeleteIdempotent(products: seq<Product>, id: int)
    ensures WithoutProduct(WithoutProduct(products, id), id) == WithoutProduct(products, id)
  {
    var r := WithoutProduct(products, id);
    forall k | 0 <= k < |r| ensures r[k].id != id {
      assert r[k] in r;
    }
    WithoutAbsentProduct(r, id);
  }

  /** `find` looks at the first product, then searches the rest. */
  lemma ProductOfUnfold(products: seq<Product>, id: int)
    requires products != []
    ensures ProductOf(products, id) ==
      if products[0].id == id then Some(products[0]) else ProductOf(products[1..], id)
  {
  }

  /** Deleting one id leaves the lookup of every other id as it was. */
  lemma {:induction false} DeleteKeepsOtherLookups(products: seq<Product>, id: int, other: int)
    requires other != id
    ensures ProductOf(WithoutProduct(products, id), other) == ProductOf(products, other)
  {
    if products != [] {
      var p0 := products[0];
      var rest := WithoutProduct(products[1..], id);
      var r := WithoutProduct(products, id);
      DeleteKeepsOtherLookups(products[1..], id, other);
      ProductOfUnfold(products, other);
      if p0.id == id {
        assert r == [] + rest;
        assert [] + rest == rest;
      } else {
        assert r == [p0] + rest;
        assert r[0] == p0 && r[1..] == rest;
        ProductOfUnfold(r, other);
      }
    }
  }

  /** Deleting never makes two products share an id. */
  lemma {:induction false} DeleteKeepsUniqueIds(products: seq<Product>, id: int)
    requires UniqueIds(products)
    ensures UniqueIds(WithoutProduct(products, id))
  {
    if products != [] {
      DeleteKeepsUniqueIds(products[1..], id);
      var rest := WithoutProduct(products[1..], id);
      forall k | 0 <= k < |rest| ensures rest[k].id != products[0].id {
        assert rest[k] in products[1..];
        var j :| 0 <= j < |products[1..]| && products[1..][j] == rest[k];
        assert products[j + 1] == rest[k];
      }
    }
  }

  // ---------------------------------------------------------------------------
  // Vendor form: edit and add
  // ---------------------------------------------------------------------------

  /** The vendor form's fields, after the browser has parsed the numbers. */
  datatype ProductForm = ProductForm(
    title: string,
    description: string,
    price: int,
    category: string,
    image: string,
    stock: int)

  const VendorStore := "Your Store"

  /** The placeholder picture for a form submitted without an image at time `now`. */
  function FormImage(now: nat): string {
    "https://picsum.photos/seed/" + NatToString(now) + "/400/300"
  }

  /** The `productData` record built from the form at time `now`. */
  function FormData(form: ProductForm, now: nat): (d: ProductData)
    ensures d.vendor == VendorStore
    ensures d.image != ""
    ensures form.image != "" ==> d.image == form.image
    ensures form.image == "" ==> d.image == FormImage(now)
    ensures d.title == form.title && d.description == form.description
    ensures d.price == form.price && d.category == form.category && d.stock == form.stock
  {
    ProductData(form.title, form.description, form.price, form.category,
                if form.image != "" then form.image else FormImage(now),
                form.stock, VendorStore)
  }

  /** The edit branch: the first product with `editId` takes every field of
      `data` and keeps its id; an unknown id leaves the catalog as it was. */
  function EditProduct(products: seq<Product>, editId: int, data: ProductData): (r: seq<Product>)
    ensures |r| == |products|
    ensures forall k :: 0 <= k < |r| ==> r[k].id == products[k].id
    ensures FindProduct(products, editId).None? ==> r == products
    ensures FindProduct(products, editId).Some? ==>
      r[FindProduct(products, editId).value] == WithData(editId, data)
    ensures forall k :: 0 <= k < |r| && FindProduct(products, editId) != Some(k) ==> r[k] == products[k]
  {
    match FindProduct(products, editId)
    case None => products
    case Some(i) => products[i := WithData(products[i].id, data)]
  }

  /** Editing keeps the ids, so it keeps them distinct and every lookup finds the same position. */
  lemma EditKeepsIds(products: seq<Product>, editId: int, data: ProductData, id: int)
    ensures UniqueIds(products) ==> UniqueIds(EditProduct(products, editId, data))
    ensures FindProduct(EditProduct(products, editId, data), id) == FindProduct(products, id)
  {
    FindProductSameIds(EditProduct(products, editId, data), products, id);
  }

  /** Adding a product whose id is new keeps the ids distinct. */
  lemma AddKeepsUniqueIds(products: seq<Product>, p: Product)
    requires UniqueIds(products)
    requires forall k :: 0 <= k < |products| ==> products[k].id != p.id
    ensures UniqueIds(products + [p])
  {
  }

  // ---------------------------------------------------------------------------
  // Bulk import
  // ---------------------------------------------------------------------------

  /** One element of the parsed array. `null` has no fields to read, so reading
      its title throws; any other element is read as a record, where an absent
      or empty text field is "" and an absent or unparsable number is 0, the
      falsy values the import tests (a number or a string reads as a record
      whose fields are all absent). */
  datatype ImportElement = Element(rec: ProductData) | NullElement

  /** The parsed JSON value handed to the import: an array or anything else. */
  datatype ImportInput = NotAnArray | Records(records: seq<ImportElement>)

  /** The import's outcome: refused for its shape, completed with a count, or
      aborted by the `TypeError` a `null` element raises. */
  datatype ImportResult = ShapeError | Imported(count: nat) | Aborted

  const DefaultCategory := "other"
  const DefaultImportVendor := "Imported Store"
  const DefaultImportStock := 10

  /** Every field of the product is truthy. */
  predicate Complete(p: Product) {
    && p.title != "" && p.description != "" && p.price != 0 && p.category != ""
    && p.image != "" && p.stock != 0 && p.vendor != ""
  }

  function ImportImage(id: nat): string {
    "https://picsum.photos/seed/product-" + NatToString(id) + "/400/300"
  }

  /** The catalog entry made from a record under the given id:
      missing fields fall back to their defaults. */
  function ImportedProduct(rec: ProductData, id: nat): (p: Product)
    ensures p.id == id && p.title == rec.title && p.description == rec.description && p.price == rec.price
    ensures p.category == (if rec.category != "" then rec.category else DefaultCategory)
    ensures p.vendor == (if rec.vendor != "" then rec.vendor else DefaultImportVendor)
    ensures p.stock == (if rec.stock != 0 then rec.stock else DefaultImportStock)
    ensures p.image == (if rec.image != "" then rec.image else ImportImage(id))
    ensures p.category != "" && p.vendor != "" && p.image != "" && p.stock != 0
  {
    Product(id, rec.title, rec.description, rec.price,
            if rec.category != "" then rec.category else DefaultCategory,
            if rec.image != "" then rec.image else ImportImage(id),
            if rec.stock != 0 then rec.stock else DefaultImportStock,
            if rec.vendor != "" then rec.vendor else DefaultImportVendor)
  }

  /** A record is imported when its title, price and description are all truthy;
      these are exactly the records whose product has no empty or zero field. */
  predicate Importable(el: ImportElement)
    ensures el.Element? ==> forall id: nat :: Importable(el) <==> Complete(ImportedProduct(el.rec, id))
  {
    el.Element? && el.rec.title != "" && el.rec.price != 0 && el.rec.description != ""
  }

  /** How many elements the import reads: up to the first `null`, or all of them. */
  function FirstNull(records: seq<ImportElement>): (n: nat)
    ensures n <= |records|
    ensures forall k :: 0 <= k < n ==> records[k].Element?
    ensures n < |records| ==> records[n].NullElement?
  {
    if records == [] || records[0].NullElement? then 0 else FirstNull(records[1..]) + 1
  }

  /** What the import appends after looking at the first `n` elements: the element
      at index `i` contributes the product with id `maxId + i + 1` when it is importable. */
  function ImportedPrefix(records: seq<ImportElement>, maxId: nat, n: nat): seq<Product>
    requires n <= |records|
  {
    if n == 0 then []
    else
      ImportedPrefix(records, maxId, n - 1)
      + (if Importable(records[n - 1]) then [ImportedProduct(records[n - 1].rec, maxId + n)] else [])
  }

  /** Imported ids lie above `maxId`, at most `maxId + n`, and strictly increase
      along the appended products, so no two are equal. */
  lemma {:induction false} ImportedIdsIncrease(records: seq<ImportElement>, maxId: nat, n: nat)
    requires n <= |records|
    ensures forall a :: 0 <= a < |ImportedPrefix(records, maxId, n)| ==>
      maxId < ImportedPrefix(records, maxId, n)[a].id <= maxId + n
    ensures forall a, b :: 0 <= a < b < |ImportedPrefix(records, maxId, n)| ==>
      ImportedPrefix(records, maxId, n)[a].id < ImportedPrefix(records, maxId, n)[b].id
  {
    if n > 0 {
      ImportedIdsIncrease(records, maxId, n - 1);
      var prev := ImportedPrefix(records, maxId, n - 1);
      var r := ImportedPrefix(records, maxId, n);
      var tail := if Importable(records[n - 1]) then [ImportedProduct(records[n - 1].rec, maxId + n)] else [];
      assert r == prev + tail;
      forall a | 0 <= a < |r| ensures maxId < r[a].id <= maxId + n && (a >= |prev| ==> r[a].id == maxId + n) {
        if a < |prev| {
          assert r[a] == prev[a];
        } else {
          assert r[a] == tail[0];
        }
      }
      forall a, b | 0 <= a < b < |r| ensures r[a].id < r[b].id {
        if b < |prev| {
          assert r[a] == prev[a] && r[b] == prev[b];
        } else {
          assert r[a] == prev[a];
        }
      }
    }
  }

  /** Product `p` is what the import makes of the record at index `i`. */
  predicate MadeFrom(records: seq<ImportElement>, maxId: nat, p: Product, i: int) {
    0 <= i < |records| && Importable(records[i]) && p == ImportedProduct(records[i].rec, maxId + i + 1)
  }

  /** Product `p` is made from one of the first `n` records. */
  predicate MadeFromOneOf(records: seq<ImportElement>, maxId: nat, p: Product, n: nat) {
    exists i :: 0 <= i < n && MadeFrom(records, maxId, p, i)
  }

  /** Some product of `r` is made from the record at index `i`. */
  predicate Yields(r: seq<Product>, records: seq<ImportElement>, maxId: nat, i: int) {
    exists a :: 0 <= a < |r| && MadeFrom(records, maxId, r[a], i)
  }

  /** The import appends exactly the importable records, each under id `maxId + i + 1`:
      every appended product is made from an importable record, and every importable
      record gives an appended product. */
  lemma {:induction false} ImportedExactly(records: seq<ImportElement>, maxId: nat, n: nat)
    requires n <= |records|
    ensures forall a :: 0 <= a < |ImportedPrefix(records, maxId, n)| ==>
      MadeFromOneOf(records, maxId, ImportedPrefix(records, maxId, n)[a], n)
    ensures forall i :: 0 <= i < n && Importable(records[i]) ==>
      Yields(ImportedPrefix(records, maxId, n), records, maxId, i)
  {
    var r := ImportedPrefix(records, maxId, n);
    if n > 0 {
      ImportedExactly(records, maxId, n - 1);
      var prev := ImportedPrefix(records, maxId, n - 1);
      var tail := if Importable(records[n - 1]) then [ImportedProduct(records[n - 1].rec, maxId + n)] else [];
      assert r == prev + tail;
      forall a | 0 <= a < |r| ensures MadeFromOneOf(records, maxId, r[a], n) {
        if a < |prev| {
          assert r[a] == prev[a];
          var i :| 0 <= i < n - 1 && MadeFrom(records, maxId, prev[a], i);
          assert MadeFrom(records, maxId, r[a], i);
        } else {
          assert MadeFrom(records, maxId, r[a], n - 1);
        }
      }
      forall i | 0 <= i < n && Importable(records[i]) ensures Yields(r, records, maxId, i) {
        if i < n - 1 {
          var a :| 0 <= a < |prev| && MadeFrom(records, maxId, prev[a], i);
          assert r[a] == prev[a];
          assert MadeFrom(records, maxId, r[a], i);
        } else {
          assert MadeFrom(records, maxId, r[|prev|], i);
        }
      }
    }
  }

  /** What the import appends: exactly the importable records read before the
      first `null`, each under id `maxId + i + 1` for its index `i`. */
  function ImportedAll(records: seq<ImportElement>, maxId: nat): (r: seq<Product>)
    ensures forall a :: 0 <= a < |r| ==> MadeFromOneOf(records, maxId, r[a], FirstNull(records))
    ensures forall i :: 0 <= i < FirstNull(records) && Importable(records[i]) ==> Yields(r, records, maxId, i)
  {
    ImportedExactly(records, maxId, FirstNull(records));
    ImportedPrefix(records, maxId, FirstNull(records))
  }

  /** Importing into a catalog with distinct ids keeps them distinct: every imported
      id is above every existing one. */
  lemma ImportKeepsUniqueIds(products: seq<Product>, records: seq<ImportElement>, n: nat)
    requires UniqueIds(products) && n <= |records|
    ensures UniqueIds(products + ImportedPrefix(records, MaxId(products), n))
    ensures forall a, k :: 0 <= a < |ImportedPrefix(records, MaxId(products), n)| && 0 <= k < |products| ==>
      products[k].id < ImportedPrefix(records, MaxId(products), n)[a].id
  {
    var r := ImportedPrefix(records, MaxId(products), n);
    ImportedIdsIncrease(records, MaxId(products), n);
    var all := products + r;
    forall a, k | 0 <= a < |r| && 0 <= k < |products| ensures products[k].id < r[a].id {
      assert products[k].id <= MaxId(products) < r[a].id;
    }
    forall i, j | 0 <= i < j < |all| ensures all[i].id != all[j].id {
      if j >= |products| && i < |products| {
        assert all[j] == r[j - |products|];
      } else if i >= |products| {
        assert all[i] == r[i - |products|] && all[j] == r[j - |products|];
      }
    }
  }
}

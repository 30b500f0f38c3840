/** The shopping cart: adding a unit, changing a quantity, removing a line,
    and the sums shown for it. */
module Cart {
  import opened Types
  import opened Catalog

  /** Why a cart operation left the cart as it was. */
  datatype Refusal = ProductNotFound | OutOfStock | StockExceeded | NotInCart

  datatype CartUpdate = Updated(cart: seq<CartLine>) | Refused(reason: Refusal)

  /** Index of the first line for this product, as `cart.find` locates it. */
  function FindLine(cart: seq<CartLine>, id: int): (r: Option<nat>)
    ensures r.Some? ==> r.value < |cart| && cart[r.value].productId == id
    ensures r.Some? ==> forall k :: 0 <= k < r.value ==> cart[k].productId != id
    ensures r.None? <==> forall k :: 0 <= k < |cart| ==> cart[k].productId != id
  {
    if cart == [] then None
    else if cart[0].productId == id then Some(0)
    else match FindLine(cart[1..], id)
      case None => None
      case Some(k) => Some(k + 1)
  }

  // ---------------------------------------------------------------------------
  // The cart invariant
  // ---------------------------------------------------------------------------

  /** At most one line per product. */
  predicate UniqueLines(cart: seq<CartLine>) {
    forall i, j :: 0 <= i < j < |cart| ==> cart[i].productId != cart[j].productId
  }

  predicate PositiveQuantities(cart: seq<CartLine>) {
    forall i :: 0 <= i < |cart| ==> cart[i].quantity > 0
  }

  /** No line asks for more than the stock of its product, whenever that product exists. */
  predicate WithinStock(products: seq<Product>, cart: seq<CartLine>) {
    forall i :: 0 <= i < |cart| && ProductOf(products, cart[i].productId).Some? ==>
      cart[i].quantity <= ProductOf(products, cart[i].productId).value.stock
  }

  predicate CartValid(products: seq<Product>, cart: seq<CartLine>) {
    UniqueLines(cart) && PositiveQuantities(cart) && WithinStock(products, cart)
  }

  // ---------------------------------------------------------------------------
  // Sums over the cart
  // ---------------------------------------------------------------------------

  /** The number on the cart badge: `cart.reduce((total, item) => total + item.quantity, 0)`. */
  function Count(cart: seq<CartLine>): (n: int)
    ensures PositiveQuantities(cart) ==> n >= |cart|
  {
    if cart == [] then 0 else Count(cart[..|cart| - 1]) + cart[|cart| - 1].quantity
  }

  /** Units of one product over all lines of the cart. */
  function QtyOf(cart: seq<CartLine>, id: int): int {
    if cart == [] then 0
    else QtyOf(cart[..|cart| - 1], id) + (if cart[|cart| - 1].productId == id then cart[|cart| - 1].quantity else 0)
  }

  /** Both sums split over a concatenation. */
  lemma {:induction false} SumsAppend(a: seq<CartLine>, b: seq<CartLine>, id: int)
    ensures Count(a + b) == Count(a) + Count(b)
    ensures QtyOf(a + b, id) == QtyOf(a, id) + QtyOf(b, id)
    decreases |b|
  {
    if b == [] {
      assert a + b == a;
    } else {
      var b' := b[..|b| - 1];
      assert (a + b)[..|a + b| - 1] == a + b';
      SumsAppend(a, b', id);
    }
  }

  /** With no line for `id`, the cart holds no unit of it. */
  lemma {:induction false} QtyOfAbsent(cart: seq<CartLine>, id: int)
    requires forall k :: 0 <= k < |cart| ==> cart[k].productId != id
    ensures QtyOf(cart, id) == 0
  {
    if cart != [] {
      QtyOfAbsent(cart[..|cart| - 1], id);
    }
  }

  /** In a cart with one line per product, the units of a product are the quantity of its line. */
  lemma {:induction false} QtyOfUnique(cart: seq<CartLine>, i: int)
    requires UniqueLines(cart) && 0 <= i < |cart|
    ensures QtyOf(cart, cart[i].productId) == cart[i].quantity
  {
    var init := cart[..|cart| - 1];
    var id := cart[i].productId;
    if i == |cart| - 1 {
      QtyOfAbsent(init, id);
    } else {
      QtyOfUnique(init, i);
    }
  }

  /** Replacing one line changes the sums by the difference of the two lines. */
  lemma {:induction false} SumsUpdate(cart: seq<CartLine>, i: int, line: CartLine, id: int)
    requires 0 <= i < |cart|
    ensures Count(cart[i := line]) == Count(cart) - cart[i].quantity + line.quantity
    ensures QtyOf(cart[i := line], id) ==
      QtyOf(cart, id) - (if cart[i].productId == id then cart[i].quantity else 0)
                      + (if line.productId == id then line.quantity else 0)
  {
    var c := cart[i := line];
    var init := cart[..|cart| - 1];
    if i == |cart| - 1 {
      assert c[..|c| - 1] == init;
    } else {
      assert c[..|c| - 1] == init[i := line];
      SumsUpdate(init, i, line, id);
    }
  }

  // ---------------------------------------------------------------------------
  // Removing
  // ---------------------------------------------------------------------------

  /** `cart.filter(item => item.productId !== id)`. */
  function RemoveLines(cart: seq<CartLine>, id: int): (r: seq<CartLine>)
    ensures forall l :: l in r <==> l in cart && l.productId != id
    ensures |r| <= |cart|
  {
    if cart == [] then []
    else (if cart[0].productId != id then [cart[0]] else []) + RemoveLines(cart[1..], id)
  }

  /** The filter works piecewise, so the remaining lines keep their order. */
  lemma {:induction false} RemoveLinesAppend(a: seq<CartLine>, b: seq<CartLine>, id: int)
    ensures RemoveLines(a + b, id) == RemoveLines(a, id) + RemoveLines(b, id)
  {
    if a != [] {
      assert (a + b)[1..] == a[1..] + b;
      RemoveLinesAppend(a[1..], b, id);
    } else {
      assert a + b == b;
    }
  }

  /** Removing a product that has no line changes nothing. */
  lemma {:induction false} RemoveAbsent(cart: seq<CartLine>, id: int)
    requires forall k :: 0 <= k < |cart| ==> cart[k].productId != id
    ensures RemoveLines(cart, id) == cart
  {
    if cart != [] {
      RemoveAbsent(cart[1..], id);
      assert cart == [cart[0]] + cart[1..];
    }
  }

  /** Removing twice is removing once. */
  lemma RemoveIdempotent(cart: seq<CartLine>, id: int)
    ensures RemoveLines(RemoveLines(cart, id), id) == RemoveLines(cart, id)
  {
    var r := RemoveLines(cart, id);
    forall k | 0 <= k < |r| ensures r[k].productId != id {
      assert r[k] in r;
    }
    RemoveAbsent(r, id);
  }

  /** Removing drops exactly the units of that product from the badge count,
      and leaves the units of every other product as they were. */
  lemma {:induction false} RemoveLinesSums(cart: seq<CartLine>, id: int, x: int)
    ensures Count(RemoveLines(cart, id)) == Count(cart) - QtyOf(cart, id)
    ensures QtyOf(RemoveLines(cart, id), x) == if x == id then 0 else QtyOf(cart, x)
  {
    if cart != [] {
      var head := if cart[0].productId != id then [cart[0]] else [];
      RemoveLinesSums(cart[1..], id, x);
      SumsAppend(head, RemoveLines(cart[1..], id), x);
      SumsAppend(head, RemoveLines(cart[1..], id), id);
      assert cart == [cart[0]] + cart[1..];
      SumsAppend([cart[0]], cart[1..], x);
      SumsAppend([cart[0]], cart[1..], id);
      assert [cart[0]][..0] == [];
      assert head != [] ==> head[..0] == [];
    }
  }

  /** Removing keeps one line per product. */
  lemma {:induction false} RemoveKeepsUniqueLines(cart: seq<CartLine>, id: int)
    requires UniqueLines(cart)
    ensures UniqueLines(RemoveLines(cart, id))
  {
    if cart != [] {
      assert UniqueLines(cart[1..]) by {
        forall i, j | 0 <= i < j < |cart[1..]| ensures cart[1..][i].productId != cart[1..][j].productId {
          assert cart[1..][i] == cart[i + 1] && cart[1..][j] == cart[j + 1];
        }
      }
      RemoveKeepsUniqueLines(cart[1..], id);
      var rest := RemoveLines(cart[1..], id);
      forall k | 0 <= k < |rest| ensures rest[k].productId != cart[0].productId {
        assert rest[k] in cart[1..];
        var j :| 0 <= j < |cart[1..]| && cart[1..][j] == rest[k];
        assert cart[j + 1] == rest[k];
      }
    }
  }

  /** Removing keeps every quantity positive. */
  lemma RemoveKeepsPositive(cart: seq<CartLine>, id: int)
    requires PositiveQuantities(cart)
    ensures PositiveQuantities(RemoveLines(cart, id))
  {
    var r := RemoveLines(cart, id);
    forall k | 0 <= k < |r| ensures r[k].quantity > 0 {
      assert r[k] in cart;
    }
  }

  /** Removing a line keeps the cart invariant. */
  lemma RemoveKeepsValid(products: seq<Product>, cart: seq<CartLine>, id: int)
    requires CartValid(products, cart)
    ensures CartValid(products, RemoveLines(cart, id))
  {
    RemoveKeepsUniqueLines(cart, id);
    var r := RemoveLines(cart, id);
    forall k | 0 <= k < |r|
      ensures r[k].quantity > 0
      ensures ProductOf(products, r[k].productId).Some? ==> r[k].quantity <= ProductOf(products, r[k].productId).value.stock
    {
      assert r[k] in cart;
      var j :| 0 <= j < |cart| && cart[j] == r[k];
    }
  }

  /** Deleting a product keeps the cart invariant: the lines of the deleted
      product no longer resolve, and every other line sees the same product. */
  lemma DeleteKeepsValid(products: seq<Product>, cart: seq<CartLine>, id: int)
    requires CartValid(products, cart)
    ensures CartValid(WithoutProduct(products, id), cart)
  {
    var rest := WithoutProduct(products, id);
    assert ProductOf(rest, id).None? by {
      forall k | 0 <= k < |rest| ensures rest[k].id != id {
        assert rest[k] in rest;
      }
    }
    forall i | 0 <= i < |cart| && ProductOf(rest, cart[i].productId).Some?
      ensures cart[i].quantity <= ProductOf(rest, cart[i].productId).value.stock
    {
      DeleteKeepsOtherLookups(products, id, cart[i].productId);
    }
  }

  // ---------------------------------------------------------------------------
  // Adding one unit
  // ---------------------------------------------------------------------------

  /** `addToCart`: refuse an unknown product or one whose stock is exactly 0;
      otherwise add one unit to the product's line, or start a line of one,
      unless the line already holds the whole stock. */
  function AddItem(products: seq<Product>, cart: seq<CartLine>, id: int): (r: CartUpdate)
    ensures r == Refused(ProductNotFound) <==> ProductOf(products, id).None?
    ensures r == Refused(OutOfStock) <==> ProductOf(products, id).Some? && ProductOf(products, id).value.stock == 0
    ensures r == Refused(StockExceeded) <==>
      && ProductOf(products, id).Some? && ProductOf(products, id).value.stock != 0
      && FindLine(cart, id).Some?
      && cart[FindLine(cart, id).value].quantity >= ProductOf(products, id).value.stock
    ensures r != Refused(NotInCart)
    ensures r.Updated? && FindLine(cart, id).Some? ==>
      r.cart == cart[FindLine(cart, id).value := CartLine(id, cart[FindLine(cart, id).value].quantity + 1)]
    ensures r.Updated? && FindLine(cart, id).None? ==> r.cart == cart + [CartLine(id, 1)]
  {
    match ProductOf(products, id)
    case None => Refused(ProductNotFound)
    case Some(product) =>
      if product.stock == 0 then Refused(OutOfStock)
      else match FindLine(cart, id)
        case Some(i) =>
          if cart[i].quantity >= product.stock then Refused(StockExceeded)
          else Updated(cart[i := cart[i].(quantity := cart[i].quantity + 1)])
        case None => Updated(cart + [CartLine(id, 1)])
  }

  /** A successful add puts exactly one more unit of that product in the cart
      and leaves every other product's units alone. */
  lemma AddItemSums(products: seq<Product>, cart: seq<CartLine>, id: int, x: int)
    requires AddItem(products, cart, id).Updated?
    ensures Count(AddItem(products, cart, id).cart) == Count(cart) + 1
    ensures QtyOf(AddItem(products, cart, id).cart, x) == QtyOf(cart, x) + (if x == id then 1 else 0)
  {
    match FindLine(cart, id)
    case Some(i) =>
      SumsUpdate(cart, i, CartLine(id, cart[i].quantity + 1), x);
    case None =>
      SumsAppend(cart, [CartLine(id, 1)], x);
      assert [CartLine(id, 1)][..0] == [];
  }

  /** Adding keeps one line per product and every quantity positive, whatever the stock. */
  lemma AddItemKeepsLines(products: seq<Product>, cart: seq<CartLine>, id: int)
    requires AddItem(products, cart, id).Updated?
    ensures UniqueLines(cart) ==> UniqueLines(AddItem(products, cart, id).cart)
    ensures PositiveQuantities(cart) ==> PositiveQuantities(AddItem(products, cart, id).cart)
  {
    var r := AddItem(products, cart, id).cart;
    if UniqueLines(cart) {
      forall a, b | 0 <= a < b < |r| ensures r[a].productId != r[b].productId {
        if b < |cart| {
          assert r[a].productId == cart[a].productId && r[b].productId == cart[b].productId;
        } else {
          assert r[a] == cart[a];
        }
      }
    }
  }

  /** Adding keeps the cart invariant, provided the product's stock is not negative. */
  lemma AddItemKeepsValid(products: seq<Product>, cart: seq<CartLine>, id: int)
    requires CartValid(products, cart)
    requires ProductOf(products, id).Some? ==> ProductOf(products, id).value.stock >= 0
    requires AddItem(products, cart, id).Updated?
    ensures CartValid(products, AddItem(products, cart, id).cart)
  {
    var r := AddItem(products, cart, id).cart;
    AddItemKeepsLines(products, cart, id);
    match FindLine(cart, id)
    case Some(i) =>
      forall k | 0 <= k < |r| && ProductOf(products, r[k].productId).Some?
        ensures r[k].quantity <= ProductOf(products, r[k].productId).value.stock
      {
        if k != i { assert r[k] == cart[k]; }
      }
    case None =>
      forall k | 0 <= k < |r| && ProductOf(products, r[k].productId).Some?
        ensures r[k].quantity <= ProductOf(products, r[k].productId).value.stock
      {
        if k < |cart| { assert r[k] == cart[k]; }
      }
  }

  /** The guard tests `stock === 0` only: a product whose stock has gone negative
      still gets a fresh line of one unit, which exceeds its stock. */
  lemma AddItemNegativeStock()
    ensures var products := [Product(1, "Mug", "Blue mug", 250, "home", "mug.png", -1, "Your Store")];
      && AddItem(products, [], 1) == Updated([CartLine(1, 1)])
      && !WithinStock(products, [CartLine(1, 1)])
  {
    var products := [Product(1, "Mug", "Blue mug", 250, "home", "mug.png", -1, "Your Store")];
    assert FindProduct(products, 1) == Some(0);
    assert ProductOf(products, 1).value.stock == -1;
    assert [CartLine(1, 1)][0].productId == 1;
  }

  // ---------------------------------------------------------------------------
  // Changing a quantity
  // ---------------------------------------------------------------------------

  /** `updateCartQuantity`: with no line or no product nothing happens; a new
      quantity of 0 or less removes the line; one within stock is set exactly;
      one above stock is refused. */
  function UpdateQuantity(products: seq<Product>, cart: seq<CartLine>, id: int, change: int): (r: CartUpdate)
    ensures FindLine(cart, id).None? ==> r == Refused(NotInCart)
    ensures FindLine(cart, id).Some? && ProductOf(products, id).None? ==> r == Refused(ProductNotFound)
    ensures FindLine(cart, id).Some? && ProductOf(products, id).Some? ==>
      var i := FindLine(cart, id).value;
      var q := cart[i].quantity + change;
      && (q <= 0 ==> r == Updated(RemoveLines(cart, id)))
      && (0 < q <= ProductOf(products, id).value.stock ==> r == Updated(cart[i := CartLine(id, q)]))
      && (0 < q && q > ProductOf(products, id).value.stock ==> r == Refused(StockExceeded))
  {
    match FindLine(cart, id)
    case None => Refused(NotInCart)
    case Some(i) =>
      match ProductOf(products, id)
      case None => Refused(ProductNotFound)
      case Some(product) =>
        var newQuantity := cart[i].quantity + change;
        if newQuantity <= 0 then Updated(RemoveLines(cart, id))
        else if newQuantity <= product.stock then Updated(cart[i := cart[i].(quantity := newQuantity)])
        else Refused(StockExceeded)
  }

  /** Changing a quantity keeps one line per product and every quantity positive,
      whatever the stock. */
  lemma UpdateQuantityKeepsLines(products: seq<Product>, cart: seq<CartLine>, id: int, change: int)
    requires UpdateQuantity(products, cart, id, change).Updated?
    ensures UniqueLines(cart) ==> UniqueLines(UpdateQuantity(products, cart, id, change).cart)
    ensures PositiveQuantities(cart) ==> PositiveQuantities(UpdateQuantity(products, cart, id, change).cart)
  {
    var i := FindLine(cart, id).value;
    if cart[i].quantity + change <= 0 {
      if UniqueLines(cart) {
        RemoveKeepsUniqueLines(cart, id);
      }
      if PositiveQuantities(cart) {
        RemoveKeepsPositive(cart, id);
      }
    } else {
      var r := UpdateQuantity(products, cart, id, change).cart;
      if UniqueLines(cart) {
        forall a, b | 0 <= a < b < |r| ensures r[a].productId != r[b].productId {
          assert r[a].productId == cart[a].productId && r[b].productId == cart[b].productId;
        }
      }
    }
  }

  /** Changing a quantity keeps the cart invariant. */
  lemma UpdateQuantityKeepsValid(products: seq<Product>, cart: seq<CartLine>, id: int, change: int)
    requires CartValid(products, cart)
    requires UpdateQuantity(products, cart, id, change).Updated?
    ensures CartValid(products, UpdateQuantity(products, cart, id, change).cart)
  {
    var i := FindLine(cart, id).value;
    if cart[i].quantity + change <= 0 {
      RemoveKeepsValid(products, cart, id);
    } else {
      var r := UpdateQuantity(products, cart, id, change).cart;
      forall k | 0 <= k < |r| && ProductOf(products, r[k].productId).Some?
        ensures r[k].quantity <= ProductOf(products, r[k].productId).value.stock
      {
        if k != i { assert r[k] == cart[k]; }
      }
    }
  }

  // ---------------------------------------------------------------------------
  // The cart total shown before checkout
  // ---------------------------------------------------------------------------

  predicate PricesNonNegative(products: seq<Product>) {
    forall k :: 0 <= k < |products| ==> products[k].price >= 0
  }

  /** `price * quantity` summed over the lines whose product still exists;
      lines of a deleted product are skipped, as the cart view does. */
  function CartTotal(products: seq<Product>, cart: seq<CartLine>): (t: int)
    ensures PricesNonNegative(products) && PositiveQuantities(cart) ==> t >= 0
  {
    if cart == [] then 0
    else
      var last := cart[|cart| - 1];
      CartTotal(products, cart[..|cart| - 1])
      + match ProductOf(products, last.productId)
        case None => 0
        case Some(p) => p.price * last.quantity
  }
}

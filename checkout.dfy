/** Checkout: the stock decrement, the order snapshot and its total, and the
    delivery estimate. */
module Checkout {
  import opened Types
  import opened Text
  import opened Catalog
  import opened Cart

  /** Every line names a product that exists; checkout reads each line's
      product without checking, so it cannot run on a cart without this. */
  predicate LinesResolve(products: seq<Product>, cart: seq<CartLine>) {
    forall i :: 0 <= i < |cart| ==> ProductOf(products, cart[i].productId).Some?
  }

  // ---------------------------------------------------------------------------
  // Stock
  // ---------------------------------------------------------------------------

  /** `product.stock -= quantity` on the product that `find` returns for `id`. */
  function DecrementStock(products: seq<Product>, id: int, qty: int): (r: seq<Product>)
    ensures |r| == |products|
    ensures forall k :: 0 <= k < |r| ==>
      r[k] == products[k].(stock := products[k].stock - if FindProduct(products, id) == Some(k) then qty else 0)
  {
    match FindProduct(products, id)
    case None => products
    case Some(i) => products[i := products[i].(stock := products[i].stock - qty)]
  }

  /** The decrement when the lookup has found position `k`. */
  lemma DecrementFound(products: seq<Product>, id: int, qty: int, k: nat)
    requires FindProduct(products, id) == Some(k)
    ensures DecrementStock(products, id, qty) == products[k := products[k].(stock := products[k].stock - qty)]
  {
  }

  /** The catalog after the checkout loop has gone through the lines of `cart` in order. */
  function StockAfter(products: seq<Product>, cart: seq<CartLine>): (r: seq<Product>)
    ensures |r| == |products|
  {
    if cart == [] then products
    else
      var last := cart[|cart| - 1];
      DecrementStock(StockAfter(products, cart[..|cart| - 1]), last.productId, last.quantity)
  }

  /** Whether position `k` holds the product that lookups of its id find. */
  predicate IsFound(products: seq<Product>, k: int)
    requires 0 <= k < |products|
  {
    FindProduct(products, products[k].id) == Some(k)
  }

  /** Checkout changes stock only: the product that lookups of an id find loses
      every unit of that id in the cart, and every other field and product stays. */
  lemma {:induction false} StockAfterEffect(products: seq<Product>, cart: seq<CartLine>)
    ensures forall k :: 0 <= k < |products| ==>
      StockAfter(products, cart)[k] ==
        products[k].(stock := products[k].stock - if IsFound(products, k) then QtyOf(cart, products[k].id) else 0)
  {
    if cart != [] {
      var init := cart[..|cart| - 1];
      var last := cart[|cart| - 1];
      var before := StockAfter(products, init);
      StockAfterEffect(products, init);
      FindProductSameIds(before, products, last.productId);
      forall k | 0 <= k < |products|
        ensures StockAfter(products, cart)[k] ==
          products[k].(stock := products[k].stock - if IsFound(products, k) then QtyOf(cart, products[k].id) else 0)
      {
        if FindProduct(products, last.productId) == Some(k) {
          assert IsFound(products, k);
        }
        if IsFound(products, k) && last.productId == products[k].id {
          assert FindProduct(products, last.productId) == Some(k);
        }
      }
    }
  }

  /** Checkout changes no id, so a lookup during or after it finds the same position. */
  lemma StockAfterKeepsFind(products: seq<Product>, cart: seq<CartLine>, id: int)
    ensures FindProduct(StockAfter(products, cart), id) == FindProduct(products, id)
  {
    forall k | 0 <= k < |products| ensures StockAfter(products, cart)[k].id == products[k].id {
      StockAfterKeepsFields(products, cart, k);
    }
    FindProductSameIds(StockAfter(products, cart), products, id);
  }

  /** A product with no line in the cart comes out of checkout unchanged. */
  lemma CheckoutSparesOthers(products: seq<Product>, cart: seq<CartLine>, k: int)
    requires 0 <= k < |products|
    requires forall j :: 0 <= j < |cart| ==> cart[j].productId != products[k].id
    ensures StockAfter(products, cart)[k] == products[k]
  {
    StockAfterEffect(products, cart);
    QtyOfAbsent(cart, products[k].id);
  }

  /** With distinct product ids and one line per product, each product in the cart
      loses exactly the quantity of its line. */
  lemma CheckoutTakesLineQuantity(products: seq<Product>, cart: seq<CartLine>, k: int, j: int)
    requires UniqueIds(products) && UniqueLines(cart)
    requires 0 <= k < |products| && 0 <= j < |cart| && cart[j].productId == products[k].id
    ensures StockAfter(products, cart)[k].stock == products[k].stock - cart[j].quantity
  {
    StockAfterEffect(products, cart);
    QtyOfUnique(cart, j);
    assert IsFound(products, k);
  }

  /** If every line asked for no more than its product's stock, no stock that was
      non-negative becomes negative. */
  lemma CheckoutKeepsStockNonNegative(products: seq<Product>, cart: seq<CartLine>)
    requires UniqueLines(cart) && WithinStock(products, cart)
    ensures forall k :: 0 <= k < |products| && products[k].stock >= 0 ==> StockAfter(products, cart)[k].stock >= 0
  {
    StockAfterEffect(products, cart);
    forall k | 0 <= k < |products| && products[k].stock >= 0 && IsFound(products, k)
      ensures QtyOf(cart, products[k].id) <= products[k].stock
    {
      var id := products[k].id;
      if j :| 0 <= j < |cart| && cart[j].productId == id {
        QtyOfUnique(cart, j);
        assert ProductOf(products, id) == Some(products[k]);
      } else {
        QtyOfAbsent(cart, id);
      }
    }
  }

  /** Deleting a product leaves its cart lines behind: a valid cart can stop
      resolving, and checkout cannot run on it. */
  lemma DeleteStrandsCartLines()
    ensures var products := [Product(5, "Pen", "Gel pen", 120, "office", "pen.png", 3, "Your Store")];
      && CartValid(products, [CartLine(5, 2)])
      && LinesResolve(products, [CartLine(5, 2)])
      && !LinesResolve(WithoutProduct(products, 5), [CartLine(5, 2)])
  {
    var products := [Product(5, "Pen", "Gel pen", 120, "office", "pen.png", 3, "Your Store")];
    assert FindProduct(products, 5) == Some(0);
    assert WithoutProduct(products, 5) == [];
    assert [CartLine(5, 2)][0].productId == 5;
  }

  /** In a catalog of two products with different ids, the second is found by
      its id, and deleting it leaves the first alone. */
  lemma SecondOfTwo(a: Product, b: Product)
    requires a.id != b.id
    ensures ProductOf([a, b], b.id) == Some(b)
    ensures WithoutProduct([a, b], b.id) == [a]
  {
    assert [a, b][1..] == [b];
    assert FindProduct([b], b.id) == Some(0);
    assert WithoutProduct([b], b.id) == [];
  }

  /** A cart of one positive line for a product that is found is valid
      exactly when the line is within that product's stock. */
  lemma SingleLine(products: seq<Product>, p: Product, q: int)
    requires ProductOf(products, p.id) == Some(p) && q > 0
    ensures CartValid(products, [CartLine(p.id, q)]) <==> q <= p.stock
    ensures WithinStock(products, [CartLine(p.id, q)]) <==> q <= p.stock
  {
    assert [CartLine(p.id, q)][0].productId == p.id;
  }

  /** Importing a single importable record appends its product under `base + 1`. */
  lemma ImportOne(rec: ProductData, base: nat)
    requires Importable(Element(rec))
    ensures ImportedAll([Element(rec)], base) == [ImportedProduct(rec, base + 1)]
  {
    var records := [Element(rec)];
    assert FirstNull(records[1..]) == 0;
    assert ImportedPrefix(records, base, 1) == ImportedPrefix(records, base, 0) + [ImportedProduct(rec, base + 1)];
  }

  /** The import's id base is the largest id of the catalog as it is now, so an
      import after a deletion can hand out the deleted id again: when the
      deleted product had the next id after the one that stays, the first
      imported record gets that id, and a cart line left over from the deleted
      product attaches to the imported one, whose stock it may exceed. */
  lemma ImportReusesDeletedId(kept: Product, deleted: Product, rec: ProductData, q: int)
    requires 0 <= kept.id && deleted.id == kept.id + 1
    requires Importable(Element(rec))
    requires 0 < q <= deleted.stock && ImportedProduct(rec, deleted.id).stock < q
    ensures CartValid([kept, deleted], [CartLine(deleted.id, q)])
    ensures WithoutProduct([kept, deleted], deleted.id) + ImportedAll([Element(rec)], MaxId([kept]))
         == [kept, ImportedProduct(rec, deleted.id)]
    ensures !WithinStock([kept, ImportedProduct(rec, deleted.id)], [CartLine(deleted.id, q)])
  {
    var made := ImportedProduct(rec, deleted.id);
    SecondOfTwo(kept, deleted);
    SecondOfTwo(kept, made);
    SingleLine([kept, deleted], deleted, q);
    SingleLine([kept, made], made, q);
    assert MaxId([kept]) == kept.id by {
      assert [kept][..0] == [];
    }
    ImportOne(rec, kept.id);
  }

  /** Checkout does not re-check stock: a line that asks for more than the
      product now holds drives its stock below zero. */
  lemma CheckoutStaleCartOversells()
    ensures var products := [Product(3, "Lamp", "Desk lamp", 1500, "home", "lamp.png", 2, "Your Store")];
      && LinesResolve(products, [CartLine(3, 4)])
      && StockAfter(products, [CartLine(3, 4)])[0].stock == -2
  {
    var products := [Product(3, "Lamp", "Desk lamp", 1500, "home", "lamp.png", 2, "Your Store")];
    var cart := [CartLine(3, 4)];
    assert FindProduct(products, 3) == Some(0);
    assert cart[..0] == [];
    assert StockAfter(products, cart) == DecrementStock(products, 3, 4);
  }

  // ---------------------------------------------------------------------------
  // The order
  // ---------------------------------------------------------------------------

  /** The order line for one cart line: the product's title and unit price at
      checkout time, and the line total. */
  function Snapshot(p: Product, line: CartLine): (item: OrderItem)
    ensures item.productId == line.productId && item.quantity == line.quantity
    ensures item.title == p.title && item.price == p.price
    ensures item.total == item.price * item.quantity
  {
    OrderItem(line.productId, p.title, p.price, line.quantity, p.price * line.quantity)
  }

  /** One order line per cart line, in cart order. */
  function OrderItems(products: seq<Product>, cart: seq<CartLine>): (items: seq<OrderItem>)
    requires LinesResolve(products, cart)
    ensures |items| == |cart|
    ensures forall i :: 0 <= i < |cart| ==>
      && items[i].productId == cart[i].productId
      && items[i].quantity == cart[i].quantity
      && items[i].title == ProductOf(products, cart[i].productId).value.title
      && items[i].price == ProductOf(products, cart[i].productId).value.price
      && items[i].total == items[i].price * items[i].quantity
  {
    if cart == [] then []
    else
      var last := cart[|cart| - 1];
      assert forall i :: 0 <= i < |cart| - 1 ==> cart[..|cart| - 1][i] == cart[i];
      OrderItems(products, cart[..|cart| - 1]) + [Snapshot(ProductOf(products, last.productId).value, last)]
  }

  function ItemsTotal(items: seq<OrderItem>): int {
    if items == [] then 0 else ItemsTotal(items[..|items| - 1]) + items[|items| - 1].total
  }

  /** The order total is what the cart showed: the sum of price times quantity
      over the lines. */
  lemma {:induction false} OrderTotalIsCartTotal(products: seq<Product>, cart: seq<CartLine>)
    requires LinesResolve(products, cart)
    ensures ItemsTotal(OrderItems(products, cart)) == CartTotal(products, cart)
  {
    if cart != [] {
      var init := cart[..|cart| - 1];
      assert LinesResolve(products, init) by {
        assert forall i :: 0 <= i < |init| ==> init[i] == cart[i];
      }
      OrderTotalIsCartTotal(products, init);
      var items := OrderItems(products, cart);
      assert items[..|items| - 1] == OrderItems(products, init);
    }
  }

  /** Checkout changes stock only: every product keeps its id, title, price and
      the rest of its fields. */
  lemma {:induction false} StockAfterKeepsFields(products: seq<Product>, cart: seq<CartLine>, k: int)
    requires 0 <= k < |products|
    ensures StockAfter(products, cart)[k] == products[k].(stock := StockAfter(products, cart)[k].stock)
  {
    if cart != [] {
      StockAfterKeepsFields(products, cart[..|cart| - 1], k);
    }
  }

  /** Every prefix of a resolving cart resolves. */
  lemma PrefixResolves(products: seq<Product>, cart: seq<CartLine>, i: int)
    requires LinesResolve(products, cart) && 0 <= i <= |cart|
    ensures LinesResolve(products, cart[..i])
  {
    assert forall j :: 0 <= j < i ==> cart[..i][j] == cart[j];
  }

  /** One round of the checkout loop on the catalog: line `i` decrements the
      catalog as the earlier lines left it. */
  lemma StockAfterStep(products: seq<Product>, cart: seq<CartLine>, i: int)
    requires 0 <= i < |cart|
    ensures StockAfter(products, cart[..i + 1]) ==
      DecrementStock(StockAfter(products, cart[..i]), cart[i].productId, cart[i].quantity)
  {
    assert cart[..i + 1][..i] == cart[..i];
  }

  /** One round of the checkout loop on the order: line `i` adds its snapshot. */
  lemma OrderItemsStep(products: seq<Product>, cart: seq<CartLine>, i: int)
    requires LinesResolve(products, cart) && 0 <= i < |cart|
    ensures LinesResolve(products, cart[..i]) && LinesResolve(products, cart[..i + 1])
    ensures OrderItems(products, cart[..i + 1]) ==
      OrderItems(products, cart[..i]) + [Snapshot(ProductOf(products, cart[i].productId).value, cart[i])]
  {
    PrefixResolves(products, cart, i);
    PrefixResolves(products, cart, i + 1);
    assert cart[..i + 1][..i] == cart[..i];
  }

  lemma ItemsTotalAppend(items: seq<OrderItem>, item: OrderItem)
    ensures ItemsTotal(items + [item]) == ItemsTotal(items) + item.total
  {
    assert (items + [item])[..|items|] == items;
  }

  /** Checkout keeps the ids, so it keeps them distinct. */
  lemma CheckoutKeepsUniqueIds(products: seq<Product>, cart: seq<CartLine>)
    requires UniqueIds(products)
    ensures UniqueIds(StockAfter(products, cart))
  {
    var r := StockAfter(products, cart);
    forall a, b | 0 <= a < b < |r| ensures r[a].id != r[b].id {
      StockAfterKeepsFields(products, cart, a);
      StockAfterKeepsFields(products, cart, b);
    }
  }

  /** The loop of `handleCheckout` over the cart lines: for each line, look the
      product up, add price times quantity to the total, take the quantity off
      the product's stock and record the line's snapshot. */
  method CheckoutLines(products: seq<Product>, cart: seq<CartLine>)
    returns (catalog: seq<Product>, items: seq<OrderItem>, total: int)
    requires LinesResolve(products, cart)
    ensures catalog == StockAfter(products, cart)
    ensures items == OrderItems(products, cart)
    ensures total == CartTotal(products, cart)
  {
    catalog := products;
    items := [];
    total := 0;
    var i := 0;
    while i < |cart|
      invariant 0 <= i <= |cart|
      invariant LinesResolve(products, cart[..i])
      invariant catalog == StockAfter(products, cart[..i])
      invariant items == OrderItems(products, cart[..i])
      invariant total == ItemsTotal(items)
    {
      var item := cart[i];
      OrderItemsStep(products, cart, i);
      StockAfterStep(products, cart, i);
      StockAfterKeepsFind(products, cart[..i], item.productId);
      var k := FindProduct(catalog, item.productId).value;
      StockAfterKeepsFields(products, cart[..i], k);
      var product := catalog[k];
      var itemTotal := product.price * item.quantity;
      total := total + itemTotal;
      DecrementFound(catalog, item.productId, item.quantity, k);
      catalog := catalog[k := product.(stock := product.stock - item.quantity)];
      var orderItem := OrderItem(item.productId, product.title, product.price, item.quantity, itemTotal);
      ItemsTotalAppend(items, orderItem);
      items := items + [orderItem];
      i := i + 1;
    }
    assert cart[..i] == cart;
    OrderTotalIsCartTotal(products, cart);
  }

  /** `showCheckout`: the only place where an empty cart is turned away; otherwise
      it shows the cart total. */
  function CheckoutPreview(products: seq<Product>, cart: seq<CartLine>): (r: Option<int>)
    ensures r.None? <==> cart == []
    ensures r.Some? ==> r.value == CartTotal(products, cart)
  {
    if |cart| == 0 then None else Some(CartTotal(products, cart))
  }

  // ---------------------------------------------------------------------------
  // Ids and delivery estimate
  // ---------------------------------------------------------------------------

  const DayMillis := 86400000

  /** `'ORD' + Date.now()`. */
  function OrderIdFor(now: nat): (id: string)
    ensures |id| > 3 && id[..3] == "ORD"
    ensures forall k :: 3 <= k < |id| ==> '0' <= id[k] <= '9'
    ensures id[3] == '0' ==> now == 0
  {
    "ORD" + NatToString(now)
  }

  /** Orders placed at different milliseconds get different ids. */
  lemma OrderIdsDistinct(t1: nat, t2: nat)
    requires t1 != t2
    ensures OrderIdFor(t1) != OrderIdFor(t2)
  {
    NatToStringInjective(t1, t2);
    assert OrderIdFor(t1)[3..] == NatToString(t1);
    assert OrderIdFor(t2)[3..] == NatToString(t2);
  }

  /** `Math.floor(Math.random() * 3) + 4` for a random number `random` in [0, 1). */
  function EstimatedDays(random: real): (d: int)
    requires 0.0 <= random < 1.0
    ensures 4 <= d <= 6
  {
    (random * 3.0).Floor + 4
  }

  /** The estimate text: `d + '-' + (d + 1) + ' days'`. */
  function EstimatedDelivery(d: nat): (s: string)
    ensures |s| > |NatToString(d)| + 5 && s[|NatToString(d)|] == '-'
    ensures s[..|NatToString(d)|] == NatToString(d)
    ensures s[|s| - 5..] == " days"
  {
    NatToString(d) + "-" + NatToString(d + 1) + " days"
  }

  /** The three estimates a checkout can produce. */
  lemma EstimatedDeliveryTexts(random: real)
    requires 0.0 <= random < 1.0
    ensures EstimatedDelivery(EstimatedDays(random)) in {"4-5 days", "5-6 days", "6-7 days"}
  {
    var d := EstimatedDays(random);
    if d == 4 {
      assert EstimatedDelivery(4) == "4-5 days";
    } else if d == 5 {
      assert EstimatedDelivery(5) == "5-6 days";
    } else {
      assert EstimatedDelivery(6) == "6-7 days";
    }
  }

  // ---------------------------------------------------------------------------
  // The order record
  // ---------------------------------------------------------------------------

  /** The order `handleCheckout` records for the cart: the clock-based id, the
      customer's details, one snapshot per line, the cart total, status
      'processing', and a delivery 4 to 6 days after `now`. */
  function NewOrder(products: seq<Product>, cart: seq<CartLine>, customerName: string,
                    customerEmail: string, customerAddress: string, now: nat, orderDate: string,
                    random: real): (o: Order)
    requires LinesResolve(products, cart)
    requires 0.0 <= random < 1.0
    ensures o.id == OrderIdFor(now) && o.date == orderDate
    ensures o.customerName == customerName && o.customerEmail == customerEmail
    ensures o.customerAddress == customerAddress
    ensures o.items == OrderItems(products, cart)
    ensures o.total == CartTotal(products, cart) && o.total == ItemsTotal(o.items)
    ensures o.status == Processing
    ensures o.estimatedDelivery == EstimatedDelivery(EstimatedDays(random))
    ensures o.deliveryTime == now + EstimatedDays(random) * DayMillis
    ensures now + 4 * DayMillis <= o.deliveryTime <= now + 6 * DayMillis
  {
    OrderTotalIsCartTotal(products, cart);
    var days := EstimatedDays(random);
    Order(OrderIdFor(now), orderDate, customerName, customerEmail, customerAddress,
          OrderItems(products, cart), CartTotal(products, cart), Processing,
          EstimatedDelivery(days), now + days * DayMillis)
  }
}

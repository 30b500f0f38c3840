/** The storefront object: the catalog, the cart and the two order ledgers,
    and the operations that change them in place. */
module Platform {
  import opened Types
  import opened Catalog
  import opened Cart
  import opened Checkout

  /** No product has a negative stock. */
  predicate StockNonNegative(products: seq<Product>) {
    forall k :: 0 <= k < |products| ==> products[k].stock >= 0
  }

  /** The product with this id, if there is one, has a non-negative stock. */
  predicate ProductStockNonNegative(products: seq<Product>, id: int) {
    ProductOf(products, id).Some? ==> ProductOf(products, id).value.stock >= 0
  }

  class ECommercePlatform {
    var products: seq<Product>
    var cart: seq<CartLine>
    var orders: seq<Order>
    var vendorOrders: seq<Order>

    /** The state after the stored collections have been loaded. */
    constructor (products: seq<Product>, cart: seq<CartLine>, orders: seq<Order>, vendorOrders: seq<Order>)
      ensures this.products == products && this.cart == cart
      ensures this.orders == orders && this.vendorOrders == vendorOrders
    {
      this.products := products;
      this.cart := cart;
      this.orders := orders;
      this.vendorOrders := vendorOrders;
    }

    /** Add one unit of a product to the cart. The outcome is the one `AddItem`
        describes; a refused add changes nothing. */
    method AddToCart(productId: int) returns (refusal: Option<Refusal>)
      modifies this
      ensures products == old(products) && orders == old(orders) && vendorOrders == old(vendorOrders)
      ensures AddItem(old(products), old(cart), productId).Updated? ==>
        refusal == None && cart == AddItem(old(products), old(cart), productId).cart
      ensures AddItem(old(products), old(cart), productId).Refused? ==>
        refusal == Some(AddItem(old(products), old(cart), productId).reason) && cart == old(cart)
      ensures old(UniqueLines(cart)) ==> UniqueLines(cart)
      ensures old(PositiveQuantities(cart)) ==> PositiveQuantities(cart)
      ensures old(CartValid(products, cart)) && ProductStockNonNegative(products, productId) ==> CartValid(products, cart)
    {
      if AddItem(products, cart, productId).Updated? {
        AddItemKeepsLines(products, cart, productId);
        if CartValid(products, cart) && ProductStockNonNegative(products, productId) {
          AddItemKeepsValid(products, cart, productId);
        }
      }
      var found := FindProduct(products, productId);
      if found.None? {
        return Some(ProductNotFound);
      }
      var product := products[found.value];
      if product.stock == 0 {
        return Some(OutOfStock);
      }
      var existing := FindLine(cart, productId);
      if existing.Some? {
        var i := existing.value;
        if cart[i].quantity >= product.stock {
          return Some(StockExceeded);
        }
        cart := cart[i := cart[i].(quantity := cart[i].quantity + 1)];
      } else {
        cart := cart + [CartLine(productId, 1)];
      }
      refusal := None;
    }

    /** Drop every line of a product from the cart. */
    method RemoveFromCart(productId: int)
      modifies this
      ensures cart == RemoveLines(old(cart), productId)
      ensures products == old(products) && orders == old(orders) && vendorOrders == old(vendorOrders)
      ensures old(UniqueLines(cart)) ==> UniqueLines(cart)
      ensures old(PositiveQuantities(cart)) ==> PositiveQuantities(cart)
      ensures old(CartValid(products, cart)) ==> CartValid(products, cart)
    {
      if UniqueLines(cart) {
        RemoveKeepsUniqueLines(cart, productId);
      }
      if PositiveQuantities(cart) {
        RemoveKeepsPositive(cart, productId);
      }
      if CartValid(products, cart) {
        RemoveKeepsValid(products, cart, productId);
      }
      cart := RemoveLines(cart, productId);
    }

    /** Change the quantity of a product's line by `change`, as `UpdateQuantity`
        describes: a result of 0 or less removes the line. */
    method UpdateCartQuantity(productId: int, change: int) returns (refusal: Option<Refusal>)
      modifies this
      ensures products == old(products) && orders == old(orders) && vendorOrders == old(vendorOrders)
      ensures UpdateQuantity(old(products), old(cart), productId, change).Updated? ==>
        refusal == None && cart == UpdateQuantity(old(products), old(cart), productId, change).cart
      ensures UpdateQuantity(old(products), old(cart), productId, change).Refused? ==>
        refusal == Some(UpdateQuantity(old(products), old(cart), productId, change).reason) && cart == old(cart)
      ensures old(UniqueLines(cart)) ==> UniqueLines(cart)
      ensures old(PositiveQuantities(cart)) ==> PositiveQuantities(cart)
      ensures old(CartValid(products, cart)) ==> CartValid(products, cart)
    {
      if UpdateQuantity(products, cart, productId, change).Updated? {
        UpdateQuantityKeepsLines(products, cart, productId, change);
        if CartValid(products, cart) {
          UpdateQuantityKeepsValid(products, cart, productId, change);
        }
      }
      var item := FindLine(cart, productId);
      var product := ProductOf(products, productId);
      if item.None? {
        return Some(NotInCart);
      }
      if product.None? {
        return Some(ProductNotFound);
      }
      var i := item.value;
      var newQuantity := cart[i].quantity + change;
      if newQuantity <= 0 {
        RemoveFromCart(productId);
        refusal := None;
      } else if newQuantity <= product.value.stock {
        cart := cart[i := cart[i].(quantity := newQuantity)];
        refusal := None;
      } else {
        refusal := Some(StockExceeded);
      }
    }

    /** Place the order for the whole cart. Each line's product loses the line's
        quantity, the order records a snapshot of every line and the cart total,
        the same order goes to both ledgers, and the cart is emptied. `now` is
        the clock in milliseconds, `orderDate` its ISO text and `random` the
        draw in [0, 1) that picks the delivery estimate. */
    method HandleCheckout(customerName: string, customerEmail: string, customerAddress: string,
                          now: nat, orderDate: string, random: real) returns (order: Order)
      requires LinesResolve(products, cart)
      requires 0.0 <= random < 1.0
      modifies this
      ensures products == StockAfter(old(products), old(cart))
      ensures order == NewOrder(old(products), old(cart), customerName, customerEmail, customerAddress,
                                now, orderDate, random)
      ensures orders == old(orders) + [order] && vendorOrders == old(vendorOrders) + [order]
      ensures cart == []
      ensures old(UniqueIds(products)) ==> UniqueIds(products)
      ensures old(CartValid(products, cart)) && old(StockNonNegative(products)) ==> StockNonNegative(products)
    {
      var catalog, orderItems, total := CheckoutLines(products, cart);
      if UniqueIds(products) {
        CheckoutKeepsUniqueIds(products, cart);
      }
      if CartValid(products, cart) && StockNonNegative(products) {
        CheckoutKeepsStockNonNegative(products, cart);
      }
      var estimatedDays := EstimatedDays(random);
      order := Order(OrderIdFor(now), orderDate, customerName, customerEmail, customerAddress, orderItems, total,
                     Processing, EstimatedDelivery(estimatedDays), now + estimatedDays * DayMillis);
      products := catalog;
      orders := orders + [order];
      vendorOrders := vendorOrders + [order];
      cart := [];
    }

    /** Bulk import. Anything but an array is refused and changes nothing; from
        an array, every record with a title, a non-zero price and a description
        becomes a product with id `maxId + index + 1`, appended in order. A `null`
        element aborts the import with the products read before it already appended. */
    method ProcessImportedProducts(input: ImportInput) returns (result: ImportResult)
      modifies this
      ensures cart == old(cart) && orders == old(orders) && vendorOrders == old(vendorOrders)
      ensures input.NotAnArray? ==> result == ShapeError && products == old(products)
      ensures input.Records? ==> products == old(products) + ImportedAll(input.records, MaxId(old(products)))
      ensures input.Records? && FirstNull(input.records) == |input.records| ==>
        result == Imported(|ImportedAll(input.records, MaxId(old(products)))|)
      ensures input.Records? && FirstNull(input.records) < |input.records| ==> result == Aborted
      ensures old(UniqueIds(products)) ==> UniqueIds(products)
    {
      if input.NotAnArray? {
        return ShapeError;
      }
      var records := input.records;
      var importedCount := 0;
      var maxId := MaxId(products);
      var index := 0;
      while index < |records|
        invariant 0 <= index <= |records|
        invariant forall k :: 0 <= k < index ==> records[k].Element?
        invariant products == old(products) + ImportedPrefix(records, maxId, index)
        invariant importedCount == |ImportedPrefix(records, maxId, index)|
        invariant cart == old(cart) && orders == old(orders) && vendorOrders == old(vendorOrders)
      {
        if records[index].NullElement? {
          break;
        }
        var product := records[index].rec;
        if product.title != "" && product.price != 0 && product.description != "" {
          products := products + [ImportedProduct(product, maxId + index + 1)];
          importedCount := importedCount + 1;
        }
        index := index + 1;
      }
      assert index == FirstNull(records);
      if UniqueIds(old(products)) {
        ImportKeepsUniqueIds(old(products), records, index);
      }
      if index < |records| {
        return Aborted;
      }
      result := Imported(importedCount);
    }

    /** Delete a product once the vendor has confirmed; its cart lines stay. */
    method DeleteProduct(productId: int, confirmed: bool)
      modifies this
      ensures products == if confirmed then WithoutProduct(old(products), productId) else old(products)
      ensures cart == old(cart) && orders == old(orders) && vendorOrders == old(vendorOrders)
      ensures old(UniqueIds(products)) ==> UniqueIds(products)
      ensures old(CartValid(products, cart)) ==> CartValid(products, cart)
    {
      if confirmed {
        if UniqueIds(products) {
          DeleteKeepsUniqueIds(products, productId);
        }
        if CartValid(products, cart) {
          DeleteKeepsValid(products, cart, productId);
        }
        products := WithoutProduct(products, productId);
      }
    }

    /** The vendor form. With an id being edited, the first product with that id
        takes the form's fields and keeps its id; without one, a product with
        id `now` is appended. */
    method HandleProductSubmit(editId: Option<int>, form: ProductForm, now: nat)
      modifies this
      ensures editId.Some? ==> products == EditProduct(old(products), editId.value, FormData(form, now))
      ensures editId.None? ==> products == old(products) + [WithData(now, FormData(form, now))]
      ensures cart == old(cart) && orders == old(orders) && vendorOrders == old(vendorOrders)
      ensures editId.Some? && old(UniqueIds(products)) ==> UniqueIds(products)
      ensures editId.None? && old(UniqueIds(products)) && old(FindProduct(products, now)).None? ==> UniqueIds(products)
    {
      var productData := FormData(form, now);
      if editId.Some? {
        EditKeepsIds(products, editId.value, productData, editId.value);
        var index := FindProduct(products, editId.value);
        if index.Some? {
          var i := index.value;
          products := products[i := WithData(products[i].id, productData)];
        }
      } else {
        if UniqueIds(products) && FindProduct(products, now).None? {
          AddKeepsUniqueIds(products, WithData(now, productData));
        }
        products := products + [WithData(now, productData)];
      }
    }
  }
}

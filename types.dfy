/** The records the storefront keeps: catalog products, cart lines and orders. */
module Types {

  datatype Option<T> = None | Some(value: T)

  /** A catalog entry. Prices are integers in minor currency units, so that
      `price * quantity` and every sum of them are exact. */
  datatype Product = Product(
    id: int,
    title: string,
    description: string,
    price: int,
    category: string,
    image: string,
    stock: int,
    vendor: string)

  /** The fields a vendor form or an import supplies; a product is these plus an id. */
  datatype ProductData = ProductData(
    title: string,
    description: string,
    price: int,
    category: string,
    image: string,
    stock: int,
    vendor: string)

  /** One cart entry: a product referenced by id, and how many units are wanted. */
  datatype CartLine = CartLine(productId: int, quantity: int)

  /** One order line: a snapshot of the product taken at checkout time. */
  datatype OrderItem = OrderItem(productId: int, title: string, price: int, quantity: int, total: int)

  datatype OrderStatus = Processing | Delivered

  /** A confirmed order. `deliveryTime` is the delivery instant in milliseconds
      since the epoch; the locale-formatted date shown to the user is not modelled. */
  datatype Order = Order(
    id: string,
    date: string,
    customerName: string,
    customerEmail: string,
    customerAddress: string,
    items: seq<OrderItem>,
    total: int,
    status: OrderStatus,
    estimatedDelivery: string,
    deliveryTime: int)

  /** Replace every field but the id, as `{ ...product, ...data }` does. */
  function WithData(id: int, data: ProductData): Product {
    Product(id, data.title, data.description, data.price, data.category, data.image, data.stock, data.vendor)
  }
}

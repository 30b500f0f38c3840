# Cart, stock and order bookkeeping of the storefront

This project is a Dafny model of the core of the `ECommercePlatform` class in
`script.js`: the product catalog, the shopping cart, and the two order ledgers
(the customer's `orders` and the vendor's `vendorOrders`). It covers the
operations that change them. Customers add a unit to the cart, change a line's
quantity, remove a line and check out. Vendors add or edit a product through
the product form, delete a product and bulk-import products. The model also
covers the two pure views over the state: the filtered and sorted product list
and the cart badge count.

The modules mirror that structure:

- `Types` holds the records: product, product data (what the product form or an import record supplies), cart line, order line and order.
- `Text` holds the string operations the code relies on: `toLowerCase`,
  `includes`, the decimal rendering of numbers, and the title comparison used
  for sorting.
- `Catalog` covers lookup by id (the first match, as `find` and `findIndex`
  return it), deletion, the edit and add branches of the product form, and the
  bulk import.
- `Cart` covers adding a unit, changing a quantity, removing a line, the badge
  count and the cart total. It also defines the cart invariant `CartValid`:
  one line per product, positive quantities, and no line above its product's
  stock.
- `Checkout` covers the stock decrement, the order snapshot and total, the
  order id and the delivery estimate.
- `Browse` covers the search and category filter and the comparator sort of
  the product list.
- `Platform` holds the class `ECommercePlatform`. Its four `seq` fields are
  updated in place by methods whose contracts tie each new state to the
  functions above. Each contract also states which invariants the method keeps.

Prices, stock and quantities are integers. Prices are in minor units. The
clock (`Date.now()`, the ISO date) and the random draw (`Math.random()`) are
parameters of the methods that use them. The vendor's `confirm()` answer is a
parameter of `DeleteProduct`.

The model keeps the code's edge cases, and lemmas exhibit them:

- Checkout does not re-check stock and does not refuse an empty cart. An empty
  cart is turned away only by the checkout dialog (`CheckoutPreview`). A cart
  line asking for more than the current stock drives that stock below zero
  (`Checkout.CheckoutStaleCartOversells`).
- Checkout reads each line's product without checking that it exists, so
  `HandleCheckout` requires every line to resolve (`LinesResolve`). Deleting a
  product leaves its cart lines behind, so a valid cart can stop resolving
  (`Checkout.DeleteStrandsCartLines`). The page cannot remove such a line: the
  cart view and the checkout dialog skip it (script.js:1175, 1219), and
  `updateCartQuantity` returns early without a product (script.js:1127). Every
  checkout then throws at script.js:1256. By then, the lines ahead of the
  stranded one have already lowered their products' stock in memory
  (script.js:1260). No order is created and the cart stays, the next save
  stores the lowered stocks, and each retry lowers them again. The model
  leaves this failing run out by requiring `LinesResolve`.
- The import's id base is the largest id of the current catalog
  (script.js:647), so imported ids are fresh only against the products present
  now. After a deletion, an import can reuse the deleted id, and a stranded
  cart line then attaches to the imported product
  (`Checkout.ImportReusesDeletedId`).
- The add guard tests `stock === 0` only, so a product whose stock has gone
  negative still gets a new line of one unit (`Cart.AddItemNegativeStock`). For
  that reason the proof that adding keeps the cart invariant assumes the added
  product's stock is not negative. One line per product and positive
  quantities are kept by every cart operation with no condition on stock
  (`Cart.AddItemKeepsLines`, `Cart.UpdateQuantityKeepsLines`,
  `Cart.RemoveKeepsUniqueLines`, `Cart.RemoveKeepsPositive`). This matters
  because an edit of the product form can lower a stock below a cart line, so
  carts that exceed stock are reachable.
- A `null` element of an imported array makes reading its title throw. The
  products read before it stay appended in memory, nothing is saved, and the
  import dialog reports invalid JSON. The model reads elements up to the first
  `null` (`Catalog.FirstNull`) and ends the import with `Aborted`.
- Product ids are not assumed distinct: the add branch uses the clock as the
  id. Lookups return the first match. Distinctness of ids (`UniqueIds`) is
  proved to be kept wherever the code keeps it.
- `filterProducts` has no caller in `script.js` as written. The search box,
  category filter and sort selector listeners (script.js:865-871) call
  `handleSearch`, `handleCategoryFilter` and `handleSort`, which the class does
  not define. The modelled list view therefore cannot be reached from the page.

## Model

| member | source | states |
|---|---|---|
| Text.Lower | script.js:1026 | lower-casing keeps the length, maps each character on its own, and leaves no upper-case ASCII letter |
| Text.ContainsIffOccurs | script.js:1031-1032 | `includes` holds exactly when the term occurs at some position of the text |
| Text.ContainsEmpty | script.js:1031 | the empty search term is found in every text |
| Text.NatToString | script.js:1247 | the decimal text of a number is non-empty, all digits, and has no leading zero unless the number is 0 |
| Text.NatToStringRoundTrip | script.js:1247 | reading the decimal text back gives the number |
| Text.NatToStringInjective | script.js:1247 | distinct numbers have distinct decimal texts |
| Text.LexCompare | script.js:1041 | the title comparison answers -1, 0 or 1, and 0 exactly for equal titles |
| Text.LexCompareAntisymmetric | script.js:1041 | swapping the titles negates the comparison |
| Text.LexCompareTransitive | script.js:1041 | "sorts no later than" is transitive |
| Catalog.FindProduct | script.js:1082 | the lookup returns the first position holding the id, and none exactly when no product has it |
| Catalog.ProductOf | script.js:1255 | a product is found exactly when some product has the id; the one found has that id and is in the catalog |
| Catalog.FindProductSameIds | script.js:1255 | catalogs that agree on every id answer every lookup alike |
| Catalog.MaxId | script.js:647 | the id base of an import is at least every id and 0, and is 0 or one of the ids |
| Catalog.WithoutProduct | script.js:1552 | deletion keeps exactly the products with another id |
| Catalog.WithoutProductAppend | script.js:1552 | deletion works piecewise, so the kept products stay in their original order |
| Catalog.WithoutAbsentProduct | script.js:1552 | deleting an id no product has changes nothing |
| Catalog.DeleteIdempotent | script.js:1552 | deleting twice is deleting once |
| Catalog.DeleteKeepsOtherLookups | script.js:1552 | after a deletion, every other id finds the same product as before |
| Catalog.DeleteKeepsUniqueIds | script.js:1552 | deletion keeps the ids distinct |
| Catalog.FormData | script.js:1509-1517 | the form's fields are taken as entered, the vendor is "Your Store", and an empty image becomes the clock-seeded placeholder |
| Catalog.EditProduct | script.js:1519-1525 | the first product with the edited id takes every form field and keeps its id; all other products and the length stay; an unknown id changes nothing |
| Catalog.EditKeepsIds | script.js:1521-1523 | an edit keeps distinct ids distinct and every lookup at the same position |
| Catalog.AddKeepsUniqueIds | script.js:1528-1532 | appending a product whose id is new keeps the ids distinct |
| Catalog.Importable | script.js:650 | a record is imported exactly when the product made from it, under any id, has no empty or zero field; `null` is never imported |
| Catalog.FirstNull | script.js:649-650 | the import reads every element before the first `null`, and stops at that `null` if there is one |
| Catalog.ImportedAll | script.js:649-663 | the import appends exactly the importable records read before the first `null`, each under id base plus its index plus one |
| Catalog.ImportedProduct | script.js:651-660 | an imported product has the given id and the record's title, description and price; category, image, stock and vendor take their defaults exactly when the record leaves them empty or zero |
| Catalog.ImportedIdsIncrease | script.js:647-652 | the imported ids lie above the id base, at most base plus the number of records read, and strictly increase |
| Catalog.ImportedExactly | script.js:649-664 | every appended product is made from an importable record at its index, and every importable record yields its product |
| Catalog.ImportKeepsUniqueIds | script.js:647-663 | an import, complete or aborted, keeps the ids distinct, and every imported id is above every existing id |
| Cart.FindLine | script.js:1095 | the cart lookup returns the first line of the product, and none exactly when there is no such line |
| Cart.Count | script.js:1144 | with positive quantities the badge count is at least the number of lines |
| Cart.RemoveLines | script.js:1117 | removal keeps exactly the lines of other products |
| Cart.RemoveLinesAppend | script.js:1117 | removal works piecewise, so the kept lines stay in order |
| Cart.RemoveAbsent | script.js:1117 | removing a product with no line changes nothing |
| Cart.RemoveIdempotent | script.js:1117 | removing twice is removing once |
| Cart.RemoveLinesSums | script.js:1116-1119 | removal lowers the badge count by exactly the product's units, and leaves every other product's units alone |
| Cart.RemoveKeepsUniqueLines | script.js:1117 | removal keeps one line per product |
| Cart.RemoveKeepsPositive | script.js:1117 | removal keeps every quantity positive |
| Cart.RemoveKeepsValid | script.js:1117 | removal keeps the cart invariant |
| Cart.DeleteKeepsValid | script.js:1552 | deleting a product keeps the cart invariant |
| Cart.AddItem | script.js:1080-1108 | an add is refused as unknown, out of stock (stock exactly 0) or above stock exactly in those cases; otherwise the product's line gains one unit, or a line of one is appended |
| Cart.AddItemSums | script.js:1102-1107 | a successful add raises the badge count by one and only that product's units by one |
| Cart.AddItemKeepsLines | script.js:1095-1107 | an add keeps one line per product and every quantity positive, whatever the stock |
| Cart.AddItemKeepsValid | script.js:1090-1108 | when the added product's stock is non-negative, an add keeps the cart invariant |
| Cart.AddItemNegativeStock | script.js:1090 | a product with stock -1 still gets a line of one unit, which exceeds its stock |
| Cart.UpdateQuantity | script.js:1123-1140 | no line or no product leaves the cart as it is; a new quantity of 0 or less removes the line; one within stock is set exactly; one above stock is refused |
| Cart.UpdateQuantityKeepsLines | script.js:1129-1134 | a quantity change keeps one line per product and every quantity positive, whatever the stock |
| Cart.UpdateQuantityKeepsValid | script.js:1129-1134 | a quantity change keeps the cart invariant |
| Cart.CartTotal | script.js:1171-1177 | the cart total, which skips lines of deleted products, is not negative when prices are not negative and quantities positive |
| Checkout.DecrementStock | script.js:1260 | only the product the lookup finds loses the quantity; every other product and field stays |
| Checkout.StockAfter | script.js:1254-1260 | the checkout loop keeps the catalog's length |
| Checkout.StockAfterEffect | script.js:1254-1260 | after checkout, each product that lookups find has lost every unit of its id in the cart, and nothing else changed |
| Checkout.StockAfterKeepsFields | script.js:1260 | checkout changes stock only |
| Checkout.StockAfterKeepsFind | script.js:1255 | lookups during and after checkout find the same positions as before it |
| Checkout.CheckoutSparesOthers | script.js:1254-1260 | a product without a cart line comes out of checkout unchanged |
| Checkout.CheckoutTakesLineQuantity | script.js:1260 | with distinct ids and one line per product, each product in the cart loses exactly its line's quantity |
| Checkout.CheckoutKeepsStockNonNegative | script.js:1260 | if the cart has one line per product and no line exceeds its product's stock, no non-negative stock goes negative |
| Checkout.CheckoutKeepsUniqueIds | script.js:1260 | checkout keeps the ids distinct |
| Checkout.ImportReusesDeletedId | script.js:647-652 | when the deleted product held the id after the remaining one, an import hands that id to its first record, and a valid line left over from the deleted product then attaches to the imported one and can exceed its stock |
| Checkout.CheckoutStaleCartOversells | script.js:1260 | a line of 4 against a stock of 2 leaves stock -2 |
| Checkout.DeleteStrandsCartLines | script.js:1552 | a valid cart whose product is deleted no longer resolves |
| Checkout.Snapshot | script.js:1262-1268 | an order line copies the cart line's product id and quantity and the product's title and price, and its total is price times quantity |
| Checkout.OrderItems | script.js:1262-1268 | one order line per cart line, in order, with the line's product and quantity, the product's title and price, and price times quantity |
| Checkout.OrderTotalIsCartTotal | script.js:1253-1257 | the order total equals the cart total shown before checkout |
| Checkout.CheckoutLines | script.js:1253-1269 | the checkout loop yields the decremented catalog, the order lines and the cart total |
| Checkout.CheckoutPreview | script.js:1206-1222 | the checkout dialog refuses exactly the empty cart and otherwise shows the cart total |
| Checkout.OrderIdFor | script.js:1247 | an order id is "ORD" followed by decimal digits, with no leading zero unless the clock reads 0 |
| Checkout.OrderIdsDistinct | script.js:1247 | orders placed at different milliseconds get different ids |
| Checkout.EstimatedDays | script.js:1249 | the estimate is 4, 5 or 6 days |
| Checkout.EstimatedDelivery | script.js:1280 | the estimate text is the digits of the day count, a hyphen, then text ending in " days" |
| Checkout.EstimatedDeliveryTexts | script.js:1280 | the estimate text is "4-5 days", "5-6 days" or "6-7 days" |
| Checkout.NewOrder | script.js:1247-1281 | the order carries the "ORD" clock id, the customer's details, the snapshot lines, a total equal both to the cart total and to the sum of the lines, status 'processing', and a delivery 4 to 6 days after the clock |
| Browse.Compare | script.js:1038-1048 | 'price-low' orders by rising price, 'price-high' by falling price, 'name' by title with 0 only for equal titles, and any other key answers 0 |
| Browse.InOrderTotal | script.js:1038-1048 | of any two products, the comparator lets one stay ahead of the other |
| Browse.InOrderTransitive | script.js:1038-1048 | the comparator's order is transitive for every sort key |
| Browse.SortedCons | script.js:1038-1049 | a list with a head is sorted exactly when the head may precede the rest and the rest is sorted |
| Browse.Insert | script.js:1038 | an insertion adds exactly the one element |
| Browse.InsertPrecedes | script.js:1038 | an insertion keeps a lower bound a lower bound |
| Browse.InsertSorted | script.js:1038 | inserting into a sorted list keeps it sorted |
| Browse.SortProducts | script.js:1038-1049 | sorting is a permutation |
| Browse.SortProductsSorted | script.js:1038-1049 | sorting leaves every two elements in the comparator's order |
| Browse.UnsortedKeepsOrder | script.js:1046-1047 | the default key leaves the list as it is |
| Browse.Filtered | script.js:1030-1035 | the filter keeps exactly the matching products, each as often as in the catalog |
| Browse.EmptyFilterKeepsAll | script.js:1030-1034 | an empty search and an empty category keep the whole catalog in order |
| Browse.FilterProducts | script.js:1025-1049 | the product list is a permutation of the filtered catalog |
| Browse.FilterProductsSpec | script.js:1025-1049 | the product list holds exactly the matching products, sorted up by price, down by price, by title, or in catalog order |
| Platform.ECommercePlatform.constructor | script.js:3-9 | the object holds the loaded catalog, cart and both ledgers |
| Platform.ECommercePlatform.AddToCart | script.js:1080-1114 | the cart becomes what `AddItem` gives or stays with the refusal reported; nothing else changes; one line per product and positive quantities are always kept; the cart invariant is kept when the added product's stock is non-negative |
| Platform.ECommercePlatform.RemoveFromCart | script.js:1116-1121 | the cart loses the product's lines; nothing else changes; one line per product, positive quantities and the cart invariant are each kept |
| Platform.ECommercePlatform.UpdateCartQuantity | script.js:1123-1141 | the cart becomes what `UpdateQuantity` gives or stays with the refusal reported; nothing else changes; one line per product, positive quantities and the cart invariant are each kept |
| Platform.ECommercePlatform.HandleCheckout | script.js:1240-1288 | the catalog loses the cart's units, the order `NewOrder` describes goes to both ledgers, and the cart is emptied; distinct ids are kept, and non-negative stock is kept when the cart was valid (one line per product, positive quantities, each within stock) |
| Platform.ECommercePlatform.ProcessImportedProducts | script.js:640-665 | a non-array changes nothing; otherwise the importable records before the first `null` are appended in order with ids above the id base, and the count is reported, or the import aborts at a `null` with those products kept; distinct ids are kept |
| Platform.ECommercePlatform.DeleteProduct | script.js:1550-1552 | once confirmed the product is deleted, otherwise nothing changes; the cart stays; distinct ids and the cart invariant are kept |
| Platform.ECommercePlatform.HandleProductSubmit | script.js:1504-1534 | with an edited id, the catalog becomes `EditProduct`; otherwise the product with the clock as id is appended; distinct ids are kept when the new id is unused |

## Left out

- The page itself is not modelled: DOM rendering, messages, modals, navigation, animations, login and role switching, and the seeded sample catalog.
- `saveData`/`loadData` and `localStorage` are not modelled. The constructor takes the loaded collections as given.
- Parsing is not modelled. `parseFloat`/`parseInt` of form and import fields and the resulting `NaN` are out; the model receives integer prices and stocks.
- Import records with non-string or non-number fields (nested objects, arrays, booleans) are not modelled. An absent text field is the empty string and an absent number is 0, as JavaScript's truthiness tests see them. A `null` element is modelled; a number or string element reads as a record with every field absent.
- The JSON parse step of the import dialog is left out. Its outcome is the `ImportInput` parameter: an array of records or not an array.
- Text.Lower: `toLowerCase` is modelled on ASCII letters only. Unicode case mapping is left out, and under it the length need not be kept ('İ' lowers to two code units), so the length clause holds only for the ASCII model.
- Browse.Filtered: the search relies on `Text.Lower`, so it shares that ASCII-only restriction.
- Text.LexCompare: `localeCompare` is replaced by a comparison by character code. Locale collation is not modelled.
- Browse.SortProducts: stability of `Array.prototype.sort` is built into the insertion sort, but no lemma states it.
- The source reads the clock separately for the placeholder image seed and the new product's id (script.js:1514 and 1529), and for the order id, the order date and the delivery date (script.js:1247, 1248 and 1250). The model takes one `now` for the image seed and the id, and one `now` for the order id and the delivery instant; the order date is its own parameter. Two readings a millisecond apart are not modelled.
- The delivery date's `toLocaleDateString` text is left out. The order keeps the delivery instant in milliseconds (`deliveryTime`). Day lengths are taken as 24 hours, so daylight-saving shifts are ignored.
- Platform.ECommercePlatform.HandleCheckout: a checkout over a cart with a line whose product was deleted throws part-way, after lowering the stock of the lines ahead of it; the method requires `LinesResolve` and does not model that partial run.
- Checkout.CheckoutLines: the JavaScript mutates the product objects inside `this.products` during the loop; the model updates a local copy of the catalog and stores it when the loop ends. Nothing reads the catalog in between, so the result is the same, but object aliasing is not modelled.
- The edit branch compares ids with loose equality (`p.id == editId`, a string against a number). The model takes the edited id as an integer.
- Orders are not re-sorted by date when the order list is rendered.
- Number formatting with `toFixed(2)` is left out.

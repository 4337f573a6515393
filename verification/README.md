# JoyCity storefront: catalog and cart model

A Dafny model of the logic in `script.js` of the JoyCity marketplace demo.
This is a client-side storefront. It builds a catalog of twenty categories
with fifteen products each, shows category and product pages, and keeps a
shopping cart of `{id, qty}` lines in browser storage through to a mock
checkout.

The model keeps the parts of that file that are logic rather than page glue:

- `Catalog` (`catalog.dfy`): the fixed category list and product
  generation. It covers the price formula, the `slug-i` ids, filtering the
  products by category, and finding a product by id.
- `Decimal` (`decimal.dfy`): renders a sequence number in decimal, as the id
  template does. It also holds the inverse, which is used to prove ids unique.
- `Cart` (`cart.dfy`): the cart as a sequence of lines. It covers
  add-to-cart, remove-from-cart and clearing the cart. The stored value is an
  `Option` of a sequence, and `None` is the absent storage key.
- `Totals` (`totals.dfy`): the totalling loop that the cart page and the
  checkout page share. It has a reference sum, the displayed rows, and how
  the total moves under add and remove. A second, independent view of the
  total weights each catalog price by the quantity held.
- `Views` (`views.dfy`): the data behind the category page, product page,
  cart page and checkout summary. It also has the delivery estimate and the
  submit handler, which clears the cart.
- `Wrappers` (`wrappers.dfy`): the `Option` type.

Random draws are parameters. `Math.floor(Math.random() * 90)` is a
`PriceDraw` in 0..89, and `Math.floor(Math.random() * 5)` is a `DayDraw` in
0..4. Catalog generation therefore becomes a pure function of the category
list and a sequence of 15 draws per category.

Three behaviours of the code are worth stating plainly:

- Prices are `(draw + 10) * 10`, so they run from 100 to 990 in steps of 10.
  The comment next to the formula (script.js:40) says 100 to 1000, but 1000
  is never produced. `Catalog.PriceRange` proves the exact range.
- The cart page shows "cart is empty" exactly when the stored sequence has no
  lines (script.js:148). It does not depend on how many lines resolve to a
  product. A cart that holds only stale ids is listed with no rows and a
  total of 0.
- `JSON.parse` reads the stored cart (script.js:129). A stored value that is
  not valid JSON makes it throw, so that case is not modelled (see Left out).

## Model

| member | source | states |
|---|---|---|
| Catalog.CategoriesWellFormed | script.js:9-31 | The shipped category list has 20 entries with pairwise distinct slugs. |
| Catalog.Price | script.js:40 | A generated price lies between 100 and 990 and is a multiple of 10. |
| Catalog.PriceRange | script.js:40 | The prices that can be drawn are exactly the multiples of 10 from 100 to 990, so 1000 cannot occur. |
| Catalog.ProductIdShape | script.js:39 | An id `${slug}-${i}` begins with the slug, then one '-', then a non-empty run of decimal digits. |
| Decimal.ToNatFromNat | script.js:39 | Reading back the decimal spelling of a sequence number gives the number itself. |
| Decimal.FromNat | script.js:39 | The decimal spelling of a sequence number is a non-empty string of digit characters. |
| Catalog.ParseProductId | script.js:39 | Splitting an id `${slug}-${i}` at its last '-' recovers the slug and the number, whatever the slug contains. |
| Catalog.ProductIdInjective | script.js:39 | Two ids are equal only for the same slug and the same sequence number. |
| Catalog.MakeProductParses | script.js:44-51 | Product i of a category is filed under the category's slug, its id parses back to that slug and i, and its price lies between 100 and 990 in steps of 10. |
| Catalog.CategoryProducts | script.js:38-52 | One category yields exactly 15 products. Product j + 1 has id `slug-(j+1)`, the category's slug, and the price of draw j. |
| Catalog.Generate | script.js:36-54 | Generation yields 15 products per category. Each product's id names its own category and a number in 1..15, its price is a generated price, and its category is the slug of one of the input categories. |
| Catalog.GenerateAt | script.js:37-52 | The product at position 15k + j is product j + 1 of category k: id `slug-(j+1)`, category slug, priced by its own draw. |
| Catalog.GenerateDistinctIds | script.js:36-54 | With distinct slugs, every product id in the generated catalog is unique. |
| Catalog.ShippedCatalog | script.js:9-54 | The shipped catalog holds exactly 300 products with unique ids and prices from 100 to 990 in steps of 10. |
| Catalog.FilterByCategory | script.js:87 | The filtered products are exactly the products whose category is the slug. |
| Catalog.FilterGenerated | script.js:87 | With distinct slugs, filtering the generated catalog by category k's slug gives that category's 15 products in generation order. |
| Catalog.FindProduct | script.js:110 | Find returns the first product with the id, or None exactly when no product has that id. |
| Catalog.FindDistinct | script.js:110 | When ids are unique, looking up any product's id returns that product. |
| Catalog.FindGenerated | script.js:110 | Looking up `slug-i` in the generated catalog returns product i of that category, priced by its draw. |
| Cart.ReadCart | script.js:129 | An absent storage key reads as the empty cart, and a stored cart reads back unchanged. |
| Cart.LineIndex | script.js:130 | The line found is the first line with the id, and nothing is found exactly when no line has the id. |
| Cart.Add | script.js:128-136 | After an add the id has a line. The length grows by one exactly when the id was absent, and the set of ids gains only this id. |
| Cart.AddExisting | script.js:130-132 | When the id is present, its first line gains one unit. The length, the order and every other line stay the same. |
| Cart.AddAbsent | script.js:133-135 | When the id is absent, `{id, qty: 1}` is appended at the end and the prefix is kept. |
| Cart.AddTwiceAbsent | script.js:128-136 | Two successive adds of a new id give a single line with qty 2, not two lines. |
| Cart.AddQty | script.js:128-136 | An add raises the quantity held of the id by exactly one and leaves every other id's quantity alone. |
| Cart.AddPreservesWellFormed | script.js:129-135 | If the cart has one line per id and every qty is at least 1, the same holds after an add. |
| Cart.AddToCart | script.js:128-136 | The stored cart after the whole add holds one more of the id, the same of everything else, and stays well formed. |
| Cart.Remove | script.js:181 | After a remove no line has the id, and the cart is no longer than before. |
| Cart.RemoveMembers | script.js:181 | The lines kept are exactly the lines whose id differs. |
| Cart.RemoveAbsent | script.js:180-181 | Removing an id that the cart does not hold changes nothing. |
| Cart.RemoveIdempotent | script.js:180-181 | Removing the same id twice is the same as removing it once. |
| Cart.RemoveLine | script.js:181 | In a cart with one line per id, removing a line's id deletes exactly that line and keeps the others in order. |
| Cart.RemoveQty | script.js:181 | A remove leaves quantity 0 of the id and every other id's quantity unchanged. |
| Cart.RemovePreservesWellFormed | script.js:181 | One line per id and every qty at least 1 still hold after a remove. |
| Cart.RemoveFromCart | script.js:179-182 | The stored cart after the whole remove holds nothing of the id, the same of everything else, and stays well formed. |
| Cart.ClearCart | script.js:222 | After the storage key is deleted, the cart reads as empty. |
| Totals.ResolvedRows | script.js:153-157 | At most one row per line. Each row belongs to a cart line whose id resolves, with that product's price and the line's qty, and its line total is price * qty. |
| Totals.ResolvedRowsAppend | script.js:152-157 | The rows of two carts joined end to end are the rows of the first followed by the rows of the second, so no line is dropped or reordered. |
| Totals.ResolvedRowsSingle | script.js:154-156 | A single line whose id resolves gives exactly one row with its product's price, the line's qty and their product. A line whose id does not resolve gives no row. |
| Totals.LineTotalMeaning | script.js:154-156 | A line whose id no product has adds 0. With unique ids a line adds its product's price times its qty, and never a negative amount when prices and the qty are non-negative. |
| Totals.CartTotalNonNegative | script.js:152-157 | When every qty is at least 1 and no price is negative, the cart total is not negative. |
| Totals.Tally | script.js:152-157 | The loop builds exactly the rows of the resolvable lines in cart order. Its running total equals the reference sum of line totals and the sum of the rows. |
| Totals.RowsSumToTotal | script.js:153-157 | The displayed line totals add up to the cart total. |
| Totals.StaleCart | script.js:154-155 | A cart whose ids all fail to resolve has no rows and a total of 0. |
| Totals.TotalAfterAdd | script.js:128-136 | An add raises the cart total by the unit price of the id, or by 0 when the id does not resolve. |
| Totals.TotalAfterRemove | script.js:179-182 | A remove lowers the cart total by the quantity held of the id times its unit price. |
| Totals.TotalIsWeighted | script.js:152-157 | With unique product ids, the cart total equals the sum over the catalog of price times the quantity the cart holds of that product. |
| Views.FindCategory | script.js:83 | Find returns a category with that slug, or None exactly when no category has it. |
| Views.DisplayProducts | script.js:79-87 | The page has a title exactly when the slug names a category, and the title is that category's name. Its cards are exactly the products of that category. |
| Views.DisplayProduct | script.js:107-114 | The page shows "not found" exactly when no product has the id. Otherwise it shows a catalog product with that id. |
| Views.CategoryPage | script.js:79-87 | With distinct slugs, category k's page is titled with its name and shows its 15 products in generation order. |
| Views.WomenPage | script.js:79-87 | On the shipped catalog the "women" page is titled "Женщинам" and shows 15 cards with ids women-1 .. women-15 in order. |
| Views.CartPage | script.js:143-157 | The cart page shows the empty message exactly when the stored cart has no lines. Otherwise it lists at most one row per line, and the rows add up to the total shown. |
| Views.LoadCart | script.js:143-157 | The loop-based page load produces the cart page: the empty message exactly when the stored cart has no lines, otherwise the rows of the resolvable lines with the cart total. |
| Views.StaleOnlyCartIsNotEmpty | script.js:148-157 | The cart page for a non-empty cart of only stale ids is a listing with no rows and a total of 0, not the empty message. |
| Views.CheckoutPageInit | script.js:197-212 | The checkout summary has the same rows and total as the cart page, total 0 for an empty or absent cart, and a delivery estimate of 3 to 7 days. |
| Views.DeliveryDays | script.js:233 | The delivery offset is between 3 and 7 days. |
| Views.DeliveryDaysRange | script.js:233 | Every offset from 3 to 7 days can be drawn, and no other. |
| Views.DeliveryOffsetMillis | script.js:234 | The offset added to the current time is a whole number of days, from 3 to 7 days' worth of milliseconds. |
| Views.SubmitOrder | script.js:219-225 | Submitting clears the stored cart entirely, and the confirmation quotes the estimate computed at page load. |
| Views.WomenCartTotal | script.js:152-157 | The cart `[{women-1, qty 2}]` with women-1 priced 300 shows one row with line total 600, and the cart total is 600. |

## Left out

- Rendering: `innerHTML`, `createElement`, `appendChild`, the HTML templates, and the early return when a mount point is missing. The model returns the data each page shows instead (`ProductList`, `ProductPage`, `CartView`, `OrderSummary`). `displayCategories` is only such markup and has no model.
- Product display fields: the product name, the description, and the image URL with its `encodeURIComponent` call are display text, so `Product` keeps only `id`, `category` and `price`.
- `localStorage` and `JSON.parse` / `JSON.stringify`: storage is an `Option` of the cart sequence, and `None` is the absent key. A stored value that is not valid JSON would make `JSON.parse` throw, so it is not modelled. Nor is a stored JSON value that is falsy but not `null`.
- `Math.random`: the draws are parameters whose types bound them (0..89 for prices, 0..4 for delivery days).
- `Date`, the millisecond arithmetic on the current time, and `toLocaleDateString('ru-RU')`: wall-clock time and locale formatting. The model stops at the offset in days and in milliseconds.
- `alert`, `window.location.href` (including `proceedToCheckout`), `preventDefault` and the submit listener: browser side effects. `SubmitOrder` keeps only their effect on the stored cart and the quoted estimate.
- Integer width: JavaScript numbers are doubles. Prices and quantities are modelled as unbounded integers, which is exact for any cart a user can build.

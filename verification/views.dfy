/** The data each page of the storefront shows, without the markup: the
    product list of a category, a product's detail, the cart page and the
    checkout summary with its delivery estimate. */
module Views {
  import opened Wrappers
  import opened Catalog
  import opened Cart
  import opened Totals
  import Decimal

  // ---------------------------------------------------------------------------
  // Category page and product page

  /** A category page: the heading (when the slug names a category) and one
      card per product of that category. */
  datatype ProductList = ProductList(title: Option<string>, cards: seq<Product>)

  /** The first category with the given slug, if any (script.js:83). */
  function FindCategory(cats: seq<Category>, slug: string): (r: Option<Category>)
    ensures r.Some? ==> r.value in cats && r.value.slug == slug
    ensures r.None? <==> forall c :: c in cats ==> c.slug != slug
  {
    if |cats| == 0 then None
    else if cats[0].slug == slug then Some(cats[0])
    else FindCategory(cats[1..], slug)
  }

  /** displayProducts: the title is the category's display name, and the
      cards are exactly the products of that category. */
  function DisplayProducts(cats: seq<Category>, products: seq<Product>, slug: string): (v: ProductList)
    ensures v.title.Some? <==> exists c :: c in cats && c.slug == slug
    ensures v.title.Some? ==> exists c :: c in cats && c.slug == slug && v.title.value == c.name
    ensures forall p :: p in v.cards <==> p in products && p.category == slug
  {
    var title := match FindCategory(cats, slug)
      case Some(c) => Some(c.name)
      case None => None;
    ProductList(title, FilterByCategory(products, slug))
  }

  /** A product page: the "not found" message or the product's detail. */
  datatype ProductPage = NotFound | Detail(product: Product)

  /** displayProduct: "not found" exactly when no product has that id. */
  function DisplayProduct(products: seq<Product>, id: string): (v: ProductPage)
    ensures v.NotFound? <==> forall p :: p in products ==> p.id != id
    ensures v.Detail? ==> v.product in products && v.product.id == id
  {
    match FindProduct(products, id)
    case Some(p) => Detail(p)
    case None => NotFound
  }

  /** With distinct slugs, category k's page is titled with its name and
      shows its fifteen products in generation order. */
  lemma CategoryPage(cats: seq<Category>, draws: seq<PriceDraw>, k: nat)
    requires |draws| == PerCategory * |cats|
    requires DistinctSlugs(cats)
    requires k < |cats|
    ensures PerCategory * k + PerCategory <= |draws|
    ensures DisplayProducts(cats, Generate(cats, draws), cats[k].slug).title == Some(cats[k].name)
    ensures DisplayProducts(cats, Generate(cats, draws), cats[k].slug).cards
            == CategoryProducts(cats[k], draws[PerCategory * k..PerCategory * k + PerCategory])
  {
    FilterGenerated(cats, draws, k);
    FindCategoryDistinct(cats, k);
  }

  lemma {:induction false} FindCategoryDistinct(cats: seq<Category>, k: nat)
    requires DistinctSlugs(cats)
    requires k < |cats|
    ensures FindCategory(cats, cats[k].slug) == Some(cats[k])
    decreases k
  {
    if k > 0 {
      assert cats[0].slug != cats[k].slug;
      FindCategoryDistinct(cats[1..], k - 1);
    }
  }

  /** The category page for "women" on the shipped catalog shows the heading
      "Женщинам" and exactly fifteen cards, women-1 .. women-15 in order. */
  lemma WomenPage(draws: seq<PriceDraw>)
    requires |draws| == PerCategory * |Categories|
    ensures DisplayProducts(Categories, Generate(Categories, draws), "women").title == Some("Женщинам")
    ensures |DisplayProducts(Categories, Generate(Categories, draws), "women").cards| == PerCategory
    ensures forall j :: 0 <= j < PerCategory ==>
              DisplayProducts(Categories, Generate(Categories, draws), "women").cards[j].id
              == ProductId("women", j + 1)
  {
    CategoriesWellFormed();
    var women := Categories[0];
    assert women == Category("Женщинам", "women");
    CategoryPage(Categories, draws, 0);
  }

  // ---------------------------------------------------------------------------
  // Cart page

  /** The cart page: the "cart is empty" message or the rows and the total. */
  datatype CartView = EmptyMessage | Listing(rows: seq<Row>, total: int)

  /** What the cart page shows for a stored cart: the empty message when it
      has no lines, otherwise the rows of its resolvable lines and the total. */
  function CartPage(store: Store, products: seq<Product>): (view: CartView)
    ensures view.EmptyMessage? <==> |ReadCart(store)| == 0
    ensures view.Listing? ==> |view.rows| <= |ReadCart(store)| && SumRows(view.rows) == view.total
  {
    var cart := ReadCart(store);
    RowsSumToTotal(cart, products);
    if |cart| == 0 then EmptyMessage
    else Listing(ResolvedRows(cart, products), CartTotal(cart, products))
  }

  /** loadCart: the empty message appears exactly when the stored cart has no
      lines; otherwise the resolvable lines are listed with their total. */
  method LoadCart(store: Store, products: seq<Product>) returns (view: CartView)
    ensures view == CartPage(store, products)
    ensures view.EmptyMessage? <==> |ReadCart(store)| == 0
    ensures view.Listing? ==> view.rows == ResolvedRows(ReadCart(store), products)
    ensures view.Listing? ==> view.total == CartTotal(ReadCart(store), products)
  {
    var cart := ReadCart(store);
    if |cart| == 0 {
      return EmptyMessage;
    }
    var rows, total := Tally(cart, products);
    view := Listing(rows, total);
  }

  /** A non-empty cart whose ids are all stale is listed with no rows and a
      total of 0 rather than shown as empty. */
  lemma StaleOnlyCartIsNotEmpty(store: Store, products: seq<Product>)
    requires |ReadCart(store)| > 0
    requires forall line :: line in ReadCart(store) ==> FindProduct(products, line.id).None?
    ensures CartPage(store, products) == Listing([], 0)
  {
    StaleCart(ReadCart(store), products);
  }

  // ---------------------------------------------------------------------------
  // Checkout

  /** The random draw behind the delivery estimate (script.js:233): an
      integer in 0..4. */
  type DayDraw = r: int | 0 <= r < 5

  const MillisPerDay: int := 24 * 60 * 60 * 1000

  /** Days until delivery: three more than the draw (script.js:233). */
  function DeliveryDays(r: DayDraw): (d: int)
    ensures 3 <= d <= 7
  {
    r + 3
  }

  /** Every offset from three to seven days can be drawn, and no other. */
  lemma DeliveryDaysRange(d: int)
    ensures (exists r: DayDraw :: DeliveryDays(r) == d) <==> 3 <= d <= 7
  {
    if 3 <= d <= 7 {
      var r: DayDraw := d - 3;
      assert DeliveryDays(r) == d;
    }
  }

  /** The delivery offset added to the current time, in milliseconds: a whole
      number of days between three and seven. */
  function DeliveryOffsetMillis(r: DayDraw): (ms: int)
    ensures 3 * MillisPerDay <= ms <= 7 * MillisPerDay
    ensures ms % MillisPerDay == 0
  {
    DeliveryDays(r) * MillisPerDay
  }

  /** The checkout page before submission: the resolvable lines, the total
      and the delivery estimate in days. */
  datatype OrderSummary = OrderSummary(rows: seq<Row>, total: int, deliveryDays: int)

  /** checkoutPageInit: the same rows and total as the cart page, plus the
      delivery estimate. An empty or absent cart gives a total of 0. */
  method CheckoutPageInit(store: Store, products: seq<Product>, draw: DayDraw) returns (s: OrderSummary)
    ensures s.rows == ResolvedRows(ReadCart(store), products)
    ensures s.total == CartTotal(ReadCart(store), products)
    ensures |ReadCart(store)| == 0 ==> s.total == 0 && s.rows == []
    ensures 3 <= s.deliveryDays <= 7
  {
    var cart := ReadCart(store);
    var rows, total := Tally(cart, products);
    s := OrderSummary(rows, total, DeliveryDays(draw));
  }

  /** What submitting the checkout form leaves behind: the stored cart and
      the delivery estimate quoted in the confirmation. */
  datatype Submitted = Submitted(store: Store, quotedDays: int)

  /** The submit handler: the cart is cleared entirely and the confirmation
      quotes the estimate computed when the page was initialised. */
  function SubmitOrder(s: OrderSummary): (r: Submitted)
    ensures ReadCart(r.store) == []
    ensures r.quotedDays == s.deliveryDays
  {
    Submitted(ClearCart(), s.deliveryDays)
  }

  /** A cart holding two of women-1 priced 300 shows one row 300 x 2 = 600
      and a total of 600 (draw 20 prices the first women's product at 300). */
  lemma WomenCartTotal(draws: seq<PriceDraw>)
    requires |draws| == PerCategory * |Categories|
    requires draws[0] == 20
    ensures ResolvedRows([CartLine("women-1", 2)], Generate(Categories, draws)) == [Row("women-1", 300, 2, 600)]
    ensures CartTotal([CartLine("women-1", 2)], Generate(Categories, draws)) == 600
  {
    var catalog := Generate(Categories, draws);
    FindFirstWomen(draws);
    ResolvedRowsSingle(CartLine("women-1", 2), catalog);
    CartTotalSingle(CartLine("women-1", 2), catalog);
    assert 300 * 2 == 600;
  }

  lemma FindFirstWomen(draws: seq<PriceDraw>)
    requires |draws| == PerCategory * |Categories|
    requires draws[0] == 20
    ensures FindProduct(Generate(Categories, draws), "women-1") == Some(Product("women-1", "women", 300))
  {
    CategoriesWellFormed();
    FindGenerated(Categories, draws, 0, 1);
    assert Categories[0].slug == "women";
    WomenOneId();
  }

  lemma WomenOneId()
    ensures ProductId("women", 1) == "women-1"
  {
    assert Decimal.DigitChar(1) == '1';
    assert Decimal.FromNat(1) == "1";
    assert "women" + "-" + "1" == "women-1";
  }
}

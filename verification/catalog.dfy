/** The in-memory catalog of script.js: the fixed category list, the products
    generated for it, and the two searches the views run over the products. */
module Catalog {
  import opened Wrappers
  import Decimal

  datatype Category = Category(name: string, slug: string)

  /** A generated product. Only the fields the cart logic reads are kept;
      the display name, description and image URL are left out. */
  datatype Product = Product(id: string, category: string, price: int)

  /** Number of products generated for every category. */
  const PerCategory: nat := 15

  /** The random draw behind a price (script.js:40): an integer in 0..89. */
  type PriceDraw = r: int | 0 <= r < 90

  /** The twenty categories the storefront ships with. */
  const Categories: seq<Category> := [
    Category("Женщинам", "women"),
    Category("Мужчинам", "men"),
    Category("Детям", "kids"),
    Category("Обувь", "shoes"),
    Category("Электроника", "electronics"),
    Category("Красота", "beauty"),
    Category("Спорт", "sports"),
    Category("Дом", "home"),
    Category("Игрушки", "toys"),
    Category("Бытовая техника", "appliances"),
    Category("Книги", "books"),
    Category("Для ремонта", "tools"),
    Category("Сад и огород", "garden"),
    Category("Авто", "auto"),
    Category("Подарки", "gifts"),
    Category("Канцтовары", "office"),
    Category("Здоровье", "health"),
    Category("Украшения", "jewelry"),
    Category("Музыка", "music"),
    Category("Товары для животных", "pets")
  ]

  predicate DistinctSlugs(cats: seq<Category>) {
    forall i, j :: 0 <= i < j < |cats| ==> cats[i].slug != cats[j].slug
  }

  predicate DistinctIds(ps: seq<Product>) {
    forall i, j :: 0 <= i < j < |ps| ==> ps[i].id != ps[j].id
  }

  lemma CategoriesWellFormed()
    ensures |Categories| == 20
    ensures DistinctSlugs(Categories)
  {
    // No two shipped slugs share both their first letter and their length.
    forall i, j | 0 <= i < j < |Categories|
      ensures Categories[i].slug != Categories[j].slug
    {
      var a, b := Categories[i].slug, Categories[j].slug;
      assert a[0] != b[0] || |a| != |b|;
    }
  }

  // ---------------------------------------------------------------------------
  // Prices

  /** The generated price: ten more than the draw, times ten (script.js:40). */
  function Price(r: PriceDraw): (p: int)
    ensures 100 <= p <= 990
    ensures p % 10 == 0
  {
    (r + 10) * 10
  }

  /** The prices that can be generated are exactly the multiples of ten from
      100 to 990; in particular 1000 is never produced. */
  lemma PriceRange(p: int)
    ensures (exists r: PriceDraw :: Price(r) == p) <==> (100 <= p <= 990 && p % 10 == 0)
  {
    if 100 <= p <= 990 && p % 10 == 0 {
      var r: PriceDraw := p / 10 - 10;
      assert Price(r) == p;
    }
  }


  // ---------------------------------------------------------------------------
  // Product ids

  /** The id of product i of a category: its slug, a dash, then i in
      decimal (script.js:39). */
  function ProductId(slug: string, i: nat): string {
    slug + "-" + Decimal.FromNat(i)
  }

  /** An id starts with the slug, then a dash, then a non-empty run of decimal digits. */
  lemma ProductIdShape(slug: string, i: nat)
    ensures |slug| + 2 <= |ProductId(slug, i)|
    ensures ProductId(slug, i)[..|slug|] == slug && ProductId(slug, i)[|slug|] == '-'
    ensures Decimal.AllDigits(ProductId(slug, i)[|slug| + 1..])
  {
    assert ProductId(slug, i)[|slug| + 1..] == Decimal.FromNat(i);
  }

  /** Number of decimal digits at the end of s. */
  function TrailingDigits(s: string): (n: nat)
    ensures n <= |s|
  {
    if |s| == 0 || !Decimal.IsDigit(s[|s| - 1]) then 0
    else 1 + TrailingDigits(s[..|s| - 1])
  }

  /** Splits an id at its last '-' into the slug and the sequence number,
      or None when the id does not have that shape. */
  function ParseId(id: string): Option<(string, nat)> {
    var k := TrailingDigits(id);
    if 0 < k < |id| && id[|id| - k - 1] == '-' then
      assert Decimal.AllDigits(id[|id| - k..]) by { TrailingDigitsAreDigits(id); }
      Some((id[..|id| - k - 1], Decimal.ToNat(id[|id| - k..])))
    else None
  }

  lemma {:induction false} TrailingDigitsAreDigits(s: string)
    ensures Decimal.AllDigits(s[|s| - TrailingDigits(s)..])
  {
    if |s| > 0 && Decimal.IsDigit(s[|s| - 1]) {
      var t := s[..|s| - 1];
      TrailingDigitsAreDigits(t);
      var n := TrailingDigits(t);
      assert TrailingDigits(s) == n + 1;
      assert s[|s| - (n + 1)..] == t[|t| - n..] + [s[|s| - 1]];
    }
  }

  lemma {:induction false} TrailingDigitsOfId(prefix: string, d: string)
    requires Decimal.AllDigits(d)
    ensures TrailingDigits(prefix + "-" + d) == |d|
    decreases |d|
  {
    var s := prefix + "-" + d;
    if |d| > 0 {
      var d' := d[..|d| - 1];
      assert s[..|s| - 1] == prefix + "-" + d';
      TrailingDigitsOfId(prefix, d');
    } else {
      assert s[|s| - 1] == '-';
    }
  }

  /** ParseId undoes ProductId, whatever characters the slug holds: the
      sequence number has no '-', so the last '-' is the separator. */
  lemma ParseProductId(slug: string, i: nat)
    ensures ParseId(ProductId(slug, i)) == Some((slug, i))
  {
    var d := Decimal.FromNat(i);
    var id := ProductId(slug, i);
    TrailingDigitsOfId(slug, d);
    assert id[..|id| - |d| - 1] == slug;
    assert id[|id| - |d|..] == d;
    Decimal.ToNatFromNat(i);
  }

  /** Two products get the same id only for the same slug and number. */
  lemma ProductIdInjective(s1: string, i1: nat, s2: string, i2: nat)
    requires ProductId(s1, i1) == ProductId(s2, i2)
    ensures s1 == s2 && i1 == i2
  {
    ParseProductId(s1, i1);
    ParseProductId(s2, i2);
  }

  // ---------------------------------------------------------------------------
  // Generation

  /** The i-th product (counting from 1) of category cat. */
  function MakeProduct(cat: Category, i: nat, r: PriceDraw): Product {
    Product(ProductId(cat.slug, i), cat.slug, Price(r))
  }

  /** Product i of a category is filed under that category's slug, its id
      parses back to the slug and i, and its price is a generated price
      (script.js:44-51). */
  lemma MakeProductParses(cat: Category, i: nat, r: PriceDraw)
    ensures MakeProduct(cat, i, r).category == cat.slug
    ensures ParseId(MakeProduct(cat, i, r).id) == Some((cat.slug, i))
    ensures 100 <= MakeProduct(cat, i, r).price <= 990 && MakeProduct(cat, i, r).price % 10 == 0
  {
    ParseProductId(cat.slug, i);
  }

  /** What every generated product looks like: its id names its own category
      and a number in 1..15, and its price is a generated price. */
  predicate WellFormedProduct(p: Product) {
    && (exists n :: 1 <= n <= PerCategory && p.id == ProductId(p.category, n))
    && 100 <= p.price <= 990
    && p.price % 10 == 0
  }

  /** The fifteen products of one category, numbered 1..15, each priced by
      its own draw. */
  function CategoryProducts(cat: Category, draws: seq<PriceDraw>): (r: seq<Product>)
    requires |draws| == PerCategory
    ensures |r| == PerCategory
    ensures forall j :: 0 <= j < PerCategory ==>
              r[j].id == ProductId(cat.slug, j + 1) && r[j].category == cat.slug
              && r[j].price == Price(draws[j])
  {
    seq(PerCategory, j requires 0 <= j < PerCategory => MakeProduct(cat, j + 1, draws[j]))
  }

  lemma CategoryProductsWellFormed(cat: Category, draws: seq<PriceDraw>)
    requires |draws| == PerCategory
    ensures forall p :: p in CategoryProducts(cat, draws) ==> WellFormedProduct(p) && p.category == cat.slug
    ensures DistinctIds(CategoryProducts(cat, draws))
  {
    var r := CategoryProducts(cat, draws);
    forall j | 0 <= j < PerCategory
      ensures WellFormedProduct(r[j])
    {
      assert r[j].id == ProductId(r[j].category, j + 1);
    }
    forall i, j | 0 <= i < j < PerCategory
      ensures r[i].id != r[j].id
    {
      if r[i].id == r[j].id {
        ProductIdInjective(cat.slug, i + 1, cat.slug, j + 1);
      }
    }
  }

  /** The whole catalog: the products of each category in category order,
      draws[15 * k .. 15 * k + 15] pricing the products of category k. */
  function Generate(cats: seq<Category>, draws: seq<PriceDraw>): (r: seq<Product>)
    requires |draws| == PerCategory * |cats|
    ensures |r| == PerCategory * |cats|
    ensures forall p :: p in r ==> WellFormedProduct(p)
    ensures forall p :: p in r ==> exists k :: 0 <= k < |cats| && cats[k].slug == p.category
    decreases |cats|
  {
    if |cats| == 0 then []
    else
      CategoryProductsWellFormed(cats[0], draws[..PerCategory]);
      var rest := Generate(cats[1..], draws[PerCategory..]);
      assert forall p :: p in rest ==> exists k :: 0 <= k < |cats| && cats[k].slug == p.category by {
        forall p | p in rest
          ensures exists k :: 0 <= k < |cats| && cats[k].slug == p.category
        {
          var k :| 0 <= k < |cats| - 1 && cats[1..][k].slug == p.category;
          assert cats[k + 1].slug == p.category;
        }
      }
      CategoryProducts(cats[0], draws[..PerCategory]) + rest
  }

  /** The product at position 15 * k + j is product j + 1 of category k. */
  lemma {:induction false} GenerateAt(cats: seq<Category>, draws: seq<PriceDraw>, k: nat, j: nat)
    requires |draws| == PerCategory * |cats|
    requires k < |cats| && j < PerCategory
    ensures PerCategory * k + j < |Generate(cats, draws)|
    ensures Generate(cats, draws)[PerCategory * k + j] == MakeProduct(cats[k], j + 1, draws[PerCategory * k + j])
    decreases k
  {
    var head := CategoryProducts(cats[0], draws[..PerCategory]);
    var rest := Generate(cats[1..], draws[PerCategory..]);
    GenerateUnfold(cats, draws);
    if k == 0 {
      assert (head + rest)[j] == head[j];
    } else {
      var m := PerCategory * (k - 1) + j;
      GenerateAt(cats[1..], draws[PerCategory..], k - 1, j);
      assert PerCategory * k + j == |head| + m;
      assert (head + rest)[|head| + m] == rest[m];
      assert cats[1..][k - 1] == cats[k];
      assert draws[PerCategory..][m] == draws[PerCategory * k + j];
    }
  }

  /** With distinct slugs every generated id is unique across the catalog. */
  lemma {:induction false} GenerateDistinctIds(cats: seq<Category>, draws: seq<PriceDraw>)
    requires |draws| == PerCategory * |cats|
    requires DistinctSlugs(cats)
    ensures DistinctIds(Generate(cats, draws))
    decreases |cats|
  {
    if |cats| > 0 {
      var head := CategoryProducts(cats[0], draws[..PerCategory]);
      var rest := Generate(cats[1..], draws[PerCategory..]);
      CategoryProductsWellFormed(cats[0], draws[..PerCategory]);
      GenerateDistinctIds(cats[1..], draws[PerCategory..]);
      var r := Generate(cats, draws);
      assert r == head + rest;
      forall a, b | 0 <= a < b < |r|
        ensures r[a].id != r[b].id
      {
        if a < |head| <= b {
          var p, q := r[a], r[b];
          assert p in head && q in rest;
          var k :| 0 <= k < |cats| - 1 && cats[1..][k].slug == q.category;
          assert cats[0].slug != cats[k + 1].slug;
          var n1 :| 1 <= n1 <= PerCategory && p.id == ProductId(p.category, n1);
          var n2 :| 1 <= n2 <= PerCategory && q.id == ProductId(q.category, n2);
          if p.id == q.id {
            ProductIdInjective(p.category, n1, q.category, n2);
          }
        } else if b < |head| {
          assert r[a] == head[a] && r[b] == head[b];
        } else {
          assert r[a] == rest[a - |head|] && r[b] == rest[b - |head|];
        }
      }
    }
  }

  /** The shipped catalog: 20 categories times 15 products, 300 in all, with
      unique ids and prices 100..990 in steps of ten. */
  lemma ShippedCatalog(draws: seq<PriceDraw>)
    requires |draws| == PerCategory * |Categories|
    ensures |Generate(Categories, draws)| == 300
    ensures DistinctIds(Generate(Categories, draws))
    ensures forall p :: p in Generate(Categories, draws) ==> 100 <= p.price <= 990 && p.price % 10 == 0
  {
    CategoriesWellFormed();
    GenerateDistinctIds(Categories, draws);
  }

  // ---------------------------------------------------------------------------
  // Searches used by the views

  /** The products of one category, in catalog order (script.js:87). */
  function FilterByCategory(ps: seq<Product>, slug: string): (r: seq<Product>)
    ensures |r| <= |ps|
    ensures forall p :: p in r <==> p in ps && p.category == slug
  {
    if |ps| == 0 then []
    else if ps[0].category == slug then [ps[0]] + FilterByCategory(ps[1..], slug)
    else FilterByCategory(ps[1..], slug)
  }

  lemma {:induction false} FilterAppend(a: seq<Product>, b: seq<Product>, slug: string)
    ensures FilterByCategory(a + b, slug) == FilterByCategory(a, slug) + FilterByCategory(b, slug)
    decreases |a|
  {
    if |a| > 0 {
      assert (a + b)[1..] == a[1..] + b;
      FilterAppend(a[1..], b, slug);
    } else {
      assert a + b == b;
    }
  }

  /** Filtering keeps every matching product, in the original order. */
  lemma {:induction false} FilterAllMatch(ps: seq<Product>, slug: string)
    requires forall p :: p in ps ==> p.category == slug
    ensures FilterByCategory(ps, slug) == ps
    decreases |ps|
  {
    if |ps| > 0 {
      FilterAllMatch(ps[1..], slug);
    }
  }

  /** Filtering drops every product of another category. */
  lemma {:induction false} FilterNoMatch(ps: seq<Product>, slug: string)
    requires forall p :: p in ps ==> p.category != slug
    ensures FilterByCategory(ps, slug) == []
    decreases |ps|
  {
    if |ps| > 0 {
      assert ps[0] in ps;
      FilterNoMatch(ps[1..], slug);
    }
  }

  /** No product generated for the categories after the first carries the
      first category's slug. */
  lemma RestOtherCategory(cats: seq<Category>, draws: seq<PriceDraw>)
    requires |cats| > 0 && |draws| == PerCategory * |cats|
    requires DistinctSlugs(cats)
    ensures |draws[PerCategory..]| == PerCategory * |cats[1..]|
    ensures forall p :: p in Generate(cats[1..], draws[PerCategory..]) ==> p.category != cats[0].slug
  {
    forall p | p in Generate(cats[1..], draws[PerCategory..])
      ensures p.category != cats[0].slug
    {
      var m :| 0 <= m < |cats| - 1 && cats[1..][m].slug == p.category;
      assert cats[m + 1].slug == p.category;
    }
  }

  /** With distinct slugs, filtering the catalog by the slug of category k
      yields exactly that category's fifteen products, in generation order. */
  lemma {:induction false} FilterGenerated(cats: seq<Category>, draws: seq<PriceDraw>, k: nat)
    requires |draws| == PerCategory * |cats|
    requires DistinctSlugs(cats)
    requires k < |cats|
    ensures PerCategory * k + PerCategory <= |draws|
    ensures FilterByCategory(Generate(cats, draws), cats[k].slug)
            == CategoryProducts(cats[k], draws[PerCategory * k..PerCategory * k + PerCategory])
    decreases |cats|
  {
    var head := CategoryProducts(cats[0], draws[..PerCategory]);
    var rest := Generate(cats[1..], draws[PerCategory..]);
    GenerateUnfold(cats, draws);
    FilterAppend(head, rest, cats[k].slug);
    CategoryProductsWellFormed(cats[0], draws[..PerCategory]);
    if k == 0 {
      FilterAllMatch(head, cats[0].slug);
      RestOtherCategory(cats, draws);
      FilterNoMatch(rest, cats[0].slug);
    } else {
      FilterLaterCategory(cats, draws, k);
    }
  }

  lemma {:induction false} FilterLaterCategory(cats: seq<Category>, draws: seq<PriceDraw>, k: nat)
    requires |draws| == PerCategory * |cats|
    requires DistinctSlugs(cats)
    requires 0 < k < |cats|
    ensures PerCategory * k + PerCategory <= |draws|
    ensures FilterByCategory(CategoryProducts(cats[0], draws[..PerCategory]), cats[k].slug) == []
    ensures FilterByCategory(Generate(cats[1..], draws[PerCategory..]), cats[k].slug)
            == CategoryProducts(cats[k], draws[PerCategory * k..PerCategory * k + PerCategory])
    decreases |cats|, 0
  {
    CategoryProductsWellFormed(cats[0], draws[..PerCategory]);
    assert cats[0].slug != cats[k].slug;
    FilterNoMatch(CategoryProducts(cats[0], draws[..PerCategory]), cats[k].slug);
    assert DistinctSlugs(cats[1..]);
    FilterGenerated(cats[1..], draws[PerCategory..], k - 1);
    assert cats[1..][k - 1] == cats[k];
    DrawsShift(draws, k);
  }

  /** Block k - 1 of the draws after the first block is block k of all draws. */
  lemma DrawsShift(draws: seq<PriceDraw>, k: nat)
    requires 0 < k && PerCategory * k + PerCategory <= |draws|
    ensures draws[PerCategory..][PerCategory * (k - 1)..PerCategory * (k - 1) + PerCategory]
            == draws[PerCategory * k..PerCategory * k + PerCategory]
  {
  }

  lemma GenerateUnfold(cats: seq<Category>, draws: seq<PriceDraw>)
    requires |cats| > 0 && |draws| == PerCategory * |cats|
    ensures Generate(cats, draws)
            == CategoryProducts(cats[0], draws[..PerCategory]) + Generate(cats[1..], draws[PerCategory..])
  {
  }

  /** Position k holds the first product whose id is id. */
  predicate FirstWithId(ps: seq<Product>, id: string, k: int) {
    0 <= k < |ps| && ps[k].id == id && forall j :: 0 <= j < k ==> ps[j].id != id
  }

  /** The first product with the given id, if any (script.js:110). */
  function FindProduct(ps: seq<Product>, id: string): (r: Option<Product>)
    ensures r.Some? ==> r.value in ps && r.value.id == id
    ensures r.None? <==> forall p :: p in ps ==> p.id != id
    ensures r.Some? ==> exists k :: FirstWithId(ps, id, k) && ps[k] == r.value
  {
    if |ps| == 0 then None
    else if ps[0].id == id then Some(ps[0])
    else
      var r := FindProduct(ps[1..], id);
      assert r.Some? ==> exists k :: FirstWithId(ps, id, k) && ps[k] == r.value by {
        if r.Some? {
          var k :| FirstWithId(ps[1..], id, k) && ps[1..][k] == r.value;
          assert ps[k + 1] == r.value;
          forall j | 0 <= j < k + 1
            ensures ps[j].id != id
          {
            if j > 0 {
              assert ps[j] == ps[1..][j - 1];
            }
          }
          assert FirstWithId(ps, id, k + 1);
        }
      }
      r
  }

  /** In a catalog with unique ids, looking up a product's id finds it. */
  lemma FindDistinct(ps: seq<Product>, m: nat)
    requires DistinctIds(ps)
    requires m < |ps|
    ensures FindProduct(ps, ps[m].id) == Some(ps[m])
  {
    var r := FindProduct(ps, ps[m].id);
    var k :| FirstWithId(ps, ps[m].id, k) && ps[k] == r.value;
    assert k == m;
  }

  /** Looking up product i of category k in the generated catalog finds it. */
  lemma FindGenerated(cats: seq<Category>, draws: seq<PriceDraw>, k: nat, i: nat)
    requires |draws| == PerCategory * |cats|
    requires DistinctSlugs(cats)
    requires k < |cats| && 1 <= i <= PerCategory
    ensures PerCategory * k + i - 1 < |draws|
    ensures FindProduct(Generate(cats, draws), ProductId(cats[k].slug, i))
            == Some(MakeProduct(cats[k], i, draws[PerCategory * k + i - 1]))
  {
    var g := Generate(cats, draws);
    var m := PerCategory * k + (i - 1);
    var p := MakeProduct(cats[k], i, draws[m]);
    GenerateAt(cats, draws, k, i - 1);
    assert g[m] == p && p.id == ProductId(cats[k].slug, i);
    GenerateDistinctIds(cats, draws);
    FindDistinct(g, m);
  }
}

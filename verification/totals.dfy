/** The cart total shared by the cart page and the checkout summary: every
    line whose id resolves in the catalog contributes price * qty, and a line
    whose id no longer resolves is skipped. */
module Totals {
  import opened Wrappers
  import opened Catalog
  import opened Cart

  /** One displayed cart line: a line that resolved to a product. */
  datatype Row = Row(id: string, price: int, qty: int, lineTotal: int)

  /** What one line adds to the total: price * qty, or 0 for a stale id. */
  function LineTotal(line: CartLine, products: seq<Product>): int {
    match FindProduct(products, line.id)
    case Some(p) => p.price * line.qty
    case None => 0
  }

  /** Price of the product an id resolves to, 0 when it does not resolve. */
  function UnitPrice(products: seq<Product>, id: string): int {
    match FindProduct(products, id)
    case Some(p) => p.price
    case None => 0
  }

  /** The reference total: line totals summed in cart order. */
  function CartTotal(cart: seq<CartLine>, products: seq<Product>): int {
    if |cart| == 0 then 0
    else CartTotal(cart[..|cart| - 1], products) + LineTotal(cart[|cart| - 1], products)
  }

  /** A line of an id no product has adds 0. With unique ids, a line adds its
      own product's price times its qty. It never adds a negative amount when
      prices and the qty are non-negative. */
  lemma LineTotalMeaning(line: CartLine, products: seq<Product>)
    ensures (forall p :: p in products ==> p.id != line.id) ==> LineTotal(line, products) == 0
    ensures DistinctIds(products) ==>
              forall p :: p in products && p.id == line.id ==> LineTotal(line, products) == p.price * line.qty
    ensures line.qty >= 0 && (forall p :: p in products ==> p.price >= 0) ==> LineTotal(line, products) >= 0
  {
    match FindProduct(products, line.id)
    case None =>
    case Some(q) =>
      assert q in products;
      if line.qty >= 0 && q.price >= 0 {
        NonNegativeProduct(q.price, line.qty);
      }
      if DistinctIds(products) {
        forall p | p in products && p.id == line.id
          ensures LineTotal(line, products) == p.price * line.qty
        {
          var m :| 0 <= m < |products| && products[m] == p;
          FindDistinct(products, m);
        }
      }
  }

  lemma NonNegativeProduct(a: int, b: int)
    requires a >= 0 && b >= 0
    ensures a * b >= 0
  {
  }

  /** With quantities of at least one and non-negative prices the total is never negative. */
  lemma {:induction false} CartTotalNonNegative(cart: seq<CartLine>, products: seq<Product>)
    requires PositiveQty(cart)
    requires forall p :: p in products ==> p.price >= 0
    ensures CartTotal(cart, products) >= 0
    decreases |cart|
  {
    if |cart| > 0 {
      var init := cart[..|cart| - 1];
      assert PositiveQty(init);
      CartTotalNonNegative(init, products);
      LineTotalMeaning(cart[|cart| - 1], products);
    }
  }

  /** The rows shown for a cart: one per line that resolves, in cart order. */
  function ResolvedRows(cart: seq<CartLine>, products: seq<Product>): (rows: seq<Row>)
    ensures |rows| <= |cart|
    ensures forall row :: row in rows ==>
              row.lineTotal == row.price * row.qty
              && exists p :: FindProduct(products, row.id) == Some(p) && p.price == row.price
    ensures forall row :: row in rows ==> exists line :: line in cart && line.id == row.id && line.qty == row.qty
  {
    if |cart| == 0 then []
    else
      var init := ResolvedRows(cart[..|cart| - 1], products);
      var line := cart[|cart| - 1];
      assert forall l :: l in cart[..|cart| - 1] ==> l in cart;
      match FindProduct(products, line.id)
      case Some(p) => init + [Row(line.id, p.price, line.qty, p.price * line.qty)]
      case None => init
  }

  /** The rows of two carts joined end to end are the rows of each, in order. */
  lemma {:induction false} ResolvedRowsAppend(a: seq<CartLine>, b: seq<CartLine>, products: seq<Product>)
    ensures ResolvedRows(a + b, products) == ResolvedRows(a, products) + ResolvedRows(b, products)
    decreases |b|
  {
    if |b| == 0 {
      assert a + b == a;
    } else {
      var b' := b[..|b| - 1];
      assert (a + b)[..|a + b| - 1] == a + b';
      assert (a + b)[|a + b| - 1] == b[|b| - 1];
      ResolvedRowsAppend(a, b', products);
    }
  }

  /** A single line gives one row carrying its product's price, its qty and
      their product when its id resolves, and no row when it does not. */
  lemma ResolvedRowsSingle(line: CartLine, products: seq<Product>)
    ensures var found := FindProduct(products, line.id);
            found.Some? ==> ResolvedRows([line], products)
                            == [Row(line.id, found.value.price, line.qty, found.value.price * line.qty)]
    ensures FindProduct(products, line.id).None? ==> ResolvedRows([line], products) == []
  {
    assert [line][..0] == [];
  }

  function SumRows(rows: seq<Row>): int {
    if |rows| == 0 then 0 else SumRows(rows[..|rows| - 1]) + rows[|rows| - 1].lineTotal
  }

  /** The loop of loadCart and checkoutPageInit: walks the cart once,
      building the rows and the running total together. */
  method Tally(cart: seq<CartLine>, products: seq<Product>) returns (rows: seq<Row>, total: int)
    ensures rows == ResolvedRows(cart, products)
    ensures total == CartTotal(cart, products)
    ensures total == SumRows(rows)
  {
    rows, total := [], 0;
    var i := 0;
    while i < |cart|
      invariant 0 <= i <= |cart|
      invariant rows == ResolvedRows(cart[..i], products)
      invariant total == CartTotal(cart[..i], products)
    {
      var item := cart[i];
      PrefixStep(cart, i);
      var found := FindProduct(products, item.id);
      if found.Some? {
        var product := found.value;
        var itemTotal := product.price * item.qty;
        total := total + itemTotal;
        rows := rows + [Row(item.id, product.price, item.qty, itemTotal)];
      }
      i := i + 1;
    }
    assert cart[..i] == cart;
    RowsSumToTotal(cart, products);
  }

  lemma PrefixStep(cart: seq<CartLine>, i: nat)
    requires i < |cart|
    ensures cart[..i + 1][..i] == cart[..i]
    ensures cart[..i + 1][i] == cart[i]
    ensures |cart[..i + 1]| == i + 1
  {
  }

  /** The rows always add up to the total. */
  lemma {:induction false} RowsSumToTotal(cart: seq<CartLine>, products: seq<Product>)
    ensures SumRows(ResolvedRows(cart, products)) == CartTotal(cart, products)
    decreases |cart|
  {
    if |cart| > 0 {
      RowsSumToTotal(cart[..|cart| - 1], products);
      var init := ResolvedRows(cart[..|cart| - 1], products);
      var line := cart[|cart| - 1];
      match FindProduct(products, line.id)
      case Some(p) =>
        var rows := init + [Row(line.id, p.price, line.qty, p.price * line.qty)];
        assert rows[..|rows| - 1] == init;
      case None =>
    }
  }

  /** A cart whose every id is stale shows no rows and a total of 0. */
  lemma {:induction false} StaleCart(cart: seq<CartLine>, products: seq<Product>)
    requires forall line :: line in cart ==> FindProduct(products, line.id).None?
    ensures ResolvedRows(cart, products) == []
    ensures CartTotal(cart, products) == 0
    decreases |cart|
  {
    if |cart| > 0 {
      assert cart[|cart| - 1] in cart;
      assert forall l :: l in cart[..|cart| - 1] ==> l in cart;
      StaleCart(cart[..|cart| - 1], products);
    }
  }

  lemma {:induction false} CartTotalAppend(a: seq<CartLine>, b: seq<CartLine>, products: seq<Product>)
    ensures CartTotal(a + b, products) == CartTotal(a, products) + CartTotal(b, products)
    decreases |b|
  {
    if |b| == 0 {
      assert a + b == a;
    } else {
      var b' := b[..|b| - 1];
      assert (a + b)[..|a + b| - 1] == a + b';
      CartTotalAppend(a, b', products);
    }
  }

  lemma CartTotalSingle(line: CartLine, products: seq<Product>)
    ensures CartTotal([line], products) == LineTotal(line, products)
  {
    assert [line][..0] == [];
  }

  lemma CartTotalCons(head: CartLine, tail: seq<CartLine>, products: seq<Product>)
    ensures CartTotal([head] + tail, products) == LineTotal(head, products) + CartTotal(tail, products)
  {
    CartTotalAppend([head], tail, products);
    CartTotalSingle(head, products);
  }

  lemma LineTotalIsUnitPrice(line: CartLine, products: seq<Product>)
    ensures LineTotal(line, products) == UnitPrice(products, line.id) * line.qty
  {
  }

  /** Replacing one line changes the total by the difference of the two
      line totals. */
  lemma CartTotalReplace(before: seq<CartLine>, x: CartLine, y: CartLine, after: seq<CartLine>, products: seq<Product>)
    ensures CartTotal(before + [y] + after, products)
            == CartTotal(before + [x] + after, products) - LineTotal(x, products) + LineTotal(y, products)
  {
    CartTotalAppend(before + [x], after, products);
    CartTotalAppend(before, [x], products);
    CartTotalAppend(before + [y], after, products);
    CartTotalAppend(before, [y], products);
    CartTotalSingle(x, products);
    CartTotalSingle(y, products);
  }

  /** Adding id raises the total by its unit price (by nothing if stale). */
  lemma TotalAfterAdd(cart: seq<CartLine>, id: string, products: seq<Product>)
    ensures CartTotal(Add(cart, id), products) == CartTotal(cart, products) + UnitPrice(products, id)
  {
    match LineIndex(cart, id)
    case Some(k) =>
      assert Add(cart, id) == cart[k := CartLine(cart[k].id, cart[k].qty + 1)];
      TotalAfterIncrement(cart, k, products);
    case None =>
      assert Add(cart, id) == cart + [CartLine(id, 1)];
      CartTotalAppend(cart, [CartLine(id, 1)], products);
      CartTotalSingle(CartLine(id, 1), products);
  }

  /** One more unit on line k adds that line's unit price to the total. */
  lemma TotalAfterIncrement(cart: seq<CartLine>, k: nat, products: seq<Product>)
    requires k < |cart|
    ensures CartTotal(cart[k := CartLine(cart[k].id, cart[k].qty + 1)], products)
            == CartTotal(cart, products) + UnitPrice(products, cart[k].id)
  {
    var oldLine := cart[k];
    var newLine := CartLine(oldLine.id, oldLine.qty + 1);
    assert cart == cart[..k] + [oldLine] + cart[k + 1..];
    assert cart[k := newLine] == cart[..k] + [newLine] + cart[k + 1..];
    CartTotalReplace(cart[..k], oldLine, newLine, cart[k + 1..], products);
    LineTotalIncrement(oldLine, products);
  }

  lemma LineTotalIncrement(line: CartLine, products: seq<Product>)
    ensures LineTotal(CartLine(line.id, line.qty + 1), products)
            == LineTotal(line, products) + UnitPrice(products, line.id)
  {
    LineTotalIsUnitPrice(line, products);
    LineTotalIsUnitPrice(CartLine(line.id, line.qty + 1), products);
    OneMore(UnitPrice(products, line.id), line.qty);
  }

  lemma OneMore(price: int, qty: int)
    ensures price * (qty + 1) == price * qty + price
  {
  }

  /** Removing id takes its whole quantity times its unit price off the
      total (nothing if stale). */
  lemma {:induction false} TotalAfterRemove(cart: seq<CartLine>, id: string, products: seq<Product>)
    ensures CartTotal(cart, products)
            == CartTotal(Remove(cart, id), products) + QtyOf(cart, id) * UnitPrice(products, id)
    decreases |cart|
  {
    if |cart| > 0 {
      TotalAfterRemove(cart[1..], id, products);
      assert cart == [cart[0]] + cart[1..];
      if cart[0].id == id {
        RemoveStepMatching(cart[0], cart[1..], id, products);
      } else {
        RemoveStepOther(cart[0], cart[1..], id, products);
      }
    }
  }

  /** Inductive step of TotalAfterRemove when the first line is removed. */
  lemma RemoveStepMatching(head: CartLine, tail: seq<CartLine>, id: string, products: seq<Product>)
    requires head.id == id
    requires CartTotal(tail, products)
             == CartTotal(Remove(tail, id), products) + QtyOf(tail, id) * UnitPrice(products, id)
    ensures CartTotal([head] + tail, products)
            == CartTotal(Remove([head] + tail, id), products) + QtyOf([head] + tail, id) * UnitPrice(products, id)
  {
    var u := UnitPrice(products, id);
    var q := QtyOf(tail, id);
    var cart := [head] + tail;
    assert cart[1..] == tail;
    assert Remove(cart, id) == Remove(tail, id);
    assert QtyOf(cart, id) == head.qty + q;
    CartTotalCons(head, tail, products);
    LineTotalIsUnitPrice(head, products);
    Regroup(CartTotal(cart, products), LineTotal(head, products), CartTotal(tail, products),
            CartTotal(Remove(tail, id), products), QtyOf(cart, id), head.qty, q, u);
  }

  /** The arithmetic of RemoveStepMatching, kept apart from the sequences. */
  lemma Regroup(total: int, first: int, rest: int, kept: int, qty: int, headQty: int, q: int, u: int)
    requires total == first + rest
    requires first == u * headQty
    requires rest == kept + q * u
    requires qty == headQty + q
    ensures total == kept + qty * u
  {
    assert qty * u == headQty * u + q * u;
  }

  /** Inductive step of TotalAfterRemove when the first line is kept. */
  lemma RemoveStepOther(head: CartLine, tail: seq<CartLine>, id: string, products: seq<Product>)
    requires head.id != id
    requires CartTotal(tail, products)
             == CartTotal(Remove(tail, id), products) + QtyOf(tail, id) * UnitPrice(products, id)
    ensures CartTotal([head] + tail, products)
            == CartTotal(Remove([head] + tail, id), products) + QtyOf([head] + tail, id) * UnitPrice(products, id)
  {
    assert ([head] + tail)[1..] == tail;
    CartTotalCons(head, tail, products);
    CartTotalCons(head, Remove(tail, id), products);
  }

  // ---------------------------------------------------------------------------
  // An independent characterisation: weight each catalog product's price by
  // how many of it the cart holds.

  function Weighted(products: seq<Product>, cart: seq<CartLine>): int {
    if |products| == 0 then 0
    else products[0].price * QtyOf(cart, products[0].id) + Weighted(products[1..], cart)
  }

  /** Sum over the products whose id is line.id of price * line.qty. */
  function Matching(products: seq<Product>, line: CartLine): int {
    if |products| == 0 then 0
    else (if products[0].id == line.id then products[0].price * line.qty else 0)
         + Matching(products[1..], line)
  }

  lemma {:induction false} WeightedSnoc(products: seq<Product>, cart: seq<CartLine>, line: CartLine)
    ensures Weighted(products, cart + [line]) == Weighted(products, cart) + Matching(products, line)
    decreases |products|
  {
    if |products| > 0 {
      var p := products[0];
      QtyOfAppend(cart, [line], p.id);
      assert QtyOf([line], p.id) == if line.id == p.id then line.qty else 0;
      var q := QtyOf(cart, p.id);
      var extra := QtyOf([line], p.id);
      assert p.price * (q + extra) == p.price * q + p.price * extra;
      WeightedSnoc(products[1..], cart, line);
    }
  }

  lemma {:induction false} MatchingAbsent(products: seq<Product>, line: CartLine)
    requires forall p :: p in products ==> p.id != line.id
    ensures Matching(products, line) == 0
    decreases |products|
  {
    if |products| > 0 {
      assert products[0] in products;
      MatchingAbsent(products[1..], line);
    }
  }

  lemma {:induction false} MatchingIsLineTotal(products: seq<Product>, line: CartLine)
    requires DistinctIds(products)
    ensures Matching(products, line) == LineTotal(line, products)
    decreases |products|
  {
    if |products| > 0 {
      var tail := products[1..];
      assert DistinctIds(tail) by {
        forall i, j | 0 <= i < j < |tail|
          ensures tail[i].id != tail[j].id
        {
          assert tail[i] == products[i + 1] && tail[j] == products[j + 1];
        }
      }
      if products[0].id == line.id {
        forall p | p in tail
          ensures p.id != line.id
        {
          var m :| 0 <= m < |tail| && tail[m] == p;
          assert products[m + 1] == p;
        }
        MatchingAbsent(tail, line);
      } else {
        MatchingIsLineTotal(tail, line);
        assert FindProduct(products, line.id) == FindProduct(tail, line.id);
      }
    }
  }

  /** With unique product ids, the cart total equals the sum over the
      catalog of price times the quantity the cart holds of that product. */
  lemma {:induction false} TotalIsWeighted(cart: seq<CartLine>, products: seq<Product>)
    requires DistinctIds(products)
    ensures CartTotal(cart, products) == Weighted(products, cart)
    decreases |cart|
  {
    if |cart| == 0 {
      WeightedEmpty(products);
    } else {
      var init, line := cart[..|cart| - 1], cart[|cart| - 1];
      assert cart == init + [line];
      TotalIsWeighted(init, products);
      WeightedSnoc(products, init, line);
      MatchingIsLineTotal(products, line);
    }
  }

  lemma {:induction false} WeightedEmpty(products: seq<Product>)
    ensures Weighted(products, []) == 0
    decreases |products|
  {
    if |products| > 0 {
      WeightedEmpty(products[1..]);
    }
  }
}

/** The shopping cart of script.js: an ordered sequence of {id, qty} lines,
    kept in browser storage under the key "cart". */
module Cart {
  import opened Wrappers

  datatype CartLine = CartLine(id: string, qty: int)

  /** What storage holds under "cart": None when the key is absent. */
  type Store = Option<seq<CartLine>>

  /** Reading the stored cart (script.js:129, 146, 180, 200): an absent key
      reads as the empty cart, a stored cart reads back as itself. */
  function ReadCart(store: Store): (cart: seq<CartLine>)
    ensures store.None? ==> cart == []
    ensures store.Some? ==> cart == store.value
  {
    store.GetOr([])
  }

  predicate HasLine(cart: seq<CartLine>, id: string) {
    exists i :: 0 <= i < |cart| && cart[i].id == id
  }

  /** At most one line per id. */
  predicate UniqueIds(cart: seq<CartLine>) {
    forall i, j :: 0 <= i < j < |cart| ==> cart[i].id != cart[j].id
  }

  predicate PositiveQty(cart: seq<CartLine>) {
    forall i :: 0 <= i < |cart| ==> cart[i].qty >= 1
  }

  /** The invariant the cart operations keep. */
  predicate WellFormed(cart: seq<CartLine>) {
    UniqueIds(cart) && PositiveQty(cart)
  }

  /** Total quantity held for id, summed over every line with that id. */
  function QtyOf(cart: seq<CartLine>, id: string): int {
    if |cart| == 0 then 0
    else (if cart[0].id == id then cart[0].qty else 0) + QtyOf(cart[1..], id)
  }

  /** The position of the first line carrying id (script.js:130). */
  function LineIndex(cart: seq<CartLine>, id: string): (r: Option<nat>)
    ensures r.Some? ==> r.value < |cart| && cart[r.value].id == id
                        && forall j :: 0 <= j < r.value ==> cart[j].id != id
    ensures r.None? <==> !HasLine(cart, id)
  {
    if |cart| == 0 then None
    else if cart[0].id == id then Some(0)
    else
      match LineIndex(cart[1..], id)
      case None =>
        assert !HasLine(cart, id) by {
          forall i | 0 <= i < |cart|
            ensures cart[i].id != id
          {
            if i > 0 {
              assert cart[i] == cart[1..][i - 1];
            }
          }
        }
        None
      case Some(k) =>
        assert cart[k + 1] == cart[1..][k];
        Some(k + 1)
  }

  /** addToCart: increments the first line for id, or appends {id, qty: 1}. */
  function Add(cart: seq<CartLine>, id: string): (r: seq<CartLine>)
    ensures HasLine(r, id)
    ensures HasLine(cart, id) ==> |r| == |cart|
    ensures !HasLine(cart, id) ==> |r| == |cart| + 1
    ensures forall x :: HasLine(r, x) <==> HasLine(cart, x) || x == id
  {
    match LineIndex(cart, id)
    case Some(k) =>
      var r := cart[k := CartLine(id, cart[k].qty + 1)];
      assert forall x :: HasLine(r, x) <==> HasLine(cart, x) by {
        forall x
          ensures HasLine(r, x) <==> HasLine(cart, x)
        {
          if HasLine(cart, x) {
            var i :| 0 <= i < |cart| && cart[i].id == x;
            assert r[i].id == x;
          }
          if HasLine(r, x) {
            var i :| 0 <= i < |r| && r[i].id == x;
            assert cart[i].id == x;
          }
        }
      }
      r
    case None =>
      var r := cart + [CartLine(id, 1)];
      assert r[|cart|].id == id;
      assert forall x :: HasLine(r, x) <==> HasLine(cart, x) || x == id by {
        forall x
          ensures HasLine(r, x) <==> HasLine(cart, x) || x == id
        {
          if HasLine(cart, x) {
            var i :| 0 <= i < |cart| && cart[i].id == x;
            assert r[i].id == x;
          }
          if HasLine(r, x) {
            var i :| 0 <= i < |r| && r[i].id == x;
            if i < |cart| {
              assert cart[i].id == x;
            }
          }
        }
      }
      r
  }

  /** removeFromCart keeps, in order, the lines whose id differs (script.js:181). */
  function Remove(cart: seq<CartLine>, id: string): (r: seq<CartLine>)
    ensures |r| <= |cart|
    ensures !HasLine(r, id)
  {
    if |cart| == 0 then []
    else if cart[0].id == id then Remove(cart[1..], id)
    else
      var rest := Remove(cart[1..], id);
      assert !HasLine([cart[0]] + rest, id) by {
        forall i | 0 <= i < |rest| + 1
          ensures ([cart[0]] + rest)[i].id != id
        {
          if i > 0 {
            assert ([cart[0]] + rest)[i] == rest[i - 1];
          }
        }
      }
      [cart[0]] + rest
  }

  // ---------------------------------------------------------------------------
  // Storage-level operations: read, update, write back.

  /** addToCart as a whole: the stored cart afterwards holds one more of id
      and the same quantity of everything else. */
  function AddToCart(store: Store, id: string): (r: Store)
    ensures r.Some?
    ensures QtyOf(ReadCart(r), id) == QtyOf(ReadCart(store), id) + 1
    ensures forall x :: x != id ==> QtyOf(ReadCart(r), x) == QtyOf(ReadCart(store), x)
    ensures WellFormed(ReadCart(store)) ==> WellFormed(ReadCart(r))
  {
    var cart := ReadCart(store);
    AddQty(cart, id);
    AddPreservesWellFormed(cart, id);
    Some(Add(cart, id))
  }

  /** removeFromCart as a whole: the stored cart afterwards holds nothing of
      id and the same quantity of everything else. */
  function RemoveFromCart(store: Store, id: string): (r: Store)
    ensures r.Some?
    ensures QtyOf(ReadCart(r), id) == 0
    ensures forall x :: x != id ==> QtyOf(ReadCart(r), x) == QtyOf(ReadCart(store), x)
    ensures WellFormed(ReadCart(store)) ==> WellFormed(ReadCart(r))
  {
    var cart := ReadCart(store);
    RemoveQty(cart, id);
    RemovePreservesWellFormed(cart, id);
    Some(Remove(cart, id))
  }

  /** Deleting the stored key on checkout (script.js:222): afterwards the
      cart reads as empty. */
  function ClearCart(): (r: Store)
    ensures ReadCart(r) == []
  {
    None
  }

  // ---------------------------------------------------------------------------
  // Quantity bookkeeping

  lemma {:induction false} QtyOfAppend(a: seq<CartLine>, b: seq<CartLine>, x: string)
    ensures QtyOf(a + b, x) == QtyOf(a, x) + QtyOf(b, x)
    decreases |a|
  {
    if |a| == 0 {
      assert a + b == b;
    } else {
      assert (a + b)[1..] == a[1..] + b;
      QtyOfAppend(a[1..], b, x);
    }
  }

  lemma {:induction false} QtyOfAbsent(cart: seq<CartLine>, x: string)
    requires !HasLine(cart, x)
    ensures QtyOf(cart, x) == 0
    decreases |cart|
  {
    if |cart| > 0 {
      assert cart[0].id != x;
      assert !HasLine(cart[1..], x) by {
        forall i | 0 <= i < |cart| - 1
          ensures cart[1..][i].id != x
        {
          assert cart[1..][i] == cart[i + 1];
        }
      }
      QtyOfAbsent(cart[1..], x);
    }
  }

  /** Replacing line k changes the quantity of x by the difference. */
  lemma QtyOfUpdate(cart: seq<CartLine>, k: nat, l: CartLine, x: string)
    requires k < |cart|
    ensures QtyOf(cart[k := l], x)
            == QtyOf(cart, x) - (if cart[k].id == x then cart[k].qty else 0)
               + (if l.id == x then l.qty else 0)
  {
    var r := cart[k := l];
    assert cart == cart[..k] + [cart[k]] + cart[k + 1..];
    assert r == cart[..k] + [l] + cart[k + 1..];
    QtyOfAppend(cart[..k] + [cart[k]], cart[k + 1..], x);
    QtyOfAppend(cart[..k], [cart[k]], x);
    QtyOfAppend(cart[..k] + [l], cart[k + 1..], x);
    QtyOfAppend(cart[..k], [l], x);
  }

  /** Add is insertion into a bag: one more of id, nothing else changes. */
  lemma AddQty(cart: seq<CartLine>, id: string)
    ensures QtyOf(Add(cart, id), id) == QtyOf(cart, id) + 1
    ensures forall x :: x != id ==> QtyOf(Add(cart, id), x) == QtyOf(cart, x)
  {
    match LineIndex(cart, id)
    case Some(k) =>
      forall x
        ensures QtyOf(Add(cart, id), x)
                == QtyOf(cart, x) + (if x == id then 1 else 0)
      {
        QtyOfUpdate(cart, k, CartLine(id, cart[k].qty + 1), x);
      }
    case None =>
      forall x
        ensures QtyOf(Add(cart, id), x)
                == QtyOf(cart, x) + (if x == id then 1 else 0)
      {
        QtyOfAppend(cart, [CartLine(id, 1)], x);
      }
  }

  /** Remove drops every unit of id and keeps everything else. */
  lemma {:induction false} RemoveQty(cart: seq<CartLine>, id: string)
    ensures QtyOf(Remove(cart, id), id) == 0
    ensures forall x :: x != id ==> QtyOf(Remove(cart, id), x) == QtyOf(cart, x)
    decreases |cart|
  {
    if |cart| > 0 {
      RemoveQty(cart[1..], id);
      if cart[0].id != id {
        var rest := Remove(cart[1..], id);
        assert ([cart[0]] + rest)[1..] == rest;
      }
    }
  }

  // ---------------------------------------------------------------------------
  // addToCart

  /** x present: the first line for x gains one unit; length, order and all
      other lines are unchanged. */
  lemma AddExisting(cart: seq<CartLine>, id: string, k: nat)
    requires k < |cart| && cart[k].id == id
    requires forall j :: 0 <= j < k ==> cart[j].id != id
    ensures |Add(cart, id)| == |cart|
    ensures Add(cart, id)[k] == CartLine(id, cart[k].qty + 1)
    ensures forall j :: 0 <= j < |cart| && j != k ==> Add(cart, id)[j] == cart[j]
  {
    assert HasLine(cart, id);
    var i := LineIndex(cart, id).value;
    assert i == k;
  }

  /** x absent: {id: x, qty: 1} goes at the end and the prefix is kept. */
  lemma AddAbsent(cart: seq<CartLine>, id: string)
    requires !HasLine(cart, id)
    ensures Add(cart, id) == cart + [CartLine(id, 1)]
  {
  }

  /** Two successive adds of a new id merge into a single line with qty 2. */
  lemma AddTwiceAbsent(cart: seq<CartLine>, id: string)
    requires !HasLine(cart, id)
    ensures Add(Add(cart, id), id) == cart + [CartLine(id, 2)]
  {
    var once := Add(cart, id);
    assert once == cart + [CartLine(id, 1)];
    assert forall j :: 0 <= j < |cart| ==> once[j].id != id;
    AddExisting(once, id, |cart|);
  }

  lemma AddPreservesWellFormed(cart: seq<CartLine>, id: string)
    ensures WellFormed(cart) ==> WellFormed(Add(cart, id))
  {
    if WellFormed(cart) {
      var r := Add(cart, id);
      match LineIndex(cart, id)
      case Some(k) =>
        assert forall i :: 0 <= i < |r| ==> r[i].id == cart[i].id;
      case None =>
        assert forall i :: 0 <= i < |cart| ==> r[i] == cart[i];
    }
  }

  // ---------------------------------------------------------------------------
  // removeFromCart

  lemma {:induction false} RemoveAppend(a: seq<CartLine>, b: seq<CartLine>, id: string)
    ensures Remove(a + b, id) == Remove(a, id) + Remove(b, id)
    decreases |a|
  {
    if |a| == 0 {
      assert a + b == b;
    } else {
      assert (a + b)[1..] == a[1..] + b;
      RemoveAppend(a[1..], b, id);
    }
  }

  /** Remove keeps exactly the lines with another id. */
  lemma {:induction false} RemoveMembers(cart: seq<CartLine>, id: string)
    ensures forall l :: l in Remove(cart, id) <==> l in cart && l.id != id
    decreases |cart|
  {
    if |cart| > 0 {
      RemoveMembers(cart[1..], id);
      assert cart == [cart[0]] + cart[1..];
    }
  }

  /** Removing an id the cart does not hold changes nothing. */
  lemma {:induction false} RemoveAbsent(cart: seq<CartLine>, id: string)
    requires !HasLine(cart, id)
    ensures Remove(cart, id) == cart
    decreases |cart|
  {
    if |cart| > 0 {
      assert cart[0].id != id;
      assert !HasLine(cart[1..], id) by {
        forall i | 0 <= i < |cart| - 1
          ensures cart[1..][i].id != id
        {
          assert cart[1..][i] == cart[i + 1];
        }
      }
      RemoveAbsent(cart[1..], id);
      assert cart == [cart[0]] + cart[1..];
    }
  }

  /** Removing twice is removing once. */
  lemma RemoveIdempotent(cart: seq<CartLine>, id: string)
    ensures Remove(Remove(cart, id), id) == Remove(cart, id)
  {
    RemoveAbsent(Remove(cart, id), id);
  }

  /** In a cart with one line per id, removing line k's id deletes exactly
      that line and keeps the others in their original order. */
  lemma RemoveLine(cart: seq<CartLine>, k: nat)
    requires UniqueIds(cart)
    requires k < |cart|
    ensures Remove(cart, cart[k].id) == cart[..k] + cart[k + 1..]
  {
    OnlyLineWithId(cart, k);
    assert cart == cart[..k] + [cart[k]] + cart[k + 1..];
    RemoveOnlyLine(cart[..k], cart[k], cart[k + 1..]);
  }

  lemma {:induction false} RemoveOnlyLine(before: seq<CartLine>, x: CartLine, after: seq<CartLine>)
    requires !HasLine(before, x.id) && !HasLine(after, x.id)
    ensures Remove(before + [x] + after, x.id) == before + after
    decreases |before|
  {
    var s := before + [x] + after;
    if |before| == 0 {
      assert s == [x] + after;
      assert s[1..] == after;
      RemoveAbsent(after, x.id);
    } else {
      var b := before[0];
      assert b.id != x.id;
      assert !HasLine(before[1..], x.id);
      assert s[0] == b;
      assert s[1..] == before[1..] + [x] + after;
      RemoveOnlyLine(before[1..], x, after);
      assert before + after == [b] + (before[1..] + after);
    }
  }

  lemma OnlyLineWithId(cart: seq<CartLine>, k: nat)
    requires UniqueIds(cart)
    requires k < |cart|
    ensures !HasLine(cart[..k], cart[k].id)
    ensures !HasLine(cart[k + 1..], cart[k].id)
  {
  }

  lemma {:induction false} RemovePreservesWellFormed(cart: seq<CartLine>, id: string)
    ensures WellFormed(cart) ==> WellFormed(Remove(cart, id))
    decreases |cart|
  {
    if WellFormed(cart) && |cart| > 0 {
      var tail := cart[1..];
      assert WellFormed(tail) by {
        forall i, j | 0 <= i < j < |tail|
          ensures tail[i].id != tail[j].id
        {
          assert tail[i] == cart[i + 1] && tail[j] == cart[j + 1];
        }
      }
      RemovePreservesWellFormed(tail, id);
      RemoveMembers(tail, id);
      if cart[0].id != id {
        var rest := Remove(tail, id);
        var r := [cart[0]] + rest;
        forall j | 0 <= j < |rest|
          ensures rest[j].id != cart[0].id
        {
          assert rest[j] in rest;
          var m :| 0 <= m < |tail| && tail[m] == rest[j];
          assert cart[m + 1] == rest[j];
        }
        assert forall j :: 1 <= j < |r| ==> r[j] == rest[j - 1];
      }
    }
  }
}

/** The shopping cart (lib/cart.ts): a list of line items kept in browser
    storage under one key. Every operation reads the stored list, changes it
    and writes it back; here the stored list is the field `items` of a
    `CartStore`, and a store whose storage is missing or unreadable starts
    empty. Prices are integer cents. */
module Cart {
  import opened Seqs

  datatype CartItem = CartItem(
    productId: int,
    slug: string,
    title: string,
    price: int,     // cents
    imageUrl: string,
    qty: int)

  /** The `findIndex` predicate of `add` and `setQty`. */
  function HasProduct(productId: int): CartItem -> bool
  {
    (i: CartItem) => i.productId == productId
  }

  /** The `filter` predicate of `remove`. */
  function OtherProduct(productId: int): CartItem -> bool
  {
    (i: CartItem) => i.productId != productId
  }

  /** Position of the line for `productId`, or -1. */
  function IndexOf(items: seq<CartItem>, productId: int): int
  {
    FindIndex(items, HasProduct(productId))
  }

  /** No two lines are for the same product. */
  ghost predicate DistinctProducts(items: seq<CartItem>)
  {
    forall i, j :: 0 <= i < j < |items| ==> items[i].productId != items[j].productId
  }

  /** The list after `add(item)`: a line for the same product grows by
      `item.qty`, otherwise the item becomes the last line as given. Either
      way the cart then has a line for the product, and it gains a line only
      when it had none. */
  function Added(items: seq<CartItem>, item: CartItem): (r: seq<CartItem>)
    ensures IndexOf(r, item.productId) >= 0
    ensures |r| == |items| + (if IndexOf(items, item.productId) >= 0 then 0 else 1)
  {
    var k := IndexOf(items, item.productId);
    if k >= 0 then
      var line := items[k].(qty := items[k].qty + item.qty);
      FindIndexUpdate(items, k, line, HasProduct(item.productId));
      items[k := line]
    else
      FindIndexAppend(items, item, HasProduct(item.productId));
      items + [item]
  }

  /** The list after `remove(productId)`: no line for the product is left,
      and the cart never grows. */
  function Removed(items: seq<CartItem>, productId: int): (r: seq<CartItem>)
    ensures IndexOf(r, productId) == -1
    ensures |r| <= |items|
  {
    Filter(items, OtherProduct(productId))
  }

  function AtLeastOne(qty: int): int
  {
    if qty < 1 then 1 else qty
  }

  /** The list after `setQty(productId, qty)`: same length, the product's
      line (if any) stays where it was, and its quantity is at least 1. */
  function WithQty(items: seq<CartItem>, productId: int, qty: int): (r: seq<CartItem>)
    ensures |r| == |items|
    ensures IndexOf(r, productId) == IndexOf(items, productId)
    ensures IndexOf(r, productId) >= 0 ==> r[IndexOf(r, productId)].qty >= 1
  {
    var k := IndexOf(items, productId);
    if k >= 0 then
      var line := items[k].(qty := AtLeastOne(qty));
      FindIndexUpdate(items, k, line, HasProduct(productId));
      items[k := line]
    else items
  }

  function LineTotal(i: CartItem): int
  {
    i.price * i.qty
  }

  /** Sum of `price * qty` over the lines, in cents: never negative when no
      price or quantity is. */
  function Total(items: seq<CartItem>): (t: int)
    ensures (forall j :: 0 <= j < |items| ==> items[j].price >= 0 && items[j].qty >= 0) ==> t >= 0
  {
    if items == [] then 0 else LineTotal(items[0]) + Total(items[1..])
  }

  /** `add` on a product already in the cart adds to that line's quantity and
      changes nothing else: no line is added, no other field or line changes. */
  lemma AddExisting(items: seq<CartItem>, item: CartItem)
    requires IndexOf(items, item.productId) >= 0
    ensures var k, r := IndexOf(items, item.productId), Added(items, item);
      |r| == |items|
      && r[k].qty == items[k].qty + item.qty
      && r[k] == items[k].(qty := r[k].qty)
      && forall j :: 0 <= j < |r| && j != k ==> r[j] == items[j]
  {
  }

  /** `add` on a new product appends the item unchanged, whatever its quantity
      (there is no clamping here, unlike `setQty`). */
  lemma AddNew(items: seq<CartItem>, item: CartItem)
    requires forall j :: 0 <= j < |items| ==> items[j].productId != item.productId
    ensures Added(items, item) == items + [item]
    ensures Added(items, item)[|items|].qty == item.qty
  {
  }

  /** `add` keeps at most one line per product. */
  lemma AddKeepsDistinct(items: seq<CartItem>, item: CartItem)
    requires DistinctProducts(items)
    ensures DistinctProducts(Added(items, item))
  {
  }

  /** `setQty` gives the matching line the quantity clamped to at least 1 and
      changes nothing else; with no matching line nothing changes. */
  lemma SetQtyEffect(items: seq<CartItem>, productId: int, qty: int)
    ensures var k, r := IndexOf(items, productId), WithQty(items, productId, qty);
      |r| == |items|
      && (k >= 0 ==> r[k] == items[k].(qty := if qty < 1 then 1 else qty) && r[k].qty >= 1)
      && (forall j :: 0 <= j < |r| && j != k ==> r[j] == items[j])
      && (k < 0 ==> r == items)
  {
  }

  /** `setQty` keeps at most one line per product. */
  lemma SetQtyKeepsDistinct(items: seq<CartItem>, productId: int, qty: int)
    requires DistinctProducts(items)
    ensures DistinctProducts(WithQty(items, productId, qty))
  {
  }

  /** After `remove` no line is for the product, every other line is kept,
      and the kept lines are in their original order. */
  lemma RemoveEffect(items: seq<CartItem>, productId: int, rest: seq<CartItem>)
    ensures var r := Removed(items, productId);
      (forall j :: 0 <= j < |r| ==> r[j].productId != productId && r[j] in items)
      && (forall j :: 0 <= j < |items| && items[j].productId != productId ==> items[j] in r)
    ensures Removed(items + rest, productId) == Removed(items, productId) + Removed(rest, productId)
  {
    FilterMembers(items, OtherProduct(productId));
    FilterAppend(items, rest, OtherProduct(productId));
  }

  /** The total of a concatenation is the sum of the totals. */
  lemma {:induction false} TotalAppend(a: seq<CartItem>, b: seq<CartItem>)
    ensures Total(a + b) == Total(a) + Total(b)
  {
    if a == [] {
      assert a + b == b;
    } else {
      assert (a + b)[1..] == a[1..] + b;
      TotalAppend(a[1..], b);
    }
  }

  /** Replacing one line changes the total by the difference of the two lines. */
  lemma {:induction false} TotalUpdate(items: seq<CartItem>, k: nat, x: CartItem)
    requires k < |items|
    ensures Total(items[k := x]) == Total(items) - LineTotal(items[k]) + LineTotal(x)
  {
    if k > 0 {
      assert items[k := x][1..] == items[1..][k - 1 := x];
      TotalUpdate(items[1..], k - 1, x);
    }
  }

  /** A one-line cart totals that line. */
  lemma SingleTotal(x: CartItem)
    ensures Total([x]) == LineTotal(x)
  {
    assert [x][1..] == [];
  }

  /** Changing a line's quantity changes its total by the price times the
      change. */
  lemma LineDelta(x: CartItem, q: int)
    ensures LineTotal(x.(qty := q)) - LineTotal(x) == x.price * (q - x.qty)
  {
  }

  /** Giving line `k` the quantity `q` changes the subtotal by its price times
      the change. */
  lemma SetLineTotal(items: seq<CartItem>, k: nat, q: int)
    requires k < |items|
    ensures Total(items[k := items[k].(qty := q)]) == Total(items) + items[k].price * (q - items[k].qty)
  {
    TotalUpdate(items, k, items[k].(qty := q));
    LineDelta(items[k], q);
  }

  /** `add` raises the subtotal by the item's quantity at the price of the line
      it lands on: the stored line's price when the product is already there. */
  lemma AddTotal(items: seq<CartItem>, item: CartItem)
    ensures var k := IndexOf(items, item.productId);
      Total(Added(items, item))
        == Total(items) + (if k >= 0 then items[k].price else item.price) * item.qty
  {
    var k := IndexOf(items, item.productId);
    if k >= 0 {
      var line := items[k].(qty := items[k].qty + item.qty);
      assert Added(items, item) == items[k := line];
      TotalUpdate(items, k, line);
      LineDelta(items[k], line.qty);
    } else {
      assert Added(items, item) == items + [item];
      TotalAppend(items, [item]);
      SingleTotal(item);
    }
  }

  /** `remove` keeps at most one line per product. */
  lemma {:induction false} RemoveKeepsDistinct(items: seq<CartItem>, productId: int)
    requires DistinctProducts(items)
    ensures DistinctProducts(Removed(items, productId))
    decreases |items|
  {
    if items != [] {
      var p := OtherProduct(productId);
      var tail := items[1..];
      forall i, j | 0 <= i < j < |tail| ensures tail[i].productId != tail[j].productId {
        assert tail[i] == items[i + 1] && tail[j] == items[j + 1];
      }
      RemoveKeepsDistinct(tail, productId);
      var rt := Removed(tail, productId);
      var r := Removed(items, productId);
      FilterMembers(tail, p);
      if p(items[0]) {
        assert r == [items[0]] + rt;
        forall i, j | 0 <= i < j < |r| ensures r[i].productId != r[j].productId {
          assert r[j] == rt[j - 1] && rt[j - 1] in tail;
          if i == 0 {
            var m :| 0 <= m < |tail| && tail[m] == rt[j - 1];
            assert items[m + 1] == tail[m];
          } else {
            assert r[i] == rt[i - 1];
          }
        }
      } else {
        assert r == rt;
      }
    }
  }

  /** With one line per product, removing it takes out exactly its line. */
  lemma {:induction false} RemovedAt(items: seq<CartItem>, productId: int)
    requires DistinctProducts(items)
    requires IndexOf(items, productId) >= 0
    ensures var k := IndexOf(items, productId);
      Removed(items, productId) == items[..k] + items[k + 1..]
  {
    var p := OtherProduct(productId);
    var k := IndexOf(items, productId);
    var a, x, b := items[..k], items[k], items[k + 1..];
    assert items == a + [x] + b;
    forall j | 0 <= j < |a| ensures p(a[j]) {
      assert a[j] == items[j];
    }
    forall j | 0 <= j < |b| ensures p(b[j]) {
      assert b[j] == items[k + 1 + j];
    }
    FilterKeepsAll(a, p);
    FilterKeepsAll(b, p);
    FilterDropsAll([x], p);
    assert Filter(a, p) == a;
    assert Filter(b, p) == b;
    assert Filter([x], p) == [];
    FilterAppend(a, [x], p);
    assert Filter(a + [x], p) == a;
    FilterAppend(a + [x], b, p);
    assert Filter(a + [x] + b, p) == a + b;
  }

  /** `setQty` changes the subtotal by the line's price times the change in
      its quantity, and not at all when the product is absent. */
  lemma SetQtyTotal(items: seq<CartItem>, productId: int, qty: int)
    ensures var k := IndexOf(items, productId);
      k >= 0 ==> Total(WithQty(items, productId, qty)) == Total(items) + items[k].price * (AtLeastOne(qty) - items[k].qty)
    ensures IndexOf(items, productId) < 0 ==> Total(WithQty(items, productId, qty)) == Total(items)
  {
    var k := IndexOf(items, productId);
    if k >= 0 {
      assert WithQty(items, productId, qty) == items[k := items[k].(qty := AtLeastOne(qty))];
      SetLineTotal(items, k, AtLeastOne(qty));
    } else {
      assert WithQty(items, productId, qty) == items;
    }
  }

  /** With one line per product, `remove` lowers the subtotal by exactly that
      product's line, and by nothing when the product is absent. */
  lemma RemoveTotal(items: seq<CartItem>, productId: int)
    requires DistinctProducts(items)
    ensures var k := IndexOf(items, productId);
      Total(Removed(items, productId))
        == Total(items) - (if k >= 0 then LineTotal(items[k]) else 0)
  {
    var k := IndexOf(items, productId);
    if k < 0 {
      FilterKeepsAll(items, OtherProduct(productId));
    } else {
      RemovedAt(items, productId);
      var a, x, b := items[..k], items[k], items[k + 1..];
      assert items == (a + [x]) + b;
      TotalAppend(a, b);
      TotalAppend(a + [x], b);
      TotalAppend(a, [x]);
      SingleTotal(x);
    }
  }

  /** The cart as stored in browser storage. */
  class CartStore {
    var items: seq<CartItem>

    /** At most one line per product, which every operation keeps. */
    ghost predicate Valid()
      reads this
    {
      DistinctProducts(items)
    }

    /** A store whose key is missing or holds unreadable data reads as empty. */
    constructor ()
      ensures Valid() && items == []
    {
      items := [];
    }

    /** `Cart.get()`. */
    method Get() returns (r: seq<CartItem>)
      ensures r == items
    {
      r := items;
    }

    /** `Cart.add(item)`: merge into the line for the same product or append;
        returns the list it stored. */
    method Add(item: CartItem) returns (r: seq<CartItem>)
      modifies this
      ensures items == Added(old(items), item)
      ensures r == items
      ensures old(Valid()) ==> Valid()
    {
      if Valid() {
        AddKeepsDistinct(items, item);
      }
      var k := IndexOf(items, item.productId);
      if k >= 0 {
        items := items[k := items[k].(qty := items[k].qty + item.qty)];
      } else {
        items := items + [item];
      }
      r := items;
    }

    /** `Cart.remove(productId)`: drop every line for the product. */
    method Remove(productId: int) returns (r: seq<CartItem>)
      modifies this
      ensures items == Removed(old(items), productId)
      ensures r == items
      ensures old(Valid()) ==> Valid()
    {
      if Valid() {
        RemoveKeepsDistinct(items, productId);
      }
      items := Filter(items, OtherProduct(productId));
      r := items;
    }

    /** `Cart.setQty(productId, qty)`: set the line's quantity to `max(1, qty)`;
        an absent product leaves the store as it was. */
    method SetQty(productId: int, qty: int) returns (r: seq<CartItem>)
      modifies this
      ensures items == WithQty(old(items), productId, qty)
      ensures r == items
      ensures old(Valid()) ==> Valid()
    {
      if Valid() {
        SetQtyKeepsDistinct(items, productId, qty);
      }
      var k := IndexOf(items, productId);
      if k >= 0 {
        items := items[k := items[k].(qty := AtLeastOne(qty))];
      }
      r := items;
    }

    /** `Cart.clear()`: store and return the empty list. */
    method Clear() returns (r: seq<CartItem>)
      modifies this
      ensures Valid() && items == [] && r == []
    {
      items := [];
      r := [];
    }

    /** `Cart.subtotal()`: the `reduce` over the stored lines. */
    method Subtotal() returns (sum: int)
      ensures sum == Total(items)
    {
      sum := 0;
      var i := 0;
      while i < |items|
        invariant 0 <= i <= |items|
        invariant sum == Total(items[..i])
      {
        assert items[..i + 1] == items[..i] + [items[i]];
        TotalAppend(items[..i], [items[i]]);
        SingleTotal(items[i]);
        sum := sum + items[i].price * items[i].qty;
        i := i + 1;
      }
      assert items[..i] == items;
    }
  }
}

/** The order store (lib/orders.ts): an append-only list of orders kept in
    browser storage. `create` appends, `updateStatus` rewrites one order's
    status in place, and the finders are queries over the stored list. Here the
    stored list is the field `orders` of an `OrderStore`; missing or unreadable
    storage reads as the empty list. Money is integer cents. */
module Orders {
  import opened Seqs

  datatype OrderStatus = Pending | Processing | Shipped | Delivered

  datatype OrderItem = OrderItem(slug: string, title: string, qty: int, price: int)

  /** `email` and `userId` are optional: a guest order has an email, a
      signed-in order a user id. */
  datatype Order = Order(
    id: string,
    email: Option<string>,
    userId: Option<string>,
    items: seq<OrderItem>,
    total: int,     // cents
    status: OrderStatus,
    createdAt: string)

  function HasId(id: string): Order -> bool
  {
    (o: Order) => o.id == id
  }

  /** `o.email === email`: an order without an email never matches a string. */
  function HasEmail(email: string): Order -> bool
  {
    (o: Order) => o.email == Some(email)
  }

  /** `o.userId === userId`. */
  function HasUser(userId: string): Order -> bool
  {
    (o: Order) => o.userId == Some(userId)
  }

  /** `findById`: the first order with exactly this id, or null. */
  function ById(orders: seq<Order>, id: string): (r: Option<Order>)
    ensures r.Some? ==> r.value in orders && r.value.id == id
  {
    Find(orders, HasId(id))
  }

  /** `findByEmail`: the orders with exactly this email, in stored order. */
  function ByEmail(orders: seq<Order>, email: string): (r: seq<Order>)
    ensures |r| <= |orders|
    ensures forall j :: 0 <= j < |r| ==> r[j].email == Some(email)
  {
    Filter(orders, HasEmail(email))
  }

  /** `findByUser`: the orders with exactly this user id, in stored order. */
  function ByUser(orders: seq<Order>, userId: string): (r: seq<Order>)
    ensures |r| <= |orders|
    ensures forall j :: 0 <= j < |r| ==> r[j].userId == Some(userId)
  {
    Filter(orders, HasUser(userId))
  }

  /** The list after `updateStatus(id, status)`: the first order with the id
      gets the new status; with no such order the list is unchanged. No order
      is added, dropped or moved, and only a status can change. */
  function StatusUpdated(orders: seq<Order>, id: string, status: OrderStatus): (r: seq<Order>)
    ensures |r| == |orders|
    ensures forall j :: 0 <= j < |r| ==> r[j] == orders[j] || r[j] == orders[j].(status := status)
  {
    var k := FindIndex(orders, HasId(id));
    if k >= 0 then orders[k := orders[k].(status := status)] else orders
  }

  /** `findById` returns the first order whose id is exactly the argument, and
      null only when no order has that id. */
  lemma ByIdSpec(orders: seq<Order>, id: string)
    ensures var r := ById(orders, id);
      (r.Some? ==> exists k :: 0 <= k < |orders| && orders[k] == r.value && r.value.id == id
                    && forall j :: 0 <= j < k ==> orders[j].id != id)
      && (r.None? <==> forall j :: 0 <= j < |orders| ==> orders[j].id != id)
  {
    var k := FindIndex(orders, HasId(id));
    if k >= 0 {
      assert HasId(id)(orders[k]);
      forall j | 0 <= j < k ensures orders[j].id != id {
        assert !HasId(id)(orders[j]);
      }
    } else {
      forall j | 0 <= j < |orders| ensures orders[j].id != id {
        assert !HasId(id)(orders[j]);
      }
    }
  }

  /** `findByEmail` returns exactly the orders whose email equals the argument,
      and `findByUser` exactly those with the user id. Both keep stored order:
      filtering a concatenation filters each part. */
  lemma FindersSpec(orders: seq<Order>, more: seq<Order>, email: string, userId: string)
    ensures forall j :: 0 <= j < |ByEmail(orders, email)| ==>
      ByEmail(orders, email)[j] in orders && ByEmail(orders, email)[j].email == Some(email)
    ensures forall j :: 0 <= j < |orders| && orders[j].email == Some(email) ==>
      orders[j] in ByEmail(orders, email)
    ensures forall j :: 0 <= j < |ByUser(orders, userId)| ==>
      ByUser(orders, userId)[j] in orders && ByUser(orders, userId)[j].userId == Some(userId)
    ensures forall j :: 0 <= j < |orders| && orders[j].userId == Some(userId) ==>
      orders[j] in ByUser(orders, userId)
    ensures ByEmail(orders + more, email) == ByEmail(orders, email) + ByEmail(more, email)
    ensures ByUser(orders + more, userId) == ByUser(orders, userId) + ByUser(more, userId)
  {
    FilterMembers(orders, HasEmail(email));
    FilterMembers(orders, HasUser(userId));
    FilterAppend(orders, more, HasEmail(email));
    FilterAppend(orders, more, HasUser(userId));
  }

  /** Email matching is exact: a stored order is found by an address exactly
      when it carries that very address, so a differently-cased address does
      not match, and an order without an email matches no address, not even
      the empty one. */
  lemma EmailMatchIsExact(orders: seq<Order>, o: Order, email: string)
    requires o in orders
    ensures o in ByEmail(orders, email) <==> o.email == Some(email)
  {
    FilterMembers(orders, HasEmail(email));
  }

  /** After `create(o)`, `findByEmail` and `findByUser` see `o` last, after
      everything they saw before. */
  lemma CreateThenFind(orders: seq<Order>, o: Order, email: string, userId: string)
    ensures ByEmail(orders + [o], email)
      == ByEmail(orders, email) + (if o.email == Some(email) then [o] else [])
    ensures ByUser(orders + [o], userId)
      == ByUser(orders, userId) + (if o.userId == Some(userId) then [o] else [])
  {
    FilterAppend(orders, [o], HasEmail(email));
    FilterAppend(orders, [o], HasUser(userId));
    assert Filter([o], HasEmail(email)) == (if HasEmail(email)(o) then [o] else []) + Filter([], HasEmail(email));
    assert Filter([o], HasUser(userId)) == (if HasUser(userId)(o) then [o] else []) + Filter([], HasUser(userId));
  }

  /** After `create(o)`, `findById(o.id)` finds `o` unless an earlier order
      already has that id, in which case the earlier one still wins. */
  lemma CreateThenFindById(orders: seq<Order>, o: Order)
    ensures ById(orders + [o], o.id) == if ById(orders, o.id).Some? then ById(orders, o.id) else Some(o)
  {
    FindIndexAppend(orders, o, HasId(o.id));
    var k := FindIndex(orders, HasId(o.id));
    if k >= 0 {
      assert (orders + [o])[k] == orders[k];
    } else {
      assert (orders + [o])[|orders|] == o;
    }
  }

  /** `updateStatus` on a present id changes only that order's status: the
      length, every other order and every other field stay as they were, and
      `findById` afterwards returns the updated order. */
  lemma UpdateStatusFound(orders: seq<Order>, id: string, status: OrderStatus)
    requires ById(orders, id).Some?
    ensures var r, k := StatusUpdated(orders, id, status), FindIndex(orders, HasId(id));
      |r| == |orders|
      && r[k] == orders[k].(status := status)
      && (forall j :: 0 <= j < |r| && j != k ==> r[j] == orders[j])
      && ById(r, id) == Some(orders[k].(status := status))
  {
    var k := FindIndex(orders, HasId(id));
    FindIndexUpdate(orders, k, orders[k].(status := status), HasId(id));
  }

  /** `updateStatus` on an absent id leaves the list unchanged. */
  lemma UpdateStatusMissing(orders: seq<Order>, id: string, status: OrderStatus)
    requires ById(orders, id).None?
    ensures StatusUpdated(orders, id, status) == orders
  {
  }

  /** The orders as stored in browser storage. */
  class OrderStore {
    var orders: seq<Order>

    /** A store whose key is missing or holds unreadable data reads as empty. */
    constructor ()
      ensures orders == []
    {
      orders := [];
    }

    /** `Orders.all()`. */
    method All() returns (r: seq<Order>)
      ensures r == orders
    {
      r := orders;
    }

    /** `Orders.create(order)`: append and return the same order. */
    method Create(order: Order) returns (r: Order)
      modifies this
      ensures orders == old(orders) + [order]
      ensures r == order
    {
      orders := orders + [order];
      r := order;
    }

    /** `Orders.findById(id)`. */
    method FindById(id: string) returns (r: Option<Order>)
      ensures r == ById(orders, id)
    {
      r := Find(orders, HasId(id));
    }

    /** `Orders.findByEmail(email)`. */
    method FindByEmail(email: string) returns (r: seq<Order>)
      ensures r == ByEmail(orders, email)
    {
      r := Filter(orders, HasEmail(email));
    }

    /** `Orders.findByUser(userId)`. */
    method FindByUser(userId: string) returns (r: seq<Order>)
      ensures r == ByUser(orders, userId)
    {
      r := Filter(orders, HasUser(userId));
    }

    /** `Orders.updateStatus(id, status)`: set the status of the first order
        with the id and return it, or return null and change nothing. */
    method UpdateStatus(id: string, status: OrderStatus) returns (r: Option<Order>)
      modifies this
      ensures orders == StatusUpdated(old(orders), id, status)
      ensures var k := FindIndex(old(orders), HasId(id));
        r == if k >= 0 then Some(orders[k]) else None
      ensures r.Some? ==> r.value.id == id && r.value.status == status
    {
      var k := FindIndex(orders, HasId(id));
      if k >= 0 {
        orders := orders[k := orders[k].(status := status)];
        r := Some(orders[k]);
      } else {
        r := None;
      }
    }
  }
}

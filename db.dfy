/**
  The order store as the views change it: orders and line items keyed by
  their auto-increment ids, the read-only product prices, the delivery
  records written at checkout, and the next free id of each table.
*/
module Db {
  import opened Wrappers
  import opened Ledger
  import opened Dedup
  import opened CartOps

  /** A delivery record (ShippingAddress row): the customer and the order it
      ships. Its address fields are form input and are not modelled. */
  datatype Delivery = Delivery(customer: nat, order: nat)

  /** The order `get_or_create(customer=c, complete=False)` yields when it
      does not fail: the customer's one open order, or a new one with the
      next free id. */
  function CartOrder(orders: map<nat, Order>, c: nat, newId: nat): nat
    requires |OpenOrders(orders, c)| <= 1
  {
    var open := OpenOrders(orders, c);
    if open == {} then newId else MinId(open)
  }

  /** The orders after that `get_or_create`. */
  function OrdersAfterGet(orders: map<nat, Order>, c: nat, newId: nat): map<nat, Order>
  {
    if OpenOrders(orders, c) == {} then orders[newId := Order(c, false)] else orders
  }

  /** `get_or_create` of the open order leaves the customer exactly one open
      order, the one it yields, changes no other customer's open orders, and
      so keeps the one-open-order invariant. */
  lemma GetOrCreateKeepsSingleOpen(orders: map<nat, Order>, c: nat, newId: nat)
    requires |OpenOrders(orders, c)| <= 1 && newId !in orders
    ensures var after := OrdersAfterGet(orders, c, newId);
            && OpenOrders(after, c) == {CartOrder(orders, c, newId)}
            && (forall c' :: c' != c ==> OpenOrders(after, c') == OpenOrders(orders, c'))
            && (SingleOpen(orders) ==> SingleOpen(after))
  {
    var open := OpenOrders(orders, c);
    var after := OrdersAfterGet(orders, c, newId);
    if open == {} {
      assert OpenOrders(after, c) == {newId};
    } else {
      Singleton(open, MinId(open));
    }
    forall c' | c' != c
      ensures OpenOrders(after, c') == OpenOrders(orders, c')
    {
    }
  }

  /** Checking out the order `get_or_create` yielded leaves the customer with
      no open order, so the next `get_or_create` makes a fresh one, distinct
      from every existing order; other customers' open orders are untouched,
      so at most one open order per customer is kept. */
  lemma CheckoutClosesCart(orders: map<nat, Order>, c: nat, newId: nat, nextId: nat)
    requires |OpenOrders(orders, c)| <= 1 && newId !in orders
    ensures var after := OrdersAfterGet(orders, c, newId);
            var o := CartOrder(orders, c, newId);
            var done := after[o := Order(c, true)];
            && OpenOrders(done, c) == {}
            && CartOrder(done, c, nextId) == nextId
            && (forall c' :: c' != c ==> OpenOrders(done, c') == OpenOrders(orders, c'))
            && (SingleOpen(orders) ==> SingleOpen(done))
  {
    var after := OrdersAfterGet(orders, c, newId);
    var o := CartOrder(orders, c, newId);
    GetOrCreateKeepsSingleOpen(orders, c, newId);
    var done := after[o := Order(c, true)];
    assert o in OpenOrders(after, c);
    forall id | id in OpenOrders(done, c)
      ensures id in OpenOrders(after, c) && id != o
    {
    }
    forall c' | c' != c
      ensures OpenOrders(done, c') == OpenOrders(orders, c')
    {
      assert OpenOrders(done, c') == OpenOrders(after, c');
    }
    if SingleOpen(orders) {
      forall c' ensures |OpenOrders(done, c')| <= 1 {
        if c' != c {
          assert |OpenOrders(orders, c')| <= 1;
        }
      }
    }
  }

  /** The orders after `queryset.update(complete=flag)` on the selected ids. */
  function SetComplete(orders: map<nat, Order>, selected: set<nat>, flag: bool): (r: map<nat, Order>)
    ensures r.Keys == orders.Keys
    ensures forall id :: id in r ==> r[id].customer == orders[id].customer
    ensures forall id :: id in r && id in selected ==> r[id].complete == flag
    ensures forall id :: id in r && id !in selected ==> r[id] == orders[id]
  {
    map id | id in orders :: if id in selected then orders[id].(complete := flag) else orders[id]
  }

  /** The whole content of the store, to say what a call leaves alone. */
  datatype Tables = Tables(orders: map<nat, Order>, items: map<nat, OrderItem>, prices: map<nat, int>,
                           deliveries: seq<Delivery>, nextOrder: nat, nextItem: nat)

  class Store {
    var orders: map<nat, Order>
    var items: map<nat, OrderItem>
    var prices: map<nat, int>
    var deliveries: seq<Delivery>
    var nextOrder: nat
    var nextItem: nat

    /** Ids lie below the next free id, and every line item refers to an
        existing order and an existing product. */
    ghost predicate Valid()
      reads this
    {
      && (forall id :: id in orders ==> id < nextOrder)
      && (forall id :: id in items ==> id < nextItem)
      && (forall id :: id in items ==> items[id].order in orders && items[id].product in prices)
    }

    function State(): Tables
      reads this
    {
      Tables(orders, items, prices, deliveries, nextOrder, nextItem)
    }

    /** An empty store over a product catalogue. */
    constructor (catalogue: map<nat, int>)
      ensures Valid()
      ensures orders == map[] && items == map[] && prices == catalogue && deliveries == []
    {
      orders, items, prices, deliveries := map[], map[], catalogue, [];
      nextOrder, nextItem := 0, 0;
    }

    /** `Order.objects.get_or_create(customer=c, complete=False)`: fails when
        the customer has more than one open order. */
    method GetOrCreateOpenOrder(c: nat) returns (r: Result<nat, Error>)
      requires Valid()
      modifies this
      ensures Valid()
      ensures items == old(items) && prices == old(prices) && deliveries == old(deliveries) && nextItem == old(nextItem)
      ensures |OpenOrders(old(orders), c)| > 1 ==>
                r == Failure(MultipleObjectsReturned) && orders == old(orders) && nextOrder == old(nextOrder)
      ensures |OpenOrders(old(orders), c)| <= 1 ==>
                && r == Success(CartOrder(old(orders), c, old(nextOrder)))
                && orders == OrdersAfterGet(old(orders), c, old(nextOrder))
      ensures r.Success? ==> r.value in orders && OpenOrders(orders, c) == {r.value}
    {
      var open := OpenOrders(orders, c);
      if |open| > 1 {
        r := Failure(MultipleObjectsReturned);
      } else if open != {} {
        var o :| o in open;
        Singleton(open, o);
        r := Success(o);
      } else {
        GetOrCreateKeepsSingleOpen(orders, c, nextOrder);
        orders := orders[nextOrder := Order(c, false)];
        r := Success(nextOrder);
        nextOrder := nextOrder + 1;
      }
    }

    /** `_merge_duplicate_orderitems(order)`: for each product with more than
        one line in order `o`, set the lowest-id line's quantity to the
        group's sum and delete the group's other lines. */
    method MergeOrder(o: nat)
      requires Valid()
      modifies this
      ensures Valid()
      ensures items == Merged(old(items), o)
      ensures orders == old(orders) && prices == old(prices) && deliveries == old(deliveries)
      ensures nextOrder == old(nextOrder) && nextItem == old(nextItem)
    {
      // The duplicate groups are read once, before any row changes.
      var before := items;
      var dups := DupProducts(before, o);
      var todo := dups;
      ghost var done: set<nat> := {};
      RepairTrivial(before, Pairs(o, done));
      while todo != {}
        invariant todo <= dups && done == dups - todo
        invariant Valid() && items == Repair(before, Pairs(o, done))
        invariant orders == old(orders) && prices == old(prices) && deliveries == old(deliveries)
        invariant nextOrder == old(nextOrder) && nextItem == old(nextItem)
        decreases todo
      {
        var p :| p in todo;
        DupProductHasGroup(before, o, p);
        CollapseGroup(before, o, p, done);
        todo, done := todo - {p}, done + {p};
      }
      assert done == dups;
      DupProductsSuffice(before, o);
    }

    /** One iteration of the merge: the product's group, as it was before the
        merge began, collapses to its lowest-id line carrying the group's sum. */
    method CollapseGroup(before: map<nat, OrderItem>, o: nat, p: nat, ghost done: set<nat>)
      requires Valid() && items == Repair(before, Pairs(o, done))
      requires p !in done && Group(before, o, p) != {}
      modifies this
      ensures Valid() && items == Repair(before, Pairs(o, done + {p}))
      ensures orders == old(orders) && prices == old(prices) && deliveries == old(deliveries)
      ensures nextOrder == old(nextOrder) && nextItem == old(nextItem)
    {
      var g := Group(before, o, p);
      var keep := MinId(g);
      var total := SumOf(before, g, Quantity);
      MergeStep(before, items, o, p, done);
      SetQuantity(keep, total);
      DeleteOthers(o, p, keep);
    }

    /** `OrderItem.objects.get_or_create(order=o, product=p)`: fails when the
        product has more than one line in the order; a new line has quantity 0. */
    method GetOrCreateLine(o: nat, p: nat) returns (r: Result<nat, Error>)
      requires Valid() && o in orders && p in prices
      modifies this
      ensures Valid()
      ensures orders == old(orders) && prices == old(prices) && deliveries == old(deliveries) && nextOrder == old(nextOrder)
      ensures |Group(old(items), o, p)| > 1 ==> r == Failure(MultipleObjectsReturned) && items == old(items)
      ensures |Group(old(items), o, p)| <= 1 ==>
                && r == Success(LineId(old(items), o, p, old(nextItem)))
                && items == WithLine(old(items), o, p, old(nextItem))
      ensures r.Success? ==> r.value in items && Key(items[r.value]) == (o, p)
    {
      var g := Group(items, o, p);
      if |g| > 1 {
        r := Failure(MultipleObjectsReturned);
      } else if g != {} {
        var id :| id in g;
        Singleton(g, id);
        r := Success(id);
      } else {
        items := items[nextItem := OrderItem(o, p, 0)];
        r := Success(nextItem);
        nextItem := nextItem + 1;
      }
    }

    /** `orderItem.save()` with a new quantity, or the equivalent
        `filter(id=id).update(quantity=q)`. */
    method SetQuantity(id: nat, q: int)
      requires Valid() && id in items
      modifies this
      ensures Valid()
      ensures items == old(items)[id := old(items)[id].(quantity := q)]
      ensures orders == old(orders) && prices == old(prices) && deliveries == old(deliveries)
      ensures nextOrder == old(nextOrder) && nextItem == old(nextItem)
    {
      items := items[id := items[id].(quantity := q)];
    }

    /** `OrderItem.objects.filter(order=o, product_id=p).exclude(id=keep).delete()`. */
    method DeleteOthers(o: nat, p: nat, keep: nat)
      requires Valid()
      modifies this
      ensures Valid()
      ensures items == old(items) - (Group(old(items), o, p) - {keep})
      ensures orders == old(orders) && prices == old(prices) && deliveries == old(deliveries)
      ensures nextOrder == old(nextOrder) && nextItem == old(nextItem)
    {
      items := items - (Group(items, o, p) - {keep});
    }

    /** `orderItem.delete()`. */
    method DeleteItem(id: nat)
      requires Valid()
      modifies this
      ensures Valid()
      ensures items == old(items) - {id}
      ensures orders == old(orders) && prices == old(prices) && deliveries == old(deliveries)
      ensures nextOrder == old(nextOrder) && nextItem == old(nextItem)
    {
      items := items - {id};
    }

    /** `order.complete = True; order.save()`. */
    method CompleteOrder(o: nat)
      requires Valid() && o in orders
      modifies this
      ensures Valid()
      ensures orders == old(orders)[o := old(orders)[o].(complete := true)]
      ensures items == old(items) && prices == old(prices) && deliveries == old(deliveries)
      ensures nextOrder == old(nextOrder) && nextItem == old(nextItem)
    {
      orders := orders[o := orders[o].(complete := true)];
    }

    /** `delivery.save()` of a new delivery record. */
    method AddDelivery(d: Delivery)
      requires Valid()
      modifies this
      ensures Valid()
      ensures deliveries == old(deliveries) + [d]
      ensures orders == old(orders) && items == old(items) && prices == old(prices)
      ensures nextOrder == old(nextOrder) && nextItem == old(nextItem)
    {
      deliveries := deliveries + [d];
    }

    /** `queryset.update(complete=flag)` over the selected orders. */
    method UpdateComplete(selected: set<nat>, flag: bool)
      requires Valid()
      modifies this
      ensures Valid()
      ensures orders == SetComplete(old(orders), selected, flag)
      ensures items == old(items) && prices == old(prices) && deliveries == old(deliveries)
      ensures nextOrder == old(nextOrder) && nextItem == old(nextItem)
    {
      orders := SetComplete(orders, selected, flag);
    }
  }
}

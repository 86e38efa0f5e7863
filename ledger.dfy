/**
  The relational store behind the cart: order rows, line-item rows and
  product prices, with the aggregate queries the views run over them
  (COUNT, SUM and MIN per group, the cart's item count and total).

  Line items are kept in a map keyed by their auto-increment id. Sums over
  a set of ids are taken in increasing id order; the lemmas below show that
  the order does not matter.
*/
module Ledger {

  /** An order row: its owning customer and whether it has been checked out.
      While `complete` is false the order is the customer's cart. */
  datatype Order = Order(customer: nat, complete: bool)

  /** A line-item row: a quantity of one product inside one order. */
  datatype OrderItem = OrderItem(order: nat, product: nat, quantity: int)

  /** What a sum over line items adds up: their quantities (the cart's item
      count) or their line totals under a price list (the cart's total). */
  datatype Measure = Quantity | Value(prices: map<nat, int>)

  /** The ways a request ends without doing its work. */
  datatype Error =
    | NotLoggedIn              // HTTP 401
    | AdminAccount             // HTTP 403
    | NoCustomerProfile        // HTTP 400
    | MissingProductId         // HTTP 400
    | ProductNotFound          // HTTP 404
    | InvalidAction            // HTTP 400
    | OrderNotFound            // HTTP 404
    | MultipleObjectsReturned  // an ORM `get` that matched more than one row

  function Price(prices: map<nat, int>, product: nat): int
  {
    if product in prices then prices[product] else 0
  }

  /** The amount one line item contributes to a sum. A line total is
      quantity times the product's price. */
  function Weight(m: Measure, it: OrderItem): int
  {
    match m
    case Quantity => it.quantity
    case Value(prices) => it.quantity * Price(prices, it.product)
  }

  /** `m` is the smallest element of `ids`. */
  predicate IsMin(ids: set<nat>, m: nat)
  {
    m in ids && forall y :: y in ids ==> m <= y
  }

  /** Every non-empty finite set of ids has a smallest element. */
  lemma {:induction false} MinExists(ids: set<nat>)
    requires ids != {}
    ensures exists m :: IsMin(ids, m)
    decreases |ids|
  {
    var x :| x in ids;
    var rest := ids - {x};
    if rest == {} {
      forall y | y in ids ensures x <= y { assert y !in rest; }
      assert IsMin(ids, x);
    } else {
      MinExists(rest);
      var m :| IsMin(rest, m);
      var least := if x < m then x else m;
      forall y | y in ids
        ensures least <= y
      {
        if y != x { assert y in rest; }
      }
      assert IsMin(ids, least);
    }
  }

  /** The smallest id of a non-empty set of ids (the MIN("id") aggregate). */
  function MinId(ids: set<nat>): (m: nat)
    requires ids != {}
    ensures m in ids
    ensures forall y :: y in ids ==> m <= y
  {
    MinExists(ids);
    var m :| IsMin(ids, m);
    m
  }

  /** The SUM aggregate of a measure over the rows with the given ids. */
  function SumOf(items: map<nat, OrderItem>, ids: set<nat>, m: Measure): int
    requires ids <= items.Keys
    decreases ids
  {
    if ids == {} then 0
    else
      var k := MinId(ids);
      Weight(m, items[k]) + SumOf(items, ids - {k}, m)
  }

  /** Removing any one row from a sum takes away exactly its weight. */
  lemma {:induction false} SumOfRemove(items: map<nat, OrderItem>, ids: set<nat>, m: Measure, x: nat)
    requires ids <= items.Keys && x in ids
    ensures SumOf(items, ids, m) == Weight(m, items[x]) + SumOf(items, ids - {x}, m)
    decreases ids
  {
    var k := MinId(ids);
    if x != k {
      SumOfRemove(items, ids - {k}, m, x);
      SumOfRemove(items, ids - {x}, m, k);
      assert ids - {k} - {x} == ids - {x} - {k};
    }
  }

  /** A sum over two disjoint sets of rows is the sum of the two sums. */
  lemma {:induction false} SumOfUnion(items: map<nat, OrderItem>, a: set<nat>, b: set<nat>, m: Measure)
    requires a <= items.Keys && b <= items.Keys && a !! b
    ensures SumOf(items, a + b, m) == SumOf(items, a, m) + SumOf(items, b, m)
    decreases a
  {
    if a == {} {
      assert a + b == b;
    } else {
      var x := MinId(a);
      SumOfRemove(items, a + b, m, x);
      SumOfUnion(items, a - {x}, b, m);
      assert (a + b) - {x} == (a - {x}) + b;
    }
  }

  /** A sum depends only on the weights of the rows it adds up. */
  lemma {:induction false} SumOfCongruent(items1: map<nat, OrderItem>, items2: map<nat, OrderItem>, ids: set<nat>, m: Measure)
    requires ids <= items1.Keys && ids <= items2.Keys
    requires forall id :: id in ids ==> Weight(m, items1[id]) == Weight(m, items2[id])
    ensures SumOf(items1, ids, m) == SumOf(items2, ids, m)
    decreases ids
  {
    if ids != {} {
      SumOfCongruent(items1, items2, ids - {MinId(ids)}, m);
    }
  }

  lemma SumOfSingleton(items: map<nat, OrderItem>, x: nat, m: Measure)
    requires x in items
    ensures SumOf(items, {x}, m) == Weight(m, items[x])
  {
    assert {x} - {x} == {};
  }

  /** On rows of one product, the sum of line totals is the summed quantity
      times that product's price. */
  lemma {:induction false} SumOfScale(items: map<nat, OrderItem>, ids: set<nat>, prices: map<nat, int>, p: nat)
    requires ids <= items.Keys
    requires forall id :: id in ids ==> items[id].product == p
    ensures SumOf(items, ids, Value(prices)) == SumOf(items, ids, Quantity) * Price(prices, p)
    decreases ids
  {
    if ids != {} {
      var k := MinId(ids);
      SumOfScale(items, ids - {k}, prices, p);
      var q, rest, c := items[k].quantity, SumOf(items, ids - {k}, Quantity), Price(prices, p);
      assert (q + rest) * c == q * c + rest * c;
    }
  }

  /** The ids of the line items of order `o` and product `p` (one GROUP BY group). */
  function Group(items: map<nat, OrderItem>, o: nat, p: nat): set<nat>
  {
    set id | id in items && items[id].order == o && items[id].product == p
  }

  /** The ids of all line items of order `o` (`order.orderitem_set`). */
  function OrderIds(items: map<nat, OrderItem>, o: nat): set<nat>
  {
    set id | id in items && items[id].order == o
  }

  /** The line items of order `o`. */
  function OrderLines(items: map<nat, OrderItem>, o: nat): (r: map<nat, OrderItem>)
    ensures r.Keys == OrderIds(items, o)
    ensures forall id :: id in r ==> r[id] == items[id] && r[id].order == o
  {
    map id | id in OrderIds(items, o) :: items[id]
  }

  /** The total quantity of product `p` in order `o`, over all its rows. */
  function LineQty(items: map<nat, OrderItem>, o: nat, p: nat): int
  {
    SumOf(items, Group(items, o, p), Quantity)
  }

  /** `order.get_cart_items`: the sum of the quantities of the order's lines. */
  function CartItems(items: map<nat, OrderItem>, o: nat): int
  {
    SumOf(items, OrderIds(items, o), Quantity)
  }

  /** `order.get_cart_total`: the sum of quantity times price over the order's lines. */
  function CartTotal(items: map<nat, OrderItem>, prices: map<nat, int>, o: nat): int
  {
    SumOf(items, OrderIds(items, o), Value(prices))
  }

  /** The ids of the incomplete orders of customer `c`. */
  function OpenOrders(orders: map<nat, Order>, c: nat): set<nat>
  {
    set id | id in orders && orders[id].customer == c && !orders[id].complete
  }

  /** The central ledger invariant: at most one incomplete order per customer. */
  ghost predicate SingleOpen(orders: map<nat, Order>)
  {
    forall c :: |OpenOrders(orders, c)| <= 1
  }

  /** A set with at most one element that holds `x` is `{x}`. */
  lemma Singleton(s: set<nat>, x: nat)
    requires x in s && |s| <= 1
    ensures s == {x}
  {
    var rest := s - {x};
    assert s == rest + {x};
    assert rest == {};
  }
}

/**
  The order admin: the bulk actions on selected orders (mark complete, mark
  incomplete, merge duplicate items) and the list columns that show money
  with thousands separators.
*/
module Admin {
  import opened Wrappers
  import opened Ledger
  import opened Dedup
  import opened Db

  // ---------------------------------------------------------------------
  // Bulk actions
  // ---------------------------------------------------------------------

  /** `mark_complete`: `queryset.update(complete=True)`. */
  method MarkComplete(store: Store, selected: set<nat>)
    requires store.Valid()
    modifies store
    ensures store.Valid()
    ensures store.State() == old(store.State()).(orders := SetComplete(old(store.orders), selected, true))
  {
    store.UpdateComplete(selected, true);
  }

  /** `mark_incomplete`: `queryset.update(complete=False)`. */
  method MarkIncomplete(store: Store, selected: set<nat>)
    requires store.Valid()
    modifies store
    ensures store.Valid()
    ensures store.State() == old(store.State()).(orders := SetComplete(old(store.orders), selected, false))
  {
    store.UpdateComplete(selected, false);
  }

  /** Marking orders complete never gives a customer a second open order. */
  lemma {:induction false} MarkCompleteKeepsSingleOpen(orders: map<nat, Order>, selected: set<nat>)
    requires SingleOpen(orders)
    ensures SingleOpen(SetComplete(orders, selected, true))
    ensures forall c :: OpenOrders(SetComplete(orders, selected, true), c) == OpenOrders(orders, c) - selected
  {
    var after := SetComplete(orders, selected, true);
    forall c
      ensures OpenOrders(after, c) == OpenOrders(orders, c) - selected
    {
    }
    forall c
      ensures |OpenOrders(after, c)| <= 1
    {
      assert OpenOrders(after, c) <= OpenOrders(orders, c);
      SubsetSize(OpenOrders(after, c), OpenOrders(orders, c));
    }
  }

  lemma {:induction false} SubsetSize(a: set<nat>, b: set<nat>)
    requires a <= b
    ensures |a| <= |b|
  {
    assert b == a + (b - a);
  }

  /** Nothing stops `mark_incomplete` from reopening a customer's paid
      order beside the open one; that customer's cart then fails, since
      `get_or_create` of the open order finds two. */
  lemma MarkIncompleteCanReopenTwo()
    ensures var orders := map[1 := Order(7, true), 2 := Order(7, false)];
            var after := SetComplete(orders, {1}, false);
            && SingleOpen(orders)
            && OpenOrders(after, 7) == {1, 2}
            && !SingleOpen(after)
  {
    var orders := map[1 := Order(7, true), 2 := Order(7, false)];
    var after := SetComplete(orders, {1}, false);
    forall c
      ensures |OpenOrders(orders, c)| <= 1
    {
      if c == 7 {
        assert OpenOrders(orders, c) == {2};
      } else {
        assert OpenOrders(orders, c) == {};
      }
    }
    assert OpenOrders(after, 7) == {1, 2};
  }

  /** `merge_duplicate_items`: the repair of every selected order, one order
      at a time. */
  method MergeDuplicateItems(store: Store, selected: set<nat>)
    requires store.Valid()
    modifies store
    ensures store.Valid()
    ensures store.State() == old(store.State()).(items := MergeOrders(old(store.items), selected))
  {
    ghost var items0 := store.items;
    var todo := selected;
    ghost var done: set<nat> := {};
    assert OrderKeys(items0, done) == {};
    RepairTrivial(items0, {});
    while todo != {}
      invariant todo <= selected && done == selected - todo
      invariant store.Valid() && store.items == MergeOrders(items0, done)
      invariant store.State() == old(store.State()).(items := store.items)
      decreases todo
    {
      var o :| o in todo;
      store.MergeOrder(o);
      MergeCompose(items0, done, {o});
      todo, done := todo - {o}, done + {o};
    }
    assert done == selected;
  }

  // ---------------------------------------------------------------------
  // Money columns: `f"{int(value):,}"`, or "0" when the value fails
  // ---------------------------------------------------------------------

  predicate IsDigit(c: char)
  {
    '0' <= c <= '9'
  }

  function DigitChar(d: nat): (c: char)
    requires d < 10
    ensures IsDigit(c)
  {
    ('0' as int + d) as char
  }

  /** The decimal digits of `n`, without leading zeros. */
  function Digits(n: nat): (s: string)
    ensures 1 <= |s|
    ensures (n < 10 ==> |s| == 1) && (n < 100 ==> |s| <= 2) && (n < 1000 ==> |s| <= 3)
    ensures forall i :: 0 <= i < |s| ==> IsDigit(s[i])
    ensures n > 0 ==> s[0] != '0'
    decreases n
  {
    if n < 10 then [DigitChar(n)] else Digits(n / 10) + [DigitChar(n % 10)]
  }

  /** The three digits of a group after the first, with leading zeros. */
  function Pad3(n: nat): (s: string)
    requires n < 1000
    ensures |s| == 3 && forall i :: 0 <= i < 3 ==> IsDigit(s[i])
  {
    [DigitChar(n / 100), DigitChar(n / 10 % 10), DigitChar(n % 10)]
  }

  /** Digits with a comma before every group of three, counted from the
      right: a comma stands exactly where a multiple of four characters
      remain, and everything else is a digit. */
  ghost predicate CommaShaped(s: string)
  {
    && (forall i :: 0 <= i < |s| ==> (s[i] == ',' <==> (|s| - i) % 4 == 0))
    && (forall i :: 0 <= i < |s| ==> IsDigit(s[i]) || s[i] == ',')
  }

  lemma DigitsShaped(s: string)
    requires 1 <= |s| <= 3 && forall i :: 0 <= i < |s| ==> IsDigit(s[i])
    ensures CommaShaped(s)
  {
  }

  lemma {:induction false} AppendGroupShaped(head: string, tail: string)
    requires CommaShaped(head) && |tail| == 3 && forall i :: 0 <= i < 3 ==> IsDigit(tail[i])
    ensures CommaShaped(head + "," + tail)
  {
    var s := head + "," + tail;
    forall i | 0 <= i < |s|
      ensures (s[i] == ',' <==> (|s| - i) % 4 == 0) && (IsDigit(s[i]) || s[i] == ',')
    {
      if i < |head| {
        assert s[i] == head[i];
        assert |s| - i == (|head| - i) + 4;
      } else if i > |head| {
        assert s[i] == tail[i - |head| - 1];
      }
    }
  }

  /** The digits of `n` grouped by commas as `f"{n:,}"` writes them, starting
      with a digit that is not a leading zero. */
  function Grouped(n: nat): (s: string)
    ensures 1 <= |s| && IsDigit(s[0]) && (n > 0 ==> s[0] != '0') && (n < 10 ==> |s| == 1)
    ensures CommaShaped(s)
    decreases n
  {
    if n < 1000 then
      DigitsShaped(Digits(n));
      Digits(n)
    else
      var head, tail := Grouped(n / 1000), Pad3(n % 1000);
      AppendGroupShaped(head, tail);
      head + "," + tail
  }

  /** `f"{n:,}"`. */
  function Thousands(n: int): string
  {
    if n < 0 then "-" + Grouped(-n) else Grouped(n)
  }

  /** The value of a string of digits and commas, ignoring the commas. */
  function Amount(s: string): int
  {
    if s == [] then 0
    else
      var init, c := s[..|s| - 1], s[|s| - 1];
      if c == ',' then Amount(init) else Amount(init) * 10 + (c as int - '0' as int)
  }

  /** Reading a formatted amount back: an optional minus sign, then digits
      and commas. */
  function ParseAmount(s: string): int
  {
    if s != [] && s[0] == '-' then -Amount(s[1..]) else Amount(s)
  }

  lemma AmountSnoc(s: string, c: char)
    ensures Amount(s + [c]) == if c == ',' then Amount(s) else Amount(s) * 10 + (c as int - '0' as int)
  {
    assert (s + [c])[..|s|] == s;
  }

  lemma {:induction false} AmountDigits(n: nat)
    ensures Amount(Digits(n)) == n
    decreases n
  {
    if n < 10 {
      AmountSnoc([], DigitChar(n));
      assert [] + [DigitChar(n)] == [DigitChar(n)];
    } else {
      AmountDigits(n / 10);
      AmountSnoc(Digits(n / 10), DigitChar(n % 10));
    }
  }

  lemma ThreeDigits(r: nat)
    requires r < 1000
    ensures (r / 100) * 100 + (r / 10 % 10) * 10 + r % 10 == r
  {
  }

  /** Appending a comma and a group of three digits multiplies the value by
      1000 and adds the group. */
  lemma AmountAppendGroup(head: string, r: nat)
    requires r < 1000
    ensures Amount(head + "," + Pad3(r)) == Amount(head) * 1000 + r
  {
    var a, b, c := DigitChar(r / 100), DigitChar(r / 10 % 10), DigitChar(r % 10);
    var s1 := head + [','];
    var s2 := s1 + [a];
    var s3 := s2 + [b];
    assert head + "," + Pad3(r) == s3 + [c];
    AmountSnoc(head, ',');
    AmountSnoc(s1, a);
    AmountSnoc(s2, b);
    AmountSnoc(s3, c);
    ThreeDigits(r);
  }

  lemma {:induction false} AmountGrouped(n: nat)
    ensures Amount(Grouped(n)) == n
    decreases n
  {
    if n < 1000 {
      AmountDigits(n);
    } else {
      AmountGrouped(n / 1000);
      AmountAppendGroup(Grouped(n / 1000), n % 1000);
    }
  }

  /** The formatted amount reads back as the same integer. */
  lemma ThousandsRoundTrip(n: int)
    ensures ParseAmount(Thousands(n)) == n
  {
    if n < 0 {
      AmountGrouped(-n);
      assert ("-" + Grouped(-n))[1..] == Grouped(-n);
    } else {
      AmountGrouped(n);
    }
  }

  /** A money column: the formatted value, or "0" when computing it fails. */
  function Vnd(v: Option<int>): (s: string)
    ensures v.None? ==> s == "0"
    ensures v.Some? ==> ParseAmount(s) == v.value
  {
    match v
    case None => "0"
    case Some(n) => ThousandsRoundTrip(n); Thousands(n)
  }

  /** `OrderItem.get_total`: quantity times the product's price; it fails
      when the line has no product to take a price from. */
  function LineTotal(items: map<nat, OrderItem>, prices: map<nat, int>, id: nat): (r: Option<int>)
    ensures r.Some? <==> id in items && items[id].product in prices
  {
    if id in items && items[id].product in prices then Some(Weight(Value(prices), items[id])) else None
  }

  /** `line_total` and `line_total_vnd`: the line's total, formatted. */
  function LineTotalVnd(items: map<nat, OrderItem>, prices: map<nat, int>, id: nat): (s: string)
    ensures id in items && items[id].product in prices ==>
              ParseAmount(s) == items[id].quantity * prices[items[id].product]
    ensures !(id in items && items[id].product in prices) ==> s == "0"
  {
    Vnd(LineTotal(items, prices, id))
  }

  /** `price_vnd`: the product's price, formatted. */
  function PriceVnd(prices: map<nat, int>, p: nat): (s: string)
    ensures p in prices ==> ParseAmount(s) == prices[p]
    ensures p !in prices ==> s == "0"
  {
    Vnd(if p in prices then Some(prices[p]) else None)
  }

  /** `order.get_cart_total`, which fails when one of the order's lines
      has no product to take a price from. */
  function OrderTotal(items: map<nat, OrderItem>, prices: map<nat, int>, o: nat): (r: Option<int>)
    ensures r.Some? <==> forall id :: id in items && items[id].order == o ==> items[id].product in prices
    ensures r.Some? ==> r.value == CartTotal(items, prices, o)
  {
    if forall id :: id in OrderIds(items, o) ==> items[id].product in prices
    then Some(CartTotal(items, prices, o)) else None
  }

  /** `order_total_vnd`: the order's total, formatted. */
  function OrderTotalVnd(items: map<nat, OrderItem>, prices: map<nat, int>, o: nat): (s: string)
    ensures OrderTotal(items, prices, o).Some? ==> ParseAmount(s) == CartTotal(items, prices, o)
    ensures OrderTotal(items, prices, o).None? ==> s == "0"
  {
    Vnd(OrderTotal(items, prices, o))
  }

  /** `item_count`: `order.get_cart_items`. */
  function ItemCount(items: map<nat, OrderItem>, o: nat): int
  {
    CartItems(items, o)
  }

  /** The merge action leaves every order's item count and total column as
      they were: it moves quantity between rows of one group, never adds or
      drops any. */
  lemma {:induction false} MergeKeepsColumns(items: map<nat, OrderItem>, prices: map<nat, int>, selected: set<nat>, o: nat)
    ensures ItemCount(MergeOrders(items, selected), o) == ItemCount(items, o)
    ensures OrderTotalVnd(MergeOrders(items, selected), prices, o) == OrderTotalVnd(items, prices, o)
  {
    var r := MergeOrders(items, selected);
    MergeKeepsTotals(items, prices, selected, o);
    assert OrderTotal(r, prices, o).Some? <==> OrderTotal(items, prices, o).Some? by {
      forall id | id in r && r[id].order == o
        ensures r[id].product == items[id].product
      {
      }
      if OrderTotal(items, prices, o).Some? {
        forall id | id in r && r[id].order == o
          ensures r[id].product in prices
        {
          assert Key(r[id]) == Key(items[id]);
        }
      } else {
        var bad :| bad in items && items[bad].order == o && items[bad].product !in prices;
        MergeHasRowOfEveryKey(items, selected, bad);
      }
    }
  }

  /** Every (order, product) key with a row keeps a row after the merge. */
  lemma MergeHasRowOfEveryKey(items: map<nat, OrderItem>, selected: set<nat>, id: nat)
    requires id in items
    ensures exists k :: k in MergeOrders(items, selected) && Key(MergeOrders(items, selected)[k]) == Key(items[id])
  {
    var it := items[id];
    assert id in Group(items, it.order, it.product);
    if it.order in selected {
      MergeKeepsLowestId(items, selected, it.order, it.product);
      var k := MinId(Group(items, it.order, it.product));
      assert k in MergeOrders(items, selected);
    } else {
      assert id in MergeOrders(items, selected);
    }
  }
}

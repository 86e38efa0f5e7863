/**
  The duplicate-line repair: every group of line items that share an order
  and a product collapses into its lowest-id row, which takes the group's
  summed quantity; the other rows of the group are deleted.

  `Repair(items, scope)` is the state after repairing exactly the groups whose
  (order, product) key is in `scope`, stated row by row. The view helper
  repairs every group of one order, the admin action every group of the
  selected orders; both are `MergeOrders` below.
*/
module Dedup {
  import opened Ledger

  /** The (order, product) pair a line item is grouped by. */
  function Key(it: OrderItem): (nat, nat)
  {
    (it.order, it.product)
  }

  /** The group the row `id` belongs to. */
  function GroupOf(items: map<nat, OrderItem>, id: nat): (g: set<nat>)
    requires id in items
    ensures id in g
  {
    Group(items, items[id].order, items[id].product)
  }

  /** A row survives the repair unless its group is repaired and it is not the group's lowest id. */
  ghost predicate Survives(items: map<nat, OrderItem>, scope: set<(nat, nat)>, id: nat)
    requires id in items
  {
    Key(items[id]) !in scope || id == MinId(GroupOf(items, id))
  }

  /** A surviving row of a repaired group carries the group's summed quantity. */
  ghost function Collapsed(items: map<nat, OrderItem>, scope: set<(nat, nat)>, id: nat): OrderItem
    requires id in items
  {
    if Key(items[id]) in scope then items[id].(quantity := SumOf(items, GroupOf(items, id), Quantity))
    else items[id]
  }

  ghost function Repair(items: map<nat, OrderItem>, scope: set<(nat, nat)>): (r: map<nat, OrderItem>)
    ensures forall id :: id in r ==> id in items && Key(r[id]) == Key(items[id])
    ensures forall id :: id in items && Key(items[id]) !in scope ==> id in r && r[id] == items[id]
  {
    map id | id in items && Survives(items, scope, id) :: Collapsed(items, scope, id)
  }

  /** The keys of the rows of the given orders. */
  function OrderKeys(items: map<nat, OrderItem>, os: set<nat>): set<(nat, nat)>
  {
    set id | id in items && items[id].order in os :: Key(items[id])
  }

  /** The store's line items after repairing every group of the orders `os`.
      Rows of other orders are left exactly as they were; rows are deleted,
      never added, and only their quantities change. */
  ghost function MergeOrders(items: map<nat, OrderItem>, os: set<nat>): (r: map<nat, OrderItem>)
    ensures forall id :: id in items && items[id].order !in os ==> id in r && r[id] == items[id]
    ensures forall id :: id in r ==> id in items && Key(r[id]) == Key(items[id])
  {
    Repair(items, OrderKeys(items, os))
  }

  /** The store's line items after repairing every group of order `o`. */
  ghost function Merged(items: map<nat, OrderItem>, o: nat): map<nat, OrderItem>
  {
    MergeOrders(items, {o})
  }

  // ---------------------------------------------------------------------
  // One group at a time
  // ---------------------------------------------------------------------

  /** A repair never adds rows to a group. */
  lemma GroupShrinks(items: map<nat, OrderItem>, scope: set<(nat, nat)>, o: nat, p: nat)
    ensures Group(Repair(items, scope), o, p) <= Group(items, o, p)
  {
  }

  /** A group outside the scope keeps all its rows, unchanged. */
  lemma GroupOutside(items: map<nat, OrderItem>, scope: set<(nat, nat)>, o: nat, p: nat)
    requires (o, p) !in scope
    ensures Group(Repair(items, scope), o, p) == Group(items, o, p)
    ensures forall id :: id in Group(items, o, p) ==> Repair(items, scope)[id] == items[id]
  {
    var r := Repair(items, scope);
    forall id | id in Group(items, o, p)
      ensures id in Group(r, o, p)
    {
      assert Key(items[id]) == (o, p);
    }
  }

  /** A repaired non-empty group is left with its lowest-id row only, which
      carries the sum of the group's quantities. */
  lemma GroupInside(items: map<nat, OrderItem>, scope: set<(nat, nat)>, o: nat, p: nat)
    requires (o, p) in scope && Group(items, o, p) != {}
    ensures Group(Repair(items, scope), o, p) == {MinId(Group(items, o, p))}
    ensures Repair(items, scope)[MinId(Group(items, o, p))]
         == items[MinId(Group(items, o, p))].(quantity := LineQty(items, o, p))
  {
    var r := Repair(items, scope);
    var g := Group(items, o, p);
    var k := MinId(g);
    assert GroupOf(items, k) == g;
    assert k in r;
    forall id | id in Group(r, o, p)
      ensures id == k
    {
      assert GroupOf(items, id) == g;
    }
  }

  /** After a repair, a group in scope has at most one row. */
  lemma RepairUnique(items: map<nat, OrderItem>, scope: set<(nat, nat)>, o: nat, p: nat)
    requires (o, p) in scope
    ensures |Group(Repair(items, scope), o, p)| <= 1
  {
    if Group(items, o, p) == {} {
      GroupShrinks(items, scope, o, p);
    } else {
      GroupInside(items, scope, o, p);
    }
  }

  /** A repair keeps the total quantity of every (order, product) pair. */
  lemma RepairLineQty(items: map<nat, OrderItem>, scope: set<(nat, nat)>, o: nat, p: nat)
    ensures LineQty(Repair(items, scope), o, p) == LineQty(items, o, p)
  {
    var r := Repair(items, scope);
    if (o, p) !in scope {
      GroupOutside(items, scope, o, p);
      SumOfCongruent(r, items, Group(items, o, p), Quantity);
    } else if Group(items, o, p) == {} {
      GroupShrinks(items, scope, o, p);
    } else {
      GroupInside(items, scope, o, p);
      SumOfSingleton(r, MinId(Group(items, o, p)), Quantity);
    }
  }

  // ---------------------------------------------------------------------
  // Composing repairs
  // ---------------------------------------------------------------------

  /** Repairing the groups of `a` and then those of `b` is repairing those of
      `a + b` at once; in particular repairing a group twice changes nothing
      the second time, and groups can be repaired in any order. */
  lemma RepairCompose(items: map<nat, OrderItem>, a: set<(nat, nat)>, b: set<(nat, nat)>)
    ensures Repair(Repair(items, a), b) == Repair(items, a + b)
  {
    var r1 := Repair(items, a);
    var lhs := Repair(r1, b);
    var rhs := Repair(items, a + b);
    forall id | id in items
      ensures id in lhs <==> id in rhs
      ensures id in lhs ==> lhs[id] == rhs[id]
    {
      var o, p := items[id].order, items[id].product;
      assert Key(items[id]) == (o, p);
      var g := Group(items, o, p);
      assert id in g;
      var k := MinId(g);
      if (o, p) in a {
        GroupInside(items, a, o, p);
        GroupInside(items, a + b, o, p);
        if (o, p) in b {
          GroupInside(r1, b, o, p);
          SumOfSingleton(r1, k, Quantity);
          assert Group(lhs, o, p) == {k};
        } else {
          GroupOutside(r1, b, o, p);
        }
        assert id in lhs <==> id == k;
        assert id in rhs <==> id == k;
      } else if (o, p) in b {
        GroupOutside(items, a, o, p);
        SumOfCongruent(r1, items, g, Quantity);
        GroupInside(r1, b, o, p);
        GroupInside(items, a + b, o, p);
        assert id in lhs <==> id == k;
        assert id in rhs <==> id == k;
      }
    }
    assert lhs == rhs;
  }

  /** Repairing groups that have at most one row changes nothing. */
  lemma RepairTrivial(items: map<nat, OrderItem>, scope: set<(nat, nat)>)
    requires forall k :: k in scope ==> |Group(items, k.0, k.1)| <= 1
    ensures Repair(items, scope) == items
  {
    var r := Repair(items, scope);
    forall id | id in items
      ensures id in r && r[id] == items[id]
    {
      var g := GroupOf(items, id);
      if Key(items[id]) in scope {
        Singleton(g, id);
        SumOfSingleton(items, id, Quantity);
      }
    }
    assert r == items;
  }

  /** Adding groups of at most one row to a repair's scope changes nothing. */
  lemma RepairIgnoresTrivial(items: map<nat, OrderItem>, a: set<(nat, nat)>, t: set<(nat, nat)>)
    requires forall k :: k in t ==> k in a || |Group(items, k.0, k.1)| <= 1
    ensures Repair(items, a + t) == Repair(items, a)
  {
    var r := Repair(items, a);
    RepairCompose(items, a, t);
    forall k | k in t
      ensures |Group(r, k.0, k.1)| <= 1
    {
      if k in a {
        RepairUnique(items, a, k.0, k.1);
      } else {
        GroupOutside(items, a, k.0, k.1);
      }
    }
    RepairTrivial(r, t);
  }

  /** Repairing one group is the two store updates the views issue: set the
      lowest-id row's quantity to the group's sum, then delete every other
      row of the group. */
  lemma RepairSingle(items: map<nat, OrderItem>, o: nat, p: nat)
    requires Group(items, o, p) != {}
    ensures var g := Group(items, o, p);
            var keep := MinId(g);
            var updated := items[keep := items[keep].(quantity := SumOf(items, g, Quantity))];
            Repair(items, {(o, p)}) == updated - (Group(updated, o, p) - {keep})
  {
    var g := Group(items, o, p);
    var keep := MinId(g);
    var updated := items[keep := items[keep].(quantity := SumOf(items, g, Quantity))];
    var lhs := Repair(items, {(o, p)});
    var rhs := updated - (Group(updated, o, p) - {keep});
    assert Group(updated, o, p) == g;
    GroupInside(items, {(o, p)}, o, p);
    forall id | id in items
      ensures id in lhs <==> id in rhs
      ensures id in lhs ==> lhs[id] == rhs[id]
    {
      if Key(items[id]) == (o, p) {
        assert id in g;
      }
    }
    assert lhs == rhs;
  }

  // ---------------------------------------------------------------------
  // What a repair keeps
  // ---------------------------------------------------------------------

  /** A repair keeps at least one row of every (order, product) pair. */
  lemma RepairKeepsKeys(items: map<nat, OrderItem>, scope: set<(nat, nat)>, os: set<nat>)
    ensures OrderKeys(Repair(items, scope), os) == OrderKeys(items, os)
  {
    var r := Repair(items, scope);
    forall k | k in OrderKeys(items, os)
      ensures k in OrderKeys(r, os)
    {
      var id :| id in items && items[id].order in os && Key(items[id]) == k;
      if k in scope {
        GroupInside(items, scope, k.0, k.1);
        var m := MinId(Group(items, k.0, k.1));
        assert m in Group(r, k.0, k.1);
        assert Key(r[m]) == k;
      } else {
        assert Key(r[id]) == k;
      }
    }
  }

  /** Repairing the one group `(q, p)` keeps the sum of any measure over any
      order's rows. */
  lemma {:induction false} RepairSingleKeepsSum(items: map<nat, OrderItem>, q: nat, p: nat, o: nat, m: Measure)
    ensures var r := Repair(items, {(q, p)});
            SumOf(r, OrderIds(r, o), m) == SumOf(items, OrderIds(items, o), m)
  {
    var r := Repair(items, {(q, p)});
    var g := Group(items, q, p);
    var ix := OrderIds(items, o);
    if q != o || g == {} {
      if g == {} {
        RepairTrivial(items, {(q, p)});
      }
      assert OrderIds(r, o) == ix;
      SumOfCongruent(r, items, ix, m);
    } else {
      var k := MinId(g);
      GroupInside(items, {(q, p)}, q, p);
      var rest := ix - g;
      assert OrderIds(r, o) == rest + {k};
      SumOfUnion(r, rest, {k}, m);
      SumOfCongruent(r, items, rest, m);
      SumOfSingleton(r, k, m);
      if m.Value? {
        SumOfScale(items, g, m.prices, p);
      }
      assert Weight(m, r[k]) == SumOf(items, g, m);
      SumOfUnion(items, rest, g, m);
      assert rest + g == ix;
    }
  }

  /** Any repair keeps the sum of any measure over any order's rows. */
  lemma {:induction false} RepairKeepsSum(items: map<nat, OrderItem>, scope: set<(nat, nat)>, o: nat, m: Measure)
    ensures var r := Repair(items, scope);
            SumOf(r, OrderIds(r, o), m) == SumOf(items, OrderIds(items, o), m)
    decreases scope
  {
    if scope == {} {
      RepairTrivial(items, scope);
    } else {
      var k :| k in scope;
      var smaller := scope - {k};
      RepairCompose(items, smaller, {k});
      assert smaller + {k} == scope;
      RepairKeepsSum(items, smaller, o, m);
      RepairSingleKeepsSum(Repair(items, smaller), k.0, k.1, o, m);
    }
  }

  // ---------------------------------------------------------------------
  // Properties of merging whole orders
  // ---------------------------------------------------------------------

  /** After the merge, every product has at most one line in each merged order. */
  lemma MergeUnique(items: map<nat, OrderItem>, os: set<nat>, o: nat, p: nat)
    requires o in os
    ensures |Group(MergeOrders(items, os), o, p)| <= 1
  {
    var scope := OrderKeys(items, os);
    if (o, p) in scope {
      RepairUnique(items, scope, o, p);
    } else {
      GroupShrinks(items, scope, o, p);
    }
  }

  /** In a merged order, the line left for a product is the lowest id of its
      former rows and holds their summed quantity. */
  lemma MergeKeepsLowestId(items: map<nat, OrderItem>, os: set<nat>, o: nat, p: nat)
    requires o in os && Group(items, o, p) != {}
    ensures var r := MergeOrders(items, os);
            var keep := MinId(Group(items, o, p));
            Group(r, o, p) == {keep} && r[keep].quantity == LineQty(items, o, p)
  {
    var id :| id in Group(items, o, p);
    assert Key(items[id]) in OrderKeys(items, os);
    GroupInside(items, OrderKeys(items, os), o, p);
  }

  /** The merge keeps each product's total quantity in every order. */
  lemma MergeKeepsLineQty(items: map<nat, OrderItem>, os: set<nat>, o: nat, p: nat)
    ensures LineQty(MergeOrders(items, os), o, p) == LineQty(items, o, p)
  {
    RepairLineQty(items, OrderKeys(items, os), o, p);
  }

  /** The merge keeps every order's item count and cart total. */
  lemma MergeKeepsTotals(items: map<nat, OrderItem>, prices: map<nat, int>, os: set<nat>, o: nat)
    ensures CartItems(MergeOrders(items, os), o) == CartItems(items, o)
    ensures CartTotal(MergeOrders(items, os), prices, o) == CartTotal(items, prices, o)
  {
    RepairKeepsSum(items, OrderKeys(items, os), o, Quantity);
    RepairKeepsSum(items, OrderKeys(items, os), o, Value(prices));
  }

  /** Merging the same orders a second time changes nothing. */
  lemma MergeIdempotent(items: map<nat, OrderItem>, os: set<nat>)
    ensures MergeOrders(MergeOrders(items, os), os) == MergeOrders(items, os)
  {
    var scope := OrderKeys(items, os);
    RepairKeepsKeys(items, scope, os);
    RepairCompose(items, scope, scope);
    assert scope + scope == scope;
  }

  /** Merging the orders `a` and then the orders `b` is merging `a + b`. */
  lemma MergeCompose(items: map<nat, OrderItem>, a: set<nat>, b: set<nat>)
    ensures MergeOrders(MergeOrders(items, a), b) == MergeOrders(items, a + b)
  {
    var sa := OrderKeys(items, a);
    RepairKeepsKeys(items, sa, b);
    RepairCompose(items, sa, OrderKeys(items, b));
    assert OrderKeys(items, a) + OrderKeys(items, b) == OrderKeys(items, a + b);
  }

  // ---------------------------------------------------------------------
  // The loop of the merge, one duplicate group per step
  // ---------------------------------------------------------------------

  /** The keys of order `o` with the given products. */
  function Pairs(o: nat, ps: set<nat>): set<(nat, nat)>
  {
    set p | p in ps :: (o, p)
  }

  /** The products with more than one line in order `o` (the groups with
      COUNT("id") > 1). */
  function DupProducts(items: map<nat, OrderItem>, o: nat): set<nat>
  {
    set id | id in items && items[id].order == o && |GroupOf(items, id)| > 1 :: items[id].product
  }

  lemma DupProductHasGroup(items: map<nat, OrderItem>, o: nat, p: nat)
    requires p in DupProducts(items, o)
    ensures |Group(items, o, p)| > 1
  {
    var id :| id in items && items[id].order == o && |GroupOf(items, id)| > 1 && items[id].product == p;
    assert GroupOf(items, id) == Group(items, o, p);
  }

  /** The duplicate groups are exactly the products with more than one line. */
  lemma DupProductsExact(items: map<nat, OrderItem>, o: nat)
    ensures forall p :: p in DupProducts(items, o) <==> |Group(items, o, p)| > 1
  {
    forall p
      ensures p in DupProducts(items, o) <==> |Group(items, o, p)| > 1
    {
      if |Group(items, o, p)| > 1 {
        var id :| id in Group(items, o, p);
        assert GroupOf(items, id) == Group(items, o, p);
      }
      if p in DupProducts(items, o) {
        DupProductHasGroup(items, o, p);
      }
    }
  }

  /** One step of the merge loop: with the groups of `done` repaired, updating
      the lowest-id row of the group of `p` to the group's sum, as read before
      the loop, and deleting the group's other rows repairs `done + {p}`. */
  lemma MergeStep(before: map<nat, OrderItem>, cur: map<nat, OrderItem>, o: nat, p: nat, done: set<nat>)
    requires cur == Repair(before, Pairs(o, done))
    requires p !in done && Group(before, o, p) != {}
    ensures var g := Group(before, o, p);
            var keep := MinId(g);
            && keep in cur
            && var updated := cur[keep := cur[keep].(quantity := SumOf(before, g, Quantity))];
               updated - (Group(updated, o, p) - {keep}) == Repair(before, Pairs(o, done + {p}))
  {
    var scope := Pairs(o, done);
    var g := Group(before, o, p);
    var keep := MinId(g);
    assert (o, p) !in scope;
    GroupOutside(before, scope, o, p);
    assert Group(cur, o, p) == g;
    SumOfCongruent(cur, before, g, Quantity);
    var updated := cur[keep := cur[keep].(quantity := SumOf(before, g, Quantity))];
    RepairSingle(cur, o, p);
    assert Repair(cur, {(o, p)}) == updated - (Group(updated, o, p) - {keep});
    RepairCompose(before, scope, {(o, p)});
    assert scope + {(o, p)} == Pairs(o, done + {p});
  }

  /** Repairing only the groups with duplicates is repairing the whole order. */
  lemma DupProductsSuffice(before: map<nat, OrderItem>, o: nat)
    ensures Repair(before, Pairs(o, DupProducts(before, o))) == Merged(before, o)
  {
    var scope := Pairs(o, DupProducts(before, o));
    var all := OrderKeys(before, {o});
    forall k | k in all
      ensures k in scope || |Group(before, k.0, k.1)| <= 1
    {
      var id :| id in before && before[id].order in {o} && Key(before[id]) == k;
      assert GroupOf(before, id) == Group(before, k.0, k.1);
    }
    RepairIgnoresTrivial(before, scope, all);
    assert scope + all == all;
  }
}

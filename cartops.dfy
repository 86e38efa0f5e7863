/**
  The line-item mutation inside `updateItem`: get-or-create the line of a
  product, then add one, remove one (deleting the line when it reaches zero
  or below) or, for an unknown action, nothing more.
*/
module CartOps {
  import opened Wrappers
  import opened Ledger
  import opened Dedup

  /** The request's `action` field; a missing field means "add". */
  datatype Action = Add | Remove | Unknown

  function ParseAction(field: Option<string>): (a: Action)
    ensures field == None ==> a == Add
    ensures a == Add <==> field == None || field == Some("add")
    ensures a == Remove <==> field == Some("remove")
  {
    match field
    case None => Add
    case Some(s) => if s == "add" then Add else if s == "remove" then Remove else Unknown
  }

  /** The id `get_or_create` yields for the line of product `p` in order `o`,
      when there is at most one: the existing row, or the next free id. */
  function LineId(items: map<nat, OrderItem>, o: nat, p: nat, newId: nat): nat
  {
    var g := Group(items, o, p);
    if g == {} then newId else MinId(g)
  }

  /** The line items after `get_or_create` of the line of `p` in order `o`:
      a new row has quantity 0 (the model field's default). */
  function WithLine(items: map<nat, OrderItem>, o: nat, p: nat, newId: nat): (r: map<nat, OrderItem>)
    ensures LineId(items, o, p, newId) in r
  {
    if Group(items, o, p) == {} then items[newId := OrderItem(o, p, 0)] else items
  }

  /** The line items after one add/remove step on the line of `p` in `o`. */
  ghost function ApplyAction(items: map<nat, OrderItem>, o: nat, p: nat, act: Action, newId: nat): map<nat, OrderItem>
  {
    var base := WithLine(items, o, p, newId);
    var id := LineId(items, o, p, newId);
    var q := base[id].quantity;
    match act
    case Add => base[id := base[id].(quantity := q + 1)]
    case Remove => if q - 1 <= 0 then base - {id} else base[id := base[id].(quantity := q - 1)]
    case Unknown => base
  }

  /** The total quantity of a product after one step, from the one before. */
  function NewQty(q: int, act: Action): int
  {
    match act
    case Add => q + 1
    case Remove => if q - 1 <= 0 then 0 else q - 1
    case Unknown => q
  }

  /** One add/remove step on an order with at most one line for `p`: the
      product's quantity moves as `NewQty` says, it is left with at most one
      line, "remove" never leaves a line of quantity zero or below, and every
      row of any other (order, product) pair is untouched. */
  lemma {:induction false} ApplyActionEffect(items: map<nat, OrderItem>, o: nat, p: nat, act: Action, newId: nat)
    requires newId !in items
    requires |Group(items, o, p)| <= 1
    ensures var r := ApplyAction(items, o, p, act, newId);
            && LineQty(r, o, p) == NewQty(LineQty(items, o, p), act)
            && |Group(r, o, p)| <= 1
            && (act == Remove ==> forall id :: id in Group(r, o, p) ==> r[id].quantity > 0)
            && (act == Add && LineQty(items, o, p) >= 0 ==> forall id :: id in Group(r, o, p) ==> r[id].quantity > 0)
            && (forall id :: id in items && Key(items[id]) != (o, p) ==> id in r && r[id] == items[id])
            && (forall id :: id in r ==> (id in items && Key(r[id]) == Key(items[id])) || (id == newId && Key(r[id]) == (o, p)))
  {
    var g := Group(items, o, p);
    var base := WithLine(items, o, p, newId);
    var id := LineId(items, o, p, newId);
    var r := ApplyAction(items, o, p, act, newId);
    if g == {} {
      assert Group(base, o, p) == {id};
      assert LineQty(items, o, p) == 0;
    } else {
      Singleton(g, id);
      assert base == items;
      SumOfSingleton(items, id, Quantity);
    }
    assert Group(base, o, p) == {id};
    SumOfSingleton(base, id, Quantity);
    var q := base[id].quantity;
    assert LineQty(base, o, p) == q;
    if act == Remove && q - 1 <= 0 {
      assert Group(r, o, p) == {};
    } else {
      assert Group(r, o, p) == {id};
      SumOfSingleton(r, id, Quantity);
    }
  }

  /** The line items after the whole atomic block of `updateItem` for order
      `o`: merge, one step, and merge again, except that an unknown action
      returns before the second merge. */
  ghost function UpdatedLines(items: map<nat, OrderItem>, o: nat, p: nat, act: Action, newId: nat): map<nat, OrderItem>
  {
    var stepped := ApplyAction(Merged(items, o), o, p, act, newId);
    if act == Unknown then stepped else Merged(stepped, o)
  }

  /** Rows of a pair other than (o, p) are the same before and after a step,
      so that pair's group and total quantity are the same too. */
  lemma OtherPairUntouched(before: map<nat, OrderItem>, after: map<nat, OrderItem>, o: nat, p: nat, o': nat, q: nat, newId: nat)
    requires (o', q) != (o, p)
    requires forall id :: id in before && Key(before[id]) != (o, p) ==> id in after && after[id] == before[id]
    requires forall id :: id in after ==> (id in before && Key(after[id]) == Key(before[id])) || (id == newId && Key(after[id]) == (o, p))
    ensures Group(after, o', q) == Group(before, o', q)
    ensures LineQty(after, o', q) == LineQty(before, o', q)
  {
    var g := Group(before, o', q);
    forall id | id in g ensures id in Group(after, o', q) {
      assert Key(before[id]) == (o', q);
    }
    assert Group(after, o', q) == g;
    SumOfCongruent(after, before, g, Quantity);
  }

  /** `updateItem` moves the product's total quantity in the order by one as
      `NewQty` says, and every other product keeps its total. */
  lemma {:induction false} UpdatedLinesQty(items: map<nat, OrderItem>, o: nat, p: nat, act: Action, newId: nat)
    requires newId !in items
    ensures var r := UpdatedLines(items, o, p, act, newId);
            && LineQty(r, o, p) == NewQty(LineQty(items, o, p), act)
            && (forall q :: q != p ==> LineQty(r, o, q) == LineQty(items, o, q))
  {
    var m := Merged(items, o);
    MergeUnique(items, {o}, o, p);
    MergeKeepsLineQty(items, {o}, o, p);
    ApplyActionEffect(m, o, p, act, newId);
    var stepped := ApplyAction(m, o, p, act, newId);
    var r := UpdatedLines(items, o, p, act, newId);
    if act != Unknown {
      MergeKeepsLineQty(stepped, {o}, o, p);
    }
    forall q | q != p
      ensures LineQty(r, o, q) == LineQty(items, o, q)
    {
      MergeKeepsLineQty(items, {o}, o, q);
      OtherPairUntouched(m, stepped, o, p, o, q, newId);
      if act != Unknown {
        MergeKeepsLineQty(stepped, {o}, o, q);
      }
    }
  }

  /** One step after the first merge leaves at most one line per product. */
  lemma StepKeepsUnique(items: map<nat, OrderItem>, o: nat, p: nat, act: Action, newId: nat)
    requires newId !in items
    ensures var stepped := ApplyAction(Merged(items, o), o, p, act, newId);
            forall q :: |Group(stepped, o, q)| <= 1
  {
    var m := Merged(items, o);
    MergeUnique(items, {o}, o, p);
    ApplyActionEffect(m, o, p, act, newId);
    var stepped := ApplyAction(m, o, p, act, newId);
    forall q
      ensures |Group(stepped, o, q)| <= 1
    {
      if q != p {
        OtherPairUntouched(m, stepped, o, p, o, q, newId);
        MergeUnique(items, {o}, o, q);
      }
    }
  }

  /** After `updateItem`, whatever the action, every product of the order has
      at most one line; after "remove" the product's line, if any, has a
      positive quantity, and after "add" it has one whenever the product's
      total quantity was not negative. */
  lemma {:induction false} UpdatedLinesUnique(items: map<nat, OrderItem>, o: nat, p: nat, act: Action, newId: nat)
    requires newId !in items
    ensures var r := UpdatedLines(items, o, p, act, newId);
            && (forall q :: |Group(r, o, q)| <= 1)
            && (act == Remove ==> forall id :: id in Group(r, o, p) ==> r[id].quantity > 0)
            && (act == Add && LineQty(items, o, p) >= 0 ==> forall id :: id in Group(r, o, p) ==> r[id].quantity > 0)
  {
    var m := Merged(items, o);
    MergeUnique(items, {o}, o, p);
    ApplyActionEffect(m, o, p, act, newId);
    var stepped := ApplyAction(m, o, p, act, newId);
    if act == Unknown {
      StepKeepsUnique(items, o, p, act, newId);
    } else {
      var r := Merged(stepped, o);
      forall q
        ensures |Group(r, o, q)| <= 1
      {
        MergeUnique(stepped, {o}, o, q);
      }
      if Group(stepped, o, p) != {} {
        var k := MinId(Group(stepped, o, p));
        Singleton(Group(stepped, o, p), k);
        MergeKeepsLowestId(stepped, {o}, o, p);
        SumOfSingleton(stepped, k, Quantity);
        if act == Add {
          MergeKeepsLineQty(items, {o}, o, p);
        }
      } else {
        GroupShrinks(stepped, OrderKeys(stepped, {o}), o, p);
      }
    }
  }

  /** `updateItem` touches no row of another order and adds none. */
  lemma {:induction false} UpdatedLinesOtherOrders(items: map<nat, OrderItem>, o: nat, p: nat, act: Action, newId: nat)
    requires newId !in items
    ensures var r := UpdatedLines(items, o, p, act, newId);
            && (forall id :: id in items && items[id].order != o ==> id in r && r[id] == items[id])
            && (forall id :: id in r && r[id].order != o ==> id in items)
  {
    var m := Merged(items, o);
    MergeUnique(items, {o}, o, p);
    ApplyActionEffect(m, o, p, act, newId);
    var stepped := ApplyAction(m, o, p, act, newId);
    var r := UpdatedLines(items, o, p, act, newId);
    forall id | id in items && items[id].order != o
      ensures id in r && r[id] == items[id]
    {
      assert id in m && m[id] == items[id];
      assert id in stepped && stepped[id] == items[id];
    }
    forall id | id in r && r[id].order != o
      ensures id in items
    {
      assert id in stepped && stepped[id].order == r[id].order;
      assert id in m;
    }
  }

  /** An unknown action still leaves the quantity-zero row that
      `get_or_create` made when the product had no line. */
  lemma {:induction false} UnknownActionLeavesEmptyLine(items: map<nat, OrderItem>, o: nat, p: nat, newId: nat)
    requires newId !in items && Group(items, o, p) == {}
    ensures var r := UpdatedLines(items, o, p, Unknown, newId);
            Group(r, o, p) == {newId} && r[newId].quantity == 0
  {
    GroupShrinks(items, OrderKeys(items, {o}), o, p);
    var m := Merged(items, o);
    assert Group(m, o, p) == {};
    assert Group(WithLine(m, o, p, newId), o, p) == {newId};
  }
}

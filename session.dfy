/**
  The per-visitor session dictionary the views read and write: the applied
  discount (`discount_code`, `discount_amount`), the admin flag, and the
  snapshot of the last payment (`last_order_id`, `last_subtotal`,
  `last_discount_amount`, `last_discount_code`, `last_final_total`) that the
  confirmation page shows once.
*/
module SessionState {
  import opened Wrappers

  /** A value stored in the session. */
  datatype Value = IntV(i: int) | StrV(s: string) | BoolV(b: bool)

  /** Python truthiness of a stored value. */
  predicate Truthy(v: Value)
  {
    match v
    case IntV(i) => i != 0
    case StrV(s) => s != ""
    case BoolV(b) => b
  }

  /** `bool(session.get("admin", False))`. */
  predicate IsAdmin(data: map<string, Value>)
  {
    "admin" in data && Truthy(data["admin"])
  }

  /** The five keys of the payment snapshot. */
  const SnapshotKeys: set<string> :=
    {"last_order_id", "last_subtotal", "last_discount_amount", "last_discount_code", "last_final_total"}

  /** The keys the views store integers under, and those they store strings under. */
  const IntKeys: set<string> :=
    {"discount_amount", "last_order_id", "last_subtotal", "last_discount_amount", "last_final_total"}
  const StrKeys: set<string> := {"discount_code", "last_discount_code"}

  /** Every key the views write holds a value of the type they write there. */
  ghost predicate WellTyped(data: map<string, Value>)
  {
    && (forall k :: k in IntKeys && k in data ==> data[k].IntV?)
    && (forall k :: k in StrKeys && k in data ==> data[k].StrV?)
  }

  /** `session.get(key, d)` for a key holding an integer. */
  function IntOr(data: map<string, Value>, key: string, d: int): (r: int)
    ensures key !in data ==> r == d
    ensures key in data && data[key].IntV? ==> r == data[key].i
  {
    if key in data && data[key].IntV? then data[key].i else d
  }

  /** `session.get(key, d)` for a key holding a string. */
  function StrOr(data: map<string, Value>, key: string, d: string): (r: string)
    ensures key !in data ==> r == d
    ensures key in data && data[key].StrV? ==> r == data[key].s
  {
    if key in data && data[key].StrV? then data[key].s else d
  }

  /** `session.get(key)` (or `session.get(key, None)`) for a key holding an integer. */
  function IntOpt(data: map<string, Value>, key: string): (r: Option<int>)
    ensures r.Some? <==> key in data && data[key].IntV?
    ensures r.Some? ==> r.value == data[key].i
  {
    if key in data && data[key].IntV? then Some(data[key].i) else None
  }

  /** The readers return what was last written under a key, and a write
      under one key leaves every other key's reading alone. */
  lemma ReadAfterWrite(data: map<string, Value>, key: string, other: string, v: Value, d: int, e: string)
    requires other != key
    ensures v.IntV? ==> IntOpt(data[key := v], key) == Some(v.i) && IntOr(data[key := v], key, d) == v.i
    ensures v.StrV? ==> StrOr(data[key := v], key, e) == v.s && IntOpt(data[key := v], key) == None
    ensures IntOpt(data[key := v], other) == IntOpt(data, other)
    ensures IntOr(data[key := v], other, d) == IntOr(data, other, d)
    ensures StrOr(data[key := v], other, e) == StrOr(data, other, e)
    ensures IntOr(data, key, d) == (if IntOpt(data, key).Some? then IntOpt(data, key).value else d)
  {
  }

  /** The discount the visitor has applied: `int(session.get("discount_amount", 0) or 0)`. */
  function StoredDiscount(data: map<string, Value>): int
  {
    IntOr(data, "discount_amount", 0)
  }

  /** `session.get("discount_code", "")`. */
  function StoredCode(data: map<string, Value>): string
  {
    StrOr(data, "discount_code", "")
  }

  /** The session after storing an applied (or rejected) discount. */
  function WithDiscount(data: map<string, Value>, code: string, amount: int): (r: map<string, Value>)
    requires WellTyped(data)
    ensures WellTyped(r)
    ensures StoredCode(r) == code && StoredDiscount(r) == amount
    ensures r.Keys == data.Keys + {"discount_code", "discount_amount"}
    ensures forall k :: k in data && k != "discount_code" && k != "discount_amount" ==> r[k] == data[k]
  {
    data["discount_code" := StrV(code)]["discount_amount" := IntV(amount)]
  }

  /** The session with the payment snapshot written. */
  function WithSnapshot(data: map<string, Value>, order: nat, subtotal: int, discount: int,
                        code: string, final: int): (r: map<string, Value>)
    requires WellTyped(data)
    ensures WellTyped(r)
    ensures IntOpt(r, "last_order_id") == Some(order)
    ensures IntOpt(r, "last_subtotal") == Some(subtotal) && IntOpt(r, "last_final_total") == Some(final)
    ensures IntOr(r, "last_discount_amount", 0) == discount && StrOr(r, "last_discount_code", "") == code
    ensures r.Keys == data.Keys + SnapshotKeys
    ensures forall k :: k in data && k !in SnapshotKeys ==> r[k] == data[k]
  {
    data["last_order_id" := IntV(order)]["last_subtotal" := IntV(subtotal)]
        ["last_discount_amount" := IntV(discount)]["last_discount_code" := StrV(code)]
        ["last_final_total" := IntV(final)]
  }

  /** The session after payment writes the snapshot and clears the discount. */
  function AfterPayment(data: map<string, Value>, order: nat, subtotal: int, discount: int,
                        code: string, final: int): (r: map<string, Value>)
    requires WellTyped(data)
    ensures WellTyped(r)
    ensures IntOpt(r, "last_order_id") == Some(order)
    ensures IntOpt(r, "last_subtotal") == Some(subtotal) && IntOpt(r, "last_final_total") == Some(final)
    ensures IntOr(r, "last_discount_amount", 0) == discount && StrOr(r, "last_discount_code", "") == code
    ensures StoredCode(r) == "" && StoredDiscount(r) == 0
    ensures r.Keys == data.Keys + SnapshotKeys + {"discount_code", "discount_amount"}
    ensures forall k :: k in data && k !in SnapshotKeys && k != "discount_code" && k != "discount_amount" ==>
              r[k] == data[k]
  {
    var snap := WithSnapshot(data, order, subtotal, discount, code, final);
    assert "discount_code" !in SnapshotKeys && "discount_amount" !in SnapshotKeys;
    WithDiscount(snap, "", 0)
  }

  /** What the confirmation page shows. A missing `last_subtotal` or
      `last_final_total` shows as `None`. */
  datatype Summary = Summary(subtotal: Option<int>, discount: int, code: string, final: Option<int>)

  /** The confirmation of the paid order `id` whose cart total is `total`:
      the snapshot when it was written for this order, otherwise the order's
      own total with no discount. */
  function Confirmation(data: map<string, Value>, id: nat, total: int): (r: Summary)
    ensures IntOpt(data, "last_order_id") != Some(id) ==> r == Summary(Some(total), 0, "", Some(total))
    ensures r.discount != 0 || r.code != "" ==> IntOpt(data, "last_order_id") == Some(id)
  {
    if IntOpt(data, "last_order_id") == Some(id) then
      Summary(IntOpt(data, "last_subtotal"), IntOr(data, "last_discount_amount", 0),
              StrOr(data, "last_discount_code", ""), IntOpt(data, "last_final_total"))
    else
      Summary(Some(total), 0, "", Some(total))
  }

  /** Right after payment of `order`, its confirmation shows the snapshot,
      whatever the order's total reads by then. */
  lemma ConfirmationAfterPayment(data: map<string, Value>, order: nat, subtotal: int, discount: int,
                                 code: string, final: int, total: int)
    requires WellTyped(data)
    ensures Confirmation(AfterPayment(data, order, subtotal, discount, code, final), order, total)
            == Summary(Some(subtotal), discount, code, Some(final))
  {
  }

  /** The snapshot of one order is never shown for another. */
  lemma ConfirmationOtherOrder(data: map<string, Value>, order: nat, subtotal: int, discount: int,
                               code: string, final: int, other: nat, total: int)
    requires WellTyped(data) && other != order
    ensures Confirmation(AfterPayment(data, order, subtotal, discount, code, final), other, total)
            == Summary(Some(total), 0, "", Some(total))
  {
  }

  /** Once the snapshot keys are popped, a reload of the confirmation shows
      the order's own total with no discount. */
  lemma ConfirmationAfterPop(data: map<string, Value>, id: nat, total: int)
    ensures Confirmation(data - SnapshotKeys, id, total) == Summary(Some(total), 0, "", Some(total))
  {
    assert "last_order_id" in SnapshotKeys;
  }

  /** The session as the views keep it. */
  class Session {
    var data: map<string, Value>

    ghost predicate Valid()
      reads this
    {
      WellTyped(data)
    }

    constructor (initial: map<string, Value>)
      requires WellTyped(initial)
      ensures Valid() && data == initial
    {
      data := initial;
    }

    /** Writes the payment snapshot of `order` and clears the discount. */
    method RecordPayment(order: nat, subtotal: int, discount: int, code: string, final: int)
      requires Valid()
      modifies this
      ensures Valid()
      ensures data == AfterPayment(old(data), order, subtotal, discount, code, final)
    {
      data := AfterPayment(data, order, subtotal, discount, code, final);
    }
  }
}

# Shop cart and checkout core, modelled in Dafny

This project models the cart and checkout core of a small Django shop. The
store holds orders, their line items, the product prices and the saved
delivery records. The visitor's session holds the applied discount and a
snapshot of the last payment. The modelled views are these:

- `_get_order_context` finds or creates the customer's open order.
- `_merge_duplicate_orderitems` and the admin action `merge_duplicate_items`
  collapse duplicate lines of one product into the lowest-id line, which
  carries the group's summed quantity, and delete the other lines.
- `cart` shows the repaired cart.
- `updateItem` adds one to or removes one from a product's line, inside one
  atomic block.
- `apply_discount` normalises a coupon code and looks it up in the fixed
  coupon table, then stores the quote in the session.
- `checkout` and `payPage` clamp the stored discount to the subtotal.
  `payPage` also completes the order, writes the payment snapshot and clears
  the discount.
- `payment_success` shows the snapshot once, and only for the order it was
  written for.
- The admin bulk actions `mark_complete` and `mark_incomplete` set the flag
  on the selected orders.
- The admin money columns format amounts with thousands separators and show
  `"0"` when formatting fails.

The modules are laid out as follows:

- `Ledger` (ledger.dfy) holds the rows and the sums over them: the cart
  total is the sum of quantity × price and the item count the sum of
  quantities.
- `Dedup` (dedup.dfy) holds the repair as a specification function,
  `Repair`, over a set of (order, product) keys, with its properties.
- `CartOps` (cartops.dfy) holds one add/remove step of `updateItem`.
- `Db` (db.dfy) holds the store as a class with map fields and the row-level
  methods the views call. Get-or-create of the open order is among them.
- `SessionState` (session.dfy) holds the session as a class over a map of
  typed values.
- `Discount` (discount.dfy) holds code normalisation, the coupon table,
  Python's round-half-even and the checkout clamp.
- `Views` (views.dfy) holds the views as methods over the store and the
  session.
- `Admin` (admin.dfy) holds the admin actions and the display columns.

Django's `get_or_create` raises `MultipleObjectsReturned` when more than one
row matches. The model returns the error `MultipleObjectsReturned` there and
changes nothing. This case is reachable, because `mark_incomplete` can reopen
a second order of the same customer (`Admin.MarkIncompleteCanReopenTwo`).

The model rests on some assumptions. `app/models.py` is not part of this
model, so the following are assumed:

- `get_cart_total` is the sum of quantity × price over an order's lines.
- `get_cart_items` is the sum of the quantities.
- A new line's quantity defaults to 0.
- Prices are integers.

The store invariant `Db.Store.Valid` also assumes that every line's order
exists and that every line's product has a price. So the views never see a
line whose product has no price, on which `get_cart_total` would fail. The
admin columns `LineTotalVnd` and `OrderTotalVnd` are modelled on any item
map, so they also cover such a missing price.

## Model

| member | source | states |
|---|---|---|
| Views.OrderContext | app/views.py:28-45 | a shopper gets the open order that get-or-create yields (existing or new), with the item count of that order; others get the empty view, 0 items and an unchanged store; more than one open order is an error with nothing changed; afterwards the returned order is the customer's only open order |
| Views.MergeDuplicateOrderItems | app/views.py:48-54 | on the dummy order nothing changes; on a real order the line items become `Merged(old items, order)` and no other field of the store changes |
| Db.Store.MergeOrder | app/views.py:56-72 | the loop over the duplicate groups, each collapsed to its lowest id with the group's sum, leaves exactly `Merged(old items, o)`; orders, prices, deliveries and id counters are unchanged |
| Db.Store.CollapseGroup | app/views.py:64-72 | one loop iteration (update the kept row, delete the rest) extends the repaired set of products by one |
| Dedup.MergeStep | app/views.py:64-72 | with the groups done so far repaired, setting the lowest-id row to the sum read before the loop and deleting the group's other rows gives the repair of one more product |
| Dedup.DupProductsSuffice | app/views.py:56-62 | repairing only the groups with more than one row (`cnt__gt=1`) equals repairing every group of the order |
| Dedup.Repair | app/views.py:56-72 | rows never change their (order, product) key, and rows of unrepaired keys are kept unchanged |
| Dedup.MergeOrders | app/admin.py:61-74 | rows of orders outside the selection are kept unchanged; no row changes key and no row is added |
| Dedup.MergeUnique | app/views.py:56-72 | after the merge no product has more than one line in a merged order |
| Dedup.MergeKeepsLowestId | app/views.py:60-72 | the surviving line of a product is the group's minimum id and carries the group's former total quantity |
| Dedup.MergeKeepsLineQty | app/views.py:60-72 | the merge keeps every product's total quantity in every order |
| Dedup.MergeKeepsTotals | app/views.py:58-72 | the merge keeps every order's cart total and item count |
| Dedup.MergeIdempotent | app/views.py:56-72 | merging twice equals merging once |
| Dedup.MergeCompose | app/admin.py:61-74 | merging selection `a` and then `b` equals merging `a + b` at once |
| Dedup.GroupShrinks | app/views.py:72 | the repair only deletes rows of a group and never adds one |
| Dedup.GroupOutside | app/views.py:58 | a group outside the repaired keys keeps its rows and their contents |
| Dedup.GroupInside | app/views.py:65-72 | a repaired group is reduced to its minimum id, carrying the group's summed quantity |
| Dedup.RepairUnique | app/views.py:72 | a repaired key has at most one row |
| Dedup.RepairLineQty | app/views.py:66-69 | the repair keeps the summed quantity of every (order, product) |
| Dedup.RepairCompose | app/views.py:64-72 | repairing `a` and then `b` equals repairing `a + b` |
| Dedup.RepairTrivial | app/views.py:61 | repairing keys that have at most one row changes nothing |
| Dedup.RepairIgnoresTrivial | app/views.py:61 | adding keys with at most one row to the repaired set does not change the result |
| Dedup.RepairSingle | app/views.py:69-72 | repairing one key equals the two writes of the loop body: update the lowest id to the sum, delete the other rows of the group |
| Dedup.RepairKeepsKeys | app/views.py:72 | every (order, product) key that had a row still has one |
| Dedup.RepairKeepsSum | app/views.py:66-69 | the repair keeps any per-line measure summed over an order (quantities, quantity × price) |
| Dedup.RepairSingleKeepsSum | app/views.py:66-69 | repairing one key keeps any per-line measure summed over an order |
| Dedup.DupProductHasGroup | app/views.py:61 | a product in the duplicate groups has more than one line |
| Dedup.DupProductsExact | app/views.py:56-62 | a product is among the duplicate groups exactly when it has more than one line in the order |
| Dedup.DupProducts | app/views.py:56-62 | the `cnt__gt=1` query: the products of the order with more than one line, as `DupProductsExact` proves |
| Views.Cart | app/views.py:136-152 | a shopper's cart page shows the open order's lines after the merge, with one line per product and the item count of the order before the merge (equal by `MergeKeepsTotals`); others get the empty page and nothing changes |
| Views.UpdateGuard | app/views.py:163-184 | no error exactly when the user is logged in, not admin, has a customer profile and sends a non-zero product id of an existing product; not logged in and admin give their own errors |
| Views.Shopper | app/views.py:33 | a logged-in user with a customer profile and no truthy admin flag, the guard of every shopper view |
| SessionState.IsAdmin | app/views.py:24-25 | the `admin` session key is present and truthy in Python's sense |
| Views.UpdateItem | app/views.py:155-211 | a guard failure changes nothing and returns that error; otherwise orders become get-or-create's result and items become `UpdatedLines` (merge, step, merge, with no second merge after an invalid action); the invalid action returns its error |
| Views.StepLine | app/views.py:192-206 | get-or-create of the line and the add/remove step give exactly `ApplyAction` of the old items, with no other field changed |
| CartOps.WithLine | app/views.py:192 | after get-or-create of the line, the line's id is a row of the items |
| CartOps.ApplyAction | app/views.py:192-206 | one get-or-create plus add/remove step on the order's line of the product; its effect is stated by `ApplyActionEffect` |
| CartOps.NewQty | app/views.py:194-203 | the product's total quantity after one step: one more on add, one less on remove but 0 once it reaches zero or below, unchanged otherwise; `ApplyActionEffect` and `UpdatedLinesQty` prove the store moves so |
| CartOps.UpdatedLines | app/views.py:186-209 | the line items after the atomic block: merge, step, and merge again except after an invalid action; its effect is stated by `UpdatedLinesQty`, `UpdatedLinesUnique` and `UpdatedLinesOtherOrders` |
| CartOps.StepKeepsUnique | app/views.py:190-206 | the step after the first merge leaves at most one line per product of the order, whatever the action |
| CartOps.ApplyActionEffect | app/views.py:192-203 | on an order with at most one line of the product, the step moves its quantity as `NewQty` says (plus one; minus one with deletion at zero or below), leaves at most one line, leaves no non-positive line after remove, and touches no other (order, product) |
| CartOps.OtherPairUntouched | app/views.py:192-203 | rows of another (order, product) keep their group and quantity through a step |
| CartOps.UpdatedLinesQty | app/views.py:186-209 | `updateItem` moves the product's total quantity in the order as `NewQty` says and keeps every other product's total |
| CartOps.UpdatedLinesUnique | app/views.py:186-209 | after `updateItem`, for any action including the invalid one, every product of the order has at most one line; after remove the product's line, if any, is positive, and after add it is positive whenever the product's total was not negative |
| CartOps.UpdatedLinesOtherOrders | app/views.py:186-209 | `updateItem` changes no line of another order and adds none there |
| CartOps.UnknownActionLeavesEmptyLine | app/views.py:192-206 | an unknown action on a product with no line leaves the new zero-quantity line in the order |
| Db.Store.GetOrCreateOpenOrder | app/views.py:187 | with at most one open order the result is that order or a new one with the next id, and it is then the customer's only open order; with more it is `MultipleObjectsReturned` with nothing changed |
| Db.GetOrCreateKeepsSingleOpen | app/views.py:187 | after get-or-create the customer has exactly one open order, other customers' open orders are unchanged, and "at most one open order per customer" is kept |
| Db.CartOrder | app/views.py:187 | the order get-or-create yields: the customer's open order, or the next id; `GetOrCreateKeepsSingleOpen` proves it is then the only open one |
| Db.OrdersAfterGet | app/views.py:187 | the orders after get-or-create: unchanged when an open order exists, else with a new open order; `GetOrCreateKeepsSingleOpen` proves what it keeps |
| Db.Store.GetOrCreateLine | app/views.py:192 | with at most one line of the product the result is that line or a new quantity-0 line with the next id; with more it is `MultipleObjectsReturned` |
| Db.Store.SetQuantity | app/views.py:69 | the update of one row's quantity, with nothing else changed |
| Db.Store.DeleteOthers | app/views.py:72 | deletes exactly the group's rows other than the kept id |
| Db.Store.DeleteItem | app/views.py:201 | deletes exactly one row |
| Db.Store.CompleteOrder | app/views.py:362-363 | sets `complete` on exactly one order |
| Db.Store.AddDelivery | app/views.py:348-351 | appends exactly one delivery record |
| Db.Store.UpdateComplete | app/admin.py:45-52 | the bulk update of `complete` given by `SetComplete`, with nothing else changed |
| Views.Checkout | app/views.py:214-254 | a shopper's page shows the merged lines, the item count, the discount `min(stored, subtotal)`, the code and `final_total = subtotal - discount >= 0`; the session is written back only when the discount was clamped; others get the zero page and nothing changes |
| Views.ClampStoredDiscount | app/views.py:227-235 | the effective discount is the clamp of the stored one, written back only when it clamped |
| Views.ApplyDiscount | app/views.py:257-321 | the three guards return their errors with nothing changed; otherwise the order is repaired and the session holds the quote's code and discount, for the normalised code and the post-merge subtotal |
| Discount.Normalize | app/views.py:277 | a missing field is the empty code; otherwise the result is `Upper` of a slice of the field with only whitespace cut off either side, so it has no whitespace at either end and no lower-case ASCII letter |
| Discount.Strip | app/views.py:277 | `strip()` is a slice of the input with only whitespace cut off either side and no whitespace left at its ends |
| Discount.Upper | app/views.py:277 | `upper()` keeps the length, turns every lower-case ASCII letter into its capital (32 code points lower), leaves no lower-case ASCII letter and keeps every other character |
| Discount.StripPadding | app/views.py:277 | whitespace padding around a string without whitespace at its ends strips back to that string |
| Discount.StrippedStrip | app/views.py:277 | a string without whitespace at its ends is its own strip |
| Discount.StripPadded | app/views.py:277 | whitespace around a string does not change its strip |
| Discount.NormalizePadded | app/views.py:277 | codes that differ only in surrounding whitespace normalise alike |
| Discount.NormalizeIdempotent | app/views.py:277 | normalising a normalised code changes nothing |
| Discount.NormalizeIgnoresCase | app/views.py:277 | codes that differ only in the case of ASCII letters normalise alike, so the coupon lookup ignores case |
| Discount.NormalizeExample | app/views.py:277 | `" save10 "` normalises to `"SAVE10"` |
| Discount.NormalizedQuoteExample | app/views.py:277-310 | the padded lower-case code `" save10 "` on 1,000,000 gets the SAVE10 quote of 100,000 off |
| Discount.SkipSpaces | app/views.py:277 | the first non-whitespace index at or after a position, with only whitespace skipped |
| Discount.SkipSpacesBack | app/views.py:277 | the index after the last non-whitespace character before a position, with only whitespace skipped |
| Discount.SkipSpacesAt | app/views.py:277 | the scan stops at the first non-whitespace character |
| Discount.SkipSpacesBackAt | app/views.py:277 | the backward scan stops after the last non-whitespace character |
| Discount.RoundHalfEven | app/views.py:306 | Python's `round` of `n / d` is within half of `d` of the quotient, and even on a tie |
| Discount.RoundHalfEvenUnique | app/views.py:306 | those two conditions single out exactly one integer |
| Discount.RuleDiscount | app/views.py:304-310 | a percent rule gives the nearest integer to `subtotal * rate / 100`; a fixed rule gives `min(amount, subtotal)`; a sound rule on a non-negative subtotal gives a discount between 0 and the subtotal |
| Discount.CouponsSound | app/views.py:287-291 | every rule of the coupon table is sound (rate between 0 and 100, non-negative fixed amount) |
| Discount.Coupons | app/views.py:287-291 | the coupon table: SAVE10 and SAVE5 take 10% and 5%, LESS100K takes 100,000; `CouponsSound` and `QuoteExamples` state what it yields |
| Discount.QuoteFor | app/views.py:293-321 | an unknown or empty code gives `ok = false`, code `""`, discount 0 and `total == subtotal`; a known code gives its rule's discount; always `total = subtotal - discount`, both between 0 and the subtotal when the subtotal is non-negative |
| Discount.QuoteExamples | app/views.py:287-310 | SAVE10 on 1,000,000 takes 100,000 off; LESS100K on 50,000 takes all 50,000; SAVE20 is rejected |
| Discount.TiesToEven | app/views.py:306 | 10% of 25 rounds to 2, 10% of 35 to 4 and 5% of 10 to 0 |
| Discount.EffectiveDiscount | app/views.py:231-232 | the clamped discount is at most the subtotal and at most the stored amount, and equals one of them |
| Discount.FinalTotal | app/views.py:235 | `final_total` is never negative and adds up with the effective discount to the subtotal |
| Discount.QuoteSurvivesCheckout | app/views.py:304-313 | a quote stored by `apply_discount` is not clamped again at checkout while the subtotal is unchanged, and checkout shows the quote's total |
| Discount.ClampAfterShrink | app/views.py:231-235 | `final_total` is 0 exactly when the stored discount is at least the subtotal |
| SessionState.WithDiscount | app/views.py:293-313 | the stored code and amount read back as written; only the two discount keys change |
| SessionState.StoredDiscount | app/views.py:227 | the applied discount, 0 when absent: reads back what `WithDiscount` stored and 0 after `AfterPayment` |
| SessionState.StoredCode | app/views.py:228 | the applied code, `""` when absent: reads back what `WithDiscount` stored and `""` after `AfterPayment` |
| SessionState.ReadAfterWrite | app/views.py:426-430 | `session.get` returns what was last written under a key (integer or string), a write under one key leaves other keys' readings alone, and the defaulting reader agrees with the optional one |
| SessionState.WithSnapshot | app/views.py:366-370 | the five snapshot keys read back as written; no other key changes |
| SessionState.AfterPayment | app/views.py:366-374 | the snapshot reads back as written, the stored discount reads back as `""`/0, and no other key changes |
| SessionState.Session.RecordPayment | app/views.py:366-374 | the session becomes `AfterPayment` of the old one and stays well-typed |
| SessionState.Confirmation | app/views.py:426-437 | when `last_order_id` is not the order the summary is the order's total with no discount; a non-zero discount or a code is shown only for the order the snapshot was written for |
| SessionState.ConfirmationAfterPayment | app/views.py:366-433 | right after payment the confirmation of that order shows the snapshot |
| SessionState.ConfirmationOtherOrder | app/views.py:433-437 | the snapshot of one order is never shown for another |
| SessionState.ConfirmationAfterPop | app/views.py:440-444 | once the snapshot keys are popped, the confirmation shows the order's total with no discount |
| Views.PayPage | app/views.py:324-409 | non-shoppers get the form and nothing changes; an empty cart changes only the repair and get-or-create; a valid POST saves exactly one delivery, completes the order, writes the snapshot with the clamped discount and clears the discount, after which the customer has no open order; otherwise only the form is shown |
| Views.CompletePayment | app/views.py:346-374 | saving the delivery, completing the order and the session writes: the new orders, deliveries and session, with items, prices and counters unchanged |
| Db.CheckoutClosesCart | app/views.py:334-363 | after get-or-create and completion the customer has no open order, so the next get-or-create makes a fresh one; other customers' open orders are unchanged and "at most one open order per customer" is kept |
| Views.PaymentSuccess | app/views.py:412-455 | not logged in, admin or no profile redirect; an order of another customer is not found; otherwise the page shows the order's lines and `Confirmation`, and the five snapshot keys are removed; nothing else changes |
| Db.SetComplete | app/admin.py:46-52 | the selected orders get the flag, other orders are unchanged, and no order is added, removed or given another customer |
| Admin.MarkComplete | app/admin.py:45-47 | `complete = True` on exactly the selected orders; nothing else in the store changes |
| Admin.MarkIncomplete | app/admin.py:50-52 | `complete = False` on exactly the selected orders; nothing else in the store changes |
| Admin.MarkCompleteKeepsSingleOpen | app/admin.py:45-47 | marking complete keeps "at most one open order per customer" and removes exactly the selected orders from the open ones |
| Admin.MarkIncompleteCanReopenTwo | app/admin.py:50-52 | reopening a completed order of a customer who already has an open one leaves two open orders |
| Admin.MergeDuplicateItems | app/admin.py:55-74 | the loop over the selected orders leaves exactly `MergeOrders(old items, selected)`; nothing else changes |
| Admin.MergeHasRowOfEveryKey | app/admin.py:69-74 | every (order, product) that had a line still has one after the merge |
| Admin.MergeKeepsColumns | app/admin.py:140-152 | the merge keeps each order's item count and total column |
| Admin.Grouped | app/admin.py:29 | the digits of a natural in groups of three separated by commas, with no leading zero and a single digit below 10 |
| Admin.Digits | app/admin.py:29 | the decimal digits of a natural, with no leading zero |
| Admin.AmountDigits | app/admin.py:29 | the decimal digits read back as the number |
| Admin.AmountGrouped | app/admin.py:29 | the comma-grouped digits read back as the number |
| Admin.ThousandsRoundTrip | app/admin.py:29 | `f"{n:,}"` of any integer, sign included, reads back as `n` |
| Admin.Thousands | app/admin.py:29 | `f"{n:,}"`: the sign, then the comma-grouped digits; `ThousandsRoundTrip` proves it reads back as `n` |
| Admin.Vnd | app/admin.py:28-31 | a failed conversion shows `"0"`; otherwise the text reads back as the value |
| Admin.LineTotalVnd | app/admin.py:164-169 | the column reads back as `quantity × price`, or shows `"0"` when the line or price is missing |
| Admin.PriceVnd | app/admin.py:95-100 | the column reads back as the product's price, or shows `"0"` when it is missing |
| Admin.OrderTotalVnd | app/admin.py:147-152 | the column reads back as the cart total, or shows `"0"` when a price is missing |
| Admin.ItemCount | app/admin.py:140-145 | the item count column is the order's summed quantity; `MergeKeepsColumns` proves the merge keeps it |
| Ledger.MinId | app/views.py:60 | `Min("id")`: a member of the group no greater than any other |

## Left out

- The Django ORM, HTTP, templates, messages and redirects. Views return values and datatypes in place of responses.
- Concurrency and `transaction.atomic`. Each view is one sequential method. Duplicate rows are accepted as any starting state, and the race that creates them is not modelled.
- Email: `sendMail`, the message text built in app/views.py:377-398, and FurnitureSales/signals.py. Their exceptions are swallowed and they do not touch the store.
- The delivery form (`DeliveryForm`, app/forms.py). Its `is_valid()` is a boolean input, and the address fields of the saved record are not modelled.
- Routing, authentication pages and the other pages (`home`, `product`, `product_detail`, `article`, `profileUser`, `searchpage`, `addProduct`, `addArticle`, the sign-in views), app/urls.py, and the JavaScript files under app/static.
- JSON parsing of the request body. A body that fails to parse is the same as an empty one. The fields reach the model already decoded: `productId` as an optional integer, `action` and `code` as optional strings. A JSON `null` or non-string `action`, which the source rejects as an invalid action, and a `productId` given as a string of digits are not inputs of the model.
- A truthy non-string `code` (a number, say) makes `.strip()` at app/views.py:277 raise before anything is written, so the request fails. The model has no such input: its `code` is an optional string, so it cannot express that failure, in which no order is created and nothing is written to the session. A falsy non-string `code` is the missing code in both.
- `app/models.py` is not part of this model. The sums for `get_cart_total` and `get_cart_items` and the default quantity 0 are assumptions, stated above.
- Db.Store.Valid: lines whose order does not exist or whose product has no price are outside the store invariant. So the exception `get_cart_total` would raise on an unpriced line in the views is not modelled. The admin columns do model it, as their `"0"` fallback.
- Discount.RoundHalfEven: rounds the exact rational `subtotal * rate / 100`, while Python rounds a float. The two differ only above about 2^52 in magnitude.
- Discount.Upper: does not model Unicode case mapping beyond ASCII, such as `ß` or `ſ`.
- SessionState.WellTyped: the model assumes that the keys the views write hold values of the type the views write there. A session value of another type, which `int(...)` would reject, is not modelled.
- Admin.ItemCount: the "0 on failure" fallback of `item_count` cannot arise, because the sum of integer quantities never raises, so the column is the item count itself.
- The invalid-action branch of `updateItem` (app/views.py:205-206) returns from inside the atomic block, which commits. The model keeps the quantity-0 row that get-or-create made, as written (`CartOps.UnknownActionLeavesEmptyLine`), and does not assume a rollback.

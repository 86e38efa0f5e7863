/**
  The cart and checkout views, each one sequential method over the order
  store and the session. A view's guard failures and ORM errors are
  `Failure` results; what it renders or returns as JSON is the `Success`
  value.
*/
module Views {
  import opened Wrappers
  import opened Ledger
  import opened Dedup
  import opened CartOps
  import opened Db
  import opened SessionState
  import opened Discount

  /** The requesting user: logged in or not, and the customer profile linked
      to the account, if any. */
  datatype User = User(authenticated: bool, customer: Option<nat>)

  /** The order a page shows: the customer's real open order, or the dummy
      zero order given to visitors, admins and users without a profile. */
  datatype CartView = Real(order: nat) | Empty

  /** A request the cart views serve with a real order: a logged-in user,
      not in an admin session, with a customer profile. */
  predicate Shopper(u: User, data: map<string, Value>)
  {
    u.authenticated && !IsAdmin(data) && u.customer.Some?
  }

  /** The guards of `updateItem`, in the order it checks them; `None` when
      all pass. A product id of 0 counts as missing. */
  function UpdateGuard(u: User, data: map<string, Value>, productId: Option<int>, prices: map<nat, int>): (e: Option<Error>)
    ensures e.None? <==> Shopper(u, data) && productId.Some? && productId.value > 0 && productId.value as nat in prices
    ensures !u.authenticated ==> e == Some(NotLoggedIn)
    ensures u.authenticated && IsAdmin(data) ==> e == Some(AdminAccount)
  {
    if !u.authenticated then Some(NotLoggedIn)
    else if IsAdmin(data) then Some(AdminAccount)
    else if u.customer.None? then Some(NoCustomerProfile)
    else if productId.None? || productId.value == 0 then Some(MissingProductId)
    else if productId.value < 0 || productId.value as nat !in prices then Some(ProductNotFound)
    else None
  }

  /** What `cart` renders: the order, its lines and its item count. */
  datatype CartPage = CartPage(view: CartView, lines: map<nat, OrderItem>, cartItems: int)

  /** What `checkout` renders. */
  datatype CheckoutPage = CheckoutPage(view: CartView, lines: map<nat, OrderItem>, cartItems: int,
                                       discount: int, code: string, finalTotal: int)

  /** How `payPage` ends: a redirect to the products for an empty cart, a
      redirect to the confirmation of the paid order, or the form. */
  datatype PayOutcome = EmptyCart | Paid(order: nat) | Form(submitted: bool)

  /** How `payment_success` ends: a redirect to the login page or to the
      home page, or the confirmation of the order. */
  datatype PaidView = LoginRedirect | HomeRedirect | Shown(order: nat, lines: map<nat, OrderItem>, summary: Summary)

  /** `_get_order_context`: the shopper's open order, got or created, and its
      item count; the dummy order with 0 items for everyone else. */
  method OrderContext(store: Store, session: Session, user: User) returns (r: Result<CartView, Error>, cartItems: int)
    requires store.Valid()
    modifies store
    ensures store.Valid()
    ensures store.items == old(store.items) && store.prices == old(store.prices)
    ensures store.deliveries == old(store.deliveries) && store.nextItem == old(store.nextItem)
    ensures !Shopper(user, session.data) ==> r == Success(Empty) && cartItems == 0 && store.State() == old(store.State())
    ensures Shopper(user, session.data) && |OpenOrders(old(store.orders), user.customer.value)| > 1 ==>
              r == Failure(MultipleObjectsReturned) && store.State() == old(store.State())
    ensures Shopper(user, session.data) && |OpenOrders(old(store.orders), user.customer.value)| <= 1 ==>
              var c := user.customer.value;
              && r == Success(Real(CartOrder(old(store.orders), c, old(store.nextOrder))))
              && store.orders == OrdersAfterGet(old(store.orders), c, old(store.nextOrder))
              && cartItems == CartItems(store.items, r.value.order)
    ensures r.Success? && r.value.Real? ==>
              r.value.order in store.orders && OpenOrders(store.orders, user.customer.value) == {r.value.order}
  {
    if !Shopper(user, session.data) {
      return Success(Empty), 0;
    }
    var got := store.GetOrCreateOpenOrder(user.customer.value);
    if got.Failure? {
      return Failure(got.error), 0;
    }
    r, cartItems := Success(Real(got.value)), CartItems(store.items, got.value);
  }

  /** `_merge_duplicate_orderitems`: nothing on the dummy order, the repair
      of every duplicate group on a real one. */
  method MergeDuplicateOrderItems(store: Store, view: CartView)
    requires store.Valid()
    modifies store
    ensures store.Valid()
    ensures view.Empty? ==> store.State() == old(store.State())
    ensures view.Real? ==> store.State() == old(store.State()).(items := Merged(old(store.items), view.order))
  {
    if view.Real? {
      store.MergeOrder(view.order);
    }
  }

  /** `cart`: the shopper's order after the repair, so that every product
      shows on one line, with the item count the duplicates added up to. */
  method Cart(store: Store, session: Session, user: User) returns (r: Result<CartPage, Error>)
    requires store.Valid()
    modifies store
    ensures store.Valid()
    ensures store.prices == old(store.prices) && store.deliveries == old(store.deliveries)
    ensures store.nextItem == old(store.nextItem)
    ensures !Shopper(user, session.data) ==> r == Success(CartPage(Empty, map[], 0)) && store.State() == old(store.State())
    ensures Shopper(user, session.data) && |OpenOrders(old(store.orders), user.customer.value)| > 1 ==>
              r == Failure(MultipleObjectsReturned) && store.State() == old(store.State())
    ensures Shopper(user, session.data) && |OpenOrders(old(store.orders), user.customer.value)| <= 1 ==>
              var c := user.customer.value;
              var o := CartOrder(old(store.orders), c, old(store.nextOrder));
              && store.orders == OrdersAfterGet(old(store.orders), c, old(store.nextOrder))
              && store.items == Merged(old(store.items), o)
              && r == Success(CartPage(Real(o), OrderLines(store.items, o), CartItems(old(store.items), o)))
              && (forall p :: |Group(store.items, o, p)| <= 1)
  {
    var ctx, n := OrderContext(store, session, user);
    if ctx.Failure? {
      return Failure(ctx.error);
    }
    if ctx.value.Empty? {
      return Success(CartPage(Empty, map[], 0));
    }
    var o := ctx.value.order;
    ghost var before := store.items;
    MergeDuplicateOrderItems(store, ctx.value);
    MergeKeepsTotals(before, store.prices, {o}, o);
    forall p ensures |Group(store.items, o, p)| <= 1 {
      MergeUnique(before, {o}, o, p);
    }
    r := Success(CartPage(Real(o), OrderLines(store.items, o), CartItems(store.items, o)));
  }

  /** `updateItem`: after the guards, inside one atomic block, get or create
      the open order, repair it, get or create the product's line, add or
      remove one, and repair again. An unknown action returns from inside
      the block, so what it did up to there stays. */
  method UpdateItem(store: Store, session: Session, user: User, productId: Option<int>, action: Option<string>)
    returns (r: Result<(), Error>)
    requires store.Valid()
    modifies store
    ensures store.Valid()
    ensures store.prices == old(store.prices) && store.deliveries == old(store.deliveries)
    ensures UpdateGuard(user, session.data, productId, old(store.prices)).Some? ==>
              r == Failure(UpdateGuard(user, session.data, productId, old(store.prices)).value)
              && store.State() == old(store.State())
    ensures UpdateGuard(user, session.data, productId, old(store.prices)).None? ==>
              var c := user.customer.value;
              if |OpenOrders(old(store.orders), c)| > 1 then
                r == Failure(MultipleObjectsReturned) && store.State() == old(store.State())
              else
                var o := CartOrder(old(store.orders), c, old(store.nextOrder));
                var act := ParseAction(action);
                && store.orders == OrdersAfterGet(old(store.orders), c, old(store.nextOrder))
                && store.items == UpdatedLines(old(store.items), o, productId.value as nat, act, old(store.nextItem))
                && r == (if act == Unknown then Failure(InvalidAction) else Success(()))
  {
    var guard := UpdateGuard(user, session.data, productId, store.prices);
    if guard.Some? {
      return Failure(guard.value);
    }
    var c, p := user.customer.value, productId.value as nat;
    var act := ParseAction(action);
    ghost var items0, newId := store.items, store.nextItem;
    var got := store.GetOrCreateOpenOrder(c);
    if got.Failure? {
      return Failure(got.error);
    }
    var o := got.value;
    store.MergeOrder(o);
    MergeUnique(items0, {o}, o, p);
    StepLine(store, o, p, act);
    if act == Unknown {
      return Failure(InvalidAction);
    }
    store.MergeOrder(o);
    r := Success(());
  }

  /** The middle of the atomic block of `updateItem`: get or create the
      product's line, then add one, or remove one and delete the line when
      that leaves it at zero or below; an unknown action does neither. */
  method StepLine(store: Store, o: nat, p: nat, act: Action)
    requires store.Valid() && o in store.orders && p in store.prices
    requires |Group(store.items, o, p)| <= 1
    modifies store
    ensures store.Valid()
    ensures store.items == ApplyAction(old(store.items), o, p, act, old(store.nextItem))
    ensures store.orders == old(store.orders) && store.prices == old(store.prices)
    ensures store.deliveries == old(store.deliveries) && store.nextOrder == old(store.nextOrder)
  {
    var line := store.GetOrCreateLine(o, p);
    var id := if line.Success? then line.value else 0;
    match act {
      case Add =>
        store.SetQuantity(id, store.items[id].quantity + 1);
      case Remove =>
        var q := store.items[id].quantity - 1;
        if q <= 0 {
          store.DeleteItem(id);
        } else {
          store.SetQuantity(id, q);
        }
      case Unknown =>
    }
  }

  /** `checkout`: the shopper's repaired order with the stored discount
      clamped to its subtotal; the clamped value is written back only when
      the clamp lowered it. */
  method Checkout(store: Store, session: Session, user: User) returns (r: Result<CheckoutPage, Error>)
    requires store.Valid() && session.Valid()
    modifies store, session
    ensures store.Valid() && session.Valid()
    ensures store.prices == old(store.prices) && store.deliveries == old(store.deliveries)
    ensures store.nextItem == old(store.nextItem)
    ensures !Shopper(user, old(session.data)) ==>
              && r == Success(CheckoutPage(Empty, map[], 0, 0, "", 0))
              && store.State() == old(store.State()) && session.data == old(session.data)
    ensures Shopper(user, old(session.data)) && |OpenOrders(old(store.orders), user.customer.value)| > 1 ==>
              r == Failure(MultipleObjectsReturned) && store.State() == old(store.State()) && session.data == old(session.data)
    ensures Shopper(user, old(session.data)) && |OpenOrders(old(store.orders), user.customer.value)| <= 1 ==>
              var c := user.customer.value;
              var o := CartOrder(old(store.orders), c, old(store.nextOrder));
              var subtotal := CartTotal(old(store.items), store.prices, o);
              var stored := StoredDiscount(old(session.data));
              && store.orders == OrdersAfterGet(old(store.orders), c, old(store.nextOrder))
              && store.items == Merged(old(store.items), o)
              && r.Success? && r.value.view == Real(o)
              && r.value.lines == OrderLines(store.items, o) && r.value.cartItems == CartItems(old(store.items), o)
              && r.value.discount == EffectiveDiscount(stored, subtotal)
              && r.value.code == StoredCode(old(session.data))
              && r.value.finalTotal == FinalTotal(stored, subtotal) && r.value.finalTotal >= 0
              && session.data == (if stored > subtotal then old(session.data)["discount_amount" := IntV(subtotal)]
                                  else old(session.data))
  {
    if !Shopper(user, session.data) {
      return Success(CheckoutPage(Empty, map[], 0, 0, "", 0));
    }
    var got := store.GetOrCreateOpenOrder(user.customer.value);
    if got.Failure? {
      return Failure(got.error);
    }
    var o := got.value;
    ghost var before := store.items;
    store.MergeOrder(o);
    MergeKeepsTotals(before, store.prices, {o}, o);
    var code := StoredCode(session.data);
    var subtotal := CartTotal(store.items, store.prices, o);
    var discount := ClampStoredDiscount(session, subtotal);
    r := Success(CheckoutPage(Real(o), OrderLines(store.items, o), CartItems(store.items, o),
                              discount, code, subtotal - discount));
  }

  /** The clamp of `checkout`: the stored discount, lowered to the subtotal
      and written back to the session when it is larger. */
  method ClampStoredDiscount(session: Session, subtotal: int) returns (discount: int)
    requires session.Valid()
    modifies session
    ensures session.Valid()
    ensures discount == EffectiveDiscount(StoredDiscount(old(session.data)), subtotal)
    ensures session.data == if StoredDiscount(old(session.data)) > subtotal
                            then old(session.data)["discount_amount" := IntV(subtotal)]
                            else old(session.data)
  {
    discount := StoredDiscount(session.data);
    if discount > subtotal {
      discount := subtotal;
      session.data := session.data["discount_amount" := IntV(discount)];
    }
  }

  /** `apply_discount`: after the guards, normalise the code, price the
      shopper's repaired order and store the quote's code and discount in
      the session, the empty code and 0 for a rejected one. */
  method ApplyDiscount(store: Store, session: Session, user: User, code: Option<string>) returns (r: Result<Quote, Error>)
    requires store.Valid() && session.Valid()
    modifies store, session
    ensures store.Valid() && session.Valid()
    ensures store.prices == old(store.prices) && store.deliveries == old(store.deliveries)
    ensures store.nextItem == old(store.nextItem)
    ensures !user.authenticated ==>
              r == Failure(NotLoggedIn) && store.State() == old(store.State()) && session.data == old(session.data)
    ensures user.authenticated && IsAdmin(old(session.data)) ==>
              r == Failure(AdminAccount) && store.State() == old(store.State()) && session.data == old(session.data)
    ensures user.authenticated && !IsAdmin(old(session.data)) && user.customer.None? ==>
              r == Failure(NoCustomerProfile) && store.State() == old(store.State()) && session.data == old(session.data)
    ensures Shopper(user, old(session.data)) && |OpenOrders(old(store.orders), user.customer.value)| > 1 ==>
              r == Failure(MultipleObjectsReturned) && store.State() == old(store.State()) && session.data == old(session.data)
    ensures Shopper(user, old(session.data)) && |OpenOrders(old(store.orders), user.customer.value)| <= 1 ==>
              var c := user.customer.value;
              var o := CartOrder(old(store.orders), c, old(store.nextOrder));
              var q := QuoteFor(Normalize(code), CartTotal(old(store.items), store.prices, o));
              && store.orders == OrdersAfterGet(old(store.orders), c, old(store.nextOrder))
              && store.items == Merged(old(store.items), o)
              && r == Success(q)
              && session.data == WithDiscount(old(session.data), q.code, q.discount)
  {
    if !user.authenticated {
      return Failure(NotLoggedIn);
    }
    if IsAdmin(session.data) {
      return Failure(AdminAccount);
    }
    if user.customer.None? {
      return Failure(NoCustomerProfile);
    }
    var normalized := Normalize(code);
    var got := store.GetOrCreateOpenOrder(user.customer.value);
    if got.Failure? {
      return Failure(got.error);
    }
    var o := got.value;
    ghost var before := store.items;
    store.MergeOrder(o);
    MergeKeepsTotals(before, store.prices, {o}, o);
    var q := QuoteFor(normalized, CartTotal(store.items, store.prices, o));
    session.data := WithDiscount(session.data, q.code, q.discount);
    r := Success(q);
  }

  /** `payPage`: for the shopper's repaired order, an empty cart redirects;
      a valid submitted form saves the delivery, completes the order, writes
      the payment snapshot and clears the discount. */
  method PayPage(store: Store, session: Session, user: User, isPost: bool, formValid: bool, submittedParam: bool)
    returns (r: Result<PayOutcome, Error>)
    requires store.Valid() && session.Valid()
    modifies store, session
    ensures store.Valid() && session.Valid()
    ensures store.prices == old(store.prices) && store.nextItem == old(store.nextItem)
    ensures !Shopper(user, old(session.data)) ==>
              r == Success(Form(submittedParam)) && store.State() == old(store.State()) && session.data == old(session.data)
    ensures Shopper(user, old(session.data)) && |OpenOrders(old(store.orders), user.customer.value)| > 1 ==>
              r == Failure(MultipleObjectsReturned) && store.State() == old(store.State()) && session.data == old(session.data)
    ensures Shopper(user, old(session.data)) && |OpenOrders(old(store.orders), user.customer.value)| <= 1 ==>
              var c := user.customer.value;
              var o := CartOrder(old(store.orders), c, old(store.nextOrder));
              var got := OrdersAfterGet(old(store.orders), c, old(store.nextOrder));
              var subtotal := CartTotal(old(store.items), store.prices, o);
              var stored := StoredDiscount(old(session.data));
              && store.items == Merged(old(store.items), o)
              && if CartItems(old(store.items), o) == 0 then
                   && r == Success(EmptyCart)
                   && store.orders == got && store.deliveries == old(store.deliveries) && session.data == old(session.data)
                 else if isPost && formValid then
                   && r == Success(Paid(o))
                   && store.orders == got[o := Order(c, true)]
                   && store.deliveries == old(store.deliveries) + [Delivery(c, o)]
                   && session.data == AfterPayment(old(session.data), o, subtotal, EffectiveDiscount(stored, subtotal),
                                                   StoredCode(old(session.data)), FinalTotal(stored, subtotal))
                   && OpenOrders(store.orders, c) == {}
                 else
                   && r == Success(Form(false))
                   && store.orders == got && store.deliveries == old(store.deliveries) && session.data == old(session.data)
  {
    if !Shopper(user, session.data) {
      return Success(Form(submittedParam));
    }
    var c := user.customer.value;
    ghost var orders0, next0 := store.orders, store.nextOrder;
    var got := store.GetOrCreateOpenOrder(c);
    if got.Failure? {
      return Failure(got.error);
    }
    var o := got.value;
    ghost var before := store.items;
    store.MergeOrder(o);
    MergeKeepsTotals(before, store.prices, {o}, o);
    if CartItems(store.items, o) == 0 {
      return Success(EmptyCart);
    }
    if !(isPost && formValid) {
      return Success(Form(false));
    }
    CompletePayment(store, session, c, o);
    CheckoutClosesCart(orders0, c, next0, store.nextOrder);
    r := Success(Paid(o));
  }

  /** The valid-form branch of `payPage` for the open order `o` of customer
      `c`: save the delivery, complete the order, write the snapshot of the
      clamped totals and clear the session's discount. */
  method CompletePayment(store: Store, session: Session, c: nat, o: nat)
    requires store.Valid() && session.Valid()
    requires o in OpenOrders(store.orders, c)
    modifies store, session
    ensures store.Valid() && session.Valid()
    ensures store.orders == old(store.orders)[o := Order(c, true)]
    ensures store.deliveries == old(store.deliveries) + [Delivery(c, o)]
    ensures store.items == old(store.items) && store.prices == old(store.prices)
    ensures store.nextOrder == old(store.nextOrder) && store.nextItem == old(store.nextItem)
    ensures var subtotal := CartTotal(store.items, store.prices, o);
            var stored := StoredDiscount(old(session.data));
            session.data == AfterPayment(old(session.data), o, subtotal, EffectiveDiscount(stored, subtotal),
                                         StoredCode(old(session.data)), FinalTotal(stored, subtotal))
  {
    var subtotal := CartTotal(store.items, store.prices, o);
    var stored := StoredDiscount(session.data);
    var discount := EffectiveDiscount(stored, subtotal);
    var final := FinalTotal(stored, subtotal);
    var code := StoredCode(session.data);
    session.RecordPayment(o, subtotal, discount, code, final);
    store.AddDelivery(Delivery(c, o));
    store.CompleteOrder(o);
  }

  /** `payment_success`: the confirmation of one of the customer's orders,
      from the snapshot when it is this order's, and the snapshot keys
      popped so that it is shown once. */
  method PaymentSuccess(store: Store, session: Session, user: User, orderId: nat) returns (r: Result<PaidView, Error>)
    requires session.Valid()
    modifies session
    ensures session.Valid()
    ensures !user.authenticated ==> r == Success(LoginRedirect) && session.data == old(session.data)
    ensures user.authenticated && (IsAdmin(old(session.data)) || user.customer.None?) ==>
              r == Success(HomeRedirect) && session.data == old(session.data)
    ensures Shopper(user, old(session.data)) &&
            (orderId !in store.orders || store.orders[orderId].customer != user.customer.value) ==>
              r == Failure(OrderNotFound) && session.data == old(session.data)
    ensures Shopper(user, old(session.data)) && orderId in store.orders && store.orders[orderId].customer == user.customer.value ==>
              && r == Success(Shown(orderId, OrderLines(store.items, orderId),
                                    Confirmation(old(session.data), orderId, CartTotal(store.items, store.prices, orderId))))
              && session.data == old(session.data) - SnapshotKeys
  {
    if !user.authenticated {
      return Success(LoginRedirect);
    }
    if IsAdmin(session.data) || user.customer.None? {
      return Success(HomeRedirect);
    }
    if orderId !in store.orders || store.orders[orderId].customer != user.customer.value {
      return Failure(OrderNotFound);
    }
    var summary := Confirmation(session.data, orderId, CartTotal(store.items, store.prices, orderId));
    session.data := session.data - SnapshotKeys;
    r := Success(Shown(orderId, OrderLines(store.items, orderId), summary));
  }
}

/** The checkout pipeline: five saga steps around an order store, and what its runs leave behind. */
module Checkout {
  import opened Collections
  import opened MachineInts
  import opened Sagas

  datatype Status = Pending | Confirmed | Cancelled | Failed

  datatype OrderItem = OrderItem(productID: string, quantity: int, unitPrice: int)

  datatype Order = Order(id: string, userID: string, status: Status, items: seq<OrderItem>, total: int,
      currency: string)

  datatype SagaContext = SagaContext(
    orderID: string, userID: string, items: seq<OrderItem>, total: int, currency: string, transactionID: string)

  datatype OutboxEvent =
    | OrderCreated(orderID: string)
    | PaymentCharged(orderID: string, transactionID: string, amount: int, currency: string)
    | PaymentConfirmed(orderID: string)

  // What the steps ask of the inventory and of the payment provider.
  datatype Request =
    | Reserve(orderID: string, productID: string, quantity: int)
    | Release(orderID: string, productID: string, quantity: int)
    | Charge(orderID: string, amount: int)
    | Refund(orderID: string, amount: int)

  datatype World = World(orders: map<string, Order>, outbox: seq<OutboxEvent>, requests: seq<Request>, ctx: SagaContext)

  datatype Step = ReserveInventory | CreateOrder | ChargePayment | ConfirmOrder | PublishEvents

  // Which steps are turned down, with what error, before they change anything.
  type Faults = Step -> Option<string>

  function NameOf(step: Step): string {
    match step
    case ReserveInventory => "reserve_inventory"
    case CreateOrder => "create_order"
    case ChargePayment => "charge_payment"
    case ConfirmOrder => "confirm_order"
    case PublishEvents => "publish_events"
  }

  // ---- The steps ----

  function Reserves(id: string, items: seq<OrderItem>): seq<Request> {
    seq(|items|, i requires 0 <= i < |items| => Reserve(id, items[i].productID, items[i].quantity))
  }

  function Releases(id: string, items: seq<OrderItem>): seq<Request> {
    seq(|items|, i requires 0 <= i < |items| => Release(id, items[i].productID, items[i].quantity))
  }

  function WithStatus(w: World, status: Status): World {
    var id := w.ctx.orderID;
    if id in w.orders then w.(orders := w.orders[id := w.orders[id].(status := status)]) else w
  }

  function NewOrderOf(c: SagaContext): Order {
    Order(c.orderID, c.userID, Pending, c.items, c.total, c.currency)
  }

  function Do(step: Step, w: World): Attempt<World> {
    var c := w.ctx;
    match step
    case ReserveInventory => Attempt(w.(requests := w.requests + Reserves(c.orderID, c.items)), None)
    case CreateOrder => Attempt(w.(orders := w.orders[c.orderID := NewOrderOf(c)]), None)
    case ChargePayment =>
      Attempt(w.(ctx := c.(transactionID := "txn_" + c.orderID),
                 requests := w.requests + [Charge(c.orderID, c.total)]), None)
    case ConfirmOrder =>
      if c.orderID !in w.orders then Attempt(w, Some("order " + c.orderID + " not found"))
      else Attempt(WithStatus(w, Confirmed), None)
    case PublishEvents =>
      Attempt(w.(outbox := w.outbox + [OrderCreated(c.orderID),
                                       PaymentCharged(c.orderID, c.transactionID, c.total, c.currency)]), None)
  }

  function Undo(step: Step, w: World): Attempt<World> {
    var c := w.ctx;
    match step
    case ReserveInventory => Attempt(w.(requests := w.requests + Releases(c.orderID, c.items)), None)
    case CreateOrder => Attempt(WithStatus(w, Cancelled), None)
    case ChargePayment =>
      Attempt(if c.transactionID != "" then w.(requests := w.requests + [Refund(c.orderID, c.total)]) else w, None)
    case ConfirmOrder => Attempt(WithStatus(w, Failed), None)
    case PublishEvents => Attempt(w, None)
  }

  function Try(faults: Faults, step: Step, w: World): Attempt<World> {
    if faults(step).Some? then Attempt(w, faults(step)) else Do(step, w)
  }

  function Handler(faults: Faults, step: Step): StepHandler<World> {
    StepHandler(NameOf(step), w => Try(faults, step, w), w => Undo(step, w))
  }

  function StepNumber(i: nat): Step
    requires i < 5
  {
    if i == 0 then ReserveInventory else if i == 1 then CreateOrder else if i == 2 then ChargePayment
    else if i == 3 then ConfirmOrder else PublishEvents
  }

  function Pipeline(faults: Faults): seq<StepHandler<World>> {
    seq(5, i requires 0 <= i < 5 => Handler(faults, StepNumber(i)))
  }

  // ---- What a run of the pipeline does ----

  // The first n steps, none of them turned down.
  function After(w: World, n: nat): World
    requires n <= 5
  {
    if n == 0 then w else Do(StepNumber(n - 1), After(w, n - 1)).state
  }

  function Undone(w: World, n: nat): World
    requires n <= 5
    decreases n
  {
    if n == 0 then w else Undone(Undo(StepNumber(n - 1), w).state, n - 1)
  }

  lemma TryIs(faults: Faults, step: Step, w: World)
    ensures var a := Try(faults, step, w);
            && (a.error.None? ==> a == Do(step, w))
            && (a.error.Some? ==> a.state == w)
  {
  }

  lemma {:induction false} ForwardIs(faults: Faults, w: World, n: nat)
    requires n <= 5 && SucceedsUpTo(Pipeline(faults), w, n)
    ensures Forward(Pipeline(faults), w, n) == After(w, n)
  {
    hide Do, Try;
    if n > 0 {
      ForwardIs(faults, w, n - 1);
      assert ErrorAt(Pipeline(faults), w, n - 1).None?;
      TryIs(faults, StepNumber(n - 1), After(w, n - 1));
    }
  }

  lemma {:induction false} BackwardIs(faults: Faults, w: World, n: nat)
    requires n <= 5
    ensures Backward(Pipeline(faults), w, n) == Undone(w, n)
    decreases n
  {
    hide Undo, Try;
    if n > 0 {
      BackwardIs(faults, Undo(StepNumber(n - 1), w).state, n - 1);
    }
  }

  // A run that fails at step i ends where i steps done and undone again end.
  lemma FailureIs(faults: Faults, w: World, i: nat)
    requires i < 5 && SucceedsUpTo(Pipeline(faults), w, i) && ErrorAt(Pipeline(faults), w, i).Some?
    ensures Backward(Pipeline(faults), Forward(Pipeline(faults), w, i + 1), i) == Undone(After(w, i), i)
  {
    hide Do, Undo, Try, After, Undone;
    ForwardIs(faults, w, i);
    TryIs(faults, StepNumber(i), After(w, i));
    BackwardIs(faults, After(w, i), i);
  }

  // Every step that is not turned down succeeds: when the order is confirmed, it has been created.
  lemma StepsSucceed(w: World, i: nat)
    requires i < 5
    ensures Do(StepNumber(i), After(w, i)).error.None?
  {
  }

  lemma {:induction false} FailsIff(faults: Faults, w: World, i: nat)
    requires i < 5 && SucceedsUpTo(Pipeline(faults), w, i)
    ensures ErrorAt(Pipeline(faults), w, i) == faults(StepNumber(i))
  {
    ForwardIs(faults, w, i);
    StepsSucceed(w, i);
    hide Do, After;
  }

  // ---- The books ----

  // What has been charged for an order and not refunded.
  function NetCharged(requests: seq<Request>, id: string): int {
    if requests == [] then 0
    else
      var r := requests[|requests| - 1];
      NetCharged(requests[..|requests| - 1], id) +
      if r.Charge? && r.orderID == id then r.amount else if r.Refund? && r.orderID == id then -r.amount else 0
  }

  // How many of a product are reserved for an order and not released.
  function NetReserved(requests: seq<Request>, id: string, product: string): int {
    if requests == [] then 0
    else
      var r := requests[|requests| - 1];
      NetReserved(requests[..|requests| - 1], id, product) +
      if r.Reserve? && r.orderID == id && r.productID == product then r.quantity
      else if r.Release? && r.orderID == id && r.productID == product then -r.quantity else 0
  }

  function QuantityOf(items: seq<OrderItem>, product: string): int {
    if items == [] then 0
    else
      var item := items[|items| - 1];
      QuantityOf(items[..|items| - 1], product) + if item.productID == product then item.quantity else 0
  }

  lemma {:induction false} NetAdds(a: seq<Request>, b: seq<Request>, id: string, product: string)
    ensures NetCharged(a + b, id) == NetCharged(a, id) + NetCharged(b, id)
    ensures NetReserved(a + b, id, product) == NetReserved(a, id, product) + NetReserved(b, id, product)
  {
    if b == [] {
      assert a + b == a;
    } else {
      assert (a + b)[..|a + b| - 1] == a + b[..|b| - 1];
      NetAdds(a, b[..|b| - 1], id, product);
    }
  }

  lemma {:induction false} NetOfItems(order: string, items: seq<OrderItem>, id: string, product: string)
    ensures NetCharged(Reserves(order, items), id) == NetCharged(Releases(order, items), id) == 0
    ensures var q := if id == order then QuantityOf(items, product) else 0;
            NetReserved(Reserves(order, items), id, product) == q
                && NetReserved(Releases(order, items), id, product) == -q
  {
    if items != [] {
      var before := items[..|items| - 1];
      NetOfItems(order, before, id, product);
      assert Reserves(order, items)[..|before|] == Reserves(order, before);
      assert Releases(order, items)[..|before|] == Releases(order, before);
    }
  }

  // Everything done for the order and everything undone again.
  lemma NetOfUndone(base: seq<Request>, order: string, items: seq<OrderItem>, amount: int, id: string, product: string)
    ensures var rs, us := Reserves(order, items), Releases(order, items);
            && NetCharged((base + rs) + us, id) == NetCharged(base, id)
            && NetReserved((base + rs) + us, id, product) == NetReserved(base, id, product)
            && NetCharged((((base + rs) + [Charge(order, amount)]) + [Refund(order, amount)]) + us, id) ==
               NetCharged(base, id)
            && NetReserved((((base + rs) + [Charge(order, amount)]) + [Refund(order, amount)]) + us, id, product) ==
                 NetReserved(base, id, product)
  {
    var rs, us := Reserves(order, items), Releases(order, items);
    var c, r := [Charge(order, amount)], [Refund(order, amount)];
    NetOfItems(order, items, id, product);
    assert c[..0] == r[..0] == [];
    NetAdds(base, rs, id, product);
    NetAdds(base + rs, us, id, product);
    NetAdds(base + rs, c, id, product);
    NetAdds((base + rs) + c, r, id, product);
    NetAdds(((base + rs) + c) + r, us, id, product);
    assert NetCharged(c, id) + NetCharged(r, id) == 0
           && NetReserved(c, id, product) == NetReserved(r, id, product) == 0;
    hide NetCharged, NetReserved, Reserves, Releases;
  }

  lemma NetOfDone(base: seq<Request>, order: string, items: seq<OrderItem>, amount: int, id: string, product: string)
    ensures var rs := Reserves(order, items);
            && NetCharged((base + rs) + [Charge(order, amount)], id) ==
                 NetCharged(base, id) + (if id == order then amount else 0)
            && NetReserved((base + rs) + [Charge(order, amount)], id, product) ==
                 NetReserved(base, id, product) + if id == order then QuantityOf(items, product) else 0
  {
    var rs, c := Reserves(order, items), [Charge(order, amount)];
    NetOfItems(order, items, id, product);
    assert c[..0] == [];
    NetAdds(base, rs, id, product);
    NetAdds(base + rs, c, id, product);
    assert NetCharged(c, id) == (if id == order then amount else 0) && NetReserved(c, id, product) == 0;
    hide NetCharged, NetReserved, Reserves;
  }

  /** A failed checkout is undone: nothing is published, no other order is touched, the new order is
      either not there or cancelled, and nothing stays charged or reserved that was not before. */
  lemma FailedLeaves(w: World, i: nat, id: string, product: string)
    requires i < 5 && w.ctx.orderID !in w.orders
    ensures var z := Undone(After(w, i), i);
            && z.outbox == w.outbox
            && z.orders == (if i < 2 then w.orders
                            else w.orders[w.ctx.orderID := NewOrderOf(w.ctx).(status := Cancelled)])
            && NetCharged(z.requests, id) == NetCharged(w.requests, id)
            && NetReserved(z.requests, id, product) == NetReserved(w.requests, id, product)
  {
    NetOfUndone(w.requests, w.ctx.orderID, w.ctx.items, w.ctx.total, id, product);
    hide NetCharged, NetReserved;
    UndoneIs(w, i);
  }

  // The store and the requests after i steps done and undone.
  lemma UndoneIs(w: World, i: nat)
    requires i < 5 && w.ctx.orderID !in w.orders
    ensures var z, c := Undone(After(w, i), i), w.ctx;
            && z.outbox == w.outbox
            && z.orders == (if i < 2 then w.orders else w.orders[c.orderID := NewOrderOf(c).(status := Cancelled)])
            && z.requests == if i == 0 then w.requests
                             else if i <= 2 then
                               (w.requests + Reserves(c.orderID, c.items)) + Releases(c.orderID, c.items)
                             else (((w.requests + Reserves(c.orderID, c.items)) + [Charge(c.orderID, c.total)])
                                   + [Refund(c.orderID, c.total)]) + Releases(c.orderID, c.items)
  {
    hide Reserves, Releases;
    var a1 := After(w, 1);
    var a2 := After(w, 2);
    var a3 := After(w, 3);
    var a4 := After(w, 4);
    assert After(w, 0) == w && Undone(w, 0) == w;
    assert a1 == Do(ReserveInventory, w).state;
    assert a2 == Do(CreateOrder, a1).state;
    assert a3 == Do(ChargePayment, a2).state;
    assert a4 == Do(ConfirmOrder, a3).state;
    hide After;
    assert Undone(a1, 1) == Undo(ReserveInventory, a1).state;
    if i == 2 {
      UndoneTwo(a2);
    } else if i == 3 {
      UndoneThree(a3);
    } else if i == 4 {
      UndoneThree(Undo(ConfirmOrder, a4).state);
    }
  }

  lemma UndoneTwo(w: World)
    ensures Undone(w, 2) == Undo(ReserveInventory, Undo(CreateOrder, w).state).state
  {
  }

  lemma UndoneThree(w: World)
    ensures Undone(w, 3) == Undo(ReserveInventory, Undo(CreateOrder, Undo(ChargePayment, w).state).state).state
  {
  }

  lemma CompletedIs(w: World)
    requires w.ctx.orderID !in w.orders
    ensures var z, c := After(w, 5), w.ctx;
            && z.orders == w.orders[c.orderID := NewOrderOf(c).(status := Confirmed)]
            && z.outbox ==
               w.outbox + [OrderCreated(c.orderID), PaymentCharged(c.orderID, "txn_" + c.orderID, c.total, c.currency)]
            && z.requests == (w.requests + Reserves(c.orderID, c.items)) + [Charge(c.orderID, c.total)]
  {
    hide Reserves;
    var a1 := After(w, 1);
    var a2 := After(w, 2);
    var a3 := After(w, 3);
    var a4 := After(w, 4);
    assert After(w, 0) == w;
    assert a1 == Do(ReserveInventory, w).state;
    assert a2 == Do(CreateOrder, a1).state;
    assert a3 == Do(ChargePayment, a2).state;
    assert a4 == Do(ConfirmOrder, a3).state;
    assert After(w, 5) == Do(PublishEvents, a4).state;
    hide After;
  }

  // ---- The service ----

  function ExactTotal(items: seq<OrderItem>): int {
    if items == [] then 0
    else
      var item := items[|items| - 1];
      ExactTotal(items[..|items| - 1]) + item.unitPrice * item.quantity
  }

  function LineAmounts(items: seq<OrderItem>): (r: seq<int>)
    ensures |r| == |items| && forall i :: 0 <= i < |r| ==> r[i] == items[i].unitPrice * items[i].quantity
  {
    seq(|items|, i requires 0 <= i < |items| => items[i].unitPrice * items[i].quantity)
  }

  function LineQuantities(items: seq<OrderItem>, product: string): (r: seq<int>)
    ensures |r| == |items|
    ensures forall i :: 0 <= i < |r| ==> r[i] == if items[i].productID == product then items[i].quantity else 0
  {
    seq(|items|, i requires 0 <= i < |items| => if items[i].productID == product then items[i].quantity else 0)
  }

  /** What is summed up item by item is the sum of price times quantity over the items, and of the
      quantities of one product. */
  lemma {:induction false} TotalIsSum(items: seq<OrderItem>, product: string)
    ensures ExactTotal(items) == Sum(LineAmounts(items))
    ensures QuantityOf(items, product) == Sum(LineQuantities(items, product))
  {
    if items != [] {
      var before, last := items[..|items| - 1], items[|items| - 1];
      var amount, quantity := last.unitPrice * last.quantity, if last.productID == product then last.quantity else 0;
      TotalIsSum(before, product);
      assert LineAmounts(items) == LineAmounts(before) + [amount];
      assert LineQuantities(items, product) == LineQuantities(before, product) + [quantity];
      SumAppend(LineAmounts(before), [amount]);
      SumAppend(LineQuantities(before, product), [quantity]);
      assert Sum([amount]) == amount && Sum([quantity]) == quantity;
    }
  }

  /** One item costs its price times its quantity, and items in two lots cost what the lots cost together,
      in wrapping arithmetic: so n units of a product cost what n items of one unit do. */
  lemma TotalOfLots(a: seq<OrderItem>, b: seq<OrderItem>, item: OrderItem)
    ensures Wrap64(ExactTotal([item])) == Wrap64(item.unitPrice * item.quantity)
    ensures Wrap64(ExactTotal(a + b)) == Wrap64(Wrap64(ExactTotal(a)) + Wrap64(ExactTotal(b)))
  {
    OneItem(item);
    hide ExactTotal;
    TwoLots(a, b);
    WrapSum(ExactTotal(a), ExactTotal(b));
  }

  lemma OneItem(item: OrderItem)
    ensures ExactTotal([item]) == item.unitPrice * item.quantity
  {
    assert ExactTotal([item][..0]) == 0;
  }

  lemma TwoLots(a: seq<OrderItem>, b: seq<OrderItem>)
    ensures ExactTotal(a + b) == ExactTotal(a) + ExactTotal(b)
  {
    hide ExactTotal, QuantityOf, Sum;
    TotalIsSum(a, "");
    TotalIsSum(b, "");
    TotalIsSum(a + b, "");
    assert LineAmounts(a + b) == LineAmounts(a) + LineAmounts(b);
    SumAppend(LineAmounts(a), LineAmounts(b));
  }

  ghost predicate IsConfirmed(orders: map<string, Order>, id: string) {
    id in orders && orders[id].status == Confirmed
  }

  ghost predicate OrdersSettled(orders: map<string, Order>) {
    forall id :: id in orders ==>
                   orders[id].id == id && (orders[id].status == Confirmed || orders[id].status == Cancelled)
  }

  ghost predicate ChargesMatch(orders: map<string, Order>, requests: seq<Request>) {
    forall id :: NetCharged(requests, id) == if IsConfirmed(orders, id) then orders[id].total else 0
  }

  ghost predicate ReservationsMatch(orders: map<string, Order>, requests: seq<Request>) {
    forall id, p :: NetReserved(requests, id, p) ==
                      if IsConfirmed(orders, id) then QuantityOf(orders[id].items, p) else 0
  }

  ghost predicate EventsMatch(orders: map<string, Order>, outbox: seq<OutboxEvent>) {
    && (forall e :: e in outbox ==> IsConfirmed(orders, e.orderID))
    && (forall id :: IsConfirmed(orders, id) ==> OrderCreated(id) in outbox)
  }

  // Between requests every order is confirmed or cancelled; what is charged and what is reserved is
  // exactly what the confirmed orders ask for; and events are about confirmed orders.
  ghost predicate BooksBalance(orders: map<string, Order>, outbox: seq<OutboxEvent>, requests: seq<Request>) {
    && OrdersSettled(orders) && ChargesMatch(orders, requests)
    && ReservationsMatch(orders, requests) && EventsMatch(orders, outbox)
  }

  // orders' has the confirmed orders of orders, and the one with the given id if `added`.
  ghost predicate ConfirmedKept(orders: map<string, Order>, orders': map<string, Order>, id: string, added: bool) {
    && (forall o :: IsConfirmed(orders, o) ==> o != id && IsConfirmed(orders', o) && orders'[o] == orders[o])
    && (forall o :: IsConfirmed(orders', o) ==> IsConfirmed(orders, o) || (added && o == id))
    && (added ==> IsConfirmed(orders', id))
  }

  lemma ChargesKept(orders: map<string, Order>, orders': map<string, Order>, requests: seq<Request>,
                    requests': seq<Request>, id: string, added: bool)
    requires ChargesMatch(orders, requests) && ConfirmedKept(orders, orders', id, added)
    requires forall o ::
               NetCharged(requests', o) == NetCharged(requests, o) +
                                           if added && o == id then orders'[o].total else 0
    ensures ChargesMatch(orders', requests')
  {
  }

  lemma ReservationsKept(orders: map<string, Order>, orders': map<string, Order>, requests: seq<Request>,
                         requests': seq<Request>, id: string, added: bool)
    requires ReservationsMatch(orders, requests) && ConfirmedKept(orders, orders', id, added)
    requires forall o, p :: NetReserved(requests', o, p) ==
                              NetReserved(requests, o, p) +
                              if added && o == id then QuantityOf(orders'[o].items, p) else 0
    ensures ReservationsMatch(orders', requests')
  {
  }

  lemma CancelledKept(orders: map<string, Order>, orders': map<string, Order>, outbox: seq<OutboxEvent>, id: string,
      o: Order)
    requires id !in orders && (orders' == orders || orders' == orders[id := o]) && o.id == id && o.status == Cancelled
    requires OrdersSettled(orders) && EventsMatch(orders, outbox)
    ensures ConfirmedKept(orders, orders', id, false) && OrdersSettled(orders') && EventsMatch(orders', outbox)
  {
  }

  lemma ConfirmedAdded(orders: map<string, Order>, outbox: seq<OutboxEvent>, id: string, o: Order, es: seq<OutboxEvent>)
    requires id !in orders && o.id == id && o.status == Confirmed
    requires OrdersSettled(orders) && EventsMatch(orders, outbox)
    requires OrderCreated(id) in es && forall e :: e in es ==> e.orderID == id
    ensures var orders' := orders[id := o];
            ConfirmedKept(orders, orders', id, true) && OrdersSettled(orders') && EventsMatch(orders', outbox + es)
  {
  }

  lemma FailureKeepsBooks(w: World, i: nat)
    requires i < 5 && w.ctx.orderID !in w.orders && BooksBalance(w.orders, w.outbox, w.requests)
    ensures var z := Undone(After(w, i), i); BooksBalance(z.orders, z.outbox, z.requests)
  {
    var z, id := Undone(After(w, i), i), w.ctx.orderID;
    hide After, Undone, NetCharged, NetReserved, QuantityOf, IsConfirmed, ConfirmedKept,
         OrdersSettled, ChargesMatch, ReservationsMatch, EventsMatch;
    FailedLeaves(w, i, "", "");
    CancelledKept(w.orders, z.orders, w.outbox, id, NewOrderOf(w.ctx).(status := Cancelled));
    assert ChargesMatch(z.orders, z.requests) by {
      forall o
        ensures NetCharged(z.requests, o) == NetCharged(w.requests, o)
      {
        FailedLeaves(w, i, o, "");
      }
      ChargesKept(w.orders, z.orders, w.requests, z.requests, id, false);
    }
    assert ReservationsMatch(z.orders, z.requests) by {
      forall o, p
        ensures NetReserved(z.requests, o, p) == NetReserved(w.requests, o, p)
      {
        FailedLeaves(w, i, o, p);
      }
      ReservationsKept(w.orders, z.orders, w.requests, z.requests, id, false);
    }
  }

  lemma SuccessKeepsBooks(w: World)
    requires w.ctx.orderID !in w.orders && BooksBalance(w.orders, w.outbox, w.requests)
    ensures var z := After(w, 5); BooksBalance(z.orders, z.outbox, z.requests)
  {
    var z, c := After(w, 5), w.ctx;
    hide After, NetCharged, NetReserved, QuantityOf, IsConfirmed, ConfirmedKept, Reserves,
         OrdersSettled, ChargesMatch, ReservationsMatch, EventsMatch;
    CompletedIs(w);
    ConfirmedAdded(w.orders, w.outbox, c.orderID, NewOrderOf(c).(status := Confirmed),
                   [OrderCreated(c.orderID), PaymentCharged(c.orderID, "txn_" + c.orderID, c.total, c.currency)]);
    assert ChargesMatch(z.orders, z.requests) by {
      forall o
        ensures NetCharged(z.requests, o) == NetCharged(w.requests, o) + if o == c.orderID then c.total else 0
      {
        NetOfDone(w.requests, c.orderID, c.items, c.total, o, "");
      }
      ChargesKept(w.orders, z.orders, w.requests, z.requests, c.orderID, true);
    }
    assert ReservationsMatch(z.orders, z.requests) by {
      forall o, p
        ensures NetReserved(z.requests, o, p) ==
                  NetReserved(w.requests, o, p) + if o == c.orderID then QuantityOf(c.items, p) else 0
      {
        NetOfDone(w.requests, c.orderID, c.items, c.total, o, p);
      }
      ReservationsKept(w.orders, z.orders, w.requests, z.requests, c.orderID, true);
    }
  }

  datatype SagaResult = SagaResult(success: bool, orderID: string, order: Option<Order>, failedAt: Option<string>,
      steps: seq<SagaStep>)

  datatype PaymentError = NotFound | NotConfirmed(status: Status)

  // What the service keeps between requests.
  datatype Books = Books(orders: map<string, Order>, outbox: seq<OutboxEvent>, requests: seq<Request>)

  const NO_BOOKS := Books(map[], [], [])

  // The number of steps before the first one turned down; 5 when none is.
  function FirstFault(faults: Faults, i: nat): (r: nat)
    requires i <= 5
    ensures i <= r <= 5 && (r < 5 ==> faults(StepNumber(r)).Some?)
    ensures forall k :: i <= k < r ==> faults(StepNumber(k)).None?
    decreases 5 - i
  {
    if i == 5 || faults(StepNumber(i)).Some? then i else FirstFault(faults, i + 1)
  }

  ghost predicate NoFaults(faults: Faults) {
    forall step :: faults(step).None?
  }

  function WorldOf(b: Books, request: SagaContext, orderID: string): World {
    World(b.orders, b.outbox, b.requests, request.(orderID := orderID, total := Wrap64(ExactTotal(request.items))))
  }

  // The order as the request asks for it, with the given status.
  function Ordered(request: SagaContext, orderID: string, status: Status): Order {
    NewOrderOf(request.(orderID := orderID, total := Wrap64(ExactTotal(request.items)))).(status := status)
  }

  // The books after a new order.
  function Placed(b: Books, request: SagaContext, orderID: string, faults: Faults): Books {
    var w, i := WorldOf(b, request, orderID), FirstFault(faults, 0);
    var z := if i == 5 then After(w, 5) else Undone(After(w, i), i);
    Books(z.orders, z.outbox, z.requests)
  }

  // The log entries of the first n steps.
  function Done(n: nat): seq<SagaStep>
    requires n <= 5
  {
    seq(n, k requires 0 <= k < n => SagaStep(NameOf(StepNumber(k)), true, ""))
  }

  // What the caller is told.
  function Reported(request: SagaContext, orderID: string, faults: Faults): SagaResult {
    var i := FirstFault(faults, 0);
    if i == 5 then SagaResult(true, orderID, Some(Ordered(request, orderID, Confirmed)), None, Done(5))
    else
      var name := NameOf(StepNumber(i));
      SagaResult(false, orderID, None, Some(name), Done(i) + [SagaStep(name, false, faults(StepNumber(i)).value)])
  }

  class CheckoutService {
    var orders: map<string, Order>
    var outbox: seq<OutboxEvent>
    var requests: seq<Request>

    ghost predicate Valid()
      reads this
    {
      BooksBalance(orders, outbox, requests)
    }

    ghost function Now(): Books
      reads this
    {
      Books(orders, outbox, requests)
    }

    constructor ()
      ensures Valid() && Now() == NO_BOOKS
    {
      orders, outbox, requests := map[], [], [];
    }

    method TotalOf(items: seq<OrderItem>) returns (total: int)
      ensures total == Wrap64(ExactTotal(items)) == Wrap64(Sum(LineAmounts(items)))
      ensures total == ExactTotal(items) <==> -0x8000_0000_0000_0000 <= ExactTotal(items) < 0x8000_0000_0000_0000
    {
      total := 0;
      for i := 0 to |items|
        invariant total == Wrap64(ExactTotal(items[..i]))
      {
        assert items[..i + 1][..i] == items[..i];
        WrapSum(ExactTotal(items[..i]), items[i].unitPrice * items[i].quantity);
        total := Wrap64(total + Wrap64(items[i].unitPrice * items[i].quantity));
      }
      assert items[..|items|] == items;
      TotalIsSum(items, "");
    }

    // The id is a new one. The result says how it went; the error itself is not passed on.
    method NewOrder(request: SagaContext, orderID: string, faults: Faults) returns (result: SagaResult)
      requires Valid() && orderID !in orders
      modifies this
      ensures Valid() && Now() == Placed(old(Now()), request, orderID, faults)
      ensures result == Reported(request, orderID, faults)
    {
      var total := TotalOf(request.items);
      var ctx := request.(orderID := orderID, total := total);
      var saga := new SagaOrchestrator(Pipeline(faults));
      var w := World(orders, outbox, requests, ctx);
      var run, error := saga.Execute(w);
      hide BooksBalance, After, Undone, Forward, Backward;
      orders, outbox, requests := run.state.orders, run.state.outbox, run.state.requests;
      if error.Some? {
        RunFailed(faults, w, run, error);
        return SagaResult(false, orderID, None, run.failedAt, run.steps);
      }
      RunSucceeded(faults, w, run);
      return SagaResult(true, orderID, GetOrder(orderID), None, run.steps);
    }

    function GetOrder(id: string): Option<Order>
      reads this
    {
      if id in orders then Some(orders[id]) else None
    }

    // Only a confirmed order can have its payment confirmed.
    method ConfirmPayment(orderID: string) returns (error: Option<PaymentError>)
      requires Valid()
      modifies this`outbox
      ensures Valid() && Now() == Paid(old(Now()), orderID)
      ensures error.None? <==> IsConfirmed(orders, orderID)
      ensures error == Some(NotFound) <==> orderID !in orders
    {
      var order := GetOrder(orderID);
      if order.None? {
        return Some(NotFound);
      }
      if order.value.status != Confirmed {
        return Some(NotConfirmed(order.value.status));
      }
      hide NetCharged, NetReserved, QuantityOf;
      outbox := outbox + [PaymentConfirmed(orderID)];
      return None;
    }
  }

  // The steps in their order, as the caller is told about them: each is there with its outcome up to and
  // including the first one turned down.
  ghost predicate StepsRead(result: SagaResult, faults: Faults) {
    var all := [ReserveInventory, CreateOrder, ChargePayment, ConfirmOrder, PublishEvents];
    var names := ["reserve_inventory", "create_order", "charge_payment", "confirm_order", "publish_events"];
    var n := |result.steps|;
    && n <= 5
    && (forall k :: 0 <= k < n && (k < n - 1 || result.success) ==>
          faults(all[k]).None? && result.steps[k] == SagaStep(names[k], true, ""))
    && (result.success ==> n == 5 && result.failedAt.None?)
    && (!result.success ==>
          && n > 0 && faults(all[n - 1]).Some? && result.failedAt == Some(names[n - 1])
          && result.steps[n - 1] == SagaStep(names[n - 1], false, faults(all[n - 1]).value))
  }

  lemma ReportedReads(request: SagaContext, id: string, faults: Faults)
    ensures StepsRead(Reported(request, id, faults), faults)
  {
    var all := [ReserveInventory, CreateOrder, ChargePayment, ConfirmOrder, PublishEvents];
    var names := ["reserve_inventory", "create_order", "charge_payment", "confirm_order", "publish_events"];
    forall k | 0 <= k < 5
      ensures all[k] == StepNumber(k) && names[k] == NameOf(all[k])
    {
    }
    var i, result := FirstFault(faults, 0), Reported(request, id, faults);
    assert |Done(i)| == i && forall k :: 0 <= k < i ==> Done(i)[k] == SagaStep(names[k], true, "");
    hide NameOf, StepNumber, Done;
  }

  // What a request leaves, and what it is told, in plain terms.
  lemma PlacedLeaves(b: Books, request: SagaContext, id: string, faults: Faults)
    requires id !in b.orders
    ensures var b', result := Placed(b, request, id, faults), Reported(request, id, faults);
            var total := Wrap64(Sum(LineAmounts(request.items)));
            var order := Order(id, request.userID, Confirmed, request.items, total, request.currency);
            if NoFaults(faults) then
              && result.success && result.order == Some(order) && b'.orders == b.orders[id := order]
              && b'.requests == (b.requests + Reserves(id, request.items)) + [Charge(id, total)]
              && b'.outbox ==
                 b.outbox + [OrderCreated(id), PaymentCharged(id, "txn_" + id, total, request.currency)]
            else
              && !result.success && result.order == None && b'.outbox == b.outbox && !IsConfirmed(b'.orders, id)
    ensures StepsRead(Reported(request, id, faults), faults)
  {
    ReportedReads(request, id, faults);
    FaultlessIff(faults);
    TotalIsSum(request.items, "");
    hide After, Undone, NoFaults, Sum, LineAmounts, Reserves, Wrap64, StepsRead;
    var w, i := WorldOf(b, request, id), FirstFault(faults, 0);
    if i == 5 {
      CompletedIs(w);
    } else {
      UndoneIs(w, i);
    }
  }

  function Paid(b: Books, id: string): Books {
    if id in b.orders && b.orders[id].status == Confirmed then b.(outbox := b.outbox + [PaymentConfirmed(id)]) else b
  }

  // What the orchestrator promises about a failed run, for this pipeline.
  lemma RunFailed(faults: Faults, w: World, run: SagaRun<World>, error: Option<string>)
    requires w.ctx.orderID !in w.orders && BooksBalance(w.orders, w.outbox, w.requests) && error.Some?
    requires var steps := Pipeline(faults);
             exists k ::
               && 0 <= k < |steps| && SucceedsUpTo(steps, w, k) && ErrorAt(steps, w, k) == error
               && run == SagaRun(
                           Backward(steps, Forward(steps, w, k + 1), k),
                           Successes(steps, k) + [SagaStep(steps[k].name, false, error.value)],
                           Some(steps[k].name),
                           Executions(k + 1) + Compensations(k))
    ensures FirstFault(faults, 0) < 5
    ensures var i := FirstFault(faults, 0);
            var name := NameOf(StepNumber(i));
            && run.state == Undone(After(w, i), i)
            && run.failedAt == Some(name)
            && run.steps == Done(i) + [SagaStep(name, false, faults(StepNumber(i)).value)]
    ensures BooksBalance(run.state.orders, run.state.outbox, run.state.requests)
  {
    var steps := Pipeline(faults);
    hide BooksBalance, Do, Undo, After, Undone, Backward, Forward, NetCharged, NetReserved, Executions, Compensations;
    var i :| 0 <= i < |steps| && SucceedsUpTo(steps, w, i) && ErrorAt(steps, w, i) == error &&
             run == SagaRun(
                      Backward(steps, Forward(steps, w, i + 1), i),
                      Successes(steps, i) + [SagaStep(steps[i].name, false, error.value)],
                      Some(steps[i].name),
                      Executions(i + 1) + Compensations(i));
    NoFaultsBefore(faults, w, i);
    FailsIff(faults, w, i);
    FaultIs(faults, 0, i);
    FailureIs(faults, w, i);
    FailureKeepsBooks(w, i);
    assert Successes(steps, i) == Done(i);
  }

  lemma {:induction false} FaultIs(faults: Faults, k: nat, i: nat)
    requires k <= i <= 5 && (i < 5 ==> faults(StepNumber(i)).Some?)
    requires forall j :: k <= j < i ==> faults(StepNumber(j)).None?
    ensures FirstFault(faults, k) == i
    decreases i - k
  {
    if k < i {
      FaultIs(faults, k + 1, i);
    }
  }

  lemma NoFaultsBefore(faults: Faults, w: World, n: nat)
    requires n <= 5 && SucceedsUpTo(Pipeline(faults), w, n)
    ensures forall k :: 0 <= k < n ==> faults(StepNumber(k)).None?
  {
    hide ErrorAt, StepNumber;
    forall k | 0 <= k < n
      ensures faults(StepNumber(k)).None?
    {
      assert SucceedsUpTo(Pipeline(faults), w, k);
      FailsIff(faults, w, k);
    }
  }

  lemma RunSucceeded(faults: Faults, w: World, run: SagaRun<World>)
    requires w.ctx.orderID !in w.orders && BooksBalance(w.orders, w.outbox, w.requests)
    requires SucceedsUpTo(Pipeline(faults), w, 5) && run.state == Forward(Pipeline(faults), w, 5)
    requires run.steps == Successes(Pipeline(faults), 5)
    ensures FirstFault(faults, 0) == 5 && run.state == After(w, 5) && run.steps == Done(5)
    ensures BooksBalance(run.state.orders, run.state.outbox, run.state.requests)
    ensures var id := w.ctx.orderID;
            id in run.state.orders && run.state.orders[id] == NewOrderOf(w.ctx).(status := Confirmed)
  {
    hide BooksBalance, Do, After, Forward, NetCharged, NetReserved, SucceedsUpTo;
    ForwardIs(faults, w, 5);
    NoFaultsBefore(faults, w, 5);
    FaultIs(faults, 0, 5);
    SuccessKeepsBooks(w);
    CompletedIs(w);
    assert Successes(Pipeline(faults), 5) == Done(5);
  }

  // ---- Runs of the service ----

  datatype Visit = Place(request: SagaContext, orderID: string, faults: Faults) | Pay(orderID: string)

  function Visited(b: Books, v: Visit): Books {
    match v
    case Place(request, id, faults) => Placed(b, request, id, faults)
    case Pay(id) => Paid(b, id)
  }

  // A new service after these requests.
  function BooksAfter(visits: seq<Visit>): Books {
    if visits == [] then NO_BOOKS else Visited(BooksAfter(visits[..|visits| - 1]), visits[|visits| - 1])
  }

  // Ids of new orders are new.
  ghost predicate FreshIDs(visits: seq<Visit>) {
    forall i :: 0 <= i < |visits| && visits[i].Place? ==> visits[i].orderID !in BooksAfter(visits[..i]).orders
  }

  lemma FreshPrefix(visits: seq<Visit>)
    requires visits != [] && FreshIDs(visits)
    ensures var before, last := visits[..|visits| - 1], visits[|visits| - 1];
            FreshIDs(before) && (last.Place? ==> last.orderID !in BooksAfter(before).orders)
  {
    var before := visits[..|visits| - 1];
    assert forall i :: 0 <= i < |before| ==> before[i] == visits[i] && before[..i] == visits[..i];
    hide BooksAfter;
  }

  lemma PlacedKeepsBooks(b: Books, request: SagaContext, id: string, faults: Faults)
    requires BooksBalance(b.orders, b.outbox, b.requests) && id !in b.orders
    ensures var b' := Placed(b, request, id, faults); BooksBalance(b'.orders, b'.outbox, b'.requests)
  {
    hide BooksBalance, After, Undone;
    var w, i := WorldOf(b, request, id), FirstFault(faults, 0);
    if i == 5 {
      SuccessKeepsBooks(w);
    } else {
      FailureKeepsBooks(w, i);
    }
  }

  lemma PaidKeepsBooks(b: Books, id: string)
    requires BooksBalance(b.orders, b.outbox, b.requests)
    ensures var b' := Paid(b, id); BooksBalance(b'.orders, b'.outbox, b'.requests)
  {
    hide NetCharged, NetReserved, QuantityOf;
  }

  lemma NothingBooked()
    ensures BooksBalance(NO_BOOKS.orders, NO_BOOKS.outbox, NO_BOOKS.requests)
  {
  }

  lemma {:induction false} BooksAlwaysBalance(visits: seq<Visit>)
    requires FreshIDs(visits)
    ensures var b := BooksAfter(visits); BooksBalance(b.orders, b.outbox, b.requests)
  {
    hide BooksBalance, FreshIDs, Placed, Paid;
    if visits == [] {
      NothingBooked();
    } else {
      FreshPrefix(visits);
      var before, last := visits[..|visits| - 1], visits[|visits| - 1];
      BooksAlwaysBalance(before);
      match last
      case Place(request, id, faults) => PlacedKeepsBooks(BooksAfter(before), request, id, faults);
      case Pay(id) => PaidKeepsBooks(BooksAfter(before), id);
    }
  }

  // What a new order leaves in the store.
  lemma PlacedOrders(b: Books, request: SagaContext, id: string, faults: Faults)
    requires id !in b.orders
    ensures var i := FirstFault(faults, 0);
            Placed(b, request, id, faults).orders ==
            if i == 5 then b.orders[id := Ordered(request, id, Confirmed)]
            else if i < 2 then b.orders else b.orders[id := Ordered(request, id, Cancelled)]
  {
    hide After, Undone;
    var w, i := WorldOf(b, request, id), FirstFault(faults, 0);
    if i == 5 {
      CompletedIs(w);
    } else {
      UndoneIs(w, i);
    }
  }

  lemma FaultlessIff(faults: Faults)
    ensures NoFaults(faults) <==> FirstFault(faults, 0) == 5
  {
    if FirstFault(faults, 0) == 5 {
      forall step
        ensures faults(step).None?
      {
        assert step == StepNumber(if step.ReserveInventory? then 0 else if step.CreateOrder? then 1
                                  else if step.ChargePayment? then 2 else if step.ConfirmOrder? then 3 else 4);
      }
    } else {
      assert faults(StepNumber(FirstFault(faults, 0))).Some?;
    }
  }

  // A request for an order with this id that no step turned down, and the order it asked for.
  ghost predicate Granted(v: Visit, id: string, o: Order) {
    v.Place? && v.orderID == id && NoFaults(v.faults) && o == Ordered(v.request, id, Confirmed)
  }

  ghost predicate HasOrder(b: Books, id: string, o: Order) {
    IsConfirmed(b.orders, id) && b.orders[id] == o
  }

  ghost predicate WasGranted(visits: seq<Visit>, id: string, o: Order) {
    exists v :: v in visits && Granted(v, id, o)
  }

  lemma OneVisit(b: Books, v: Visit, id: string, o: Order)
    requires v.Place? ==> v.orderID !in b.orders
    ensures HasOrder(Visited(b, v), id, o) <==> HasOrder(b, id, o) || Granted(v, id, o)
  {
    if v.Place? {
      PlacedOrders(b, v.request, v.orderID, v.faults);
      FaultlessIff(v.faults);
      hide Placed, NoFaults, FirstFault;
    }
  }

  lemma GrantedSplits(visits: seq<Visit>, id: string, o: Order)
    requires visits != []
    ensures WasGranted(visits, id, o) <==>
            WasGranted(visits[..|visits| - 1], id, o) || Granted(visits[|visits| - 1], id, o)
  {
    hide Granted;
    assert visits == visits[..|visits| - 1] + [visits[|visits| - 1]];
  }

  /** In every run of requests and payment confirmations from a new service, the confirmed orders are
      exactly those of the requests that no step turned down, as they were asked for: no failed
      request is ever confirmed later and no confirmed order is ever lost or changed. */
  lemma {:induction false} ConfirmedIffGranted(visits: seq<Visit>, id: string, o: Order)
    requires FreshIDs(visits)
    ensures HasOrder(BooksAfter(visits), id, o) <==> WasGranted(visits, id, o)
  {
    hide FreshIDs, Visited, Granted;
    if visits == [] {
      assert !WasGranted([], id, o);
    } else {
      FreshPrefix(visits);
      ConfirmedIffGranted(visits[..|visits| - 1], id, o);
      OneVisit(BooksAfter(visits[..|visits| - 1]), visits[|visits| - 1], id, o);
      GrantedSplits(visits, id, o);
      hide WasGranted, HasOrder;
    }
  }

  /** In every such run what is charged and reserved for an id and not given back is exactly what the
      request that no step turned down asked for, or nothing if there is none; and only then are
      there events about it. */
  lemma OnlyConfirmedOrdersCount(visits: seq<Visit>, id: string, p: string)
    requires FreshIDs(visits)
    ensures var b := BooksAfter(visits);
            && (forall v, o :: v in visits && Granted(v, id, o) ==>
                  && NetCharged(b.requests, id) == Wrap64(Sum(LineAmounts(v.request.items)))
                  && NetReserved(b.requests, id, p) == Sum(LineQuantities(v.request.items, p))
                  && OrderCreated(id) in b.outbox)
            && ((forall v, o :: v in visits ==> !Granted(v, id, o)) ==>
                  && NetCharged(b.requests, id) == 0 && NetReserved(b.requests, id, p) == 0
                  && forall e :: e in b.outbox ==> e.orderID != id)
  {
    var b := BooksAfter(visits);
    BooksAlwaysBalance(visits);
    hide FreshIDs, BooksAfter, NetCharged, NetReserved, QuantityOf;
    forall v, o | v in visits && Granted(v, id, o)
      ensures HasOrder(b, id, o)
      ensures b.orders[id].total == Wrap64(Sum(LineAmounts(v.request.items)))
      ensures QuantityOf(b.orders[id].items, p) == Sum(LineQuantities(v.request.items, p))
    {
      ConfirmedIffGranted(visits, id, o);
      TotalIsSum(v.request.items, p);
    }
    if IsConfirmed(b.orders, id) {
      ConfirmedIffGranted(visits, id, b.orders[id]);
    }
  }
}

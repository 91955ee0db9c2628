/**
  The four order relations and the two transactions the repository runs on
  them. `orders` is keyed by order_uid, `delivery` by order_uid, `payment` by
  its own transaction id; `items` has no key and holds one row per item.

  A transaction is computed on a snapshot and its result replaces the
  relations only when every step succeeded. Step failures the database may
  report are inputs (`fault`); key conflicts are decided by the relations.
  Lookups compare the canonical text of a stored id with the text given.
 */
module OrderTables {
  import opened Common
  import opened Uuids
  import Rfc3339
  import opened Model
  import Seqs

  /** The columns of the `orders` relation: the header without delivery, payment or items. */
  datatype HeaderRow = HeaderRow(
    orderUid: Uuid, trackNumber: string, entry: string, locale: string,
    internalSignature: string, customerId: string, deliveryService: string,
    shardKey: string, smId: int, dateCreated: Rfc3339.DateTime, oofShard: string)

  datatype Tables = Tables(
    orders: seq<HeaderRow>, deliveries: seq<Delivery>, payments: seq<Payment>, items: seq<Item>)

  const EmptyTables := Tables([], [], [], [])

  function HeaderOf(o: Order): HeaderRow {
    HeaderRow(o.orderUid, o.trackNumber, o.entry, o.locale, o.internalSignature, o.customerId,
              o.deliveryService, o.shardKey, o.smId, o.dateCreated, o.oofShard)
  }

  /** The order a header row scans into, with the parts read separately filled in. */
  function Assemble(h: HeaderRow, d: Delivery, p: Payment, items: seq<Item>): Order {
    Order(h.orderUid, h.trackNumber, h.entry, d, p, items, h.locale, h.internalSignature,
          h.customerId, h.deliveryService, h.shardKey, h.smId, h.dateCreated, h.oofShard)
  }

  predicate HasOrder(t: Tables, uid: Uuid) {
    exists i :: 0 <= i < |t.orders| && t.orders[i].orderUid == uid
  }

  predicate HasDelivery(t: Tables, uid: Uuid) {
    exists i :: 0 <= i < |t.deliveries| && t.deliveries[i].orderUid == uid
  }

  predicate HasPayment(t: Tables, transaction: Uuid) {
    exists i :: 0 <= i < |t.payments| && t.payments[i].transaction == transaction
  }

  predicate HasItems(t: Tables, uid: Uuid) {
    exists i :: 0 <= i < |t.items| && t.items[i].orderUid == uid
  }

  /**
    The keys hold, every delivery and item row belongs to a stored header, and
    every stored header has its delivery row: no partial aggregate is visible.
   */
  predicate Inv(t: Tables) {
    && (forall i, j :: 0 <= i < j < |t.orders| ==> t.orders[i].orderUid != t.orders[j].orderUid)
    && (forall i, j :: 0 <= i < j < |t.deliveries| ==> t.deliveries[i].orderUid != t.deliveries[j].orderUid)
    && (forall i, j :: 0 <= i < j < |t.payments| ==> t.payments[i].transaction != t.payments[j].transaction)
    && (forall i :: 0 <= i < |t.deliveries| ==> HasOrder(t, t.deliveries[i].orderUid))
    && (forall i :: 0 <= i < |t.items| ==> HasOrder(t, t.items[i].orderUid))
    && (forall i :: 0 <= i < |t.orders| ==> HasDelivery(t, t.orders[i].orderUid))
  }

  // ---------------------------------------------------------------- Store

  /** The statements of `Store`, in the order they run. */
  datatype StoreStep = Begin | InsertHeader | InsertDelivery | InsertPayment | InsertItem(index: nat) | Commit

  datatype StoreOutcome = StoreOk | StoreError(error: Error) | StorePanic

  /** The fault hits an item insert that actually runs. */
  predicate ItemFault(fault: Option<StoreStep>, count: nat) {
    fault.Some? && fault.value.InsertItem? && fault.value.index < count
  }

  /** No step of storing an order with `count` items is made to fail. */
  predicate Harmless(fault: Option<StoreStep>, count: nat) {
    fault.None? || (fault.value.InsertItem? && fault.value.index >= count)
  }

  /** None of the order's keys is taken. */
  predicate Fresh(t: Tables, o: Order) {
    !HasOrder(t, o.orderUid) && !HasDelivery(t, o.orderUid) && !HasPayment(t, o.payment.transaction)
  }

  /** The rows a committed `Store(o)` adds: the header, the delivery and the items stamped with the order id. */
  function Inserted(t: Tables, o: Order): Tables {
    Tables(t.orders + [HeaderOf(o)],
           t.deliveries + [o.delivery.(orderUid := o.orderUid)],
           t.payments + [o.payment],
           t.items + Restamp(o.items, o.orderUid))
  }

  /**
    `Store(order)`: begin, insert header, delivery, payment and the items one
    by one, commit. The first failing step decides the error and the
    relations stay as they were. A nil order gets past `Begin` and then
    panics when its fields are read.
   */
  function Store(t: Tables, order: Option<Order>, fault: Option<StoreStep>): (r: (StoreOutcome, Tables))
    ensures r.0 != StoreOk ==> r.1 == t
    ensures r.0 == StoreOk <==> order.Some? && Fresh(t, order.value) && Harmless(fault, |order.value.items|)
    ensures r.0 == StoreOk ==> r.1 == Inserted(t, order.value)
    ensures r.0 == StorePanic <==> order.None? && fault != Some(Begin)
  {
    if fault == Some(Begin) then (StoreError(BeginTxFailed), t)
    else if order.None? then (StorePanic, t)
    else
      var o := order.value;
      if fault == Some(InsertHeader) || HasOrder(t, o.orderUid) then (StoreError(InsertOrderFailed), t)
      else if fault == Some(InsertDelivery) || HasDelivery(t, o.orderUid) then (StoreError(InsertDeliveryFailed), t)
      else if fault == Some(InsertPayment) || HasPayment(t, o.payment.transaction) then (StoreError(InsertPaymentFailed), t)
      else if ItemFault(fault, |o.items|) then (StoreError(InsertItemFailed), t)
      else if fault == Some(Commit) then (StoreError(CommitFailed), t)
      else (StoreOk, Inserted(t, o))
  }

  // ---------------------------------------------------------------- Get

  /** The statements of `Get`, in the order they run. */
  datatype GetStep = GetBegin | ReadHeader | ReadDelivery | ReadPayment | ReadItems | GetCommit

  /**
    The `WHERE` conditions of the four reads. The id is given as text and the
    stored ids are canonical texts, so a row matches exactly when its UUID is
    the `CanonicalKey` of the text (`Uuids.CanonicalKeyExact`).
   */
  function HeaderKey(uid: Uuid): HeaderRow -> bool {
    (h: HeaderRow) => h.orderUid == uid
  }

  function DeliveryKey(uid: Uuid): Delivery -> bool {
    (d: Delivery) => d.orderUid == uid
  }

  /** The payment is looked up by its transaction id, compared with the order id given. */
  function PaymentKey(uid: Uuid): Payment -> bool {
    (p: Payment) => p.transaction == uid
  }

  function ItemKey(uid: Uuid): Item -> bool {
    (it: Item) => it.orderUid == uid
  }

  function FindHeader(rows: seq<HeaderRow>, uid: Uuid): Option<HeaderRow> {
    Seqs.First(rows, HeaderKey(uid))
  }

  function FindDelivery(rows: seq<Delivery>, uid: Uuid): Option<Delivery> {
    Seqs.First(rows, DeliveryKey(uid))
  }

  function FindPayment(rows: seq<Payment>, uid: Uuid): Option<Payment> {
    Seqs.First(rows, PaymentKey(uid))
  }

  function ItemsOf(rows: seq<Item>, uid: Uuid): seq<Item> {
    Seqs.Filter(rows, ItemKey(uid))
  }

  /**
    `Get(orderUID)`: begin, read the header (no row is "order not found"),
    the delivery, the payment whose transaction equals the order id, the
    items, commit. `key` is `CanonicalKey(orderUID)`: a text that is not the
    canonical form of any UUID matches no row. Reading never changes the
    relations.
   */
  function Get(t: Tables, key: Option<Uuid>, fault: Option<GetStep>): (r: Result<Order>)
    ensures (fault.None? && (key.None? || FindHeader(t.orders, key.value).None?)) ==> r == Failure(OrderNotFound)
    ensures (fault.None? && key.Some? && FindHeader(t.orders, key.value).Some?
             && FindDelivery(t.deliveries, key.value).None?) ==> r == Failure(GetDeliveryFailed)
    ensures (fault.None? && key.Some? && FindHeader(t.orders, key.value).Some?
             && FindDelivery(t.deliveries, key.value).Some?
             && FindPayment(t.payments, key.value).None?) ==> r == Failure(GetPaymentFailed)
    ensures r.Success? ==>
      && key == Some(r.value.orderUid)
      && r.value.payment.transaction == r.value.orderUid
      && r.value.delivery.orderUid == r.value.orderUid
      && (forall i :: 0 <= i < |r.value.items| ==> r.value.items[i].orderUid == r.value.orderUid)
  {
    if fault == Some(GetBegin) then Failure(BeginTxFailed)
    else if fault == Some(ReadHeader) then Failure(GetOrderFailed)
    else if key.None? then Failure(OrderNotFound)
    else
      var uid := key.value;
      match FindHeader(t.orders, uid)
      case None => Failure(OrderNotFound)
      case Some(h) =>
        if fault == Some(ReadDelivery) then Failure(GetDeliveryFailed)
        else match FindDelivery(t.deliveries, uid)
          case None => Failure(GetDeliveryFailed)
          case Some(d) =>
            if fault == Some(ReadPayment) then Failure(GetPaymentFailed)
            else match FindPayment(t.payments, uid)
              case None => Failure(GetPaymentFailed)
              case Some(p) =>
                if fault == Some(ReadItems) then Failure(GetItemsFailed)
                else if fault == Some(GetCommit) then Failure(CommitFailed)
                else Success(Assemble(h, d, p, ItemsOf(t.items, uid)))
  }

  // ---------------------------------------------------------------- properties

  /** Every transaction keeps the keys, the row ownership and the absence of partial aggregates. */
  lemma StoreKeepsInv(t: Tables, order: Option<Order>, fault: Option<StoreStep>)
    requires Inv(t)
    ensures Inv(Store(t, order, fault).1)
  {
    if Store(t, order, fault).0 == StoreOk {
      InsertedKeepsInv(t, order.value);
    }
  }

  lemma InsertedKeepsInv(t: Tables, o: Order)
    requires Inv(t) && Fresh(t, o)
    ensures Inv(Inserted(t, o))
  {
    var n, uid := Inserted(t, o), o.orderUid;
    assert n.orders[|t.orders|].orderUid == uid;
    assert n.deliveries[|t.deliveries|].orderUid == uid;
    forall u | HasOrder(t, u) ensures HasOrder(n, u) {
      var i :| 0 <= i < |t.orders| && t.orders[i].orderUid == u;
      assert n.orders[i] == t.orders[i];
    }
    forall u | HasDelivery(t, u) ensures HasDelivery(n, u) {
      var i :| 0 <= i < |t.deliveries| && t.deliveries[i].orderUid == u;
      assert n.deliveries[i] == t.deliveries[i];
    }
    forall i | 0 <= i < |n.deliveries| ensures HasOrder(n, n.deliveries[i].orderUid) {
      if i < |t.deliveries| {
        assert n.deliveries[i] == t.deliveries[i];
      }
    }
    forall i | 0 <= i < |n.items| ensures HasOrder(n, n.items[i].orderUid) {
      if i < |t.items| {
        assert n.items[i] == t.items[i];
      } else {
        assert n.items[i].orderUid == uid;
      }
    }
    forall i | 0 <= i < |n.orders| ensures HasDelivery(n, n.orders[i].orderUid) {
      if i < |t.orders| {
        assert n.orders[i] == t.orders[i];
      }
    }
    forall i, j | 0 <= i < j < |n.orders| ensures n.orders[i].orderUid != n.orders[j].orderUid {
      if j == |t.orders| {
        assert n.orders[i] == t.orders[i];
      }
    }
    forall i, j | 0 <= i < j < |n.deliveries| ensures n.deliveries[i].orderUid != n.deliveries[j].orderUid {
      if j == |t.deliveries| {
        assert n.deliveries[i] == t.deliveries[i];
      }
    }
    forall i, j | 0 <= i < j < |n.payments| ensures n.payments[i].transaction != n.payments[j].transaction {
      if j == |t.payments| {
        assert n.payments[i] == t.payments[i];
      }
    }
  }

  /**
    A committed `Store` adds one header row, one delivery row, one payment
    row and one item row per item in sequence order, the delivery and the
    items carrying the order id, and keeps every row that was there.
   */
  lemma StoreAddsAggregate(t: Tables, o: Order, fault: Option<StoreStep>)
    requires Store(t, Some(o), fault).0 == StoreOk
    ensures var n := Store(t, Some(o), fault).1;
      && n.orders == t.orders + [HeaderOf(o)]
      && n.deliveries == t.deliveries + [o.delivery.(orderUid := o.orderUid)]
      && n.payments == t.payments + [o.payment]
      && |n.items| == |t.items| + |o.items| && n.items[..|t.items|] == t.items
      && (forall k :: 0 <= k < |o.items| ==> n.items[|t.items| + k] == o.items[k].(orderUid := o.orderUid))
  {
    var n := Store(t, Some(o), fault).1;
    assert n.items[..|t.items|] == t.items;
  }

  /** A failed `Store` of a new order leaves no header, delivery or item row for its id. */
  lemma FailedStoreLeavesNoRows(t: Tables, o: Order, fault: Option<StoreStep>)
    requires Inv(t) && !HasOrder(t, o.orderUid)
    requires Store(t, Some(o), fault).0 != StoreOk
    ensures var n := Store(t, Some(o), fault).1;
      !HasOrder(n, o.orderUid) && !HasDelivery(n, o.orderUid) && !HasItems(n, o.orderUid)
  {
  }

  /** Storing an order whose id is already stored fails and adds no row, items included. */
  lemma ReplayFails(t: Tables, o: Order, fault: Option<StoreStep>)
    requires HasOrder(t, o.orderUid)
    ensures Store(t, Some(o), fault)
         == (if fault == Some(Begin) then StoreError(BeginTxFailed) else StoreError(InsertOrderFailed), t)
  {
  }

  /** The header, delivery and items of a freshly stored order are the only rows its id finds. */
  lemma FreshRowsFound(t: Tables, o: Order)
    requires Inv(t) && Fresh(t, o)
    ensures var n, uid := Inserted(t, o), o.orderUid;
      && FindHeader(n.orders, uid) == Some(HeaderOf(o))
      && FindDelivery(n.deliveries, uid) == Some(o.delivery.(orderUid := uid))
      && ItemsOf(n.items, uid) == Restamp(o.items, uid)
  {
    var uid := o.orderUid;
    Seqs.FirstAppend(t.orders, [HeaderOf(o)], HeaderKey(uid));
    Seqs.FirstAppend(t.deliveries, [o.delivery.(orderUid := uid)], DeliveryKey(uid));
    forall i | 0 <= i < |t.items| ensures !ItemKey(uid)(t.items[i]) {
      assert HasOrder(t, t.items[i].orderUid);
    }
    Seqs.FilterAppend(t.items, Restamp(o.items, uid), ItemKey(uid));
    Seqs.FilterNone(t.items, ItemKey(uid));
    Seqs.FilterAll(Restamp(o.items, uid), ItemKey(uid));
  }

  /** When all four reads find their rows and no step fails, `Get` assembles them. */
  lemma GetFound(t: Tables, uid: Uuid, h: HeaderRow, d: Delivery, p: Payment)
    requires FindHeader(t.orders, uid) == Some(h) && FindDelivery(t.deliveries, uid) == Some(d)
    requires FindPayment(t.payments, uid) == Some(p)
    ensures Get(t, Some(uid), None) == Success(Assemble(h, d, p, ItemsOf(t.items, uid)))
  {
  }

  /**
    An order stored with `Payment.Transaction == OrderUID` is read back by
    its id with its delivery and items stamped with that id.
   */
  lemma StoreThenGet(t: Tables, o: Order)
    requires Inv(t) && Store(t, Some(o), None).0 == StoreOk
    requires o.payment.transaction == o.orderUid
    ensures Get(Store(t, Some(o), None).1, Some(o.orderUid), None) == Success(Stamped(o))
  {
    var n := Inserted(t, o);
    FreshRowsFound(t, o);
    Seqs.FirstAppend(t.payments, [o.payment], PaymentKey(o.orderUid));
    var h, d := HeaderOf(o), o.delivery.(orderUid := o.orderUid);
    GetFound(n, o.orderUid, h, d, o.payment);
    assert Assemble(h, d, o.payment, Restamp(o.items, o.orderUid)) == Stamped(o);
  }

  /**
    Because the payment is read by `transaction = orderUID`, an order stored
    with a different transaction id cannot be read back: `Get` reports the
    payment as missing.
   */
  lemma StoreThenGetOtherTransaction(t: Tables, o: Order)
    requires Inv(t) && Store(t, Some(o), None).0 == StoreOk
    requires o.payment.transaction != o.orderUid && !HasPayment(t, o.orderUid)
    ensures Get(Store(t, Some(o), None).1, Some(o.orderUid), None) == Failure(GetPaymentFailed)
  {
    FreshRowsFound(t, o);
    Seqs.FirstAppend(t.payments, [o.payment], PaymentKey(o.orderUid));
  }
}

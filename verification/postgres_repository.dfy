/**
  The PostgreSQL repository: one object holding the staging table and the
  four order relations, with the three inbox statements, `Store` and `Get`.
  Each method is proved against the function in `Inbox` or `OrderTables`
  that says what its statements do to the tables.
 */
module Postgres {
  import opened Common
  import opened Uuids
  import opened Model
  import opened Wire
  import opened Inbox
  import opened OrderTables

  class Repository {
    var inbox: seq<InboxRow>
    var orders: seq<HeaderRow>
    var deliveries: seq<Delivery>
    var payments: seq<Payment>
    var items: seq<Item>

    /** A database whose tables are all empty. */
    constructor()
      ensures inbox == [] && Relations() == EmptyTables
    {
      inbox, orders, deliveries, payments, items := [], [], [], [], [];
    }

    /** The four order relations as one value. */
    function Relations(): Tables
      reads this
    {
      Tables(orders, deliveries, payments, items)
    }

    /** `SaveInboxMessage`: one INSERT that does nothing when the message id is already there. */
    method SaveInboxMessage(messageId: string, topic: string, payload: Payload, now: int, fails: bool)
      returns (err: Option<Error>)
      modifies this
      ensures fails ==> err == Some(InboxWriteFailed) && inbox == old(inbox)
      ensures !fails ==> err == None && inbox == Saved(old(inbox), messageId, topic, payload, now)
      ensures Relations() == old(Relations())
    {
      if fails {
        return Some(InboxWriteFailed);
      }
      inbox := Saved(inbox, messageId, topic, payload, now);
      return None;
    }

    /**
      `FetchUnprocessedInboxMessages`: the query selects the rows, the loop
      copies each row's id, topic and payload into the result in query order.
     */
    method FetchUnprocessedInboxMessages(limit: int, fails: bool) returns (r: Result<seq<InboxMessage>>)
      ensures fails ==> r == Failure(InboxFetchFailed)
      ensures !fails ==> r == Fetched(inbox, limit)
    {
      if fails || limit < 0 {
        return Failure(InboxFetchFailed);
      }
      var rows := Selected(inbox, limit);
      var msgs: seq<InboxMessage> := [];
      var i := 0;
      while i < |rows|
        invariant 0 <= i <= |rows|
        invariant msgs == Messages(rows)[..i]
      {
        msgs := msgs + [MessageOf(rows[i])];
        i := i + 1;
      }
      assert Messages(rows)[..i] == Messages(rows);
      return Success(msgs);
    }

    /** `MarkInboxMessageProcessed`: one UPDATE of the rows with that id. */
    method MarkInboxMessageProcessed(messageId: string, fails: bool) returns (err: Option<Error>)
      modifies this
      ensures fails ==> err == Some(InboxMarkFailed) && inbox == old(inbox)
      ensures !fails ==> err == None && inbox == Marked(old(inbox), messageId)
      ensures Relations() == old(Relations())
    {
      if fails {
        return Some(InboxMarkFailed);
      }
      inbox := Marked(inbox, messageId);
      return None;
    }

    /**
      `Store`: the inserts run against working copies of the relations, the
      items one by one in sequence order; the copies replace the relations
      only at the commit, so a failing step leaves them as they were.
     */
    method Store(order: Option<Order>, fault: Option<StoreStep>) returns (outcome: StoreOutcome)
      modifies this
      ensures (outcome, Relations()) == OrderTables.Store(old(Relations()), order, fault)
      ensures inbox == old(inbox)
    {
      if fault == Some(Begin) {
        return StoreError(BeginTxFailed);
      }
      if order.None? {
        return StorePanic;
      }
      var o := order.value;
      var t := Relations();
      if fault == Some(InsertHeader) || HasOrder(t, o.orderUid) {
        return StoreError(InsertOrderFailed);
      }
      var txOrders := orders + [HeaderOf(o)];
      var delivery := o.delivery.(orderUid := o.orderUid);
      if fault == Some(InsertDelivery) || HasDelivery(t, o.orderUid) {
        return StoreError(InsertDeliveryFailed);
      }
      var txDeliveries := deliveries + [delivery];
      if fault == Some(InsertPayment) || HasPayment(t, o.payment.transaction) {
        return StoreError(InsertPaymentFailed);
      }
      var txPayments := payments + [o.payment];
      var txItems := items;
      var i := 0;
      while i < |o.items|
        invariant 0 <= i <= |o.items|
        invariant txItems == items + Restamp(o.items, o.orderUid)[..i]
        invariant forall k :: 0 <= k < i ==> fault != Some(InsertItem(k))
      {
        if fault == Some(InsertItem(i)) {
          return StoreError(InsertItemFailed);
        }
        txItems := txItems + [o.items[i].(orderUid := o.orderUid)];
        i := i + 1;
      }
      assert Restamp(o.items, o.orderUid)[..i] == Restamp(o.items, o.orderUid);
      if fault == Some(Commit) {
        return StoreError(CommitFailed);
      }
      orders, deliveries, payments, items := txOrders, txDeliveries, txPayments, txItems;
      return StoreOk;
    }

    /**
      `Get`: the header, then the delivery, the payment and the items, each
      read filling in its part of the order; the first failing read decides
      the error. Nothing is written.
     */
    method Get(orderUid: string, fault: Option<GetStep>) returns (r: Result<Order>)
      ensures r == OrderTables.Get(Relations(), CanonicalKey(orderUid), fault)
    {
      if fault == Some(GetBegin) {
        return Failure(BeginTxFailed);
      }
      if fault == Some(ReadHeader) {
        return Failure(GetOrderFailed);
      }
      var key := CanonicalKey(orderUid);
      if key.None? {
        return Failure(OrderNotFound);
      }
      var header := FindHeader(orders, key.value);
      if header.None? {
        return Failure(OrderNotFound);
      }
      var order := Assemble(header.value, ZeroDelivery, ZeroPayment, []);
      if fault == Some(ReadDelivery) {
        return Failure(GetDeliveryFailed);
      }
      var delivery := FindDelivery(deliveries, key.value);
      if delivery.None? {
        return Failure(GetDeliveryFailed);
      }
      order := order.(delivery := delivery.value);
      if fault == Some(ReadPayment) {
        return Failure(GetPaymentFailed);
      }
      var payment := FindPayment(payments, key.value);
      if payment.None? {
        return Failure(GetPaymentFailed);
      }
      order := order.(payment := payment.value);
      if fault == Some(ReadItems) {
        return Failure(GetItemsFailed);
      }
      order := order.(items := ItemsOf(items, key.value));
      if fault == Some(GetCommit) {
        return Failure(CommitFailed);
      }
      return Success(order);
    }
  }
}

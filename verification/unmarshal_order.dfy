/**
  `UnmarshalOrder`: JSON text to the order aggregate. The text is read into
  the wire record, then the order id, the payment's transaction id and the
  creation date are validated in that order; the first that fails decides the
  error. On success every delivery and item row is stamped with the order id.
 */
module Unmarshal {
  import opened Common
  import Uuids
  import Rfc3339
  import opened Model
  import opened Wire
  import opened WireAgreement

  function DecodeItem(w: WireItem, uid: Uuids.Uuid): Item {
    Item(uid, w.chrtId, w.trackNumber, w.price, w.rid, w.name, w.sale, w.size,
         w.totalPrice, w.nmId, w.brand, w.status)
  }

  /** The items in wire order, each stamped with the order id. */
  function DecodeItems(ws: seq<WireItem>, uid: Uuids.Uuid): (items: seq<Item>)
    ensures |items| == |ws|
    ensures forall i :: 0 <= i < |ws| ==> ItemAgrees(ws[i], items[i]) && items[i].orderUid == uid
  {
    seq(|ws|, i requires 0 <= i < |ws| => DecodeItem(ws[i], uid))
  }

  /** The order built from a wire record once its three checked fields have been parsed. */
  function Assemble(w: WireOrder, uid: Uuids.Uuid, transaction: Uuids.Uuid, created: Rfc3339.DateTime, items: seq<Item>): Order {
    var d := w.delivery;
    var p := w.payment;
    Order(
      uid, w.trackNumber, w.entry,
      Delivery(uid, d.name, d.phone, d.zip, d.city, d.address, d.region, d.email),
      Payment(transaction, p.requestId, p.currency, p.provider, p.amount,
              Instant(p.paymentDt, 0), p.bank, p.deliveryCost, p.goodsTotal, p.customFee),
      items,
      w.locale, w.internalSignature, w.customerId, w.deliveryService, w.shardKey,
      w.smId, created, w.oofShard)
  }

  /** Whether all three checked fields of a wire record parse. */
  predicate Accepted(w: WireOrder) {
    && Uuids.Parse(w.orderUid).Some?
    && Uuids.Parse(w.payment.transaction).Some?
    && Rfc3339.Parse(w.dateCreated).Some?
  }

  /** The decoding `UnmarshalOrder` performs, as one expression. */
  function Decode(data: Payload): (r: Result<Order>)
    // the checks run in a fixed order and the first failure is the one reported
    ensures data.Malformed? ==> r == Failure(JsonUnmarshal)
    ensures data.Document? && Uuids.Parse(data.record.orderUid).None? ==> r == Failure(InvalidOrderUid)
    ensures (data.Document? && Uuids.Parse(data.record.orderUid).Some?
             && Uuids.Parse(data.record.payment.transaction).None?) ==> r == Failure(InvalidPaymentTransaction)
    ensures (data.Document? && Uuids.Parse(data.record.orderUid).Some?
             && Uuids.Parse(data.record.payment.transaction).Some?
             && Rfc3339.Parse(data.record.dateCreated).None?) ==> r == Failure(InvalidDateCreated)
    ensures r.Success? <==> data.Document? && Accepted(data.record)
    // on success: the parsed ids and date, the payment time as whole Unix seconds,
    // every other field verbatim, and every row stamped with the order id
    ensures r.Success? ==>
      var w, o := data.record, r.value;
      && Uuids.Parse(w.orderUid) == Some(o.orderUid)
      && Uuids.Parse(w.payment.transaction) == Some(o.payment.transaction)
      && Rfc3339.Parse(w.dateCreated) == Some(o.dateCreated)
      && o.payment.paymentDt == Instant(w.payment.paymentDt, 0)
      && VerbatimAgrees(w, o)
      && o.delivery.orderUid == o.orderUid
      && (forall i :: 0 <= i < |o.items| ==> o.items[i].orderUid == o.orderUid)
  {
    match data
    case Malformed(_) => Failure(JsonUnmarshal)
    case Document(w) =>
      match Uuids.Parse(w.orderUid)
      case None => Failure(InvalidOrderUid)
      case Some(uid) =>
        match Uuids.Parse(w.payment.transaction)
        case None => Failure(InvalidPaymentTransaction)
        case Some(transaction) =>
          match Rfc3339.Parse(w.dateCreated)
          case None => Failure(InvalidDateCreated)
          case Some(created) =>
            Success(Assemble(w, uid, transaction, created, DecodeItems(w.items, uid)))
  }

  /** `UnmarshalOrder`, with the items appended one by one as the source's loop does. */
  method UnmarshalOrder(data: Payload) returns (r: Result<Order>)
    ensures r == Decode(data)
  {
    if data.Malformed? {
      return Failure(JsonUnmarshal);
    }
    var w := data.record;
    var uid := Uuids.Parse(w.orderUid);
    if uid.None? {
      return Failure(InvalidOrderUid);
    }
    var transaction := Uuids.Parse(w.payment.transaction);
    if transaction.None? {
      return Failure(InvalidPaymentTransaction);
    }
    var created := Rfc3339.Parse(w.dateCreated);
    if created.None? {
      return Failure(InvalidDateCreated);
    }
    var items := AppendItems(w.items, uid.value);
    DecodeParsed(w, uid.value, transaction.value, created.value);
    r := Success(Assemble(w, uid.value, transaction.value, created.value, items));
  }

  /** The item loop of `UnmarshalOrder`: each wire item appended in order, stamped with the order id. */
  method AppendItems(ws: seq<WireItem>, uid: Uuids.Uuid) returns (items: seq<Item>)
    ensures items == DecodeItems(ws, uid)
  {
    items := [];
    var i := 0;
    while i < |ws|
      invariant 0 <= i <= |ws|
      invariant items == DecodeItems(ws, uid)[..i]
    {
      items := items + [DecodeItem(ws[i], uid)];
      i := i + 1;
    }
    assert DecodeItems(ws, uid)[..i] == DecodeItems(ws, uid);
  }

  /** Once the ids and the date parse, `Decode` assembles the order from them. */
  lemma DecodeParsed(w: WireOrder, uid: Uuids.Uuid, transaction: Uuids.Uuid, created: Rfc3339.DateTime)
    requires Uuids.Parse(w.orderUid) == Some(uid) && Uuids.Parse(w.payment.transaction) == Some(transaction)
    requires Rfc3339.Parse(w.dateCreated) == Some(created)
    ensures Decode(Document(w)) == Success(Assemble(w, uid, transaction, created, DecodeItems(w.items, uid)))
  {
  }
}

/**
  The JSON shape of an order event (the `Alias` / `aux` structs of the codec):
  identifiers and the creation date as text, the payment time as Unix seconds,
  and no per-row order_uid in the delivery or the items.

  `Payload` stands for the JSON text itself: either a document that
  `encoding/json` reads into the wire record, or text it rejects.
 */
module Wire {

  datatype WireDelivery = WireDelivery(
    name: string, phone: string, zip: string, city: string,
    address: string, region: string, email: string)

  datatype WirePayment = WirePayment(
    transaction: string,
    requestId: string, currency: string, provider: string,
    amount: int, paymentDt: int, bank: string,
    deliveryCost: int, goodsTotal: int, customFee: int)

  datatype WireItem = WireItem(
    chrtId: int, trackNumber: string, price: int, rid: string, name: string,
    sale: int, size: string, totalPrice: int, nmId: int, brand: string, status: int)

  datatype WireOrder = WireOrder(
    orderUid: string,
    trackNumber: string, entry: string,
    delivery: WireDelivery, payment: WirePayment, items: seq<WireItem>,
    locale: string, internalSignature: string, customerId: string,
    deliveryService: string, shardKey: string, smId: int,
    dateCreated: string, oofShard: string)

  datatype Payload = Document(record: WireOrder) | Malformed(text: string)
}

/** How a wire record and an order agree field by field, whichever way the codec runs. */
module WireAgreement {
  import opened Model
  import opened Wire

  /** Every item field the wire carries is equal; the item's own order_uid is not on the wire. */
  predicate ItemAgrees(w: WireItem, it: Item) {
    && w.chrtId == it.chrtId && w.trackNumber == it.trackNumber && w.price == it.price
    && w.rid == it.rid && w.name == it.name && w.sale == it.sale && w.size == it.size
    && w.totalPrice == it.totalPrice && w.nmId == it.nmId && w.brand == it.brand
    && w.status == it.status
  }

  predicate DeliveryAgrees(w: WireDelivery, d: Delivery) {
    && w.name == d.name && w.phone == d.phone && w.zip == d.zip && w.city == d.city
    && w.address == d.address && w.region == d.region && w.email == d.email
  }

  /** The payment fields copied as they are (not the transaction id, not the time). */
  predicate PaymentAgrees(w: WirePayment, p: Payment) {
    && w.requestId == p.requestId && w.currency == p.currency && w.provider == p.provider
    && w.amount == p.amount && w.bank == p.bank && w.deliveryCost == p.deliveryCost
    && w.goodsTotal == p.goodsTotal && w.customFee == p.customFee
  }

  /** The header fields copied as they are (not the order id, not the creation date). */
  predicate HeaderAgrees(w: WireOrder, o: Order) {
    && w.trackNumber == o.trackNumber && w.entry == o.entry && w.locale == o.locale
    && w.internalSignature == o.internalSignature && w.customerId == o.customerId
    && w.deliveryService == o.deliveryService && w.shardKey == o.shardKey
    && w.smId == o.smId && w.oofShard == o.oofShard
  }

  /** All the fields that travel verbatim, items position by position. */
  predicate VerbatimAgrees(w: WireOrder, o: Order) {
    && HeaderAgrees(w, o)
    && DeliveryAgrees(w.delivery, o.delivery)
    && PaymentAgrees(w.payment, o.payment)
    && |w.items| == |o.items|
    && (forall i :: 0 <= i < |w.items| ==> ItemAgrees(w.items[i], o.items[i]))
  }
}

/**
  The order aggregate of the domain model: the `Order` header with exactly one
  `Delivery`, one `Payment` and an ordered sequence of `Item`s.
 */
module Model {
  import opened Uuids
  import opened Rfc3339

  /** A `time.Time` read as an instant: Unix seconds and the nanoseconds within that second. */
  datatype Instant = Instant(unixSeconds: int, nanos: nat)

  /** The zero `time.Time`, 0001-01-01T00:00:00Z. */
  const ZeroInstant := Instant(-62135596800, 0)
  const ZeroDateTime := DateTime(1, 1, 1, 0, 0, 0, 0, 0)

  datatype Delivery = Delivery(
    orderUid: Uuid,
    name: string, phone: string, zip: string, city: string,
    address: string, region: string, email: string)

  datatype Payment = Payment(
    transaction: Uuid,
    requestId: string, currency: string, provider: string,
    amount: int, paymentDt: Instant, bank: string,
    deliveryCost: int, goodsTotal: int, customFee: int)

  /** `Sale` is an integer here, as both codecs treat it. */
  datatype Item = Item(
    orderUid: Uuid,
    chrtId: int, trackNumber: string, price: int, rid: string, name: string,
    sale: int, size: string, totalPrice: int, nmId: int, brand: string, status: int)

  datatype Order = Order(
    orderUid: Uuid,
    trackNumber: string, entry: string,
    delivery: Delivery, payment: Payment, items: seq<Item>,
    locale: string, internalSignature: string, customerId: string,
    deliveryService: string, shardKey: string, smId: int,
    dateCreated: DateTime, oofShard: string)

  const ZeroDelivery := Delivery(Nil, "", "", "", "", "", "", "")
  const ZeroPayment := Payment(Nil, "", "", "", 0, ZeroInstant, "", 0, 0, 0)

  /** The items with every row's order_uid set to `uid`. */
  function Restamp(items: seq<Item>, uid: Uuid): (r: seq<Item>)
    ensures |r| == |items|
    ensures forall i :: 0 <= i < |r| ==> r[i] == items[i].(orderUid := uid)
  {
    seq(|items|, i requires 0 <= i < |items| => items[i].(orderUid := uid))
  }

  /** The order with its delivery row and item rows carrying its own id, as decoding and storing leave it. */
  function Stamped(o: Order): Order {
    o.(delivery := o.delivery.(orderUid := o.orderUid), items := Restamp(o.items, o.orderUid))
  }
}

/**
  `MarshalOrder`: the order aggregate to JSON text. The order id and the
  transaction id are written as canonical UUID text, the creation date in the
  RFC 3339 layout, the payment time as whole Unix seconds; the per-row
  order_uid of the delivery and of the items is not written.

  The round trip with `Unmarshal.Decode` is proved here.
 */
module Marshal {
  import opened Common
  import Uuids
  import Rfc3339
  import opened Model
  import opened Wire
  import opened WireAgreement
  import Unmarshal

  function EncodeItem(it: Item): WireItem {
    WireItem(it.chrtId, it.trackNumber, it.price, it.rid, it.name, it.sale, it.size,
             it.totalPrice, it.nmId, it.brand, it.status)
  }

  function EncodeItems(items: seq<Item>): (ws: seq<WireItem>)
    ensures |ws| == |items|
    ensures forall i :: 0 <= i < |items| ==> ItemAgrees(ws[i], items[i])
  {
    seq(|items|, i requires 0 <= i < |items| => EncodeItem(items[i]))
  }

  function EncodeHeader(o: Order): WireOrder {
    WireOrder(
      Uuids.Format(o.orderUid), o.trackNumber, o.entry,
      WireDelivery("", "", "", "", "", "", ""),
      WirePayment("", "", "", "", 0, 0, "", 0, 0, 0),
      [],
      o.locale, o.internalSignature, o.customerId, o.deliveryService, o.shardKey,
      o.smId, Rfc3339.Format(o.dateCreated), o.oofShard)
  }

  function EncodeDelivery(d: Delivery): WireDelivery {
    WireDelivery(d.name, d.phone, d.zip, d.city, d.address, d.region, d.email)
  }

  function EncodePayment(p: Payment): WirePayment {
    WirePayment(Uuids.Format(p.transaction), p.requestId, p.currency, p.provider, p.amount,
                p.paymentDt.unixSeconds, p.bank, p.deliveryCost, p.goodsTotal, p.customFee)
  }

  /** The wire record `MarshalOrder` fills in, as one expression. */
  function Encode(o: Order): (w: WireOrder)
    ensures w.orderUid == Uuids.Format(o.orderUid)
    ensures w.payment.transaction == Uuids.Format(o.payment.transaction)
    ensures w.dateCreated == Rfc3339.Format(o.dateCreated)
    ensures w.payment.paymentDt == o.payment.paymentDt.unixSeconds
    ensures VerbatimAgrees(w, o)
  {
    EncodeHeader(o).(delivery := EncodeDelivery(o.delivery),
                     payment := EncodePayment(o.payment),
                     items := EncodeItems(o.items))
  }

  /**
    `MarshalOrder`: the header as one literal, delivery and payment field by
    field, then the items appended in order. `json.Marshal` of this record
    cannot fail, so neither can the method.
   */
  method MarshalOrder(o: Order) returns (data: Payload)
    ensures data == Document(Encode(o))
  {
    var aux := EncodeHeader(o);
    aux := aux.(delivery := aux.delivery.(name := o.delivery.name, phone := o.delivery.phone,
                                          zip := o.delivery.zip, city := o.delivery.city,
                                          address := o.delivery.address, region := o.delivery.region,
                                          email := o.delivery.email));
    aux := aux.(payment := aux.payment.(transaction := Uuids.Format(o.payment.transaction),
                                        requestId := o.payment.requestId, currency := o.payment.currency,
                                        provider := o.payment.provider, amount := o.payment.amount,
                                        paymentDt := o.payment.paymentDt.unixSeconds, bank := o.payment.bank,
                                        deliveryCost := o.payment.deliveryCost,
                                        goodsTotal := o.payment.goodsTotal, customFee := o.payment.customFee));
    var items := AppendEncodedItems(o.items);
    aux := aux.(items := items);
    data := Document(aux);
  }

  /** The item loop of `MarshalOrder`: each item appended in order. */
  method AppendEncodedItems(items: seq<Item>) returns (ws: seq<WireItem>)
    ensures ws == EncodeItems(items)
  {
    ws := [];
    var i := 0;
    while i < |items|
      invariant 0 <= i <= |items|
      invariant ws == EncodeItems(items)[..i]
    {
      ws := ws + [EncodeItem(items[i])];
      i := i + 1;
    }
    assert EncodeItems(items)[..i] == EncodeItems(items);
  }

  /**
    What survives a trip through the wire: sub-second parts are dropped from
    both times, and the delivery and item rows carry the order id.
   */
  function Canonicalize(o: Order): Order {
    Stamped(o).(dateCreated := o.dateCreated.(nanosecond := 0),
                payment := o.payment.(paymentDt := Instant(o.payment.paymentDt.unixSeconds, 0)))
  }

  /** An order the wire represents exactly. */
  predicate Canonical(o: Order) {
    && Rfc3339.Valid(o.dateCreated)
    && Rfc3339.WholeSecond(o.dateCreated)
    && o.payment.paymentDt.nanos == 0
    && o.delivery.orderUid == o.orderUid
    && (forall i :: 0 <= i < |o.items| ==> o.items[i].orderUid == o.orderUid)
  }

  /** Encoding then decoding any order whose date the layout can spell gives its canonical form. */
  lemma DecodeEncode(o: Order)
    requires Rfc3339.Valid(o.dateCreated)
    ensures Unmarshal.Decode(Document(Encode(o))) == Success(Canonicalize(o))
  {
    var w := Encode(o);
    var t := o.dateCreated.(nanosecond := 0);
    EncodedFieldsParse(o);
    assert Unmarshal.Decode(Document(w))
        == Success(Unmarshal.Assemble(w, o.orderUid, o.payment.transaction, t,
                                      Unmarshal.DecodeItems(w.items, o.orderUid)));
    DecodeEncodedItems(o.items, o.orderUid);
  }

  lemma EncodedFieldsParse(o: Order)
    requires Rfc3339.Valid(o.dateCreated)
    ensures Uuids.Parse(Encode(o).orderUid) == Some(o.orderUid)
    ensures Uuids.Parse(Encode(o).payment.transaction) == Some(o.payment.transaction)
    ensures Rfc3339.Parse(Encode(o).dateCreated) == Some(o.dateCreated.(nanosecond := 0))
  {
    Uuids.ParseFormat(o.orderUid);
    Uuids.ParseFormat(o.payment.transaction);
    Rfc3339.ParseFormatTruncates(o.dateCreated);
  }

  lemma DecodeEncodedItems(items: seq<Item>, uid: Uuids.Uuid)
    ensures Unmarshal.DecodeItems(EncodeItems(items), uid) == Restamp(items, uid)
  {
  }

  /**
    The round trip of the codec: an order with whole-second times whose
    delivery and items carry its own id is decoded back exactly, with any
    number of items.
   */
  lemma RoundTrip(o: Order)
    requires Canonical(o)
    ensures Unmarshal.Decode(Document(Encode(o))) == Success(o)
  {
    DecodeEncode(o);
    assert Restamp(o.items, o.orderUid) == o.items;
    assert Canonicalize(o).dateCreated == o.dateCreated;
    assert Canonicalize(o).payment == o.payment;
    assert Canonicalize(o).delivery == o.delivery;
  }

  /**
    The other direction: re-encoding a decoded record reproduces it except
    that the two ids and the creation date come out in their canonical text.
   */
  lemma EncodeDecode(w: WireOrder)
    requires Unmarshal.Accepted(w)
    ensures var o := Unmarshal.Decode(Document(w)).value;
      Encode(o) == w.(orderUid := Uuids.Format(o.orderUid),
                      payment := w.payment.(transaction := Uuids.Format(o.payment.transaction)),
                      dateCreated := Rfc3339.Format(o.dateCreated))
  {
    var o := Unmarshal.Decode(Document(w)).value;
    assert Encode(o).items == w.items;
  }

  /** The per-row order ids are not written, so restamping them changes nothing on the wire. */
  lemma EncodeIgnoresRowUids(o: Order, u: Uuids.Uuid)
    ensures Encode(o.(delivery := o.delivery.(orderUid := u), items := Restamp(o.items, u))) == Encode(o)
  {
    var o' := o.(delivery := o.delivery.(orderUid := u), items := Restamp(o.items, u));
    assert EncodeItems(o'.items) == EncodeItems(o.items);
  }
}

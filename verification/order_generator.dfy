/**
  The test-data generator: `generateOrder` builds one order event as the
  JSON record the service reads, and `randomDigits` a run of decimal digits.

  Every `rand.Intn(n)` draw is an input in `[0, n)`, listed in `Draws` in
  the order the generator makes them; the two fresh UUIDs and the two clock
  readings are inputs too.
 */
module OrderGenerator {
  import opened Common
  import opened Wire
  import opened Decimal
  import Uuids
  import Rfc3339
  import Model
  import OrderTables
  import Unmarshal

  const ProductNames: seq<string> := ["Mascaras", "Laptop", "Phone", "Headphones", "Keyboard", "Monitor", "Watch"]
  const Brands: seq<string> := ["Vivienne Sabo", "BrandX", "BrandY", "Acme"]
  const Banks: seq<string> := ["alpha", "bankA", "bankB"]
  const Cities: seq<string> := ["Kiryat Mozkin", "Tel Aviv", "Haifa", "Jerusalem"]

  /** The `rand.Intn` draws of one `generateOrder` call. */
  datatype Draws = Draws(
    trackDigits: seq<nat>, price: nat, chrtId: nat, productName: nat, sale: nat,
    nmId: nat, brand: nat, status: nat, bank: nat,
    phoneDigits: seq<nat>, zipDigits: seq<nat>, city: nat, house: nat, emailDigits: seq<nat>,
    customerDigits: seq<nat>, shard: nat, smId: nat)

  /** `n` draws of `rand.Intn(10)`. */
  predicate DigitDraws(ds: seq<nat>, n: nat) {
    |ds| == n && forall i :: 0 <= i < |ds| ==> ds[i] < 10
  }

  /** Each draw lies in the range its `rand.Intn` call allows. */
  predicate InRange(d: Draws) {
    && DigitDraws(d.trackDigits, 6) && d.price < 900 && d.chrtId < 9_999_999
    && d.productName < |ProductNames| && d.sale < 50 && d.nmId < 9_999_999
    && d.brand < |Brands| && d.status < 10 && d.bank < |Banks|
    && DigitDraws(d.phoneDigits, 7) && DigitDraws(d.zipDigits, 7) && d.city < |Cities|
    && d.house < 100 && DigitDraws(d.emailDigits, 3) && DigitDraws(d.customerDigits, 3)
    && d.shard < 10 && d.smId < 200
  }

  /** `randomDigits`: fill a byte buffer with one digit per draw. */
  method RandomDigits(draws: seq<nat>) returns (s: string)
    requires forall i :: 0 <= i < |draws| ==> draws[i] < 10
    ensures |s| == |draws| && AllDigits(s)
    ensures forall i :: 0 <= i < |draws| ==> s[i] == DigitChar(draws[i])
  {
    var b := new char[|draws|];
    var i := 0;
    while i < |draws|
      invariant 0 <= i <= |draws|
      invariant forall k :: 0 <= k < i ==> b[k] == DigitChar(draws[k])
    {
      b[i] := DigitChar(draws[i]);
      i := i + 1;
    }
    s := b[..];
  }

  /** The shape of a generated track number: "WBILM", six digits, "TRACK". */
  predicate TrackShape(t: string) {
    |t| == 16 && t[..5] == "WBILM" && AllDigits(t[5..11]) && t[11..] == "TRACK"
  }

  /**
    `generateOrder`. `paidAt` is the clock read for the payment time, `now`
    the clock read for the creation date, taken in UTC (`time.Now().UTC()`),
    so its offset is zero and the creation date ends in "Z".
   */
  method GenerateOrder(orderUid: Uuids.Uuid, rid: Uuids.Uuid, paidAt: int, now: Rfc3339.DateTime, d: Draws)
    returns (w: WireOrder)
    requires InRange(d)
    requires now.offsetMinutes == 0
    ensures |w.items| == 1
    ensures w.orderUid == Uuids.Format(orderUid) && w.payment.transaction == w.orderUid
    ensures 100 <= w.items[0].price <= 999 && w.items[0].totalPrice == w.items[0].price
    ensures w.payment.amount == w.items[0].totalPrice && w.payment.goodsTotal == w.items[0].totalPrice
    ensures w.payment.deliveryCost == 1500 && w.payment.customFee == 0
    ensures TrackShape(w.trackNumber) && w.items[0].trackNumber == w.trackNumber
    ensures 0 <= w.items[0].sale < 50 && 200 <= w.items[0].status < 210 && 0 <= w.smId < 200
    ensures w.payment.paymentDt == paidAt && w.dateCreated == Rfc3339.Format(now)
    ensures w.dateCreated[|w.dateCreated| - 1] == 'Z'
  {
    var digits := RandomDigits(d.trackDigits);
    var track := "WBILM" + digits + "TRACK";
    assert track[..5] == "WBILM" && track[5..11] == digits && track[11..] == "TRACK";
    var entry := "WBIL";
    var price := d.price + 100;
    var amount := 1;
    var item := WireItem(d.chrtId, track, price, Uuids.Format(rid), ProductNames[d.productName], d.sale, "0",
                         price * amount, d.nmId, Brands[d.brand], 200 + d.status);
    var items := [item];
    var payment := WirePayment(Uuids.Format(orderUid), "", "USD", "wbpay", items[0].totalPrice, paidAt,
                               Banks[d.bank], 1500, items[0].totalPrice, 0);
    var phone := RandomDigits(d.phoneDigits);
    var zip := RandomDigits(d.zipDigits);
    var email := RandomDigits(d.emailDigits);
    var delivery := WireDelivery("Test Testov", "+972" + phone, zip, Cities[d.city],
                                 "Ploshad Mira " + Itoa(d.house), "Kraiot", "test+" + email + "@gmail.com");
    var customer := RandomDigits(d.customerDigits);
    w := WireOrder(Uuids.Format(orderUid), track, entry, delivery, payment, items, "en", "",
                   "test_customer_" + customer, "meest", Itoa(d.shard), d.smId, Rfc3339.Format(now), "1");
  }

  /**
    A generated record is accepted by `UnmarshalOrder`: both ids are the
    order id, and the creation date is the clock reading to the second.
   */
  lemma GeneratedIsAccepted(w: WireOrder, orderUid: Uuids.Uuid, now: Rfc3339.DateTime)
    requires w.orderUid == Uuids.Format(orderUid) && w.payment.transaction == w.orderUid
    requires w.dateCreated == Rfc3339.Format(now) && Rfc3339.Valid(now)
    ensures Unmarshal.Decode(Document(w)).Success?
    ensures var o := Unmarshal.Decode(Document(w)).value;
      o.orderUid == orderUid && o.payment.transaction == orderUid && o.dateCreated == now.(nanosecond := 0)
  {
    Uuids.ParseFormat(orderUid);
    Rfc3339.ParseFormatTruncates(now);
  }

  /**
    Because its transaction is its own id, a generated order that is stored
    can be read back by its id from the relations.
   */
  lemma GeneratedIsRetrievable(w: WireOrder, orderUid: Uuids.Uuid, now: Rfc3339.DateTime, t: OrderTables.Tables)
    requires w.orderUid == Uuids.Format(orderUid) && w.payment.transaction == w.orderUid
    requires w.dateCreated == Rfc3339.Format(now) && Rfc3339.Valid(now)
    requires OrderTables.Inv(t)
    ensures Unmarshal.Decode(Document(w)).Success?
    ensures var o := Unmarshal.Decode(Document(w)).value;
      OrderTables.Store(t, Some(o), None).0 == OrderTables.StoreOk ==>
      OrderTables.Get(OrderTables.Store(t, Some(o), None).1, Some(orderUid), None) == Success(Model.Stamped(o))
  {
    GeneratedIsAccepted(w, orderUid, now);
    var o := Unmarshal.Decode(Document(w)).value;
    if OrderTables.Store(t, Some(o), None).0 == OrderTables.StoreOk {
      OrderTables.StoreThenGet(t, o);
    }
  }
}

/**
  The Redis order cache. The server is a key-value map; the cache writes each
  order under the canonical text of its order id, so the map is kept here by
  id, and a lookup by text finds an entry exactly when the text is that
  canonical spelling (`Uuids.CanonicalKeyExact`). The stored value is the
  default JSON encoding of the order, which decodes back to the same order;
  the model stores the order itself and makes the encoder's and decoder's
  failures inputs. Entries never expire here.
 */
module Redis {
  import opened Common
  import opened Uuids
  import opened Model
  import opened OrderTables
  import Rfc3339
  import Seqs
  import Postgres

  datatype CacheFault = NoCacheFault | MarshalFails | SetFails

  datatype LookupFault = NoLookupFault | GetFails | UnmarshalFails

  /** A lookup finds an order, misses (the key is absent), or fails. */
  datatype CacheLookup = Found(order: Order) | Miss | LookupError(error: Error)

  /** `Cache`: encode the order, then SET it under its id. */
  function Put(entries: map<Uuid, Order>, o: Order, fault: CacheFault): (r: (Option<Error>, map<Uuid, Order>))
    ensures fault == MarshalFails ==> r == (Some(CacheMarshalError), entries)
    ensures fault == SetFails ==> r == (Some(CacheSetError), entries)
    ensures fault == NoCacheFault ==>
      && r.0 == None
      && r.1.Keys == entries.Keys + {o.orderUid}
      && r.1[o.orderUid] == o
      && forall k :: k in entries && k != o.orderUid ==> r.1[k] == entries[k]
  {
    match fault
    case MarshalFails => (Some(CacheMarshalError), entries)
    case SetFails => (Some(CacheSetError), entries)
    case NoCacheFault => (None, entries[o.orderUid := o])
  }

  /**
    `GetOrderFromCache`: GET the key, then decode the value. A text names a
    cached entry when it is the canonical spelling of the entry's id.
   */
  function Lookup(entries: map<Uuid, Order>, orderUid: string, fault: LookupFault): (r: CacheLookup)
    ensures fault == GetFails ==> r == LookupError(CacheGetError)
    ensures r == Miss <==> fault != GetFails && forall u :: u in entries ==> CanonicalKey(orderUid) != Some(u)
    ensures r.Found? <==> fault.NoLookupFault? && CanonicalKey(orderUid).Some? && CanonicalKey(orderUid).value in entries
    ensures r.Found? ==> r.order == entries[CanonicalKey(orderUid).value]
  {
    var key := CanonicalKey(orderUid);
    if fault == GetFails then LookupError(CacheGetError)
    else if key.None? || key.value !in entries then Miss
    else if fault == UnmarshalFails then LookupError(CacheUnmarshalError)
    else Found(entries[key.value])
  }

  /** `ORDER BY date_created DESC`: ascending in this key. */
  function Recency(h: HeaderRow): int {
    -Rfc3339.EpochNanos(h.dateCreated)
  }

  /** The warm-up reads at most this many orders. */
  const WarmUpLimit: nat := 1000

  /** `SELECT * FROM orders ORDER BY date_created DESC LIMIT 1000`. */
  function Newest(rows: seq<HeaderRow>): seq<HeaderRow> {
    Seqs.Take(Seqs.SortBy(rows, Recency), WarmUpLimit)
  }

  /** What `SELECT * FROM orders` scans into an order: the header, with no delivery, payment or items. */
  function HeaderOnly(h: HeaderRow): (o: Order)
    ensures HeaderOf(o) == h
  {
    Assemble(h, ZeroDelivery, ZeroPayment, [])
  }

  function WarmOrders(rows: seq<HeaderRow>): (os: seq<Order>)
    ensures |os| == |Newest(rows)|
  {
    seq(|Newest(rows)|, i requires 0 <= i < |Newest(rows)| => HeaderOnly(Newest(rows)[i]))
  }

  function FaultAt(faults: seq<CacheFault>, i: nat): CacheFault {
    if i < |faults| then faults[i] else NoCacheFault
  }

  /** The warm-up loop from position `i` on: the first failing `Cache` ends it. */
  function CacheAll(entries: map<Uuid, Order>, orders: seq<Order>, faults: seq<CacheFault>, i: nat): (Option<Error>, map<Uuid, Order>)
    requires i <= |orders|
    decreases |orders| - i
  {
    if i == |orders| then (None, entries)
    else
      var put := Put(entries, orders[i], FaultAt(faults, i));
      if put.0.Some? then (Some(WarmUpCachingError(put.0.value)), put.1)
      else CacheAll(put.1, orders, faults, i + 1)
  }

  /** `WarmUp` as a whole. */
  function WarmUpResult(entries: map<Uuid, Order>, rows: seq<HeaderRow>, queryFails: bool, faults: seq<CacheFault>): (Option<Error>, map<Uuid, Order>) {
    if queryFails then (Some(WarmUpQueryError), entries)
    else CacheAll(entries, WarmOrders(rows), faults, 0)
  }

  class RedisCache {
    var entries: map<Uuid, Order>
    const db: Postgres.Repository

    constructor(db: Postgres.Repository, entries: map<Uuid, Order>)
      ensures this.db == db && this.entries == entries
    {
      this.db := db;
      this.entries := entries;
    }

    /**
      `NewRedisCache`: connect (the server may already hold entries), then
      warm up; a failing ping or warm-up means no cache.
     */
    static method NewRedisCache(db: Postgres.Repository, stored: map<Uuid, Order>, pingFails: bool,
                                queryFails: bool, faults: seq<CacheFault>) returns (r: Result<RedisCache>)
      ensures pingFails ==> r == Failure(RedisConnectionFailed)
      ensures !pingFails && WarmUpResult(stored, db.orders, queryFails, faults).0.Some? ==>
        r == Failure(CacheWarmUpFailed(WarmUpResult(stored, db.orders, queryFails, faults).0.value))
      ensures !pingFails && WarmUpResult(stored, db.orders, queryFails, faults).0.None? ==>
        r.Success? && fresh(r.value) && r.value.db == db
        && r.value.entries == WarmUpResult(stored, db.orders, queryFails, faults).1
    {
      if pingFails {
        return Failure(RedisConnectionFailed);
      }
      var cache := new RedisCache(db, stored);
      var err := cache.WarmUp(queryFails, faults);
      if err.Some? {
        return Failure(CacheWarmUpFailed(err.value));
      }
      return Success(cache);
    }

    method Cache(order: Order, fault: CacheFault) returns (err: Option<Error>)
      modifies this
      ensures (err, entries) == Put(old(entries), order, fault)
    {
      if fault == MarshalFails {
        return Some(CacheMarshalError);
      }
      if fault == SetFails {
        return Some(CacheSetError);
      }
      entries := entries[order.orderUid := order];
      return None;
    }

    method GetOrderFromCache(orderUid: string, fault: LookupFault) returns (r: CacheLookup)
      ensures r == Lookup(entries, orderUid, fault)
    {
      if fault == GetFails {
        return LookupError(CacheGetError);
      }
      var key := CanonicalKey(orderUid);
      if key.None? || key.value !in entries {
        return Miss;
      }
      if fault == UnmarshalFails {
        return LookupError(CacheUnmarshalError);
      }
      return Found(entries[key.value]);
    }

    /** `WarmUp`: read the newest headers, then cache them one by one until one fails. */
    method WarmUp(queryFails: bool, faults: seq<CacheFault>) returns (err: Option<Error>)
      modifies this
      ensures (err, entries) == WarmUpResult(old(entries), db.orders, queryFails, faults)
    {
      if queryFails {
        return Some(WarmUpQueryError);
      }
      var orders := WarmOrders(db.orders);
      var i := 0;
      while i < |orders|
        invariant 0 <= i <= |orders|
        invariant CacheAll(entries, orders, faults, i) == WarmUpResult(old(entries), db.orders, queryFails, faults)
      {
        var e := Cache(orders[i], FaultAt(faults, i));
        if e.Some? {
          return Some(WarmUpCachingError(e.value));
        }
        i := i + 1;
      }
      return None;
    }
  }

  // ---------------------------------------------------------------- Cache and lookup

  /** A lookup by the canonical text of a cached order's id returns that order. */
  lemma CacheThenLookup(entries: map<Uuid, Order>, o: Order)
    ensures Lookup(Put(entries, o, NoCacheFault).1, Format(o.orderUid), NoLookupFault) == Found(o)
  {
    CanonicalKeyExact(Format(o.orderUid), o.orderUid);
  }

  /** Caching an order leaves the lookup of every other text as it was. */
  lemma CacheLeavesOthers(entries: map<Uuid, Order>, o: Order, text: string, fault: LookupFault)
    requires text != Format(o.orderUid)
    ensures Lookup(Put(entries, o, NoCacheFault).1, text, fault) == Lookup(entries, text, fault)
  {
    var key := CanonicalKey(text);
    if key.Some? {
      CanonicalKeyExact(text, key.value);
    }
  }

  /** A failed `Cache` writes nothing. */
  lemma FailedCacheWritesNothing(entries: map<Uuid, Order>, o: Order, fault: CacheFault)
    requires fault != NoCacheFault
    ensures Put(entries, o, fault).1 == entries && Put(entries, o, fault).0.Some?
  {
  }

  /**
    Keys are exact strings: a text that is not the canonical lower-case
    spelling of an id, such as the upper-case spelling, misses even when the
    id is cached.
   */
  lemma NonCanonicalMisses(entries: map<Uuid, Order>, text: string)
    requires CanonicalKey(text).None?
    ensures Lookup(entries, text, NoLookupFault) == Miss
    ensures Lookup(entries, text, UnmarshalFails) == Miss
  {
  }

  // ---------------------------------------------------------------- warm-up

  /** At most 1000 orders are read, newest first, and none left out is newer than one read. */
  lemma NewestSelection(rows: seq<HeaderRow>, x: HeaderRow, y: HeaderRow)
    ensures |Newest(rows)| <= WarmUpLimit
    ensures forall i, j :: 0 <= i < j < |Newest(rows)| ==>
      Rfc3339.EpochNanos(Newest(rows)[j].dateCreated) <= Rfc3339.EpochNanos(Newest(rows)[i].dateCreated)
    ensures x in Newest(rows) && y in rows && y !in Newest(rows) ==>
      Rfc3339.EpochNanos(y.dateCreated) <= Rfc3339.EpochNanos(x.dateCreated)
  {
    var sorted := Seqs.SortBy(rows, Recency);
    Seqs.SortBySorted(rows, Recency);
    forall i, j | 0 <= i < j < |Newest(rows)|
      ensures Rfc3339.EpochNanos(Newest(rows)[j].dateCreated) <= Rfc3339.EpochNanos(Newest(rows)[i].dateCreated)
    {
      assert Newest(rows)[i] == sorted[i] && Newest(rows)[j] == sorted[j];
      assert Recency(sorted[i]) <= Recency(sorted[j]);
    }
    if x in Newest(rows) && y in rows && y !in Newest(rows) {
      Seqs.SmallestFirst(rows, Recency, WarmUpLimit, x, y);
    }
  }

  /** A failing query caches nothing. */
  lemma QueryFailureCachesNothing(entries: map<Uuid, Order>, rows: seq<HeaderRow>, faults: seq<CacheFault>)
    ensures WarmUpResult(entries, rows, true, faults) == (Some(WarmUpQueryError), entries)
  {
  }

  /** The error `Cache` reports for a fault. */
  function PutError(fault: CacheFault): Error
    requires fault != NoCacheFault
  {
    if fault == MarshalFails then CacheMarshalError else CacheSetError
  }

  /**
    The first failing `Cache` at position `j` ends the warm-up with that
    error; the orders before it stay cached and the later ones are not
    cached.
   */
  lemma {:induction false} CacheAllStopsAtFirstFailure(entries: map<Uuid, Order>, orders: seq<Order>,
                                                       faults: seq<CacheFault>, i: nat, j: nat)
    requires i <= j < |orders|
    requires FaultAt(faults, j) != NoCacheFault
    requires forall k :: i <= k < j ==> FaultAt(faults, k) == NoCacheFault
    decreases j - i
    ensures CacheAll(entries, orders, faults, i)
         == (Some(WarmUpCachingError(PutError(FaultAt(faults, j)))), CacheAll(entries, orders[..j], faults, i).1)
  {
    if i < j {
      var put := Put(entries, orders[i], FaultAt(faults, i));
      assert orders[..j][i] == orders[i];
      CacheAllStopsAtFirstFailure(put.1, orders, faults, i + 1, j);
    } else {
      assert CacheAll(entries, orders[..j], faults, i) == (None, entries);
    }
  }

  /** The ids of the orders from position `i` on. */
  function UidsFrom(orders: seq<Order>, i: nat): set<Uuid> {
    set k | i <= k < |orders| :: orders[k].orderUid
  }

  /**
    A warm-up loop without a failure adds the ids of its orders, keeps every
    other entry, and writes under each id one of the orders.
   */
  lemma {:induction false} CacheAllWrites(entries: map<Uuid, Order>, orders: seq<Order>, faults: seq<CacheFault>, i: nat)
    requires i <= |orders|
    requires CacheAll(entries, orders, faults, i).0.None?
    decreases |orders| - i
    ensures var m := CacheAll(entries, orders, faults, i).1;
      && m.Keys == entries.Keys + UidsFrom(orders, i)
      && (forall k :: k in entries && k !in UidsFrom(orders, i) ==> m[k] == entries[k])
      && (forall k :: k in UidsFrom(orders, i) ==> exists n :: i <= n < |orders| && m[k] == orders[n])
  {
    if i < |orders| {
      var put := Put(entries, orders[i], FaultAt(faults, i));
      CacheAllWrites(put.1, orders, faults, i + 1);
      var m := CacheAll(entries, orders, faults, i).1;
      assert UidsFrom(orders, i) == {orders[i].orderUid} + UidsFrom(orders, i + 1);
      forall k | k in UidsFrom(orders, i)
        ensures exists n :: i <= n < |orders| && m[k] == orders[n]
      {
        if k !in UidsFrom(orders, i + 1) {
          assert k == orders[i].orderUid;
          assert m[k] == orders[i];
        }
      }
    }
  }

  /**
    After a successful warm-up every newest order is cached, but only as its
    header: a cached warm-up entry has no delivery, no payment and no items.
   */
  lemma WarmedEntryIsHeaderOnly(entries: map<Uuid, Order>, rows: seq<HeaderRow>, faults: seq<CacheFault>, u: Uuid)
    requires WarmUpResult(entries, rows, false, faults).0.None?
    requires u in UidsFrom(WarmOrders(rows), 0)
    ensures var m := WarmUpResult(entries, rows, false, faults).1;
      u in m && m[u].items == [] && m[u].delivery == ZeroDelivery && m[u].payment == ZeroPayment
  {
    var orders := WarmOrders(rows);
    CacheAllWrites(entries, orders, faults, 0);
    var m := CacheAll(entries, orders, faults, 0).1;
    var n :| 0 <= n < |orders| && m[u] == orders[n];
    assert orders[n] == HeaderOnly(Newest(rows)[n]);
  }
}

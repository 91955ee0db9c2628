/**
  The orders service: a cache-aside read (cache first, the repository on a
  miss) and a cache-then-store write with no rollback of the cache.

  The cache lookup is read as found / miss / error. A cache error is returned
  as it is, without a fall-back to the repository. The emptiness check of
  `SaveOrder` on the order id is read as "the id is the nil UUID".
 */
module OrdersService {
  import opened Common
  import opened Uuids
  import opened Model
  import opened OrderTables
  import opened Redis
  import Postgres

  /** `GetOrder` over a cache state and the relations. */
  function Read(entries: map<Uuid, Order>, tables: Tables, orderUid: string,
                lookup: LookupFault, get: Option<GetStep>): (r: Result<Order>)
    ensures orderUid == "" ==> r == Failure(EmptyOrderUid)
  {
    if orderUid == "" then Failure(EmptyOrderUid)
    else
      match Lookup(entries, orderUid, lookup)
      case LookupError(e) => Failure(e)
      case Found(o) => Success(o)
      case Miss => OrderTables.Get(tables, CanonicalKey(orderUid), get)
  }

  /** `SaveOrder` over a cache state and the relations: the error, the new cache state and the new relations. */
  function Write(entries: map<Uuid, Order>, tables: Tables, order: Option<Order>,
                 cacheFault: CacheFault, storeFault: Option<StoreStep>): (r: (Option<Error>, map<Uuid, Order>, Tables))
    ensures r.0.None? ==> order.Some? && r.2 == Inserted(tables, order.value)
  {
    if order.None? then (Some(NilOrder), entries, tables)
    else if order.value.orderUid == Nil then (Some(EmptyOrderUid), entries, tables)
    else
      var put := Put(entries, order.value, cacheFault);
      if put.0.Some? then (put.0, put.1, tables)
      else
        var stored := OrderTables.Store(tables, order, storeFault);
        (if stored.0.StoreError? then Some(stored.0.error) else None, put.1, stored.1)
  }

  class Service {
    const cacher: RedisCache
    const repository: Postgres.Repository

    constructor(cacher: RedisCache, repository: Postgres.Repository)
      ensures this.cacher == cacher && this.repository == repository
    {
      this.cacher := cacher;
      this.repository := repository;
    }

    method GetOrder(orderUid: string, lookup: LookupFault, get: Option<GetStep>) returns (r: Result<Order>)
      ensures r == Read(cacher.entries, repository.Relations(), orderUid, lookup, get)
    {
      if orderUid == "" {
        return Failure(EmptyOrderUid);
      }
      var cached := cacher.GetOrderFromCache(orderUid, lookup);
      if cached.LookupError? {
        return Failure(cached.error);
      }
      if cached.Miss? {
        r := repository.Get(orderUid, get);
        return;
      }
      return Success(cached.order);
    }

    method SaveOrder(order: Option<Order>, cacheFault: CacheFault, storeFault: Option<StoreStep>) returns (err: Option<Error>)
      modifies cacher, repository
      ensures (err, cacher.entries, repository.Relations())
           == Write(old(cacher.entries), old(repository.Relations()), order, cacheFault, storeFault)
      ensures repository.inbox == old(repository.inbox)
    {
      if order.None? {
        return Some(NilOrder);
      }
      if order.value.orderUid == Nil {
        return Some(EmptyOrderUid);
      }
      err := cacher.Cache(order.value, cacheFault);
      if err.Some? {
        return;
      }
      var outcome := repository.Store(order, storeFault);
      if outcome.StoreError? {
        return Some(outcome.error);
      }
      return None;
    }
  }

  // ---------------------------------------------------------------- GetOrder

  /** An empty id is refused whatever the cache and the repository hold. */
  lemma EmptyIdRefused(entries: map<Uuid, Order>, tables: Tables, lookup: LookupFault, get: Option<GetStep>,
                       entries': map<Uuid, Order>, tables': Tables, lookup': LookupFault, get': Option<GetStep>)
    ensures Read(entries, tables, "", lookup, get) == Read(entries', tables', "", lookup', get')
    ensures Read(entries, tables, "", lookup, get).Failure?
  {
  }

  /** A cache hit is the answer; the repository is not consulted. */
  lemma HitSkipsRepository(entries: map<Uuid, Order>, tables: Tables, tables': Tables, orderUid: string,
                           get: Option<GetStep>, get': Option<GetStep>)
    requires orderUid != "" && Lookup(entries, orderUid, NoLookupFault).Found?
    ensures Read(entries, tables, orderUid, NoLookupFault, get) == Success(Lookup(entries, orderUid, NoLookupFault).order)
    ensures Read(entries, tables, orderUid, NoLookupFault, get) == Read(entries, tables', orderUid, NoLookupFault, get')
  {
  }

  /** On a miss the repository's answer, error or order, is the answer. */
  lemma MissReadsRepository(entries: map<Uuid, Order>, tables: Tables, orderUid: string,
                            lookup: LookupFault, get: Option<GetStep>)
    requires orderUid != "" && Lookup(entries, orderUid, lookup) == Miss
    ensures Read(entries, tables, orderUid, lookup, get) == OrderTables.Get(tables, CanonicalKey(orderUid), get)
  {
  }

  /** With nothing cached, every non-empty id is read from the repository. */
  lemma EmptyCacheReadsRepository(tables: Tables, orderUid: string, lookup: LookupFault, get: Option<GetStep>)
    requires orderUid != "" && lookup != GetFails
    ensures Read(map[], tables, orderUid, lookup, get) == OrderTables.Get(tables, CanonicalKey(orderUid), get)
  {
  }

  /** A failing cache read is returned as the error, even when the repository holds the order. */
  lemma CacheErrorPropagates(entries: map<Uuid, Order>, tables: Tables, orderUid: string, get: Option<GetStep>)
    requires orderUid != ""
    ensures Read(entries, tables, orderUid, GetFails, get) == Failure(CacheGetError)
  {
  }

  // ---------------------------------------------------------------- SaveOrder

  /** A nil order or an order with the nil id is refused and nothing is written. */
  lemma RefusedWritesNothing(entries: map<Uuid, Order>, tables: Tables, order: Option<Order>,
                             cacheFault: CacheFault, storeFault: Option<StoreStep>)
    requires order.None? || order.value.orderUid == Nil
    ensures var r := Write(entries, tables, order, cacheFault, storeFault);
      r.0.Some? && IsValidationError(r.0.value) && r.1 == entries && r.2 == tables
  {
  }

  /** A failing cache write returns its error and the store is never attempted. */
  lemma CacheFailureSkipsStore(entries: map<Uuid, Order>, tables: Tables, o: Order,
                               cacheFault: CacheFault, storeFault: Option<StoreStep>)
    requires o.orderUid != Nil && cacheFault != NoCacheFault
    ensures Write(entries, tables, Some(o), cacheFault, storeFault) == (Some(PutError(cacheFault)), entries, tables)
  {
  }

  /** A failing store returns its error, leaves the relations as they were, and keeps the cache entry. */
  lemma StoreFailureKeepsCacheEntry(entries: map<Uuid, Order>, tables: Tables, o: Order, storeFault: Option<StoreStep>)
    requires o.orderUid != Nil && OrderTables.Store(tables, Some(o), storeFault).0 != StoreOk
    ensures var r := Write(entries, tables, Some(o), NoCacheFault, storeFault);
      && r.0 == Some(OrderTables.Store(tables, Some(o), storeFault).0.error)
      && r.2 == tables
      && r.1 == entries[o.orderUid := o]
  {
  }

  /**
    Whenever the cache write succeeds, reading the order's id afterwards
    returns the order from the cache, whether or not the store succeeded.
   */
  lemma SaveThenGet(entries: map<Uuid, Order>, tables: Tables, o: Order, storeFault: Option<StoreStep>,
                    get: Option<GetStep>)
    requires o.orderUid != Nil
    ensures var r := Write(entries, tables, Some(o), NoCacheFault, storeFault);
      Read(r.1, r.2, Format(o.orderUid), NoLookupFault, get) == Success(o)
  {
    var r := Write(entries, tables, Some(o), NoCacheFault, storeFault);
    CacheThenLookup(entries, o);
    assert Format(o.orderUid) != "" by {
      assert |Format(o.orderUid)| == 36;
    }
  }

  /**
    A saved order is also readable from the repository once it is no longer
    cached, provided its payment transaction is its own id: the repository
    returns it with the per-row ids set to the order id.
   */
  lemma SaveThenGetWithoutCache(entries: map<Uuid, Order>, tables: Tables, o: Order)
    requires Inv(tables) && o.orderUid != Nil && o.payment.transaction == o.orderUid
    requires Write(entries, tables, Some(o), NoCacheFault, None).0.None?
    ensures var r := Write(entries, tables, Some(o), NoCacheFault, None);
      Read(map[], r.2, Format(o.orderUid), NoLookupFault, None) == Success(Stamped(o))
  {
    var text := Format(o.orderUid);
    CanonicalKeyExact(text, o.orderUid);
    assert |text| == 36;
    StoreThenGet(tables, o);
  }
}

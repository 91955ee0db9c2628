# wb-orders-service, modelled in Dafny

The service ingests order events and serves them back by id. An event is a
JSON record; it is staged in an `inbox` table, turned into an `Order`
aggregate by `UnmarshalOrder`, stored in four PostgreSQL relations
(`orders`, `delivery`, `payment`, `items`) inside one transaction, and cached
in Redis under the order id. Reads go cache first, then the repository. A
small generator builds random test orders.

This project models that pipeline with the database, the cache and the clock
as in-memory state and inputs:

| module (file) | models |
|---|---|
| `Unmarshal` (unmarshal_order.dfy) | `UnmarshalOrder`: the three checks in order, the field mapping, the item loop |
| `Marshal` (marshal_order.dfy) | `MarshalOrder` and the codec round trip |
| `Wire`, `WireAgreement` (wire.dfy) | the JSON record the codec reads and writes, and field-by-field agreement |
| `Model` (model.dfy) | `Order`, `Delivery`, `Payment`, `Item` |
| `Uuids` (uuids.dfy) | `uuid.Parse` (its four layouts) and the canonical lower-case `String` |
| `Rfc3339`, `Decimal` (rfc3339.dfy, decimal.dfy) | `time.Format`/`time.Parse` with the RFC 3339 layout, and the digit strings both use |
| `Seqs` (seqs.dfy) | filtering, `ORDER BY`, `LIMIT` and first-match over rows |
| `Inbox` (inbox.dfy) | what the three inbox statements do to the staging table |
| `OrderTables` (order_tables.dfy) | the four relations and what `Store` and `Get` do to them |
| `Postgres` (postgres_repository.dfy) | the repository object: inbox statements, `Store`, `Get` |
| `InboxProcessor` (inbox_processor.dfy) | `processBatch` |
| `Redis` (redis_cache.dfy) | `Cache`, `GetOrderFromCache`, `WarmUp`, `NewRedisCache` |
| `OrdersService` (orders_service.dfy) | `GetOrder`, `SaveOrder` |
| `OrderGenerator` (order_generator.dfy) | `generateOrder`, `randomDigits` |

Stateful code is modelled as classes:
- `Postgres.Repository` holds the inbox and the four relations as sequence fields.
- `Redis.RedisCache` holds the server's key-value map.
- `InboxProcessor.Processor` and `OrdersService.Service` act on those two objects.

Each method is proved equal to a function over the old state (`OrderTables.Store`, `InboxProcessor.Batch`, `Redis.WarmUpResult`, `OrdersService.Write`, ...). The lemmas about those functions carry the properties.

Database, cache and marshal failures are inputs: which statement fails, which cache call fails, whether a mark fails. Key conflicts are decided by the relations themselves. `time.Now()` and `uuid.New()` are parameters, and so is every `rand.Intn(n)` draw, taken in `[0, n)`.

Behaviour kept exactly as the code has it:
- After a decode failure `processBatch` has no `continue`. `Store` therefore runs with a nil order:
  - it fails when the transaction cannot begin;
  - otherwise it panics, because the SQL binding reads the nil order's fields.
  
  The model calls the panic outcome `Aborted`.
- A message whose order was stored successfully is not marked processed. The next batch fetches it again, the header insert then fails on the existing key, and only then is the message marked (`InboxProcessor.ReplayMarks`).
- `GetOrder` returns a cache error as it is, with no fallback to the repository. The test at internal/application/orders_service_test.go:67-82 expects a fallback on a cache error; the model follows the code (`OrdersService.CacheErrorPropagates`).
- `WarmUp` selects only the `orders` columns, so the orders it caches have no delivery, payment or items (`Redis.WarmedEntryIsHeaderOnly`).
- `Get` reads the payment by `transaction = orderUID`. An order is readable only when its payment transaction is its own id (`OrderTables.StoreThenGet`, `OrderTables.StoreThenGetOtherTransaction`).

Where the source's shapes do not agree with each other, the coherent reading is modelled:
- The cache result is three-way: found, miss (`redis.Nil`), or error. `Cacher` returns a value but `GetOrder` compares it with nil; the model reads a miss as nil.
- One repository object carries both the order and the inbox operations, although the `OrdersRepository` interface lacks the inbox methods.
- `Sale` is an integer, as both codecs have it, although `Item` declares it `float64`.
- Every item carries its order's id, as `UnmarshalOrder` (internal/domain/model/unmarshall_order.go:125) and `Store` (internal/infrastructure/repository/postgres_repository.go:129) both set it, although `Item` (internal/domain/model/item.go:4-16) declares no such field.
- `SaveOrder`'s check `order.OrderUID == ""` on a UUID field is read as "the id is the nil UUID".

## Model

| member | source | states |
|---|---|---|
| Unmarshal.Decode | internal/domain/model/unmarshall_order.go:11-141 | malformed JSON, a bad order_uid, a bad transaction and a bad date_created each give their own error, checked in that order so the first bad field decides; success exactly when all three parse; on success the ids and the date are the parsed values, payment_dt is that many whole Unix seconds, every other field is copied verbatim, the items keep count and order, and the delivery and every item carry the order id |
| Unmarshal.UnmarshalOrder | internal/domain/model/unmarshall_order.go:11-141 | the method returns exactly `Decode(data)` |
| Unmarshal.AppendItems | internal/domain/model/unmarshall_order.go:123-138 | the append loop yields `DecodeItems`: one item per wire item, in order |
| Unmarshal.DecodeItems | internal/domain/model/unmarshall_order.go:123-138 | as many items as wire items; item i agrees field by field with wire item i and carries the order id |
| Unmarshal.DecodeParsed | internal/domain/model/unmarshall_order.go:67-120 | once both ids and the date parse, the order is assembled from those parsed values |
| Marshal.Encode | internal/domain/model/marshall_order.go:8-121 | order_uid and transaction are the canonical texts of the two UUIDs; date_created is the RFC 3339 text of DateCreated; payment_dt is PaymentDT in whole seconds; every other field and every item (same count, same order) is copied; per-row order ids are not written |
| Marshal.EncodeItems | internal/domain/model/marshall_order.go:92-118 | one wire item per item, same order, each agreeing field by field |
| Marshal.MarshalOrder | internal/domain/model/marshall_order.go:8-121 | the method returns the document `Encode(o)` and never fails |
| Marshal.AppendEncodedItems | internal/domain/model/marshall_order.go:92-118 | the append loop yields `EncodeItems` |
| Marshal.EncodedFieldsParse | internal/domain/model/marshall_order.go:57-85 | the emitted ids parse back to the order's UUIDs; the emitted date parses back to DateCreated without its fraction |
| Marshal.DecodeEncodedItems | internal/domain/model/marshall_order.go:92-118 | decoding the emitted items gives the items restamped with the order id |
| Marshal.DecodeEncode | internal/domain/model/marshall_order.go:57-118 | decoding what is emitted succeeds for every order with a valid date and gives it with fractions dropped and row ids set to the order id |
| Marshal.RoundTrip | internal/domain/model/marshall_order.go:57-118 | `UnmarshalOrder(MarshalOrder(o)) == o` for whole-second times and row ids equal to the order id, any number of items |
| Marshal.EncodeDecode | internal/domain/model/marshall_order.go:56-120 | re-encoding a decoded record gives the record back, with the two ids and the date in canonical text |
| Marshal.EncodeIgnoresRowUids | internal/domain/model/marshall_order.go:71-116 | the delivery's and items' own order ids do not reach the wire |
| Uuids.Format | internal/domain/model/marshall_order.go:57 | the text has 36 characters with hyphens at 8, 13, 18 and 23 |
| Uuids.Parse | internal/domain/model/unmarshall_order.go:67-69 | only texts of 32, 36, 38 or 45 characters can parse; the layout is chosen by length, and the two unread outer characters of the 38-character layout must be single-byte |
| Uuids.ParsedIsAscii | internal/domain/model/unmarshall_order.go:67-69 | every text that parses is ASCII, so its character count is the byte count by which `uuid.Parse` chooses the layout |
| Uuids.MultiByteBraceRefused | internal/domain/model/unmarshall_order.go:67-69 | a canonical text behind a two-byte opening character (39 bytes) and a closing brace does not parse |
| Uuids.ParseFormat | internal/domain/model/unmarshall_order.go:67-75 | parsing the canonical text of a UUID gives the UUID back |
| Uuids.FormatInjective | internal/domain/model/marshall_order.go:57 | two UUIDs have the same canonical text exactly when they are equal |
| Uuids.CanonicalKeyExact | internal/infrastructure/postgres/postgres_repository.go:33-34 | a given text names the stored id u exactly when it is u's canonical text |
| Rfc3339.Parse | internal/domain/model/unmarshall_order.go:78-81 | whatever parses is a valid calendar date-time with an offset under a day |
| Rfc3339.ParseFormat | internal/domain/model/marshall_order.go:66 | a whole-second time formats and parses back to itself |
| Rfc3339.ParseFormatTruncates | internal/domain/model/marshall_order.go:66 | any valid time formats and parses back with its fraction dropped |
| Rfc3339.FormatFields | internal/domain/model/marshall_order.go:66 | each field of the formatted text sits at its fixed position and reads back as the field |
| Rfc3339.ZoneRoundTrip | internal/domain/model/marshall_order.go:66 | the zone suffix parses back to the offset |
| Decimal.PadValue | internal/domain/model/marshall_order.go:66 | a number that fits pads to exactly the width and reads back as itself |
| Decimal.ValueItoa | cmd/order-generator/main.go:189 | `strconv.Itoa` of a natural reads back as that natural |
| Inbox.Saved | internal/infrastructure/postgres/inbox.go:11-15 | the id is present afterwards and the key stays unique |
| Inbox.Fetched | internal/infrastructure/postgres/inbox.go:20-43 | a negative limit is refused; otherwise at most `limit` messages |
| Inbox.SaveNew | internal/infrastructure/postgres/inbox.go:11-15 | saving a new id appends exactly one unprocessed row and keeps the others |
| Inbox.SaveExisting | internal/infrastructure/postgres/inbox.go:14 | saving an existing id changes nothing |
| Inbox.FetchOnlyUnprocessed | internal/infrastructure/postgres/inbox.go:24 | every fetched row is an unprocessed row of the table |
| Inbox.FetchAscending | internal/infrastructure/postgres/inbox.go:25 | fetched rows are in ascending created_at order |
| Inbox.FetchCount | internal/infrastructure/postgres/inbox.go:25-26 | exactly `min(limit, unprocessed rows)` rows are fetched |
| Inbox.FetchOldest | internal/infrastructure/postgres/inbox.go:25-26 | no unprocessed row left out is older than a fetched one |
| Inbox.DoneNeverFetched | internal/infrastructure/postgres/inbox.go:24 | a processed message is never fetched |
| Inbox.MarkOnlyMatching | internal/infrastructure/postgres/inbox.go:46-48 | mark flips the flag of the rows with that id, leaves every other row, keeps the key unique |
| Inbox.MarkIdempotent | internal/infrastructure/postgres/inbox.go:46-48 | marking twice is marking once |
| Inbox.MarkUnknown | internal/infrastructure/postgres/inbox.go:46-48 | marking an unknown id changes nothing |
| Inbox.DoneStays | internal/infrastructure/postgres/inbox.go:11-48 | a processed message stays processed across later saves and marks |
| Inbox.MarkedNeverFetchedAgain | internal/infrastructure/postgres/inbox.go:11-48 | after mark(id), no fetch returns id, even after saving id again |
| Seqs.First | internal/infrastructure/postgres/postgres_repository.go:33-57 | a row is found exactly when one matches, and it is a matching row of the relation |
| Seqs.Filter | internal/infrastructure/postgres/postgres_repository.go:62-66 | exactly the matching rows are kept |
| Seqs.Take | internal/infrastructure/postgres/inbox.go:26 | `LIMIT n` keeps the first n rows, or all when fewer |
| Seqs.SortBySorted | internal/infrastructure/postgres/inbox.go:25 | `ORDER BY` output is sorted and a permutation of its input |
| Seqs.SmallestFirst | internal/infrastructure/postgres/inbox.go:25-26 | after sorting and limiting, no row left out has a smaller key than a kept one |
| OrderTables.Store | internal/infrastructure/postgres/postgres_repository.go:77-149 | success exactly when the order is non-nil, its keys are free and no step fails; then the rows of `Inserted` are added; on any failure the relations are unchanged; a nil order panics unless beginning fails |
| OrderTables.Get | internal/infrastructure/postgres/postgres_repository.go:21-75 | no header is "order not found"; a missing delivery or payment are distinct errors; a found order has its own id as key, as transaction, on its delivery and on every item |
| OrderTables.StoreKeepsInv | internal/infrastructure/postgres/postgres_repository.go:81-146 | every `Store` keeps the keys unique, keeps every row attached to a header, and leaves no header without a delivery |
| OrderTables.InsertedKeepsInv | internal/infrastructure/postgres/postgres_repository.go:88-141 | adding a fresh order's rows keeps those constraints |
| OrderTables.StoreAddsAggregate | internal/infrastructure/postgres/postgres_repository.go:88-141 | a committed `Store` adds one header, one delivery, one payment and one item row per item in order, stamped with the order id, and keeps every old row |
| OrderTables.FailedStoreLeavesNoRows | internal/infrastructure/postgres/postgres_repository.go:81-146 | a failed `Store` of a new order leaves no row for its id |
| OrderTables.ReplayFails | internal/infrastructure/postgres/postgres_repository.go:95-98 | storing an already-stored id fails at the header and adds nothing |
| OrderTables.FreshRowsFound | internal/infrastructure/postgres/postgres_repository.go:101-141 | the rows just stored are the ones a lookup by the id finds |
| OrderTables.GetFound | internal/infrastructure/postgres/postgres_repository.go:33-74 | when the four reads find their rows, `Get` assembles them |
| OrderTables.StoreThenGet | internal/infrastructure/postgres/postgres_repository.go:53-57 | an order stored with transaction equal to its id is read back, rows stamped |
| OrderTables.StoreThenGetOtherTransaction | internal/infrastructure/postgres/postgres_repository.go:53-57 | an order stored with another transaction id reads back as "failed to get payment" |
| Postgres.Repository.SaveInboxMessage | internal/infrastructure/postgres/inbox.go:10-18 | the inbox becomes `Saved(old inbox, ...)`, or stays on a write error; relations untouched |
| Postgres.Repository.FetchUnprocessedInboxMessages | internal/infrastructure/postgres/inbox.go:20-43 | the row loop returns `Fetched(inbox, limit)`, or the query error |
| Postgres.Repository.MarkInboxMessageProcessed | internal/infrastructure/postgres/inbox.go:45-50 | the inbox becomes `Marked(old inbox, id)`, or stays on an error; relations untouched |
| Postgres.Repository.Store | internal/infrastructure/postgres/postgres_repository.go:77-149 | outcome and new relations are `OrderTables.Store` of the old ones; the inbox is untouched |
| Postgres.Repository.Get | internal/infrastructure/postgres/postgres_repository.go:21-75 | the result is `OrderTables.Get` of the relations; nothing is written |
| InboxProcessor.Processor.ProcessBatch | internal/infrastructure/kafka/inbox_processor.go:44-76 | outcome and new database are `Batch` of the old database |
| InboxProcessor.FetchFailureChangesNothing | internal/infrastructure/kafka/inbox_processor.go:45-48 | a failed fetch returns its error and changes nothing |
| InboxProcessor.AtMostTen | internal/infrastructure/kafka/inbox_processor.go:45 | a batch looks at no more than ten messages, all unprocessed rows of the inbox |
| InboxProcessor.DecodeFailureMarks | internal/infrastructure/kafka/inbox_processor.go:51-63 | an undecodable message is marked (or a failing mark ends the batch), then the nil order reaches `Store`; the relations are untouched |
| InboxProcessor.StoreFailureMarks | internal/infrastructure/kafka/inbox_processor.go:63-72 | a failed store marks the message and goes on, or a failing mark ends the batch |
| InboxProcessor.StoreSuccessLeavesPending | internal/infrastructure/kafka/inbox_processor.go:63-73 | a stored message adds its rows and is not marked |
| InboxProcessor.ReplayMarks | internal/infrastructure/kafka/inbox_processor.go:63-72 | a message whose order is already stored is marked |
| InboxProcessor.HandleKeeps | internal/infrastructure/kafka/inbox_processor.go:50-73 | one message keeps the database constraints and changes only its own inbox row |
| InboxProcessor.DrainKeeps | internal/infrastructure/kafka/inbox_processor.go:50-73 | the loop keeps the constraints and changes no inbox row outside its messages |
| InboxProcessor.BatchTouchesOnlyFetched | internal/infrastructure/kafka/inbox_processor.go:44-76 | a batch keeps the constraints and changes no inbox row it did not fetch |
| InboxProcessor.StopIgnoresLater | internal/infrastructure/kafka/inbox_processor.go:54-71 | once the batch stops, later messages play no part |
| InboxProcessor.NoMarkFaultNoError | internal/infrastructure/kafka/inbox_processor.go:75 | without a failing mark the batch never ends in an error (a nil-order panic can still abort it) |
| InboxProcessor.DecodableCompletes | internal/infrastructure/kafka/inbox_processor.go:50-75 | without a failing mark and with decodable payloads the batch completes |
| Redis.Put | internal/infrastructure/redis/redis_cache.go:76-89 | a marshal or set failure returns its error and writes nothing; otherwise the order is under its id and no other key changes |
| Redis.Lookup | internal/infrastructure/redis/redis_cache.go:91-108 | a GET failure is an error; a miss exactly when no cached id has the text as key; found exactly when the key is cached and decoding works, and then it is the cached order |
| Redis.HeaderOnly | internal/infrastructure/redis/redis_cache.go:61-62 | the scanned order has exactly the header row's columns |
| Redis.WarmOrders | internal/infrastructure/redis/redis_cache.go:61-62 | one order per selected header row |
| Redis.RedisCache.NewRedisCache | internal/infrastructure/redis/redis_cache.go:29-54 | a failed ping or a failed warm-up means no cache, with the warm-up's error; otherwise a fresh cache holding the warm-up's entries |
| Redis.RedisCache.Cache | internal/infrastructure/redis/redis_cache.go:76-89 | error and new entries are `Put` of the old entries |
| Redis.RedisCache.GetOrderFromCache | internal/infrastructure/redis/redis_cache.go:91-108 | the result is `Lookup` of the entries |
| Redis.RedisCache.WarmUp | internal/infrastructure/redis/redis_cache.go:56-74 | error and new entries are `WarmUpResult` of the old entries |
| Redis.CacheThenLookup | internal/infrastructure/redis/redis_cache.go:84-107 | a lookup by the id after caching the order finds the order |
| Redis.CacheLeavesOthers | internal/infrastructure/redis/redis_cache.go:84 | caching changes the lookup of no other text |
| Redis.FailedCacheWritesNothing | internal/infrastructure/redis/redis_cache.go:79-86 | a failed `Cache` writes nothing and reports an error |
| Redis.NonCanonicalMisses | internal/infrastructure/redis/redis_cache.go:94-98 | a text that is not a canonical id spelling misses |
| Redis.NewestSelection | internal/infrastructure/redis/redis_cache.go:61 | at most 1000 headers, newest first, and none left out is newer than one taken |
| Redis.QueryFailureCachesNothing | internal/infrastructure/redis/redis_cache.go:62-65 | a failed query returns an error and caches nothing |
| Redis.CacheAllStopsAtFirstFailure | internal/infrastructure/redis/redis_cache.go:67-71 | the first failing `Cache` ends the warm-up with its error; earlier orders stay cached, later ones are not cached |
| Redis.CacheAllWrites | internal/infrastructure/redis/redis_cache.go:67-71 | a warm-up without failure adds exactly its orders' ids and keeps every other entry |
| Redis.WarmedEntryIsHeaderOnly | internal/infrastructure/redis/redis_cache.go:61-71 | an entry cached by a warm-up has no delivery, no payment and no items |
| OrdersService.Read | internal/application/orders_service.go:28-45 | an empty id is an error |
| OrdersService.Write | internal/application/orders_service.go:47-61 | no error means the order was non-nil and its rows were added |
| OrdersService.Service.GetOrder | internal/application/orders_service.go:28-45 | the result is `Read` of the cache entries and relations |
| OrdersService.Service.SaveOrder | internal/application/orders_service.go:47-61 | error, cache entries and relations are `Write` of the old ones; the inbox is untouched |
| OrdersService.EmptyIdRefused | internal/application/orders_service.go:29-31 | `GetOrder("")` fails whatever the cache and the repository hold |
| OrdersService.HitSkipsRepository | internal/application/orders_service.go:33-44 | a cache hit is the answer, independent of the repository |
| OrdersService.MissReadsRepository | internal/application/orders_service.go:38-43 | on a miss the repository's answer, error included, is the answer |
| OrdersService.EmptyCacheReadsRepository | internal/application/orders_service.go:38-43 | with nothing cached every non-empty id is read from the repository |
| OrdersService.CacheErrorPropagates | internal/application/orders_service.go:33-36 | a failing cache read is returned as the error, with no fallback |
| OrdersService.RefusedWritesNothing | internal/application/orders_service.go:48-53 | a nil order or nil id is a validation error and nothing is written |
| OrdersService.CacheFailureSkipsStore | internal/application/orders_service.go:55-58 | a failing cache write returns its error and `Store` is not run |
| OrdersService.StoreFailureKeepsCacheEntry | internal/application/orders_service.go:55-60 | a failing store returns its error, leaves the relations, keeps the cache entry |
| OrdersService.SaveThenGet | internal/application/orders_service.go:55-60 | after a successful cache write the order reads back from the cache, whether or not the store succeeded |
| OrdersService.SaveThenGetWithoutCache | internal/application/orders_service.go:55-60 | after a successful save an order whose transaction is its id reads back from the repository alone |
| OrderGenerator.RandomDigits | cmd/order-generator/main.go:212-218 | n draws give n characters, each the digit drawn |
| OrderGenerator.GenerateOrder | cmd/order-generator/main.go:149-210 | one item; transaction equals order_uid; price in 100..999 and total price equals price; amount and goods total equal the total price; delivery cost 1500, custom fee 0; track "WBILM" + 6 digits + "TRACK", shared by the item; sale < 50, status in 200..209, sm_id < 200; payment_dt and date_created are the clock readings, and date_created, taken in UTC, ends in "Z" |
| OrderGenerator.GeneratedIsAccepted | cmd/order-generator/main.go:149-210 | a generated record is accepted by `UnmarshalOrder`, with both ids the order id |
| OrderGenerator.GeneratedIsRetrievable | cmd/order-generator/main.go:172 | a stored generated order is read back by its id |

## Left out

- Kafka consumer, the ticker loop of `Start`, and the generator's `main` and `sendOrder`: I/O and concurrency.
- HTTP handler and router, configuration loading, logger: transport and wiring.
- Redis TTL: entries never expire in the model.
- Transaction isolation between concurrent callers: each transaction is one atomic step.
- `encoding/json` text: JSON is the `Payload` datatype, either a well-typed record or malformed text; JSON syntax, number ranges and unknown fields are not modelled.
- The cache's own `json.Marshal`/`json.Unmarshal` pair is treated as exact, so the map holds the order itself; their failures are inputs.
- Redis.Lookup: the key is compared as a UUID through its canonical text. A stored key that is not a canonical UUID text does not occur in the model.
- Rfc3339.Parse: follows the strict RFC 3339 layout. Go's general parser, which `time.Parse` falls back to, also accepts a one-digit hour, a comma before the fraction of a second, and zone offsets with hour 24 or minute 60; the model refuses these.
- Marshal.RoundTrip: a time is a civil date-time plus a zone offset in minutes (`Rfc3339.DateTime`). The `*Location` of Go's `time.Time` is not modelled, so the equality stated there and in `Rfc3339.ParseFormat` is equality of date-time and offset, not Go's `==`, which also compares locations.
- Postgres column types: timestamps are kept at nanosecond precision and ids are compared as canonical texts.
- `ORDER BY` tie order is taken as insertion order.
- OrderTables.Get: reads the items back in the order they were inserted. The query `SELECT * FROM items WHERE order_uid = $1` (internal/infrastructure/repository/postgres_repository.go:62) has no `ORDER BY`, so PostgreSQL promises only the same items in some order. `OrderTables.StoreThenGet`, `OrdersService.SaveThenGetWithoutCache` and `OrderGenerator.GeneratedIsRetrievable` state the order as well, which the database does not guarantee.
- OrdersService.Read: for an empty id `GetOrder` returns an empty, non-nil order together with the error; the model returns only the error, and no caller reads that order.
- `rows.Scan` errors in the inbox fetch are folded into the one fetch-failure input.
- Integers are unbounded: the `int`/`int64` widths of Go are not modelled, and no field the model computes comes near them.
- A warm-up that fails half-way leaves the entries cached before the failure on the Redis server; the model keeps them in the map, but `NewRedisCache` then returns no cache object, so nothing reads them.
- `NewInboxProcessor`, `NewOrdersRepository`, `NewService`: plain constructors, modelled by the classes' constructors without separate rows.
- `randomProductName`, `randomBrand`, `randomBank`, `randomCity`: each is one table lookup by a draw, inlined in `OrderGenerator.GenerateOrder`.

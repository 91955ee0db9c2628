/**
  Shared wrappers and the error values the service reports.

  Each `Error` constructor stands for one of the messages the Go code builds
  with `fmt.Errorf` / `errors.New`; wrapped causes are kept where the source
  wraps a model-level error (`%w` around another error of this model).
 */
module Common {

  datatype Option<+T> = None | Some(value: T)

  datatype Result<+T> = Success(value: T) | Failure(error: Error)

  datatype Error =
    // order codec (unmarshall_order.go)
    | JsonUnmarshal            // "json unmarshal error"
    | InvalidOrderUid          // "invalid order_uid"
    | InvalidPaymentTransaction// "invalid payment transaction"
    | InvalidDateCreated       // "invalid date_created format"
    // order repository (postgres_repository.go)
    | BeginTxFailed            // "failed to begin transaction"
    | InsertOrderFailed        // "failed to insert order"
    | InsertDeliveryFailed     // "failed to insert delivery"
    | InsertPaymentFailed      // "failed to insert payment"
    | InsertItemFailed         // "failed to insert item"
    | CommitFailed             // "failed to commit transaction"
    | OrderNotFound            // "order not found"
    | GetOrderFailed           // "failed to get order"
    | GetDeliveryFailed        // "failed to get delivery"
    | GetPaymentFailed         // "failed to get payment"
    | GetItemsFailed           // "failed to get items"
    // staging table (inbox.go): the database error is returned as is
    | InboxWriteFailed
    | InboxFetchFailed
    | InboxMarkFailed
    // cache (redis_cache.go)
    | CacheMarshalError        // "marshal error"
    | CacheSetError            // "redis set error"
    | CacheGetError            // "redis get error"
    | CacheUnmarshalError      // "unmarshal error"
    | WarmUpQueryError         // "db query error"
    | WarmUpCachingError(cause: Error)  // "caching error: %w"
    | RedisConnectionFailed    // "redis connection failed"
    | CacheWarmUpFailed(cause: Error)   // "cache warmup failed: %w"
    // orders service (orders_service.go)
    | EmptyOrderUid            // "orderUID is empty"
    | NilOrder                 // "order is nil"

  /** Errors raised by validating the caller's arguments, as opposed to a store or cache failure. */
  predicate IsValidationError(e: Error) {
    e == EmptyOrderUid || e == NilOrder
  }
}

/**
  `processBatch`: fetch up to ten unprocessed inbox messages, then for each
  one decode the payload, store the order, and mark the message processed
  when the decode or the store failed.

  Two behaviours of the code are kept as they are. After a decode failure
  there is no `continue`, so `Store` runs with a nil order. A successfully
  stored message is not marked; it is marked in a later batch, when storing
  the same order again fails.

  Failures of the database calls are inputs: one `MessageFaults` per message
  position. A nil order reaching `Store` panics in the SQL binding unless
  beginning the transaction already failed; the panic ends the batch, and the
  model calls that outcome `Aborted`.
 */
module InboxProcessor {
  import opened Common
  import opened Wire
  import opened Model
  import opened Inbox
  import opened OrderTables
  import Unmarshal
  import Postgres

  /** `processBatch` asks for ten messages at a time. */
  const BatchSize: nat := 10

  /** The database: the inbox table and the four order relations. */
  datatype Db = Db(inbox: seq<InboxRow>, tables: Tables)

  /**
    The database faults met while handling one message: whether the mark after
    a decode failure fails, which step of `Store` fails, and whether the mark
    after a store failure fails.
   */
  datatype MessageFaults = MessageFaults(markAfterDecode: bool, store: Option<StoreStep>, markAfterStore: bool)

  const NoFaults := MessageFaults(false, None, false)

  datatype BatchOutcome = Completed | Failed(error: Error) | Aborted

  /** What one message does: go on with the next message, or end the batch. */
  datatype Step = Next(db: Db) | Stop(outcome: BatchOutcome, db: Db)

  function FaultsAt(faults: seq<MessageFaults>, i: nat): MessageFaults {
    if i < |faults| then faults[i] else NoFaults
  }

  function MarkIn(db: Db, id: string): Db {
    db.(inbox := Marked(db.inbox, id))
  }

  /** The loop body for one message. */
  function Handle(db: Db, msg: InboxMessage, f: MessageFaults): Step {
    var decoded := Unmarshal.Decode(msg.payload);
    if decoded.Failure? && f.markAfterDecode then Stop(Failed(InboxMarkFailed), db)
    else
      var db1 := if decoded.Failure? then MarkIn(db, msg.id) else db;
      var order := if decoded.Success? then Some(decoded.value) else None;
      var stored := OrderTables.Store(db1.tables, order, f.store);
      match stored.0
      case StorePanic => Stop(Aborted, db1)
      case StoreOk => Next(db1.(tables := stored.1))
      case StoreError(_) =>
        if f.markAfterStore then Stop(Failed(InboxMarkFailed), db1) else Next(MarkIn(db1, msg.id))
  }

  /** The loop from message `i` on. */
  function Drain(db: Db, msgs: seq<InboxMessage>, faults: seq<MessageFaults>, i: nat): (BatchOutcome, Db)
    requires i <= |msgs|
    decreases |msgs| - i
  {
    if i == |msgs| then (Completed, db)
    else
      match Handle(db, msgs[i], FaultsAt(faults, i))
      case Stop(outcome, db') => (outcome, db')
      case Next(db') => Drain(db', msgs, faults, i + 1)
  }

  /** The messages a batch works on. */
  function Batched(db: Db): seq<InboxMessage> {
    Messages(Selected(db.inbox, BatchSize))
  }

  /** A whole batch: the fetch, then the loop. */
  function Batch(db: Db, fetchFails: bool, faults: seq<MessageFaults>): (BatchOutcome, Db) {
    if fetchFails then (Failed(InboxFetchFailed), db)
    else Drain(db, Batched(db), faults, 0)
  }

  class Processor {
    const repo: Postgres.Repository

    constructor(repo: Postgres.Repository)
      ensures this.repo == repo
    {
      this.repo := repo;
    }

    function State(): Db
      reads repo
    {
      Db(repo.inbox, repo.Relations())
    }

    /** `processBatch`, proved to do what `Batch` describes. */
    method ProcessBatch(fetchFails: bool, faults: seq<MessageFaults>) returns (outcome: BatchOutcome)
      modifies repo
      ensures (outcome, State()) == Batch(old(State()), fetchFails, faults)
    {
      var fetched := repo.FetchUnprocessedInboxMessages(BatchSize, fetchFails);
      if fetched.Failure? {
        return Failed(fetched.error);
      }
      var msgs := fetched.value;
      assert msgs == Batched(State());
      var i := 0;
      while i < |msgs|
        invariant 0 <= i <= |msgs|
        invariant Drain(State(), msgs, faults, i) == Batch(old(State()), fetchFails, faults)
      {
        var msg := msgs[i];
        var f := FaultsAt(faults, i);
        ghost var before := State();
        var decoded := Unmarshal.UnmarshalOrder(msg.payload);
        var order: Option<Order> := None;
        if decoded.Failure? {
          var err := repo.MarkInboxMessageProcessed(msg.id, f.markAfterDecode);
          if err.Some? {
            return Failed(err.value);
          }
        } else {
          order := Some(decoded.value);
        }
        var stored := repo.Store(order, f.store);
        if stored.StorePanic? {
          return Aborted;
        }
        if stored.StoreError? {
          var err := repo.MarkInboxMessageProcessed(msg.id, f.markAfterStore);
          if err.Some? {
            return Failed(err.value);
          }
        }
        assert Handle(before, msg, f) == Next(State());
        i := i + 1;
      }
      return Completed;
    }
  }

  // ---------------------------------------------------------------- the fetch

  /** A failed fetch ends the batch with that error and changes nothing. */
  lemma FetchFailureChangesNothing(db: Db, faults: seq<MessageFaults>)
    ensures Batch(db, true, faults) == (Failed(InboxFetchFailed), db)
  {
  }

  /** A batch looks at no more than ten messages, the oldest unprocessed ones. */
  lemma AtMostTen(db: Db)
    ensures |Batched(db)| <= BatchSize
    ensures forall k :: 0 <= k < |Batched(db)| ==> Selected(db.inbox, BatchSize)[k] in db.inbox
    ensures forall k :: 0 <= k < |Batched(db)| ==> !Selected(db.inbox, BatchSize)[k].processed
  {
    FetchCount(db.inbox, BatchSize);
    FetchOnlyUnprocessed(db.inbox, BatchSize);
  }

  // ---------------------------------------------------------------- one message

  /**
    An undecodable payload: when the mark fails the batch stops with that
    error; otherwise the message is marked, and the nil order then reaches
    `Store`, which panics unless beginning its transaction fails. The
    relations are never touched.
   */
  lemma DecodeFailureMarks(db: Db, msg: InboxMessage, f: MessageFaults)
    requires Unmarshal.Decode(msg.payload).Failure?
    ensures f.markAfterDecode ==> Handle(db, msg, f) == Stop(Failed(InboxMarkFailed), db)
    ensures !f.markAfterDecode && f.store != Some(Begin) ==> Handle(db, msg, f) == Stop(Aborted, MarkIn(db, msg.id))
    ensures !f.markAfterDecode && f.store == Some(Begin) && !f.markAfterStore ==>
      Handle(db, msg, f) == Next(MarkIn(db, msg.id))
    ensures Handle(db, msg, f).db.tables == db.tables
  {
    MarkIdempotent(db.inbox, msg.id);
  }

  /**
    A decodable payload whose store fails: the relations stay as they were,
    and the message is marked and the loop goes on, unless the mark fails.
   */
  lemma StoreFailureMarks(db: Db, msg: InboxMessage, f: MessageFaults)
    requires Unmarshal.Decode(msg.payload).Success?
    requires OrderTables.Store(db.tables, Some(Unmarshal.Decode(msg.payload).value), f.store).0.StoreError?
    ensures !f.markAfterStore ==> Handle(db, msg, f) == Next(MarkIn(db, msg.id))
    ensures f.markAfterStore ==> Handle(db, msg, f) == Stop(Failed(InboxMarkFailed), db)
  {
  }

  /** A decodable payload stored successfully: the order's rows are added and the message is not marked. */
  lemma StoreSuccessLeavesPending(db: Db, msg: InboxMessage, f: MessageFaults)
    requires Unmarshal.Decode(msg.payload).Success?
    requires OrderTables.Store(db.tables, Some(Unmarshal.Decode(msg.payload).value), f.store).0 == StoreOk
    ensures Handle(db, msg, f) == Next(db.(tables := Inserted(db.tables, Unmarshal.Decode(msg.payload).value)))
  {
  }

  /**
    A message whose order is already stored, as happens to every successfully
    stored message in the next batch: the insert of the header fails, nothing
    is added, and the message is marked.
   */
  lemma ReplayMarks(db: Db, msg: InboxMessage, f: MessageFaults)
    requires Unmarshal.Decode(msg.payload).Success?
    requires HasOrder(db.tables, Unmarshal.Decode(msg.payload).value.orderUid)
    requires !f.markAfterStore
    ensures Handle(db, msg, f) == Next(MarkIn(db, msg.id))
  {
    ReplayFails(db.tables, Unmarshal.Decode(msg.payload).value, f.store);
  }

  // ---------------------------------------------------------------- the loop

  /** The loop's step keeps the database constraints, and only the message's own inbox row may change. */
  lemma HandleKeeps(db: Db, msg: InboxMessage, f: MessageFaults)
    requires Inv(db.tables) && UniqueIds(db.inbox)
    ensures var db' := Handle(db, msg, f).db;
      && Inv(db'.tables) && UniqueIds(db'.inbox) && |db'.inbox| == |db.inbox|
      && forall k :: 0 <= k < |db.inbox| && db.inbox[k].id != msg.id ==> db'.inbox[k] == db.inbox[k]
  {
    var decoded := Unmarshal.Decode(msg.payload);
    var order := if decoded.Success? then Some(decoded.value) else None;
    var db1 := if decoded.Failure? then MarkIn(db, msg.id) else db;
    MarkOnlyMatching(db.inbox, msg.id);
    MarkOnlyMatching(db1.inbox, msg.id);
    StoreKeepsInv(db1.tables, order, f.store);
    var stored := OrderTables.Store(db1.tables, order, f.store);
    var db' := Handle(db, msg, f).db;
    if decoded.Failure? && f.markAfterDecode {
      assert db' == db;
    } else if stored.0.StoreOk? {
      assert db' == db1.(tables := stored.1);
    } else if stored.0.StorePanic? || f.markAfterStore {
      assert db' == db1;
    } else {
      assert db' == MarkIn(db1, msg.id);
    }
  }

  /** The ids of the messages from position `i` on. */
  function IdsFrom(msgs: seq<InboxMessage>, i: nat): set<string> {
    set j | i <= j < |msgs| :: msgs[j].id
  }

  /**
    Over the whole loop the database constraints hold, and every inbox row
    whose id is not among the batch's messages is left as it was.
   */
  lemma {:induction false} DrainKeeps(db: Db, msgs: seq<InboxMessage>, faults: seq<MessageFaults>, i: nat)
    requires i <= |msgs|
    requires Inv(db.tables) && UniqueIds(db.inbox)
    decreases |msgs| - i
    ensures var db' := Drain(db, msgs, faults, i).1;
      && Inv(db'.tables) && UniqueIds(db'.inbox) && |db'.inbox| == |db.inbox|
      && forall k :: 0 <= k < |db.inbox| && db.inbox[k].id !in IdsFrom(msgs, i) ==> db'.inbox[k] == db.inbox[k]
  {
    if i < |msgs| {
      HandleKeeps(db, msgs[i], FaultsAt(faults, i));
      assert msgs[i].id in IdsFrom(msgs, i);
      match Handle(db, msgs[i], FaultsAt(faults, i))
      case Stop(_, _) =>
      case Next(db') =>
        DrainKeeps(db', msgs, faults, i + 1);
        assert IdsFrom(msgs, i + 1) <= IdsFrom(msgs, i);
    }
  }

  /** A batch keeps the constraints and changes no inbox row outside the batch. */
  lemma BatchTouchesOnlyFetched(db: Db, fetchFails: bool, faults: seq<MessageFaults>)
    requires Inv(db.tables) && UniqueIds(db.inbox)
    ensures var db' := Batch(db, fetchFails, faults).1;
      && Inv(db'.tables) && UniqueIds(db'.inbox) && |db'.inbox| == |db.inbox|
      && forall k :: 0 <= k < |db.inbox| && db.inbox[k].id !in IdsFrom(Batched(db), 0) ==> db'.inbox[k] == db.inbox[k]
  {
    if !fetchFails {
      DrainKeeps(db, Batched(db), faults, 0);
    }
  }

  /**
    A batch that stops early does not look at the later messages: its
    outcome and database are those of the messages up to the stop.
   */
  lemma {:induction false} StopIgnoresLater(db: Db, msgs: seq<InboxMessage>, faults: seq<MessageFaults>, i: nat, n: nat)
    requires i <= n <= |msgs|
    requires Drain(db, msgs[..n], faults, i).0 != Completed
    decreases n - i
    ensures Drain(db, msgs, faults, i) == Drain(db, msgs[..n], faults, i)
  {
    assert msgs[..n][i..] == msgs[i..n];
    if i < n {
      assert msgs[..n][i] == msgs[i];
      match Handle(db, msgs[i], FaultsAt(faults, i))
      case Stop(_, _) =>
      case Next(db') =>
        StopIgnoresLater(db', msgs, faults, i + 1, n);
    }
  }

  /** Positions where the database lets the marks succeed. */
  predicate MarksSucceed(faults: seq<MessageFaults>, msgs: seq<InboxMessage>) {
    forall i :: 0 <= i < |msgs| ==> !FaultsAt(faults, i).markAfterDecode && !FaultsAt(faults, i).markAfterStore
  }

  /** Without a failing mark the loop never ends in an error: it completes, or a nil order aborts it. */
  lemma {:induction false} NoMarkFaultNoError(db: Db, msgs: seq<InboxMessage>, faults: seq<MessageFaults>, i: nat)
    requires i <= |msgs| && MarksSucceed(faults, msgs)
    decreases |msgs| - i
    ensures !Drain(db, msgs, faults, i).0.Failed?
  {
    if i < |msgs| {
      match Handle(db, msgs[i], FaultsAt(faults, i))
      case Stop(_, _) =>
      case Next(db') =>
        NoMarkFaultNoError(db', msgs, faults, i + 1);
    }
  }

  /** Without a failing mark and with every payload decodable, the loop completes. */
  lemma {:induction false} DecodableCompletes(db: Db, msgs: seq<InboxMessage>, faults: seq<MessageFaults>, i: nat)
    requires i <= |msgs| && MarksSucceed(faults, msgs)
    requires forall j :: 0 <= j < |msgs| ==> Unmarshal.Decode(msgs[j].payload).Success?
    decreases |msgs| - i
    ensures Drain(db, msgs, faults, i).0 == Completed
  {
    if i < |msgs| {
      match Handle(db, msgs[i], FaultsAt(faults, i))
      case Stop(_, _) =>
      case Next(db') =>
        DecodableCompletes(db', msgs, faults, i + 1);
    }
  }
}

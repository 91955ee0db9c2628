/**
  The staging table `inbox(message_id, topic, payload, created_at,
  processed)`, as the three statements of the repository change and read it.
  Rows are kept in insertion order; `message_id` is the table's key.
 */
module Inbox {
  import opened Common
  import opened Wire
  import Seqs

  datatype InboxRow = InboxRow(id: string, topic: string, payload: Payload, createdAt: int, processed: bool)

  /** What the fetch query selects of a row: `message_id, topic, payload`. */
  datatype InboxMessage = InboxMessage(id: string, topic: string, payload: Payload)

  predicate HasId(rows: seq<InboxRow>, id: string) {
    exists i :: 0 <= i < |rows| && rows[i].id == id
  }

  /** The key constraint on `message_id`. */
  predicate UniqueIds(rows: seq<InboxRow>) {
    forall i, j :: 0 <= i < j < |rows| ==> rows[i].id != rows[j].id
  }

  /** The message has a row and that row is flagged processed. */
  predicate Done(rows: seq<InboxRow>, id: string) {
    exists i :: 0 <= i < |rows| && rows[i].id == id && rows[i].processed
  }

  /** `INSERT ... VALUES (id, topic, payload, now, false) ON CONFLICT (message_id) DO NOTHING`. */
  function Saved(rows: seq<InboxRow>, id: string, topic: string, payload: Payload, now: int): (r: seq<InboxRow>)
    ensures UniqueIds(rows) ==> UniqueIds(r)
    ensures HasId(r, id)
  {
    if HasId(rows, id) then rows
    else
      var r := rows + [InboxRow(id, topic, payload, now, false)];
      assert r[|rows|].id == id;
      r
  }

  predicate IsPending(row: InboxRow) {
    !row.processed
  }

  function CreatedAt(row: InboxRow): int {
    row.createdAt
  }

  /** `WHERE processed = false`. */
  function Pending(rows: seq<InboxRow>): seq<InboxRow> {
    Seqs.Filter(rows, IsPending)
  }

  /** The rows the fetch query returns: `WHERE processed = false ORDER BY created_at LIMIT limit`. */
  function Selected(rows: seq<InboxRow>, limit: nat): seq<InboxRow> {
    Seqs.Take(Seqs.SortBy(Pending(rows), CreatedAt), limit)
  }

  function MessageOf(row: InboxRow): InboxMessage {
    InboxMessage(row.id, row.topic, row.payload)
  }

  function Messages(rows: seq<InboxRow>): (msgs: seq<InboxMessage>)
    ensures |msgs| == |rows|
  {
    seq(|rows|, i requires 0 <= i < |rows| => MessageOf(rows[i]))
  }

  /** The result of `FetchUnprocessedInboxMessages(limit)`; the database rejects a negative LIMIT. */
  function Fetched(rows: seq<InboxRow>, limit: int): (r: Result<seq<InboxMessage>>)
    ensures r.Success? <==> limit >= 0
    ensures r.Success? ==> |r.value| <= limit
  {
    if limit < 0 then Failure(InboxFetchFailed) else Success(Messages(Selected(rows, limit)))
  }

  /** `UPDATE inbox SET processed = true WHERE message_id = id`. */
  function Marked(rows: seq<InboxRow>, id: string): (r: seq<InboxRow>)
    ensures |r| == |rows|
  {
    seq(|rows|, i requires 0 <= i < |rows| =>
      if rows[i].id == id then rows[i].(processed := true) else rows[i])
  }

  // ---------------------------------------------------------------- save

  /** Saving a new id appends exactly one row, unprocessed, and keeps every existing row. */
  lemma SaveNew(rows: seq<InboxRow>, id: string, topic: string, payload: Payload, now: int)
    requires !HasId(rows, id)
    ensures var r := Saved(rows, id, topic, payload, now);
      && |r| == |rows| + 1
      && r[..|rows|] == rows
      && r[|rows|] == InboxRow(id, topic, payload, now, false)
  {
    assert (rows + [InboxRow(id, topic, payload, now, false)])[..|rows|] == rows;
  }

  /** Saving an id that is already present changes nothing: topic, payload and flag stay as they were. */
  lemma SaveExisting(rows: seq<InboxRow>, id: string, topic: string, payload: Payload, now: int)
    requires HasId(rows, id)
    ensures Saved(rows, id, topic, payload, now) == rows
  {
  }

  // ---------------------------------------------------------------- fetch

  /** Only unprocessed rows of the table are fetched. */
  lemma FetchOnlyUnprocessed(rows: seq<InboxRow>, limit: nat)
    ensures forall k :: 0 <= k < |Selected(rows, limit)| ==>
      Selected(rows, limit)[k] in rows && !Selected(rows, limit)[k].processed
  {
    var pending := Pending(rows);
    Seqs.SortBySorted(pending, CreatedAt);
    var sel := Selected(rows, limit);
    forall k | 0 <= k < |sel|
      ensures sel[k] in rows && !sel[k].processed
    {
      var sorted := Seqs.SortBy(pending, CreatedAt);
      assert sel[k] == sorted[k];
      assert sorted[k] in multiset(sorted);
      var j :| 0 <= j < |pending| && pending[j] == sel[k];
    }
  }

  /** The fetched rows come oldest first. */
  lemma FetchAscending(rows: seq<InboxRow>, limit: nat)
    ensures forall i, j :: 0 <= i < j < |Selected(rows, limit)| ==>
      Selected(rows, limit)[i].createdAt <= Selected(rows, limit)[j].createdAt
  {
    var sorted := Seqs.SortBy(Pending(rows), CreatedAt);
    Seqs.SortBySorted(Pending(rows), CreatedAt);
    var sel := Selected(rows, limit);
    forall i, j | 0 <= i < j < |sel|
      ensures sel[i].createdAt <= sel[j].createdAt
    {
      assert sel[i] == sorted[i] && sel[j] == sorted[j];
    }
  }

  /** Exactly `limit` rows are fetched, or every unprocessed row when there are fewer. */
  lemma FetchCount(rows: seq<InboxRow>, limit: nat)
    ensures |Selected(rows, limit)| == if limit < |Pending(rows)| then limit else |Pending(rows)|
  {
    Seqs.SortBySorted(Pending(rows), CreatedAt);
    assert |multiset(Seqs.SortBy(Pending(rows), CreatedAt))| == |multiset(Pending(rows))|;
  }

  /** The fetched rows are the oldest unprocessed ones: no unprocessed row left behind is older. */
  lemma FetchOldest(rows: seq<InboxRow>, limit: nat, x: InboxRow, y: InboxRow)
    requires x in Selected(rows, limit)
    requires y in rows && !y.processed && y !in Selected(rows, limit)
    ensures x.createdAt <= y.createdAt
  {
    var k :| 0 <= k < |rows| && rows[k] == y;
    assert y in Pending(rows);
    Seqs.SmallestFirst(Pending(rows), CreatedAt, limit, x, y);
  }

  /** A processed row is never fetched, while the id stays unique. */
  lemma DoneNeverFetched(rows: seq<InboxRow>, id: string, limit: nat)
    requires UniqueIds(rows) && Done(rows, id)
    ensures forall k :: 0 <= k < |Messages(Selected(rows, limit))| ==> Messages(Selected(rows, limit))[k].id != id
  {
    FetchOnlyUnprocessed(rows, limit);
    var sel := Selected(rows, limit);
    forall k | 0 <= k < |sel|
      ensures sel[k].id != id
    {
      var i :| 0 <= i < |rows| && rows[i].id == id && rows[i].processed;
      var j :| 0 <= j < |rows| && rows[j] == sel[k];
      if j != i {
        assert rows[j].id != rows[i].id;
      }
    }
  }

  // ---------------------------------------------------------------- mark

  /** Marking flips the flag of the rows with that id and leaves every other row as it was. */
  lemma MarkOnlyMatching(rows: seq<InboxRow>, id: string)
    ensures forall i :: 0 <= i < |rows| && rows[i].id != id ==> Marked(rows, id)[i] == rows[i]
    ensures forall i :: 0 <= i < |rows| && rows[i].id == id ==>
      Marked(rows, id)[i] == rows[i].(processed := true)
    ensures HasId(rows, id) ==> Done(Marked(rows, id), id)
    ensures UniqueIds(rows) ==> UniqueIds(Marked(rows, id))
  {
    if HasId(rows, id) {
      var i :| 0 <= i < |rows| && rows[i].id == id;
      assert Marked(rows, id)[i].processed;
    }
  }

  /** Marking twice is marking once. */
  lemma MarkIdempotent(rows: seq<InboxRow>, id: string)
    ensures Marked(Marked(rows, id), id) == Marked(rows, id)
  {
  }

  /** Marking an id that has no row changes nothing. */
  lemma MarkUnknown(rows: seq<InboxRow>, id: string)
    requires !HasId(rows, id)
    ensures Marked(rows, id) == rows
  {
    assert forall i :: 0 <= i < |rows| ==> rows[i].id != id;
  }

  /** Once processed, a message stays processed whatever is saved or marked afterwards. */
  lemma DoneStays(rows: seq<InboxRow>, id: string, other: string, topic: string, payload: Payload, now: int)
    requires Done(rows, id)
    ensures Done(Saved(rows, other, topic, payload, now), id)
    ensures Done(Marked(rows, other), id)
  {
    var i :| 0 <= i < |rows| && rows[i].id == id && rows[i].processed;
    assert Marked(rows, other)[i].id == id && Marked(rows, other)[i].processed;
    if !HasId(rows, other) {
      assert Saved(rows, other, topic, payload, now)[i] == rows[i];
    }
  }

  /** After `Mark(id)` no later fetch returns the message, even if the same id is saved again. */
  lemma MarkedNeverFetchedAgain(rows: seq<InboxRow>, id: string, topic: string, payload: Payload, now: int, limit: nat)
    requires UniqueIds(rows) && HasId(rows, id)
    ensures var after := Saved(Marked(rows, id), id, topic, payload, now);
      forall k :: 0 <= k < |Messages(Selected(after, limit))| ==> Messages(Selected(after, limit))[k].id != id
  {
    MarkOnlyMatching(rows, id);
    var marked := Marked(rows, id);
    DoneStays(marked, id, id, topic, payload, now);
    DoneNeverFetched(Saved(marked, id, topic, payload, now), id, limit);
  }
}

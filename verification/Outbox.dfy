/** The outbox publisher: one poll selects the oldest eligible rows, sends them and records the results. */
module Outbox {
  import opened Schema

  const MAX_RETRIES: nat := 10
  const MAX_BATCH_SIZE: nat := 50

  /** The columns of an outbox row that the publisher reads or writes. */
  datatype Row = Row(
    createdAt: Time, published: bool, publishedAt: Option<Time>, attempts: nat, lastError: Option<string>)

  function NewRow(createdAt: Time): Row {
    Row(createdAt, false, None, 0, None)
  }

  predicate Eligible(r: Row) {
    !r.published && r.attempts < MAX_RETRIES
  }

  /** The result of one producer.send. A send that raises may still have left a copy on the topic. */
  datatype SendResult = Sent(at: Time) | Raised(error: string, leftCopy: bool)

  predicate LeavesCopy(s: SendResult) {
    s.Sent? || s.leftCopy
  }

  function After(r: Row, s: SendResult): Row {
    match s
    case Sent(at) => r.(published := true, publishedAt := Some(at), lastError := None)
    case Raised(error, _) => r.(attempts := r.attempts + 1, lastError := Some(error))
  }

  /** A row is inserted ready to be sent, and stays so until it was sent or failed ten times. */
  lemma EligibleUntilTenFailures(createdAt: Time, failures: seq<SendResult>)
    requires forall f :: f in failures ==> f.Raised?
    ensures Eligible(NewRow(createdAt)) && NewRow(createdAt).createdAt == createdAt
    ensures Eligible(AfterAll(NewRow(createdAt), failures)) <==> |failures| < 10
  {
    FailuresCount(NewRow(createdAt), failures);
  }

  function AfterAll(r: Row, sends: seq<SendResult>): Row {
    if sends == [] then r else After(AfterAll(r, sends[..|sends| - 1]), sends[|sends| - 1])
  }

  lemma {:induction false} FailuresCount(r: Row, failures: seq<SendResult>)
    requires forall f :: f in failures ==> f.Raised?
    ensures AfterAll(r, failures).attempts == r.attempts + |failures|
    ensures AfterAll(r, failures).published == r.published
  {
    if failures != [] {
      assert failures[|failures| - 1] in failures;
      FailuresCount(r, failures[..|failures| - 1]);
    }
  }

  // ---------------------------------------------------------------- the query

  ghost predicate Distinct(batch: seq<nat>) {
    forall i, j :: 0 <= i < j < |batch| ==> batch[i] != batch[j]
  }

  /** `batch` is an answer to the query: eligible unlocked rows, oldest first, at most 50, and as many
      as there are. Rows of one age may come in any order. */
  ghost predicate IsBatch(rows: seq<Row>, locked: set<nat>, batch: seq<nat>) {
    && Distinct(batch)
    && |batch| <= MAX_BATCH_SIZE
    && (forall k :: 0 <= k < |batch| ==> batch[k] < |rows| && Eligible(rows[batch[k]]) && batch[k] !in locked)
    && (forall i, j :: 0 <= i < j < |batch| ==> rows[batch[i]].createdAt <= rows[batch[j]].createdAt)
    && (forall i :: 0 <= i < |rows| && Eligible(rows[i]) && i !in locked && i !in batch ==>
          |batch| == MAX_BATCH_SIZE && forall b :: b in batch ==> rows[b].createdAt <= rows[i].createdAt)
  }

  function Oldest(rows: seq<Row>, locked: set<nat>): (r: Option<nat>)
    ensures r.None? ==> forall i :: 0 <= i < |rows| ==> !Eligible(rows[i]) || i in locked
    ensures r.Some? ==> r.value < |rows| && Eligible(rows[r.value]) && r.value !in locked
    ensures r.Some? ==> forall i :: 0 <= i < |rows| && Eligible(rows[i]) && i !in locked ==>
              rows[r.value].createdAt <= rows[i].createdAt
  {
    if rows == [] then None
    else
      var last := |rows| - 1;
      var best := Oldest(rows[..last], locked);
      if Eligible(rows[last]) && last !in locked && (best.None? || rows[last].createdAt < rows[best.value].createdAt)
      then Some(last) else best
  }

  function OldestRows(rows: seq<Row>, locked: set<nat>, limit: nat): seq<nat>
    decreases limit
  {
    if limit == 0 then []
    else
      match Oldest(rows, locked)
      case None => []
      case Some(i) => [i] + OldestRows(rows, locked + {i}, limit - 1)
  }

  lemma {:induction false} OldestRowsAreBatch(rows: seq<Row>, locked: set<nat>, limit: nat)
    ensures var batch := OldestRows(rows, locked, limit);
            && Distinct(batch) && |batch| <= limit
            && (forall k :: 0 <= k < |batch| ==> batch[k] < |rows| && Eligible(rows[batch[k]]) && batch[k] !in locked)
            && (forall i, j :: 0 <= i < j < |batch| ==> rows[batch[i]].createdAt <= rows[batch[j]].createdAt)
            && (forall i :: 0 <= i < |rows| && Eligible(rows[i]) && i !in locked && i !in batch ==>
                  |batch| == limit && forall b :: b in batch ==> rows[b].createdAt <= rows[i].createdAt)
    decreases limit
  {
    if limit > 0 && Oldest(rows, locked).Some? {
      var i := Oldest(rows, locked).value;
      OldestRowsAreBatch(rows, locked + {i}, limit - 1);
      var rest := OldestRows(rows, locked + {i}, limit - 1);
      forall k | 0 <= k < |rest| ensures rest[k] != i && rows[i].createdAt <= rows[rest[k]].createdAt {
        assert rest[k] in rest;
      }
    }
  }

  /** A batch has at most 50 rows, and fewer only if it has all there are. */
  lemma BatchIsFull(rows: seq<Row>, locked: set<nat>, batch: seq<nat>)
    requires IsBatch(rows, locked, batch)
    ensures |batch| <= 50
    ensures |batch| < 50 ==> forall i :: 0 <= i < |rows| && Eligible(rows[i]) && i !in locked ==> i in batch
  {
  }

  /** The query always has an answer. */
  lemma BatchExists(rows: seq<Row>, locked: set<nat>)
    ensures IsBatch(rows, locked, OldestRows(rows, locked, MAX_BATCH_SIZE))
  {
    OldestRowsAreBatch(rows, locked, MAX_BATCH_SIZE);
  }

  // ---------------------------------------------------------------- one poll

  /** Position of row `i` in the batch. */
  function PositionOf(batch: seq<nat>, i: nat): (r: Option<nat>)
    ensures r.None? <==> i !in batch
    ensures r.Some? ==> r.value < |batch| && batch[r.value] == i
  {
    if batch == [] then None
    else if batch[|batch| - 1] == i then Some(|batch| - 1)
    else PositionOf(batch[..|batch| - 1], i)
  }

  /** The rows after a committed poll: each row of the batch records the result of its send. */
  function Polled(rows: seq<Row>, batch: seq<nat>, sends: seq<SendResult>): (r: seq<Row>)
    requires |sends| == |batch|
    ensures |r| == |rows|
    ensures forall i :: 0 <= i < |rows| && i !in batch ==> r[i] == rows[i]
  {
    seq(|rows|, i requires 0 <= i < |rows| =>
      match PositionOf(batch, i)
      case None => rows[i]
      case Some(k) => After(rows[i], sends[k]))
  }

  lemma PolledAt(rows: seq<Row>, batch: seq<nat>, sends: seq<SendResult>, k: nat)
    requires |sends| == |batch| && Distinct(batch) && k < |batch| && batch[k] < |rows|
    ensures Polled(rows, batch, sends)[batch[k]] == After(rows[batch[k]], sends[k])
  {
    assert batch[k] in batch;
  }

  function SentCount(sends: seq<SendResult>): nat {
    if sends == [] then 0 else SentCount(sends[..|sends| - 1]) + if sends[|sends| - 1].Sent? then 1 else 0
  }

  function PublishedIn(rows: seq<Row>): nat {
    if rows == [] then 0
    else PublishedIn(rows[..|rows| - 1]) + if rows[|rows| - 1].published then 1 else 0
  }

  lemma {:induction false} PublishedUpdate(rows: seq<Row>, i: nat, row: Row)
    requires i < |rows| && !rows[i].published
    ensures PublishedIn(rows[i := row]) == PublishedIn(rows) + if row.published then 1 else 0
  {
    var init := rows[..|rows| - 1];
    if i < |init| {
      PublishedUpdate(init, i, row);
      assert rows[i := row][..|rows| - 1] == init[i := row];
    } else {
      assert rows[i := row][..|rows| - 1] == init;
    }
  }

  lemma PolledLast(rows: seq<Row>, batch: seq<nat>, sends: seq<SendResult>)
    requires |sends| == |batch| > 0 && Distinct(batch) && forall k :: 0 <= k < |batch| ==> batch[k] < |rows|
    ensures var n := |batch| - 1;
            Polled(rows, batch, sends)
            == Polled(rows, batch[..n], sends[..n])[batch[n] := After(rows[batch[n]], sends[n])]
  {
    var n := |batch| - 1;
    forall i | 0 <= i < |rows|
      ensures Polled(rows, batch, sends)[i]
              == Polled(rows, batch[..n], sends[..n])[batch[n] := After(rows[batch[n]], sends[n])][i]
    {
      if i in batch[..n] {
        var k := PositionOf(batch[..n], i).value;
        assert batch[k] == i;
        PolledAt(rows, batch, sends, k);
        PolledAt(rows, batch[..n], sends[..n], k);
      } else if i == batch[n] {
        PolledAt(rows, batch, sends, n);
      }
    }
  }

  /** One more row of the batch. */
  lemma PolledNext(rows: seq<Row>, batch: seq<nat>, sends: seq<SendResult>, k: nat)
    requires k < |batch| == |sends| && Distinct(batch) && forall j :: 0 <= j < |batch| ==> batch[j] < |rows|
    ensures var before := Polled(rows, batch[..k], sends[..k]);
            && before[batch[k]] == rows[batch[k]]
            && Polled(rows, batch[..k + 1], sends[..k + 1]) == before[batch[k] := After(rows[batch[k]], sends[k])]
    ensures SentCount(sends[..k + 1]) == SentCount(sends[..k]) + if sends[k].Sent? then 1 else 0
  {
    assert batch[..k + 1][..k] == batch[..k] && sends[..k + 1][..k] == sends[..k];
    assert batch[k] !in batch[..k];
    PolledLast(rows, batch[..k + 1], sends[..k + 1]);
  }

  /** A poll publishes one row per send that succeeded. */
  lemma {:induction false} PolledPublishes(rows: seq<Row>, batch: seq<nat>, sends: seq<SendResult>)
    requires |sends| == |batch| && Distinct(batch)
    requires forall k :: 0 <= k < |batch| ==> batch[k] < |rows| && !rows[batch[k]].published
    ensures PublishedIn(Polled(rows, batch, sends)) == PublishedIn(rows) + SentCount(sends)
  {
    if batch == [] {
      assert Polled(rows, batch, sends) == rows;
    } else {
      var n := |batch| - 1;
      var before := Polled(rows, batch[..n], sends[..n]);
      PolledPublishes(rows, batch[..n], sends[..n]);
      PolledLast(rows, batch, sends);
      assert batch[n] !in batch[..n] && before[batch[n]] == rows[batch[n]];
      PublishedUpdate(before, batch[n], After(rows[batch[n]], sends[n]));
    }
  }

  /** The table of outbox rows, with the poll that updates them in place. */
  class OutboxTable {
    var rows: seq<Row>

    constructor ()
      ensures rows == []
    {
      rows := [];
    }

    /** A poll that commits. `locked` are the rows of other publishers' open batches, `batch` is the
        database's answer to the query, `sends` what the producer does with each row.
        The sends of one poll do not depend on the rows' columns, so they may be fixed up front. */
    method PublishPending(ghost locked: set<nat>, batch: seq<nat>, sends: seq<SendResult>) returns (published: nat)
      requires IsBatch(rows, locked, batch) && |sends| == |batch|
      modifies this
      ensures rows == Polled(old(rows), batch, sends)
      ensures published == SentCount(sends)
    {
      published := 0;
      assert Polled(rows, batch[..0], sends[..0]) == rows;
      for k := 0 to |batch|
        invariant rows == Polled(old(rows), batch[..k], sends[..k])
        invariant published == SentCount(sends[..k])
      {
        PolledNext(old(rows), batch, sends, k);
        var event, sent := Publish(rows[batch[k]], sends[k]);
        published := published + if sent then 1 else 0;
        rows := rows[batch[k] := event];
      }
      assert sends[..|batch|] == sends && batch[..|batch|] == batch;
    }

    /** One round of the loop: send the row and set its columns. */
    static method Publish(row: Row, result: SendResult) returns (event: Row, sent: bool)
      ensures event == After(row, result) && sent == result.Sent?
      ensures sent ==> event.published && event.publishedAt == Some(result.at) && event.lastError == None
                       && event.attempts == row.attempts
      ensures !sent ==> event.published == row.published && event.publishedAt == row.publishedAt
                        && event.lastError == Some(result.error) && event.attempts == row.attempts + 1
      ensures event.createdAt == row.createdAt
    {
      event := row;
      match result {
        case Sent(at) =>
          event := event.(published := true);
          event := event.(publishedAt := Some(at));
          event := event.(lastError := None);
          sent := true;
        case Raised(error, _) =>
          event := event.(attempts := event.attempts + 1);
          event := event.(lastError := Some(error));
          sent := false;
      }
    }
  }
}

/** No outbox row starves: with one publisher, a row with k older eligible rows is published or has used
    up its attempts after at most k / 5 + 10 committed polls. */
module Starvation {
  import opened Schema
  import opened Outbox

  /** What happens to the table: a committed poll, a poll that rolls back, or new rows. */
  datatype Event =
    | Poll(batch: seq<nat>, sends: seq<SendResult>)
    | RolledBackPoll
    | Insert(rows: seq<Row>)

  ghost predicate Possible(rows: seq<Row>, e: Event) {
    match e
    case Poll(batch, sends) => IsBatch(rows, {}, batch) && |sends| == |batch|
    case _ => true
  }

  function Occur(rows: seq<Row>, e: Event): seq<Row>
    requires e.Poll? ==> |e.sends| == |e.batch|
  {
    match e
    case Poll(batch, sends) => Polled(rows, batch, sends)
    case RolledBackPoll => rows
    case Insert(added) => rows + added
  }

  /** `history` may happen to a table that starts as `rows`, and every new row is younger than row `r`. */
  ghost predicate History(rows: seq<Row>, history: seq<Event>, r: nat)
    requires r < |rows|
    decreases |history|, 0
  {
    history == [] ||
    var last := history[|history| - 1];
    && History(rows, history[..|history| - 1], r)
    && Possible(Table(rows, history[..|history| - 1], r), last)
    && (last.Insert? ==> forall added :: added in last.rows ==> added.createdAt > rows[r].createdAt)
  }

  ghost function Table(rows: seq<Row>, history: seq<Event>, r: nat): (t: seq<Row>)
    requires r < |rows| && History(rows, history, r)
    ensures |rows| <= |t|
    ensures forall i :: 0 <= i < |rows| ==> t[i].createdAt == rows[i].createdAt
    decreases |history|, 1
  {
    if history == [] then rows
    else Occur(Table(rows, history[..|history| - 1], r), history[|history| - 1])
  }

  function Polls(history: seq<Event>): nat {
    if history == [] then 0
    else Polls(history[..|history| - 1]) + if history[|history| - 1].Poll? then 1 else 0
  }

  /** Row `i` stands before row `r` in the queue. Rows of r's own age may be served first. */
  predicate Ahead(rows: seq<Row>, r: nat, i: nat)
    requires r < |rows| && i < |rows|
  {
    i != r && Eligible(rows[i]) && rows[i].createdAt <= rows[r].createdAt
  }

  /** The number of rows ahead of `r` among the first `n`. */
  function CountAhead(rows: seq<Row>, r: nat, n: nat): nat
    requires r < |rows| && n <= |rows|
  {
    if n == 0 then 0 else CountAhead(rows, r, n - 1) + if Ahead(rows, r, n - 1) then 1 else 0
  }

  /** The attempts that the rows ahead of `r` have left. */
  function Budget(rows: seq<Row>, r: nat, n: nat): nat
    requires r < |rows| && n <= |rows|
  {
    if n == 0 then 0
    else Budget(rows, r, n - 1) + if Ahead(rows, r, n - 1) then MAX_RETRIES - rows[n - 1].attempts else 0
  }

  lemma {:induction false} BudgetBound(rows: seq<Row>, r: nat, n: nat)
    requires r < |rows| && n <= |rows|
    ensures Budget(rows, r, n) <= 10 * CountAhead(rows, r, n)
  {
    if n > 0 { BudgetBound(rows, r, n - 1); }
  }

  // ---------------------------------------------------------------- effect of one event

  /** Row `i` after the poll: if it is still ahead of `r` it was before, and being served cost it an attempt. */
  predicate SpendsRow(rows: seq<Row>, rows': seq<Row>, batch: seq<nat>, r: nat, i: nat)
    requires r < |rows| == |rows'| && i < |rows|
  {
    Ahead(rows', r, i) ==> Ahead(rows, r, i) && rows'[i].attempts == rows[i].attempts + if i in batch then 1 else 0
  }

  lemma RowSpends(rows: seq<Row>, batch: seq<nat>, sends: seq<SendResult>, r: nat, i: nat)
    requires IsBatch(rows, {}, batch) && |sends| == |batch| && r < |rows| && i < |rows|
    ensures SpendsRow(rows, Polled(rows, batch, sends), batch, r, i)
  {
  }

  /** The rows of the batch among the first `n` that are ahead of `r`. */
  function Served(rows: seq<Row>, batch: seq<nat>, r: nat, n: nat): set<nat>
    requires r < |rows| && n <= |rows|
  {
    if n == 0 then {}
    else Served(rows, batch, r, n - 1) + if n - 1 in batch && Ahead(rows, r, n - 1) then {n - 1} else {}
  }

  lemma {:induction false} ServedMembers(rows: seq<Row>, batch: seq<nat>, r: nat, n: nat)
    requires r < |rows| && n <= |rows|
    ensures forall b: nat :: b in Served(rows, batch, r, n) <==> b < n && b in batch && Ahead(rows, r, b)
  {
    if n > 0 { ServedMembers(rows, batch, r, n - 1); }
  }

  /** A poll takes at least one attempt from the budget for every row of the batch that is ahead. */
  lemma {:induction false} PollSpends(rows: seq<Row>, rows': seq<Row>, batch: seq<nat>, r: nat, n: nat)
    requires r < |rows| == |rows'| && n <= |rows|
    requires forall i :: 0 <= i < |rows| ==> SpendsRow(rows, rows', batch, r, i)
    ensures Budget(rows', r, n) + |Served(rows, batch, r, n)| <= Budget(rows, r, n)
  {
    if n > 0 {
      PollSpends(rows, rows', batch, r, n - 1);
      ServedMembers(rows, batch, r, n - 1);
      assert SpendsRow(rows, rows', batch, r, n - 1);
    }
  }

  /** Distinct positions are as many as they look. */
  lemma {:induction false} BatchFits(batch: seq<nat>, s: set<nat>)
    requires Distinct(batch) && forall b :: b in batch ==> b in s
    ensures |batch| <= |s|
  {
    if batch != [] {
      var init, last := batch[..|batch| - 1], batch[|batch| - 1];
      assert last in batch && forall b :: b in init ==> b in batch && b != last;
      BatchFits(init, s - {last});
    }
  }

  /** If the batch passes over an eligible row, fifty rows ahead of it were served. */
  lemma PassedOver(rows: seq<Row>, batch: seq<nat>, sends: seq<SendResult>, r: nat)
    requires IsBatch(rows, {}, batch) && |sends| == |batch|
    requires r < |rows| && Eligible(rows[r]) && r !in batch
    ensures Budget(Polled(rows, batch, sends), r, |rows|) + MAX_BATCH_SIZE <= Budget(rows, r, |rows|)
  {
    forall i | 0 <= i < |rows| { RowSpends(rows, batch, sends, r, i); }
    PollSpends(rows, Polled(rows, batch, sends), batch, r, |rows|);
    ServedMembers(rows, batch, r, |rows|);
    BatchFits(batch, Served(rows, batch, r, |rows|));
  }

  /** Younger rows do not count. */
  lemma {:induction false} YoungerRowsDoNotCount(rows: seq<Row>, added: seq<Row>, r: nat, n: nat)
    requires r < |rows| && n <= |rows + added|
    requires forall a :: a in added ==> a.createdAt > rows[r].createdAt
    ensures Budget(rows + added, r, n) == Budget(rows, r, if n <= |rows| then n else |rows|)
  {
    if n > 0 {
      YoungerRowsDoNotCount(rows, added, r, n - 1);
      if n > |rows| {
        assert (rows + added)[n - 1] in added;
      }
    }
  }

  // ---------------------------------------------------------------- the bound

  ghost predicate Settled(row: Row) {
    row.published || row.attempts >= 10
  }

  /** While row `r` waits, every poll either used one of its attempts or fifty of those ahead. */
  lemma {:induction false} WaitingCosts(rows: seq<Row>, history: seq<Event>, r: nat)
    requires r < |rows| && Eligible(rows[r]) && History(rows, history, r)
    ensures var t := Table(rows, history, r);
            Eligible(t[r]) ==>
              50 * Polls(history) + 50 * rows[r].attempts + Budget(t, r, |t|)
              <= 50 * t[r].attempts + Budget(rows, r, |rows|)
  {
    if history != [] {
      var init, last := history[..|history| - 1], history[|history| - 1];
      WaitingCosts(rows, init, r);
      var t, t' := Table(rows, init, r), Table(rows, history, r);
      match last
      case RolledBackPoll =>
      case Insert(added) =>
        YoungerRowsDoNotCount(t, added, r, |t'|);
      case Poll(batch, sends) =>
        if Eligible(t'[r]) {
          if r in batch {
            forall i | 0 <= i < |t| { RowSpends(t, batch, sends, r, i); }
            PollSpends(t, t', batch, r, |t|);
          } else {
            PassedOver(t, batch, sends, r);
          }
        }
    }
  }

  /** Bounded starvation, whatever younger rows arrive, whichever sends fail and however rows of one age
      are ordered. */
  lemma StarvationBound(rows: seq<Row>, history: seq<Event>, r: nat)
    requires r < |rows| && Eligible(rows[r]) && History(rows, history, r)
    requires Polls(history) >= CountAhead(rows, r, |rows|) / 5 + 10
    ensures Settled(Table(rows, history, r)[r])
  {
    WaitingCosts(rows, history, r);
    BudgetBound(rows, r, |rows|);
  }
}

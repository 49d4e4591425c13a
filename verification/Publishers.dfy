/** Any number of publishers at once. A batch is open from its query to its commit or rollback; its rows
    stay locked; sends reach the topic at once, the columns only change at the commit. */
module Publishers {
  import opened Schema
  import opened Outbox

  /** An open batch and the results of its sends so far. */
  datatype Batch = Batch(rows: seq<nat>, sends: seq<SendResult>)

  /** `topic` is the log of copies, by outbox row. `rolledBack` and `stray` are history variables: the
      copies sent by batches that rolled back, and those left by raising sends of committed batches. */
  datatype State = State(
    rows: seq<Row>, open: map<nat, Batch>, topic: seq<nat>, rolledBack: seq<nat>, stray: seq<nat>)

  const START := State([], map[], [], [], [])

  datatype Action =
    | Insert(createdAt: Time)
    | Select(publisher: nat, batch: seq<nat>)
    | Send(publisher: nat, result: SendResult)
    | Commit(publisher: nat)
    | Rollback(publisher: nat)

  ghost function Locked(open: map<nat, Batch>): set<nat> {
    set w, i | w in open && i in open[w].rows :: i
  }

  /** The send counts as a copy, or, with `strays`, as a copy left by a send that raised. */
  predicate Counts(result: SendResult, strays: bool) {
    LeavesCopy(result) && (strays ==> result.Raised?)
  }

  /** The rows of which the first `n` sends of the batch put a copy (a stray copy) on the topic. */
  function CopiesOf(b: Batch, n: nat, strays: bool): seq<nat>
    requires n <= |b.sends| <= |b.rows|
  {
    if n == 0 then []
    else CopiesOf(b, n - 1, strays) + if Counts(b.sends[n - 1], strays) then [b.rows[n - 1]] else []
  }

  ghost predicate Enabled(s: State, a: Action) {
    match a
    case Insert(_) => true
    case Select(w, batch) => w !in s.open && IsBatch(s.rows, Locked(s.open), batch)
    case Send(w, _) => w in s.open && |s.open[w].sends| < |s.open[w].rows|
    case Commit(w) => w in s.open && |s.open[w].sends| == |s.open[w].rows|
    case Rollback(w) => w in s.open && |s.open[w].sends| <= |s.open[w].rows|
  }

  function Next(s: State, a: Action): State
    requires a.Send? ==> a.publisher in s.open && |s.open[a.publisher].sends| < |s.open[a.publisher].rows|
    requires a.Commit? ==> a.publisher in s.open && |s.open[a.publisher].sends| == |s.open[a.publisher].rows|
    requires a.Rollback? ==> a.publisher in s.open && |s.open[a.publisher].sends| <= |s.open[a.publisher].rows|
  {
    match a
    case Insert(createdAt) => s.(rows := s.rows + [NewRow(createdAt)])
    case Select(w, batch) => s.(open := s.open[w := Batch(batch, [])])
    case Send(w, result) =>
      var b := s.open[w];
      s.(open := s.open[w := b.(sends := b.sends + [result])],
         topic := s.topic + if LeavesCopy(result) then [b.rows[|b.sends|]] else [])
    case Commit(w) =>
      var b := s.open[w];
      s.(rows := Polled(s.rows, b.rows, b.sends), open := s.open - {w}, stray := s.stray + CopiesOf(b, |b.sends|, true))
    case Rollback(w) =>
      var b := s.open[w];
      s.(open := s.open - {w}, rolledBack := s.rolledBack + CopiesOf(b, |b.sends|, false))
  }

  /** Disabled actions leave the state as it is. */
  ghost function Step(s: State, a: Action): State {
    if Enabled(s, a) then Next(s, a) else s
  }

  ghost function Execute(actions: seq<Action>): State {
    if actions == [] then START
    else Step(Execute(actions[..|actions| - 1]), actions[|actions| - 1])
  }

  /** A send puts a copy on the topic at once if it succeeds, and may if it raises; the columns wait for the commit,
      and a rollback leaves the topic as it is. */
  lemma TopicGrowsExactly(s: State, w: nat, result: SendResult)
    requires w in s.open
    ensures Enabled(s, Send(w, result)) ==>
              var (s', row) := (Next(s, Send(w, result)), s.open[w].rows[|s.open[w].sends|]);
              && s'.topic == s.topic + (if result.Sent? || result.leftCopy then [row] else [])
              && s'.rows == s.rows
    ensures Enabled(s, Rollback(w)) ==> Next(s, Rollback(w)).topic == s.topic && Next(s, Rollback(w)).rows == s.rows
    ensures Enabled(s, Commit(w)) ==> Next(s, Commit(w)).topic == s.topic
  {
  }

  // ---------------------------------------------------------------- counting copies

  function Count(log: seq<nat>, i: nat): nat {
    if log == [] then 0 else Count(log[..|log| - 1], i) + if log[|log| - 1] == i then 1 else 0
  }

  lemma CountOne(log: seq<nat>, x: nat, i: nat)
    ensures Count(log + [x], i) == Count(log, i) + if x == i then 1 else 0
  {
    assert (log + [x])[..|log|] == log;
  }

  lemma {:induction false} CountConcat(a: seq<nat>, b: seq<nat>, i: nat)
    ensures Count(a + b, i) == Count(a, i) + Count(b, i)
  {
    if b == [] {
      assert a + b == a;
    } else {
      CountConcat(a, b[..|b| - 1], i);
      assert (a + b)[..|a + b| - 1] == a + b[..|b| - 1];
    }
  }

  lemma {:induction false} CountMember(log: seq<nat>, i: nat)
    ensures Count(log, i) > 0 <==> i in log
  {
    if log != [] { CountMember(log[..|log| - 1], i); }
  }

  /** Among its first `n` sends the batch put a (stray) copy of row `i` on the topic. */
  ghost predicate Left(b: Batch, n: nat, i: nat, strays: bool)
    requires n <= |b.sends| <= |b.rows|
  {
    exists k :: 0 <= k < n && b.rows[k] == i && Counts(b.sends[k], strays)
  }

  ghost predicate Copied(b: Batch, n: nat, i: nat)
    requires n <= |b.sends| <= |b.rows|
  {
    Left(b, n, i, false)
  }

  lemma LeftLast(b: Batch, n: nat, i: nat, strays: bool)
    requires 0 < n <= |b.sends| <= |b.rows| && Distinct(b.rows)
    ensures Left(b, n, i, strays)
            <==> Left(b, n - 1, i, strays) || (b.rows[n - 1] == i && Counts(b.sends[n - 1], strays))
    ensures Left(b, n - 1, i, strays) ==> b.rows[n - 1] != i
  {
  }

  lemma LeftAt(b: Batch, k: nat, strays: bool)
    requires k < |b.sends| <= |b.rows| && Distinct(b.rows)
    ensures Left(b, |b.sends|, b.rows[k], strays) <==> Counts(b.sends[k], strays)
  {
  }

  lemma {:induction false} CopiesCount(b: Batch, n: nat, i: nat, strays: bool)
    requires n <= |b.sends| <= |b.rows| && Distinct(b.rows)
    ensures Count(CopiesOf(b, n, strays), i) == if Left(b, n, i, strays) then 1 else 0
  {
    if n > 0 {
      CopiesCount(b, n - 1, i, strays);
      LeftLast(b, n, i, strays);
      if Counts(b.sends[n - 1], strays) {
        CountOne(CopiesOf(b, n - 1, strays), b.rows[n - 1], i);
      } else {
        assert CopiesOf(b, n, strays) == CopiesOf(b, n - 1, strays);
      }
    }
  }

  // ---------------------------------------------------------------- the invariant

  /** The batch holds distinct, eligible rows. */
  ghost predicate Holds(rows: seq<Row>, b: Batch) {
    && Distinct(b.rows) && |b.sends| <= |b.rows|
    && forall k :: 0 <= k < |b.rows| ==> b.rows[k] < |rows| && Eligible(rows[b.rows[k]])
  }

  ghost predicate Disjoint(a: Batch, b: Batch) {
    forall j, k :: 0 <= j < |a.rows| && 0 <= k < |b.rows| ==> a.rows[j] != b.rows[k]
  }

  ghost predicate Locking(s: State) {
    && (forall w :: w in s.open ==> Holds(s.rows, s.open[w]))
    && (forall v, w :: v in s.open && w in s.open && v != w ==> Disjoint(s.open[v], s.open[w]))
  }

  /** An open batch has put a copy of row `i` on the topic. */
  ghost predicate OpenCopy(open: map<nat, Batch>, i: nat) {
    exists w :: w in open && |open[w].sends| <= |open[w].rows| && Copied(open[w], |open[w].sends|, i)
  }

  /** Every copy on the topic is accounted for. */
  ghost predicate Accounted(s: State, i: nat)
    requires i < |s.rows|
  {
    Count(s.topic, i) == (if s.rows[i].published then 1 else 0) + (if OpenCopy(s.open, i) then 1 else 0)
                         + Count(s.rolledBack, i) + Count(s.stray, i)
  }

  ghost predicate RowBounds(s: State, i: nat)
    requires i < |s.rows|
  {
    && (s.rows[i].published ==> s.rows[i].attempts < MAX_RETRIES)
    && s.rows[i].attempts <= MAX_RETRIES
    && Count(s.stray, i) <= s.rows[i].attempts
    && (s.rows[i].published <==> s.rows[i].publishedAt.Some?)
    && (s.rows[i].lastError.Some? <==> !s.rows[i].published && s.rows[i].attempts > 0)
  }

  ghost predicate Inv(s: State) {
    && Locking(s)
    && (forall i :: 0 <= i < |s.rows| ==> Accounted(s, i))
    && (forall i :: 0 <= i < |s.rows| ==> RowBounds(s, i))
    && (forall i: nat :: i in s.topic ==> i < |s.rows|)
    && (forall i: nat :: i in s.rolledBack ==> i < |s.rows|)
    && (forall i: nat :: i in s.stray ==> i < |s.rows|)
  }

  lemma OpenCopyIsRow(s: State, i: nat)
    requires Locking(s)
    ensures OpenCopy(s.open, i) ==> i < |s.rows|
  {
    if OpenCopy(s.open, i) {
      var w :| w in s.open && |s.open[w].sends| <= |s.open[w].rows| && Copied(s.open[w], |s.open[w].sends|, i);
      assert Holds(s.rows, s.open[w]);
    }
  }

  lemma InsertKeeps(s: State, createdAt: Time)
    requires Inv(s)
    ensures Inv(Next(s, Insert(createdAt)))
  {
    var s' := Next(s, Insert(createdAt));
    forall w | w in s'.open ensures Holds(s'.rows, s'.open[w]) { assert Holds(s.rows, s.open[w]); }
    var i := |s.rows|;
    CountMember(s.topic, i);
    CountMember(s.rolledBack, i);
    CountMember(s.stray, i);
    OpenCopyIsRow(s, i);
    forall j | 0 <= j < i ensures Accounted(s', j) && RowBounds(s', j) {
      assert Accounted(s, j) && RowBounds(s, j);
    }
  }

  lemma SelectKeeps(s: State, w: nat, batch: seq<nat>)
    requires Inv(s) && w !in s.open && IsBatch(s.rows, Locked(s.open), batch)
    ensures Inv(Next(s, Select(w, batch)))
  {
    var s' := Next(s, Select(w, batch));
    forall v | v in s.open ensures Disjoint(s.open[v], s'.open[w]) && Disjoint(s'.open[w], s.open[v]) {
      assert forall k :: 0 <= k < |s.open[v].rows| ==> s.open[v].rows[k] in Locked(s.open) by {
        assert forall k :: 0 <= k < |s.open[v].rows| ==> s.open[v].rows[k] in s.open[v].rows;
      }
    }
    forall i ensures OpenCopy(s'.open, i) <==> OpenCopy(s.open, i) {
      if OpenCopy(s.open, i) {
        var v :| v in s.open && |s.open[v].sends| <= |s.open[v].rows| && Copied(s.open[v], |s.open[v].sends|, i);
        assert v in s'.open && s'.open[v] == s.open[v];
      }
    }
    forall j | 0 <= j < |s.rows| ensures Accounted(s', j) && RowBounds(s', j) {
      assert Accounted(s, j) && RowBounds(s, j);
    }
  }

  lemma SendKeeps(s: State, w: nat, result: SendResult)
    requires Inv(s) && w in s.open && |s.open[w].sends| < |s.open[w].rows|
    ensures Inv(Next(s, Send(w, result)))
  {
    var s' := Next(s, Send(w, result));
    var b, b' := s.open[w], s'.open[w];
    var n := |b.sends|;
    var row := b.rows[n];
    assert row in b.rows;
    forall i | 0 <= i < |s.rows| ensures Accounted(s', i) && RowBounds(s', i) {
      CountOne(s.topic, row, i);
      CountConcat(s.topic, [], i);
      assert Accounted(s, i) && RowBounds(s, i);
      SendChangesCopies(s, w, result, i);
    }
  }

  lemma CopiedAfterSend(b: Batch, result: SendResult, i: nat)
    requires Distinct(b.rows) && |b.sends| < |b.rows|
    ensures var (row, b') := (b.rows[|b.sends|], b.(sends := b.sends + [result]));
            && (Copied(b', |b'.sends|, i) <==> Copied(b, |b.sends|, i) || (LeavesCopy(result) && i == row))
            && !Copied(b, |b.sends|, row)
  {
    var n, b' := |b.sends|, b.(sends := b.sends + [result]);
    assert forall k :: 0 <= k < n ==> b'.sends[k] == b.sends[k];
    assert b'.sends[n] == result;
    if Copied(b, n, i) {
      var k :| 0 <= k < n && b.rows[k] == i && LeavesCopy(b.sends[k]);
      assert b'.rows[k] == i && LeavesCopy(b'.sends[k]);
    }
    if LeavesCopy(result) && i == b.rows[n] {
      assert b'.rows[n] == i && LeavesCopy(b'.sends[n]);
    }
  }

  /** A send adds an open copy of its own row and of no other. */
  lemma SendChangesCopies(s: State, w: nat, result: SendResult, i: nat)
    requires Locking(s) && w in s.open && |s.open[w].sends| < |s.open[w].rows|
    ensures var (row, s') := (s.open[w].rows[|s.open[w].sends|], Next(s, Send(w, result)));
            && (OpenCopy(s'.open, i) <==> OpenCopy(s.open, i) || (LeavesCopy(result) && i == row))
            && !OpenCopy(s.open, row)
  {
    var s', b := Next(s, Send(w, result)), s.open[w];
    var row := b.rows[|b.sends|];
    assert Holds(s.rows, b);
    CopiedAfterSend(b, result, i);
    forall v | v in s.open ensures !Copied(s.open[v], |s.open[v].sends|, row) {
      if v != w { assert Disjoint(s.open[v], b); }
    }
    assert forall v :: v in s'.open <==> v in s.open;
    assert forall v :: v in s.open && v != w ==> s'.open[v] == s.open[v];
    if OpenCopy(s.open, i) {
      var v :| v in s.open && |s.open[v].sends| <= |s.open[v].rows| && Copied(s.open[v], |s.open[v].sends|, i);
      assert Copied(s'.open[v], |s'.open[v].sends|, i);
    }
    if LeavesCopy(result) && i == row {
      assert Copied(s'.open[w], |s'.open[w].sends|, i);
    }
  }

  lemma OneHolder(s: State, v: nat, w: nat, i: nat)
    requires Locking(s) && v in s.open && w in s.open && i in s.open[v].rows && i in s.open[w].rows
    ensures v == w
  {
    assert v != w ==> Disjoint(s.open[v], s.open[w]);
  }

  lemma CopyIsHeld(s: State, w: nat, i: nat)
    requires Locking(s) && w in s.open
    ensures |s.open[w].sends| <= |s.open[w].rows|
    ensures Copied(s.open[w], |s.open[w].sends|, i) ==> i in s.open[w].rows
  {
    assert Holds(s.rows, s.open[w]);
  }

  /** Closing a batch removes exactly its own copies from the open ones. */
  lemma CloseChangesCopies(s: State, w: nat, i: nat)
    requires Locking(s) && w in s.open && |s.open[w].sends| <= |s.open[w].rows|
    ensures OpenCopy(s.open - {w}, i) <==> OpenCopy(s.open, i) && i !in s.open[w].rows
    ensures i in s.open[w].rows ==> (OpenCopy(s.open, i) <==> Copied(s.open[w], |s.open[w].sends|, i))
    ensures i !in s.open[w].rows ==> !Copied(s.open[w], |s.open[w].sends|, i)
  {
    var open' := s.open - {w};
    CopyIsHeld(s, w, i);
    if OpenCopy(s.open, i) {
      var v :| v in s.open && |s.open[v].sends| <= |s.open[v].rows| && Copied(s.open[v], |s.open[v].sends|, i);
      CopyIsHeld(s, v, i);
      if i in s.open[w].rows {
        OneHolder(s, v, w, i);
      } else {
        assert v in open' && open'[v] == s.open[v];
      }
    }
    if OpenCopy(open', i) {
      var v :| v in open' && |open'[v].sends| <= |open'[v].rows| && Copied(open'[v], |open'[v].sends|, i);
      assert v in s.open && s.open[v] == open'[v];
      CopyIsHeld(s, v, i);
      if i in s.open[w].rows { OneHolder(s, v, w, i); }
    }
  }

  lemma {:induction false} CopiesAreRows(b: Batch, n: nat, strays: bool)
    requires n <= |b.sends| <= |b.rows|
    ensures forall i: nat :: i in CopiesOf(b, n, strays) ==> i in b.rows
  {
    if n > 0 { CopiesAreRows(b, n - 1, strays); }
  }

  lemma RollbackKeeps(s: State, w: nat)
    requires Inv(s) && w in s.open
    ensures Inv(Next(s, Rollback(w)))
  {
    var s', b := Next(s, Rollback(w)), s.open[w];
    forall v | v in s'.open ensures Holds(s'.rows, s'.open[v]) { assert Holds(s.rows, s.open[v]); }
    CopiesAreRows(b, |b.sends|, false);
    forall i | 0 <= i < |s.rows| ensures Accounted(s', i) && RowBounds(s', i) {
      assert Accounted(s, i) && RowBounds(s, i);
      CountConcat(s.rolledBack, CopiesOf(b, |b.sends|, false), i);
      CopiesCount(b, |b.sends|, i, false);
      CloseChangesCopies(s, w, i);
    }
  }

  lemma CommitRow(s: State, w: nat, i: nat)
    requires Inv(s) && w in s.open && |s.open[w].sends| == |s.open[w].rows| && i < |s.rows|
    ensures Accounted(Next(s, Commit(w)), i) && RowBounds(Next(s, Commit(w)), i)
  {
    var s', b := Next(s, Commit(w)), s.open[w];
    var n := |b.sends|;
    assert Accounted(s, i) && RowBounds(s, i);
    CountConcat(s.stray, CopiesOf(b, n, true), i);
    CopiesCount(b, n, i, true);
    CloseChangesCopies(s, w, i);
    if i in b.rows {
      var k :| 0 <= k < n && b.rows[k] == i;
      PolledAt(s.rows, b.rows, b.sends, k);
      LeftAt(b, k, true);
      LeftAt(b, k, false);
      assert Eligible(s.rows[i]);
    } else {
      assert !Left(b, n, i, true);
    }
  }

  lemma CommitKeeps(s: State, w: nat)
    requires Inv(s) && w in s.open && |s.open[w].sends| == |s.open[w].rows|
    ensures Inv(Next(s, Commit(w)))
  {
    var s', b := Next(s, Commit(w)), s.open[w];
    CopiesAreRows(b, |b.sends|, true);
    forall i | 0 <= i < |s.rows| ensures Accounted(s', i) && RowBounds(s', i) {
      CommitRow(s, w, i);
    }
    forall v | v in s'.open ensures Holds(s'.rows, s'.open[v]) {
      assert Holds(s.rows, s.open[v]) && Disjoint(s.open[v], b);
    }
  }

  lemma StepKeeps(s: State, a: Action)
    requires Inv(s)
    ensures Inv(Step(s, a))
  {
    if Enabled(s, a) {
      match a
      case Insert(createdAt) => InsertKeeps(s, createdAt);
      case Select(w, batch) => SelectKeeps(s, w, batch);
      case Send(w, result) => SendKeeps(s, w, result);
      case Commit(w) => CommitKeeps(s, w);
      case Rollback(w) => RollbackKeeps(s, w);
    }
  }

  lemma {:induction false} ExecutionKeeps(actions: seq<Action>)
    ensures Inv(Execute(actions))
  {
    if actions != [] {
      ExecutionKeeps(actions[..|actions| - 1]);
      StepKeeps(Execute(actions[..|actions| - 1]), actions[|actions| - 1]);
    }
  }

  /** At-least-once with a full account, for any number of publishers and any rollbacks: no row is in two
      open batches; a published row is on the topic and failed at most nine times; and its copies are
      one for the publication, one per rolled-back batch that had sent it and one per raising send that
      left a copy, of which there are at most as many as failed attempts. */
  lemma PublisherTheorem(actions: seq<Action>, i: nat)
    requires i < |Execute(actions).rows|
    ensures var s := Execute(actions);
            && (forall v, w :: v in s.open && w in s.open && i in s.open[v].rows && i in s.open[w].rows ==> v == w)
            && (s.rows[i].published ==> i in s.topic && s.rows[i].attempts <= 9)
            && Count(s.stray, i) <= s.rows[i].attempts <= 10
            && (s.rows[i].published <==> s.rows[i].publishedAt.Some?)
            && (s.rows[i].lastError.Some? <==> !s.rows[i].published && s.rows[i].attempts > 0)
            && Accounted(s, i)
  {
    ExecutionKeeps(actions);
    var s := Execute(actions);
    assert Accounted(s, i) && RowBounds(s, i);
    CountMember(s.topic, i);
  }
}

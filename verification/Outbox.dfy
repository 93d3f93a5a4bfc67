/** The outbox table and the worker that drains it. Times are whole seconds on one monotone clock. */
module Outbox {
  import opened Sequences

  type MessageID = nat

  datatype Status = Pending | Processing | Sent | Failed

  /** Topic and payload, which are only ever copied. */
  type Body = nat

  datatype Row = Row(body: Body, status: Status, attempts: nat, availableAt: int, createdAt: int)

  type Table = map<MessageID, Row>

  /** A claimed message; `attempt` counts this claim. */
  datatype Message = Message(id: MessageID, body: Body, attempt: nat)

  /** Delay before the next attempt: 2^k seconds after attempt k, with k held between 1 and 6. */
  function Backoff(attempt: nat): int {
    Pow2(if attempt < 1 then 1 else if attempt > 6 then 6 else attempt)
  }

  function Pow2(n: nat): (p: nat)
    ensures 0 < p
  {
    if n == 0 then 1 else 2 * Pow2(n - 1)
  }

  predicate Claimable(row: Row, maxAttempts: nat, now: int) {
    row.status == Pending && row.attempts < maxAttempts && row.availableAt <= now
  }

  function ClaimRow(row: Row): Row {
    row.(status := Processing, attempts := row.attempts + 1)
  }

  function MessageOf(table: Table, id: MessageID): Message
    requires id in table
  {
    Message(id, table[id].body, table[id].attempts)
  }

  /** The table once the rows `ids` have been claimed. */
  function Claimed(table: Table, ids: set<MessageID>): Table {
    map id | id in table :: if id in ids then ClaimRow(table[id]) else table[id]
  }

  function Enqueued(table: Table, id: MessageID, body: Body, now: int): Table {
    table[id := Row(body, Pending, 0, now, now)]
  }

  function MarkedSent(table: Table, id: MessageID, now: int): Table {
    if id in table then table[id := table[id].(status := Sent, availableAt := now)] else table
  }

  /** Without a next attempt the row is given up. */
  function MarkedFailed(table: Table, id: MessageID, now: int, hasNext: bool, nextAttemptAt: int): Table {
    if id !in table then table
    else if hasNext then table[id := table[id].(status := Pending, availableAt := nextAttemptAt)]
    else table[id := table[id].(status := Failed, availableAt := now)]
  }

  function Reset(table: Table, ids: set<MessageID>, now: int): Table {
    map id | id in table :: if id in ids then table[id].(status := Pending, availableAt := now) else table[id]
  }

  predicate Expendable(row: Row, cutoff: int) {
    row.status == Sent && row.createdAt < cutoff
  }

  function Swept(table: Table, cutoff: int): Table {
    map id | id in table && !Expendable(table[id], cutoff) :: table[id]
  }

  function IdsOf(batch: seq<Message>): (ids: seq<MessageID>)
    ensures |ids| == |batch| && forall i :: 0 <= i < |batch| ==> ids[i] == batch[i].id
  {
    seq(|batch|, i requires 0 <= i < |batch| => batch[i].id)
  }

  /** In order of creation. */
  predicate ByAge(table: Table, ids: seq<MessageID>)
    requires Elements(ids) <= table.Keys
  {
    forall i, j :: 0 <= i < j < |ids| ==> table[ids[i]].createdAt <= table[ids[j]].createdAt
  }

  lemma AppendYoungest(table: Table, ids: seq<MessageID>, id: MessageID)
    requires Elements(ids) <= table.Keys && NoRepeats(ids) && ByAge(table, ids)
    requires id in table && id !in ids && forall a :: a in Elements(ids) ==> table[a].createdAt <= table[id].createdAt
    ensures Elements(ids + [id]) == Elements(ids) + {id}
    ensures NoRepeats(ids + [id]) && ByAge(table, ids + [id])
  {
    assert forall i :: 0 <= i < |ids| ==> ids[i] in Elements(ids);
  }

  function ClaimableIn(table: Table, maxAttempts: nat, now: int): set<MessageID> {
    set id | id in table && Claimable(table[id], maxAttempts, now)
  }

  function FailedIn(table: Table): set<MessageID> {
    set id | id in table && table[id].status == Failed
  }

  function ExpendableIn(table: Table, cutoff: int): set<MessageID> {
    set id | id in table && Expendable(table[id], cutoff)
  }

  /** `chosen` are `limit` of the `wanted` rows, or all of them if there are fewer, and none created later than one
      passed over. */
  ghost predicate OldestOf(table: Table, chosen: set<MessageID>, wanted: set<MessageID>, limit: nat) {
    && chosen <= wanted <= table.Keys
    && |chosen| == (if |wanted| <= limit then |wanted| else limit)
    && forall a, b :: a in chosen && b in wanted && b !in chosen ==> table[a].createdAt <= table[b].createdAt
  }

  lemma ChoiceIsComplete(table: Table, taken: set<MessageID>, rest: set<MessageID>, wanted: set<MessageID>, limit: nat)
    requires rest <= wanted <= table.Keys && taken == wanted - rest
    requires |taken| <= limit && (rest == {} || |taken| == limit)
    requires forall a, b :: a in taken && b in rest ==> table[a].createdAt <= table[b].createdAt
    ensures OldestOf(table, taken, wanted, limit)
  {
    assert wanted == taken + rest;
  }

  class OutboxRepo {
    var table: Table

    constructor ()
      ensures table == map[]
    {
      table := map[];
    }

    /** The primary key rejects an identifier that is already there. */
    method Enqueue(id: MessageID, body: Body, now: int) returns (ok: bool)
      modifies this
      ensures ok == (id !in old(table))
      ensures table == if ok then Enqueued(old(table), id, body, now) else old(table)
    {
      ok := id !in table;
      if ok {
        table := table[id := Row(body, Pending, 0, now, now)];
      }
    }

    /** The oldest of `wanted`, at most `limit` of them, in order of creation. */
    method Oldest(wanted: set<MessageID>, limit: nat) returns (ids: seq<MessageID>)
      requires wanted <= table.Keys
      ensures NoRepeats(ids) && OldestOf(table, Elements(ids), wanted, limit) && ByAge(table, ids)
    {
      ids := [];
      var rest := wanted;
      ghost var taken: set<MessageID> := {};
      while rest != {} && |ids| < limit
        invariant rest <= wanted && taken == Elements(ids) == wanted - rest
        invariant |taken| == |ids| <= limit
        invariant NoRepeats(ids) && ByAge(table, ids)
        invariant forall a, b :: a in taken && b in rest ==> table[a].createdAt <= table[b].createdAt
        decreases rest
      {
        var oldest := FirstCreated(rest);
        AppendYoungest(table, ids, oldest);
        ids := ids + [oldest];
        rest := rest - {oldest};
        taken := taken + {oldest};
      }
      ChoiceIsComplete(table, taken, rest, wanted, limit);
    }

    method FirstCreated(ids: set<MessageID>) returns (oldest: MessageID)
      requires ids != {} && ids <= table.Keys
      ensures oldest in ids && forall id :: id in ids ==> table[oldest].createdAt <= table[id].createdAt
    {
      oldest :| oldest in ids;
      var rest := ids - {oldest};
      while rest != {}
        invariant rest <= ids && oldest in ids
        invariant forall id :: id in ids && id !in rest ==> table[oldest].createdAt <= table[id].createdAt
        decreases rest
      {
        var id :| id in rest;
        rest := rest - {id};
        if table[id].createdAt < table[oldest].createdAt {
          oldest := id;
        }
      }
    }

    /** Takes the oldest claimable rows that no other claim holds locked (`locked`), and counts an attempt for each. */
    method Claim(limit: int, maxAttempts: int, now: int, locked: set<MessageID>) returns (batch: seq<Message>)
      modifies this
      ensures var bound, attempts := if limit <= 0 then 10 else limit, if maxAttempts <= 0 then 10 else maxAttempts;
              && OldestOf(old(table), Elements(IdsOf(batch)), ClaimableIn(old(table), attempts, now) - locked, bound)
              && ByAge(old(table), IdsOf(batch)) && NoRepeats(IdsOf(batch))
              && table == Claimed(old(table), Elements(IdsOf(batch)))
      ensures forall i :: 0 <= i < |batch| ==> batch[i].id in table && batch[i] == MessageOf(table, batch[i].id)
    {
      var bound: nat := if limit <= 0 then 10 else limit;
      var attempts: nat := if maxAttempts <= 0 then 10 else maxAttempts;
      var ids := Oldest(ClaimableIn(table, attempts, now) - locked, bound);
      var rows := table;
      var chosen := Elements(ids);
      table := map id | id in rows :: if id in chosen then ClaimRow(rows[id]) else rows[id];
      batch := [];
      for i := 0 to |ids|
        invariant |batch| == i
        invariant forall j :: 0 <= j < i ==> batch[j] == Message(ids[j], rows[ids[j]].body, rows[ids[j]].attempts + 1)
      {
        assert ids[i] in chosen;
        batch := batch + [Message(ids[i], rows[ids[i]].body, rows[ids[i]].attempts + 1)];
      }
      assert ids == IdsOf(batch);
    }

    method MarkSent(id: MessageID, now: int)
      modifies this
      ensures table == MarkedSent(old(table), id, now)
    {
      if id in table {
        table := table[id := table[id].(status := Sent, availableAt := now)];
      }
    }

    method MarkFailed(id: MessageID, now: int, hasNext: bool, nextAttemptAt: int)
      modifies this
      ensures table == MarkedFailed(old(table), id, now, hasNext, nextAttemptAt)
    {
      if id in table {
        if hasNext {
          table := table[id := table[id].(status := Pending, availableAt := nextAttemptAt)];
        } else {
          table := table[id := table[id].(status := Failed, availableAt := now)];
        }
      }
    }

    method DeleteSentBefore(cutoff: int) returns (deleted: nat)
      modifies this
      ensures table == Swept(old(table), cutoff)
      ensures deleted == |ExpendableIn(old(table), cutoff)|
    {
      var doomed := ExpendableIn(table, cutoff);
      deleted := |doomed|;
      table := table - doomed;
    }

    method ResetFailed(limit: int, now: int) returns (ghost ids: set<MessageID>, affected: nat)
      modifies this
      ensures OldestOf(old(table), ids, FailedIn(old(table)), if limit <= 0 then 50 else limit)
      ensures table == Reset(old(table), ids, now) && affected == |ids|
    {
      var bound: nat := if limit <= 0 then 50 else limit;
      var oldest := Oldest(FailedIn(table), bound);
      var chosen := Elements(oldest);
      ids, affected := chosen, |chosen|;
      table := map id | id in table ::
        if id in chosen then table[id].(status := Pending, availableAt := now) else table[id];
    }
  }

  /** The outcome of one publish: whether the broker acknowledged it, and when the call returned. */
  datatype Outcome = Outcome(acknowledged: bool, at: int)

  /** What a worker does to the table for one message once its publish has returned. */
  function Settle(table: Table, m: Message, outcome: Outcome, maxAttempts: nat): Table {
    if outcome.acknowledged then MarkedSent(table, m.id, outcome.at)
    else MarkedFailed(table, m.id, outcome.at, m.attempt < maxAttempts, outcome.at + Backoff(m.attempt))
  }

  function SettleAll(table: Table, batch: seq<Message>, outcomes: seq<Outcome>, maxAttempts: nat): Table
    requires |outcomes| == |batch|
  {
    if batch == [] then table
    else
      var n := |batch| - 1;
      Settle(SettleAll(table, batch[..n], outcomes[..n], maxAttempts), batch[n], outcomes[n], maxAttempts)
  }

  /** A flush leaves every row that is not in its batch alone. */
  lemma {:induction false} FlushSparesOthers(
      table: Table, batch: seq<Message>, outcomes: seq<Outcome>, maxAttempts: nat, id: MessageID)
    requires |outcomes| == |batch| && forall i :: 0 <= i < |batch| ==> batch[i].id != id
    ensures var after := SettleAll(table, batch, outcomes, maxAttempts);
            after.Keys == table.Keys && (id in table ==> after[id] == table[id])
  {
    if batch == [] {
    } else {
      var n := |batch| - 1;
      FlushSparesOthers(table, batch[..n], outcomes[..n], maxAttempts, id);
    }
  }

  /** A flush leaves each row of its batch SENT if the broker acknowledged the message; otherwise FAILED at the last
      attempt, or PENDING until the back-off has passed. The message itself and its attempts stay. */
  lemma {:induction false} FlushSettlesEach(
      table: Table, batch: seq<Message>, outcomes: seq<Outcome>, maxAttempts: nat, i: nat)
    requires |outcomes| == |batch| && NoRepeats(IdsOf(batch)) && i < |batch| && batch[i].id in table
    ensures var after := SettleAll(table, batch, outcomes, maxAttempts);
            && batch[i].id in after
            && var before, row := table[batch[i].id], after[batch[i].id];
            && row.body == before.body && row.attempts == before.attempts && row.createdAt == before.createdAt
            && if outcomes[i].acknowledged then row.status == Sent && row.availableAt == outcomes[i].at
               else if maxAttempts <= batch[i].attempt then row.status == Failed && row.availableAt == outcomes[i].at
               else row.status == Pending && row.availableAt == outcomes[i].at + Backoff(batch[i].attempt)
  {
    var n, id := |batch| - 1, batch[i].id;
    assert forall j :: 0 <= j < |batch| ==> IdsOf(batch)[j] == batch[j].id;
    var front := SettleAll(table, batch[..n], outcomes[..n], maxAttempts);
    if i == n {
      FlushSparesOthers(table, batch[..n], outcomes[..n], maxAttempts, id);
    } else {
      assert forall j :: 0 <= j < n ==> IdsOf(batch[..n])[j] == IdsOf(batch)[j];
      FlushSettlesEach(table, batch[..n], outcomes[..n], maxAttempts, i);
      assert batch[n].id != id;
    }
  }

  class OutboxWorker {
    const repo: OutboxRepo
    const batchSize: nat
    const maxAttempts: nat

    constructor (repo: OutboxRepo, batchSize: int, maxAttempts: int)
      ensures this.repo == repo
      ensures this.batchSize == (if batchSize <= 0 then 25 else batchSize)
      ensures this.maxAttempts == (if maxAttempts <= 0 then 10 else maxAttempts)
    {
      this.repo := repo;
      this.batchSize := if batchSize <= 0 then 25 else batchSize;
      this.maxAttempts := if maxAttempts <= 0 then 10 else maxAttempts;
    }

    /** The loop of one flush over a claimed batch; `outcomes` is what the broker answers. */
    method Drain(batch: seq<Message>, outcomes: seq<Outcome>)
      requires |outcomes| == |batch|
      modifies repo
      ensures repo.table == SettleAll(old(repo.table), batch, outcomes, maxAttempts)
    {
      for i := 0 to |batch|
        invariant repo.table == SettleAll(old(repo.table), batch[..i], outcomes[..i], maxAttempts)
      {
        assert batch[..i + 1][..i] == batch[..i] && outcomes[..i + 1][..i] == outcomes[..i];
        var m, outcome := batch[i], outcomes[i];
        if !outcome.acknowledged {
          var nextAttempt := outcome.at + Backoff(m.attempt);
          if m.attempt >= maxAttempts {
            repo.MarkFailed(m.id, outcome.at, false, nextAttempt);
            continue;
          }
          repo.MarkFailed(m.id, outcome.at, true, nextAttempt);
          continue;
        }
        repo.MarkSent(m.id, outcome.at);
      }
      assert batch[..|batch|] == batch && outcomes[..|outcomes|] == outcomes;
    }
  }
}

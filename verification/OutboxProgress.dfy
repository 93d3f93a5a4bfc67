/** That the outbox does its work: what can be claimed and when, on the rows themselves, and that every attempt is made.
    */
module OutboxProgress {
  import opened Sequences
  import opened Outbox
  import opened OutboxWorkers

  /** The delays, in seconds. */
  function Seconds(attempt: nat): int {
    if attempt <= 1 then 2
    else if attempt == 2 then 4
    else if attempt == 3 then 8
    else if attempt == 4 then 16
    else if attempt == 5 then 32
    else 64
  }

  lemma BackoffInSeconds(attempt: nat)
    ensures Backoff(attempt) == Seconds(attempt)
  {
    assert Pow2(3) == 8 && Pow2(6) == 64;
  }

  // ---------- What can be claimed ----------

  /** A message of a flushed batch can be claimed again if and only if it was refused, has attempts left, and its delay
      has passed. */
  lemma RefusedIsClaimableAfterItsDelay(
      table: Table, batch: seq<Message>, outcomes: seq<Outcome>, maxAttempts: nat, i: nat, now: int)
    requires |outcomes| == |batch| && NoRepeats(IdsOf(batch)) && i < |batch|
    requires batch[i].id in table && table[batch[i].id].attempts == batch[i].attempt
    ensures batch[i].id in ClaimableIn(SettleAll(table, batch, outcomes, maxAttempts), maxAttempts, now)
            <==> && !outcomes[i].acknowledged && batch[i].attempt < maxAttempts
                 && outcomes[i].at + Seconds(batch[i].attempt) <= now
  {
    FlushSettlesEach(table, batch, outcomes, maxAttempts, i);
    BackoffInSeconds(batch[i].attempt);
  }

  /** A new row can be claimed from its creation on, as soon as any attempt is allowed. */
  lemma NewRowIsClaimable(table: Table, id: MessageID, body: Body, at: int, maxAttempts: nat, now: int)
    ensures Enqueued(table, id, body, at)[id] == Row(body, Status.Pending, 0, at, at)
    ensures id in ClaimableIn(Enqueued(table, id, body, at), maxAttempts, now) <==> 0 < maxAttempts && at <= now
    ensures forall other :: other in table && other != id ==> Enqueued(table, id, body, at)[other] == table[other]
  {
  }

  /** A reset row can be claimed only under a limit above the attempts it has had. */
  lemma ResetRowNeedsALargerLimit(table: Table, ids: set<MessageID>, id: MessageID, at: int, maxAttempts: nat, now: int)
    requires id in table && id in ids
    ensures id in ClaimableIn(Reset(table, ids, at), maxAttempts, now)
            <==> table[id].attempts < maxAttempts && at <= now
    ensures var row := table[id];
            Reset(table, ids, at)[id] == Row(row.body, Status.Pending, row.attempts, at, row.createdAt)
  {
  }

  /** Claiming takes exactly the chosen rows, counts an attempt, and hands out each with its own body. */
  lemma ClaimTakesTheRow(table: Table, ids: set<MessageID>, id: MessageID)
    requires id in table
    ensures id in Claimed(table, ids)
    ensures var row := table[id];
            && Claimed(table, ids)[id] == (if id in ids then
                 Row(row.body, Processing, row.attempts + 1, row.availableAt, row.createdAt) else row)
            && (id in ids ==> MessageOf(Claimed(table, ids), id) == Message(id, row.body, row.attempts + 1))
  {
  }

  /** Sweeping removes exactly what was sent and created before the cutoff. */
  lemma SweepTakesOldSentRows(table: Table, cutoff: int, id: MessageID)
    requires id in table
    ensures id !in Swept(table, cutoff) <==> table[id].status == Sent && table[id].createdAt < cutoff
    ensures id in Swept(table, cutoff) ==> Swept(table, cutoff)[id] == table[id]
  {
  }

  // ---------- Bodies ----------

  lemma StepKeepsBody(maxAttempts: nat, w: World, step: Step, id: MessageID)
    requires Enabled(maxAttempts, w, step) && id in w.enqueued
    ensures id in Next(maxAttempts, w, step).enqueued
    ensures id in Next(maxAttempts, w, step).table ==>
              id in w.table && Next(maxAttempts, w, step).table[id].body == w.table[id].body
  {
  }

  lemma {:induction false} RunKeepsBody(maxAttempts: nat, w: World, steps: seq<Step>, id: MessageID)
    requires IsRun(maxAttempts, w, steps) && id in w.enqueued
    ensures var v := Final(maxAttempts, w, steps);
            id in v.table ==> id in w.table && v.table[id].body == w.table[id].body
    decreases |steps|
  {
    if steps == [] {
    } else {
      StepKeepsBody(maxAttempts, w, steps[0], id);
      RunKeepsBody(maxAttempts, Next(maxAttempts, w, steps[0]), steps[1..], id);
    }
  }

  /** Whoever holds a message, in whatever attempt, holds the body that was enqueued. */
  lemma HeldBodyIsTheEnqueuedOne(
      maxAttempts: nat, before: seq<Step>, id: MessageID, body: Body, at: int, after: seq<Step>, t: Ticket)
    requires IsRun(maxAttempts, EMPTY, before)
    requires Enabled(maxAttempts, Final(maxAttempts, EMPTY, before), Enqueue(id, body, at))
    requires var w := Next(maxAttempts, Final(maxAttempts, EMPTY, before), Enqueue(id, body, at));
             IsRun(maxAttempts, w, after) && t in Final(maxAttempts, w, after).holds && t.id == id
    ensures var w := Next(maxAttempts, Final(maxAttempts, EMPTY, before), Enqueue(id, body, at));
            Final(maxAttempts, w, after).holds[t].message.body == body
  {
    var w := Next(maxAttempts, Final(maxAttempts, EMPTY, before), Enqueue(id, body, at));
    RunConcat(maxAttempts, EMPTY, before, [Enqueue(id, body, at)]);
    OneStep(maxAttempts, Final(maxAttempts, EMPTY, before), Enqueue(id, body, at));
    RunConcat(maxAttempts, EMPTY, before + [Enqueue(id, body, at)], after);
    BatchesHoldProcessingRows(maxAttempts, before + [Enqueue(id, body, at)] + after, t);
    RunKeepsBody(maxAttempts, w, after, id);
  }

  lemma OneStep(maxAttempts: nat, w: World, step: Step)
    requires Enabled(maxAttempts, w, step)
    ensures IsRun(maxAttempts, w, [step]) && Final(maxAttempts, w, [step]) == Next(maxAttempts, w, step)
  {
    assert [step][1..] == [];
  }

  lemma {:induction false} RunConcat(maxAttempts: nat, w: World, a: seq<Step>, b: seq<Step>)
    requires IsRun(maxAttempts, w, a)
    ensures IsRun(maxAttempts, w, a + b) <==> IsRun(maxAttempts, Final(maxAttempts, w, a), b)
    ensures IsRun(maxAttempts, w, a + b) ==>
              Final(maxAttempts, w, a + b) == Final(maxAttempts, Final(maxAttempts, w, a), b)
    decreases |a|
  {
    if a == [] {
      assert a + b == b;
    } else {
      assert (a + b)[1..] == a[1..] + b;
      RunConcat(maxAttempts, Next(maxAttempts, w, a[0]), a[1..], b);
    }
  }

  lemma RunGrows(maxAttempts: nat, steps: seq<Step>, step: Step)
    requires IsRun(maxAttempts, EMPTY, steps) && Enabled(maxAttempts, Final(maxAttempts, EMPTY, steps), step)
    ensures IsRun(maxAttempts, EMPTY, steps + [step])
    ensures Final(maxAttempts, EMPTY, steps + [step]) == Next(maxAttempts, Final(maxAttempts, EMPTY, steps), step)
  {
    OneStep(maxAttempts, Final(maxAttempts, EMPTY, steps), step);
    RunConcat(maxAttempts, EMPTY, steps, [step]);
  }

  // ---------- Every attempt is made ----------

  const ID: MessageID := 4
  const WORKER: WorkerID := 1

  /** The message has been refused `n` times and nobody holds it. */
  ghost predicate Refused(maxAttempts: nat, w: World, n: nat) {
    && ID in w.table && w.holds == map[] && |Published(w, ID)| == n
    && w.table[ID].attempts == n
    && (n < maxAttempts ==> w.table[ID].status == Status.Pending)
  }

  function Time(w: World): int
    requires ID in w.table
  {
    if w.now < w.table[ID].availableAt then w.table[ID].availableAt else w.now
  }

  lemma AttemptIsMade(maxAttempts: nat, steps: seq<Step>, n: nat) returns (more: seq<Step>)
    requires n < maxAttempts && IsRun(maxAttempts, EMPTY, steps)
    requires Refused(maxAttempts, Final(maxAttempts, EMPTY, steps), n)
    ensures IsRun(maxAttempts, EMPTY, more) && Refused(maxAttempts, Final(maxAttempts, EMPTY, more), n + 1)
  {
    var w, ticket := Final(maxAttempts, EMPTY, steps), Ticket(WORKER, ID);
    var at := Time(w);
    RunGrows(maxAttempts, steps, Claim(WORKER, {ID}, at));
    var claimed := Next(maxAttempts, w, Claim(WORKER, {ID}, at));
    assert claimed.holds.Keys == {ticket};
    more := steps + [Claim(WORKER, {ID}, at)];
    RunGrows(maxAttempts, more, Send(ticket, at));
    var sent := Next(maxAttempts, claimed, Send(ticket, at));
    more := more + [Send(ticket, at)];
    RunGrows(maxAttempts, more, Return(ticket, false, at));
    var answered := Next(maxAttempts, sent, Return(ticket, false, at));
    more := more + [Return(ticket, false, at)];
    RunGrows(maxAttempts, more, Mark(ticket, true, at));
    assert Next(maxAttempts, answered, Mark(ticket, true, at)).holds == map[];
    more := more + [Mark(ticket, true, at)];
  }

  lemma {:induction false} AttemptsAreMade(maxAttempts: nat, n: nat) returns (steps: seq<Step>)
    requires n <= maxAttempts
    ensures IsRun(maxAttempts, EMPTY, steps) && Refused(maxAttempts, Final(maxAttempts, EMPTY, steps), n)
    decreases n
  {
    if n == 0 {
      OneStep(maxAttempts, EMPTY, Enqueue(ID, 0, 0));
      steps := [Enqueue(ID, 0, 0)];
    } else {
      var before := AttemptsAreMade(maxAttempts, n - 1);
      steps := AttemptIsMade(maxAttempts, before, n - 1);
    }
  }

  /** The bound on publishes is exact: for every limit there is a run that hands one message to the broker that often.
      */
  lemma AllAttemptsCanBeMade(maxAttempts: nat) returns (steps: seq<Step>)
    ensures IsRun(maxAttempts, EMPTY, steps)
    ensures |Published(Final(maxAttempts, EMPTY, steps), ID)| == maxAttempts
  {
    steps := AttemptsAreMade(maxAttempts, maxAttempts);
  }
}

/** Several workers drain one outbox table. A worker claims rows, hands each to the broker, waits for the answer
    and writes it back; it may die at any point, and any write may fail. Failed rows are reset and sent rows swept
    at any time. Within a batch the messages may advance in any order, which includes the worker's own. */
module OutboxWorkers {
  import opened Outbox

  type WorkerID = nat

  /** Message `id` in the batch of `worker`. */
  datatype Ticket = Ticket(worker: WorkerID, id: MessageID)

  datatype Phase = Ready | Sending | Answered(outcome: Outcome)

  datatype Hold = Hold(message: Message, phase: Phase)

  /** `holds` are the batches in progress, `stranded` the rows whose worker died or whose write failed. `published`
      lists when each message was handed to the broker, `acknowledged` who got a yes, `enqueued` all identifiers ever
      used. */
  datatype World = World(
    table: Table, holds: map<Ticket, Hold>, now: int, stranded: set<MessageID>,
    enqueued: set<MessageID>, published: map<MessageID, seq<int>>, acknowledged: set<MessageID>)

  datatype Step =
    | Enqueue(id: MessageID, body: Body, at: int)
    | Claim(worker: WorkerID, ids: set<MessageID>, at: int)
    | LoseClaim(ids: set<MessageID>, at: int)
    | Send(ticket: Ticket, at: int)
    | Return(ticket: Ticket, acknowledged: bool, at: int)
    | Mark(ticket: Ticket, written: bool, at: int)
    | Crash(worker: WorkerID, at: int)
    | ResetFailed(ids: set<MessageID>, at: int)
    | Sweep(cutoff: int, at: int)

  const EMPTY := World(map[], map[], 0, {}, {}, map[], {})

  function Published(w: World, id: MessageID): seq<int> {
    if id in w.published then w.published[id] else []
  }

  predicate Enabled(maxAttempts: nat, w: World, step: Step) {
    && w.now <= step.at
    && match step
       case Enqueue(id, _, _) => id !in w.enqueued
       case Claim(_, ids, at) => ids <= ClaimableIn(w.table, maxAttempts, at)
       case LoseClaim(ids, at) => ids <= ClaimableIn(w.table, maxAttempts, at)
       case Send(t, _) => t in w.holds && w.holds[t].phase == Ready
       case Return(t, _, _) => t in w.holds && w.holds[t].phase == Sending
       case Mark(t, _, _) => t in w.holds && w.holds[t].phase.Answered?
       case Crash(_, _) => true
       case ResetFailed(ids, _) => ids <= FailedIn(w.table)
       case Sweep(_, _) => true
  }

  function HeldBy(w: World, k: WorkerID): set<MessageID> {
    set t | t in w.holds && t.worker == k :: t.id
  }

  function Grab(holds: map<Ticket, Hold>, table: Table, k: WorkerID, ids: set<MessageID>): map<Ticket, Hold>
    requires ids <= table.Keys
  {
    map t | t in holds.Keys + (set id | id in ids :: Ticket(k, id)) ::
      if t.worker == k && t.id in ids then Hold(MessageOf(table, t.id), Ready) else holds[t]
  }

  function Next(maxAttempts: nat, w: World, step: Step): World
    requires Enabled(maxAttempts, w, step)
  {
    var v := w.(now := step.at);
    match step
    case Enqueue(id, body, at) =>
      v.(table := Enqueued(w.table, id, body, at), enqueued := w.enqueued + {id})
    case Claim(k, ids, at) =>
      var table := Claimed(w.table, ids);
      v.(table := table, holds := Grab(w.holds, table, k, ids))
    case LoseClaim(ids, at) =>
      v.(table := Claimed(w.table, ids), stranded := w.stranded + ids)
    case Send(t, at) =>
      v.(holds := w.holds[t := w.holds[t].(phase := Sending)],
         published := w.published[t.id := Published(w, t.id) + [at]])
    case Return(t, acknowledged, at) =>
      v.(holds := w.holds[t := w.holds[t].(phase := Answered(Outcome(acknowledged, at)))],
         acknowledged := if acknowledged then w.acknowledged + {t.id} else w.acknowledged)
    case Mark(t, written, at) =>
      var hold := w.holds[t];
      v.(holds := w.holds - {t},
         table := if written then Settle(w.table, hold.message, hold.phase.outcome, maxAttempts) else w.table,
         stranded := if written then w.stranded else w.stranded + {t.id})
    case Crash(k, at) =>
      v.(holds := map t | t in w.holds && t.worker != k :: w.holds[t], stranded := w.stranded + HeldBy(w, k))
    case ResetFailed(ids, at) => v.(table := Reset(w.table, ids, at))
    case Sweep(cutoff, at) => v.(table := Swept(w.table, cutoff))
  }

  ghost predicate IsRun(maxAttempts: nat, w: World, steps: seq<Step>)
    decreases |steps|
  {
    steps == [] || (Enabled(maxAttempts, w, steps[0]) && IsRun(maxAttempts, Next(maxAttempts, w, steps[0]), steps[1..]))
  }

  ghost function Final(maxAttempts: nat, w: World, steps: seq<Step>): World
    requires IsRun(maxAttempts, w, steps)
    decreases |steps|
  {
    if steps == [] then w else Final(maxAttempts, Next(maxAttempts, w, steps[0]), steps[1..])
  }

  /** Held messages are PROCESSING under their own attempt; no two batches share a message, and none is stranded too. */
  ghost predicate Ownership(w: World) {
    && (forall t :: t in w.holds ==>
          && t.id in w.table && t.id !in w.stranded
          && w.table[t.id].status == Processing
          && w.holds[t].message == MessageOf(w.table, t.id))
    && (forall t, u :: t in w.holds && u in w.holds && t.id == u.id ==> t == u)
    && (forall id :: id in w.stranded ==> id in w.table && w.table[id].status == Processing)
  }

  /** A PROCESSING row that is not stranded is in some worker's batch. */
  ghost predicate Owned(w: World, id: MessageID) {
    id in w.table && w.table[id].status == Processing && id !in w.stranded ==>
      exists k: WorkerID :: Ticket(k, id) in w.holds
  }

  /** Attempts, publishes and outcomes of one row agree; a row is gone only after an acknowledgement. */
  ghost predicate RowBooks(maxAttempts: nat, w: World, id: MessageID) {
    var p := |Published(w, id)|;
    if id in w.table then
      var row := w.table[id];
      && id in w.enqueued
      && p <= row.attempts <= maxAttempts
      && (row.status != Processing ==> p == row.attempts)
      && (row.status == Processing ==> 0 < row.attempts <= p + 1)
      && (row.status == Failed ==> row.attempts == maxAttempts)
      && (row.status == Sent ==> id in w.acknowledged)
    else if id in w.enqueued then id in w.acknowledged && p <= maxAttempts
    else p == 0
  }

  /** A held message has been published once per attempt, its present attempt included once it has been handed over. */
  ghost predicate HoldBooks(w: World, t: Ticket)
    requires t in w.holds
  {
    var hold := w.holds[t];
    && |Published(w, t.id)| == (if hold.phase == Ready then hold.message.attempt - 1 else hold.message.attempt)
    && (hold.phase.Answered? && hold.phase.outcome.acknowledged ==> t.id in w.acknowledged)
  }

  /** Successive publishes are at least the back-off apart. */
  ghost predicate Spaced(times: seq<int>) {
    forall n :: 0 < n < |times| ==> times[n - 1] + Backoff(n) <= times[n]
  }

  ghost predicate RowSpacing(maxAttempts: nat, w: World, id: MessageID) {
    var times := Published(w, id);
    && Spaced(times)
    && (times != [] ==> times[|times| - 1] <= w.now)
    && (id in w.table && w.table[id].status == Pending && times != [] && w.table[id].attempts < maxAttempts ==>
          times[|times| - 1] + Backoff(|times|) <= w.table[id].availableAt)
  }

  /** A message still to be handed over is late enough; an answered one was answered after it was handed over. */
  ghost predicate HoldSpacing(w: World, t: Ticket)
    requires t in w.holds
  {
    var times, phase := Published(w, t.id), w.holds[t].phase;
    times != [] ==>
      && (phase == Ready ==> times[|times| - 1] + Backoff(|times|) <= w.now)
      && (phase.Answered? ==> times[|times| - 1] <= phase.outcome.at)
  }

  ghost predicate Invariant(maxAttempts: nat, w: World) {
    && Ownership(w)
    && (forall t :: t in w.holds ==> HoldBooks(w, t) && HoldSpacing(w, t))
    && (forall id: MessageID :: Owned(w, id) && RowBooks(maxAttempts, w, id) && RowSpacing(maxAttempts, w, id))
  }

  lemma ClaimKeepsOwnership(maxAttempts: nat, w: World, step: Step)
    requires Ownership(w) && Enabled(maxAttempts, w, step) && (step.Claim? || step.LoseClaim?)
    ensures Ownership(Next(maxAttempts, w, step))
  {
    assert forall id :: id in step.ids ==> id in w.table && w.table[id].status == Pending;
  }

  lemma MarkKeepsOwnership(maxAttempts: nat, w: World, step: Step)
    requires Ownership(w) && Enabled(maxAttempts, w, step) && step.Mark?
    ensures Ownership(Next(maxAttempts, w, step))
  {
    assert forall u :: u in w.holds && u != step.ticket ==> u.id != step.ticket.id;
  }

  lemma StepKeepsOwnership(maxAttempts: nat, w: World, step: Step)
    requires Ownership(w) && Enabled(maxAttempts, w, step) && w.table.Keys <= w.enqueued
    ensures Ownership(Next(maxAttempts, w, step))
  {
    if step.Claim? || step.LoseClaim? {
      ClaimKeepsOwnership(maxAttempts, w, step);
    } else if step.Mark? {
      MarkKeepsOwnership(maxAttempts, w, step);
    }
  }

  lemma StepKeepsOwned(maxAttempts: nat, w: World, step: Step, id: MessageID)
    requires Ownership(w) && Enabled(maxAttempts, w, step) && Owned(w, id)
    ensures Owned(Next(maxAttempts, w, step), id)
  {
    var v := Next(maxAttempts, w, step);
    if id in v.table && v.table[id].status == Processing && id !in v.stranded {
      if step.Claim? && id in step.ids {
        assert Ticket(step.worker, id) in v.holds;
      } else {
        var k: WorkerID :| Ticket(k, id) in w.holds;
        assert Ticket(k, id) in v.holds;
      }
    }
  }

  lemma StepKeepsRowBooks(maxAttempts: nat, w: World, step: Step, id: MessageID)
    requires Ownership(w) && Enabled(maxAttempts, w, step) && RowBooks(maxAttempts, w, id)
    requires forall t :: t in w.holds ==> HoldBooks(w, t)
    ensures RowBooks(maxAttempts, Next(maxAttempts, w, step), id)
  {
  }

  lemma StepKeepsHoldBooks(maxAttempts: nat, w: World, step: Step, t: Ticket)
    requires Ownership(w) && Enabled(maxAttempts, w, step) && RowBooks(maxAttempts, w, t.id)
    requires t in w.holds ==> HoldBooks(w, t)
    requires t in Next(maxAttempts, w, step).holds
    ensures HoldBooks(Next(maxAttempts, w, step), t)
  {
  }

  lemma StepKeepsRowSpacing(maxAttempts: nat, w: World, step: Step, id: MessageID)
    requires Ownership(w) && Enabled(maxAttempts, w, step)
    requires RowBooks(maxAttempts, w, id) && RowSpacing(maxAttempts, w, id)
    requires forall t :: t in w.holds ==> HoldBooks(w, t) && HoldSpacing(w, t)
    ensures RowSpacing(maxAttempts, Next(maxAttempts, w, step), id)
  {
  }

  lemma StepKeepsHoldSpacing(maxAttempts: nat, w: World, step: Step, t: Ticket)
    requires Ownership(w) && Enabled(maxAttempts, w, step)
    requires RowBooks(maxAttempts, w, t.id) && RowSpacing(maxAttempts, w, t.id)
    requires t in w.holds ==> HoldSpacing(w, t)
    requires t in Next(maxAttempts, w, step).holds
    ensures HoldSpacing(Next(maxAttempts, w, step), t)
  {
  }

  lemma {:induction false} RunKeepsInvariant(maxAttempts: nat, w: World, steps: seq<Step>)
    requires Invariant(maxAttempts, w) && IsRun(maxAttempts, w, steps)
    ensures Invariant(maxAttempts, Final(maxAttempts, w, steps))
    decreases |steps|
  {
    if steps == [] {
    } else {
      var v := Next(maxAttempts, w, steps[0]);
      forall id | id in w.table ensures id in w.enqueued {
        assert RowBooks(maxAttempts, w, id);
      }
      StepKeepsOwnership(maxAttempts, w, steps[0]);
      forall id: MessageID
        ensures Owned(v, id) && RowBooks(maxAttempts, v, id) && RowSpacing(maxAttempts, v, id)
      {
        StepKeepsOwned(maxAttempts, w, steps[0], id);
        StepKeepsRowBooks(maxAttempts, w, steps[0], id);
        StepKeepsRowSpacing(maxAttempts, w, steps[0], id);
      }
      forall t | t in v.holds ensures HoldBooks(v, t) && HoldSpacing(v, t) {
        StepKeepsHoldBooks(maxAttempts, w, steps[0], t);
        StepKeepsHoldSpacing(maxAttempts, w, steps[0], t);
      }
      RunKeepsInvariant(maxAttempts, v, steps[1..]);
    }
  }

  /** In every run a PROCESSING message is in exactly one worker's batch, unless its worker died or a write for it
      failed. */
  lemma ProcessingHasOneOwner(maxAttempts: nat, steps: seq<Step>, id: MessageID) returns (k: WorkerID)
    requires IsRun(maxAttempts, EMPTY, steps)
    requires var w := Final(maxAttempts, EMPTY, steps);
             id in w.table && w.table[id].status == Processing && id !in w.stranded
    ensures var w := Final(maxAttempts, EMPTY, steps);
            forall l: WorkerID :: Ticket(l, id) in w.holds <==> l == k
  {
    RunKeepsInvariant(maxAttempts, EMPTY, steps);
    var w := Final(maxAttempts, EMPTY, steps);
    assert Owned(w, id);
    k :| Ticket(k, id) in w.holds;
  }

  /** A batch holds PROCESSING rows only, each under the attempt the row now shows. */
  lemma BatchesHoldProcessingRows(maxAttempts: nat, steps: seq<Step>, t: Ticket)
    requires IsRun(maxAttempts, EMPTY, steps) && t in Final(maxAttempts, EMPTY, steps).holds
    ensures var w := Final(maxAttempts, EMPTY, steps);
            && t.id in w.table && w.table[t.id].status == Processing
            && w.holds[t].message == MessageOf(w.table, t.id)
  {
    RunKeepsInvariant(maxAttempts, EMPTY, steps);
  }

  /** Over every run, resets included, a message is handed to the broker at most maxAttempts times. */
  lemma PublishedAtMostMaxAttempts(maxAttempts: nat, steps: seq<Step>, id: MessageID)
    requires IsRun(maxAttempts, EMPTY, steps)
    ensures |Published(Final(maxAttempts, EMPTY, steps), id)| <= maxAttempts
  {
    RunKeepsInvariant(maxAttempts, EMPTY, steps);
    assert RowBooks(maxAttempts, Final(maxAttempts, EMPTY, steps), id);
  }

  lemma {:induction false} ExhaustedForever(maxAttempts: nat, w: World, steps: seq<Step>, id: MessageID)
    requires IsRun(maxAttempts, w, steps) && id in w.enqueued
    requires id in w.table ==> maxAttempts <= w.table[id].attempts
    ensures var v := Final(maxAttempts, w, steps); id in v.table ==> maxAttempts <= v.table[id].attempts
    decreases |steps|
  {
    if steps == [] {
    } else {
      ExhaustedForever(maxAttempts, Next(maxAttempts, w, steps[0]), steps[1..], id);
    }
  }

  /** A row fails only when its attempts are used up, so however often it is reset it is never claimable again. */
  lemma FailedRowsAreNeverClaimedAgain(maxAttempts: nat, steps: seq<Step>, later: seq<Step>, id: MessageID, at: int)
    requires IsRun(maxAttempts, EMPTY, steps) && id in FailedIn(Final(maxAttempts, EMPTY, steps).table)
    requires IsRun(maxAttempts, Final(maxAttempts, EMPTY, steps), later)
    ensures Final(maxAttempts, EMPTY, steps).table[id].attempts == maxAttempts
    ensures id !in ClaimableIn(Final(maxAttempts, Final(maxAttempts, EMPTY, steps), later).table, maxAttempts, at)
  {
    RunKeepsInvariant(maxAttempts, EMPTY, steps);
    assert RowBooks(maxAttempts, Final(maxAttempts, EMPTY, steps), id);
    ExhaustedForever(maxAttempts, Final(maxAttempts, EMPTY, steps), later, id);
  }

  /** A message leaves the table only after the broker acknowledged it. */
  lemma GoneOnlyAfterAcknowledgement(maxAttempts: nat, steps: seq<Step>, id: MessageID)
    requires IsRun(maxAttempts, EMPTY, steps)
    requires var w := Final(maxAttempts, EMPTY, steps); id in w.enqueued && id !in w.table
    ensures id in Final(maxAttempts, EMPTY, steps).acknowledged
  {
    RunKeepsInvariant(maxAttempts, EMPTY, steps);
    assert RowBooks(maxAttempts, Final(maxAttempts, EMPTY, steps), id);
  }

  /** The sum of the first n - 1 back-offs. */
  function Wait(n: nat): nat {
    if n <= 1 then 0 else Wait(n - 1) + Backoff(n - 1)
  }

  lemma {:induction false} WaitShort(n: nat)
    requires 1 <= n <= 7
    ensures Wait(n) + 2 == Pow2(n)
  {
    if n <= 1 {
    } else {
      WaitShort(n - 1);
    }
  }

  /** In closed form the wait is 2^n - 2 up to the seventh publish, and 64 more for each one after that. */
  lemma {:induction false} WaitClosedForm(n: nat)
    requires 1 <= n
    ensures n <= 7 ==> Wait(n) + 2 == Pow2(n)
    ensures 7 <= n ==> Wait(n) == 126 + 64 * (n - 7)
  {
    assert Pow2(6) == 64 by {
      assert Pow2(3) == 8;
    }
    if n <= 7 {
      WaitShort(n);
    } else {
      WaitClosedForm(n - 1);
    }
  }

  lemma {:induction false} SpacedWait(times: seq<int>, n: nat)
    requires Spaced(times) && 1 <= n <= |times|
    ensures times[0] + Wait(n) <= times[n - 1]
  {
    if n <= 1 {
    } else {
      SpacedWait(times, n - 1);
      assert times[n - 2] + Backoff(n - 1) <= times[n - 1];
    }
  }

  /** The n-th publish of a message comes at least Wait(n) seconds after its first, whichever workers made the attempts.
      */
  lemma PublishesAreSpaced(maxAttempts: nat, steps: seq<Step>, id: MessageID, n: nat)
    requires IsRun(maxAttempts, EMPTY, steps)
    requires 1 <= n <= |Published(Final(maxAttempts, EMPTY, steps), id)|
    ensures var times := Published(Final(maxAttempts, EMPTY, steps), id);
            && times[0] + (if n <= 7 then Pow2(n) - 2 else 126 + 64 * (n - 7)) <= times[n - 1]
  {
    RunKeepsInvariant(maxAttempts, EMPTY, steps);
    assert RowSpacing(maxAttempts, Final(maxAttempts, EMPTY, steps), id);
    SpacedWait(Published(Final(maxAttempts, EMPTY, steps), id), n);
    WaitClosedForm(n);
  }
}

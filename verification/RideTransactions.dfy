/** The ride service under concurrency. Each request looks its key up, begins a transaction, reads a row, compares and
    sets it, saves its key and commits, and requests interleave between any two of these steps. Reads see committed
    rows and take no lock; a written row and an inserted key stay locked until commit or rollback. */
module RideTransactions {
  import opened Options
  import opened RideDomain
  import opened RideService

  type TxID = nat

  /** What a transaction has read before it writes. */
  datatype Row = NoRow | RideRow(ride: Ride) | OfferRow(offer: Offer)

  datatype Phase =
    | Arrived
    | Begun
    | HasRead(row: Row)
    | HasWritten(row: Row, response: Response)
    | HasKey(row: Row, response: Response, doomed: bool)
    | Replied(result: Result<Response>)

  datatype Tx = Tx(op: Op, key: Key, phase: Phase)

  datatype Commit = Commit(tx: TxID, key: Key, response: Response)

  /** `commits` lists the committed transactions; `history` the committed statuses of each ride;
      `offered` the rides that the out-of-band step moved to OFFERED. */
  datatype World = World(
    db: DB, txs: map<TxID, Tx>, commits: seq<Commit>, history: map<RideID, seq<RideStatus>>, offered: set<RideID>)

  datatype Step =
    | Arrive(tx: TxID, op: Op, key: Key)
    | Lookup(tx: TxID, fails: bool)
    | Read(tx: TxID)
    | WriteRow(tx: TxID)
    | SaveKey(tx: TxID, fails: bool)
    | TryCommit(tx: TxID)
    | Fail(tx: TxID)
    | MarkOffered(ride: RideID)

  const EMPTY := World(DB(map[], map[], map[], []), map[], [], map[], {})

  datatype Lock = RideLock(id: RideID) | OfferLock(id: OfferID)

  /** The row that an operation writes. */
  function Target(op: Op): Lock {
    if op.CreateRide? || UpdatesRide(op) then RideLock(op.ride) else OfferLock(op.offer)
  }

  predicate Holding(tx: Tx) {
    tx.phase.HasWritten? || tx.phase.HasKey?
  }

  /** No transaction other than `t` holds the row. */
  predicate Free(w: World, t: TxID, row: Lock) {
    forall u :: u in w.txs && u != t && Holding(w.txs[u]) ==> Target(w.txs[u].op) != row
  }

  /** Transaction `u` has inserted key `k` and not yet ended. */
  predicate HoldsKey(tx: Tx, k: nat) {
    tx.phase.HasKey? && !tx.phase.doomed && tx.key == Some(k)
  }

  predicate KeyFree(w: World, t: TxID, key: Key) {
    key.Some? ==> forall u :: u in w.txs && u != t ==> !HoldsKey(w.txs[u], key.value)
  }

  predicate Enabled(w: World, step: Step) {
    match step
    case Arrive(t, _, _) => t !in w.txs
    case Lookup(t, _) => t in w.txs && w.txs[t].phase == Arrived
    case Read(t) => t in w.txs && w.txs[t].phase == Begun
    case WriteRow(t) => t in w.txs && w.txs[t].phase.HasRead? && Free(w, t, Target(w.txs[t].op))
    case SaveKey(t, _) => t in w.txs && w.txs[t].phase.HasWritten? && KeyFree(w, t, w.txs[t].key)
    case TryCommit(t) => t in w.txs && w.txs[t].phase.HasKey?
    case Fail(t) => t in w.txs && w.txs[t].phase != Arrived && !w.txs[t].phase.Replied?
    case MarkOffered(r) =>
      r in w.db.rides && w.db.rides[r].status == Matching
      && forall u :: u in w.txs && Holding(w.txs[u]) ==> Target(w.txs[u].op) != RideLock(r)
  }

  /** Reading: the row, or the error that ends the request. New rows need no read. */
  function ReadPhase(db: DB, op: Op): Phase {
    if op.CreateRide? || op.CreateOffer? then HasRead(NoRow)
    else match Answer(db, op)
      case Err(e) => Replied(Err(e))
      case Ok(_) =>
        HasRead(if UpdatesRide(op) && op.ride in db.rides then RideRow(db.rides[op.ride])
                else if UpdatesOffer(op) && op.offer in db.offers then OfferRow(db.offers[op.offer])
                else NoRow)
  }

  /** Writing: an insert, or a compare-and-set against the status that was read. */
  function WritePhase(db: DB, op: Op, row: Row): Phase {
    match row
    case NoRow =>
      (match Answer(db, op)
       case Ok(response) => HasWritten(NoRow, response)
       case Err(e) => Replied(Err(e)))
    case RideRow(r) =>
      if !UpdatesRide(op) || op.ride !in db.rides then Replied(Err(NotFound))
      else if db.rides[op.ride].status != r.status then Replied(Err(Conflict))
      else HasWritten(row, RideReply(RideAfter(op, r)))
    case OfferRow(o) =>
      if !UpdatesOffer(op) || op.offer !in db.offers then Replied(Err(NotFound))
      else if db.offers[op.offer].status != o.status then Replied(Err(Conflict))
      else HasWritten(row, OfferReply(o.(status := NextOfferStatus(op))))
  }

  /** Committing applies the buffered column updates to the rows as they now are. */
  function Committed(db: DB, op: Op, response: Response): DB {
    var log := db.outbox + [EventOf(op, response)];
    match response
    case RideReply(r) =>
      if UpdatesRide(op) && op.ride in db.rides then
        db.(rides := db.rides[op.ride := RideAfter(op, db.rides[op.ride])], outbox := log)
      else db.(rides := db.rides[r.id := r], outbox := log)
    case OfferReply(o) =>
      if UpdatesOffer(op) && op.offer in db.offers then
        db.(offers := db.offers[op.offer := db.offers[op.offer].(status := NextOfferStatus(op))], outbox := log)
      else db.(offers := db.offers[o.id := o], outbox := log)
  }

  function History(w: World, r: RideID): seq<RideStatus> {
    if r in w.history then w.history[r] else []
  }

  function Note(w: World, r: RideID, s: RideStatus): map<RideID, seq<RideStatus>> {
    w.history[r := History(w, r) + [s]]
  }

  function Goto(w: World, t: TxID, phase: Phase): World
    requires t in w.txs
  {
    w.(txs := w.txs[t := w.txs[t].(phase := phase)])
  }

  function Next(w: World, step: Step): World
    requires Enabled(w, step)
  {
    match step
    case Arrive(t, op, key) => w.(txs := w.txs[t := Tx(op, key, Arrived)])
    case Lookup(t, fails) =>
      var key := w.txs[t].key;
      if key.Some? && key.value in w.db.keys && !fails then Goto(w, t, Replied(Ok(w.db.keys[key.value])))
      else Goto(w, t, Begun)
    case Read(t) => Goto(w, t, ReadPhase(w.db, w.txs[t].op))
    case WriteRow(t) => Goto(w, t, WritePhase(w.db, w.txs[t].op, w.txs[t].phase.row))
    case SaveKey(t, fails) =>
      var tx := w.txs[t];
      var duplicate := tx.key.Some? && tx.key.value in w.db.keys;
      Goto(w, t, HasKey(tx.phase.row, tx.phase.response, tx.key.Some? && (fails || duplicate)))
    case TryCommit(t) =>
      var tx := w.txs[t];
      if tx.phase.doomed then Goto(w, t, Replied(Err(Storage)))
      else
        var response := tx.phase.response;
        Goto(w, t, Replied(Ok(response))).(
          db := RideService.Remember(Committed(w.db, tx.op, response), tx.key, response),
          commits := w.commits + [Commit(t, tx.key, response)],
          history := if response.RideReply? then Note(w, response.ride.id, response.ride.status) else w.history)
    case Fail(t) => Goto(w, t, Replied(Err(Storage)))
    case MarkOffered(r) =>
      w.(db := w.db.(rides := w.db.rides[r := w.db.rides[r].(status := Offered)]),
         history := Note(w, r, Offered), offered := w.offered + {r})
  }

  ghost predicate IsRun(w: World, steps: seq<Step>)
    decreases |steps|
  {
    steps == [] || (Enabled(w, steps[0]) && IsRun(Next(w, steps[0]), steps[1..]))
  }

  ghost function Final(w: World, steps: seq<Step>): World
    requires IsRun(w, steps)
    decreases |steps|
  {
    if steps == [] then w else Final(Next(w, steps[0]), steps[1..])
  }

  // ---------- What the locks protect ----------

  /** The row that `tx` read is an earlier version of the committed one; while `tx` holds the lock its status is still
      current. */
  ghost predicate RowMatches(db: DB, op: Op, row: Row, current: bool) {
    match row
    case NoRow => (op.CreateRide? || op.CreateOffer?)
    case RideRow(r) =>
      && UpdatesRide(op) && op.ride in db.rides && r.id == op.ride
      && r.Transition(NextRideStatus(op)).Ok?
      && db.rides[op.ride] == r.(status := db.rides[op.ride].status, driver := db.rides[op.ride].driver)
      && (current ==> db.rides[op.ride].status == r.status)
    case OfferRow(o) =>
      && UpdatesOffer(op) && op.offer in db.offers && o.id == op.offer
      && o.Transition(NextOfferStatus(op)).Ok?
      && db.offers[op.offer] == o.(status := db.offers[op.offer].status)
      && (current ==> db.offers[op.offer].status == o.status)
  }

  /** A buffered response is the one that the row read calls for; a buffered insert is still possible. */
  ghost predicate ResponseMatches(db: DB, op: Op, row: Row, response: Response) {
    match row
    case NoRow => Answer(db, op) == Ok(response)
    case RideRow(r) => UpdatesRide(op) && response == RideReply(RideAfter(op, r))
    case OfferRow(o) => UpdatesOffer(op) && response == OfferReply(o.(status := NextOfferStatus(op)))
  }

  ghost predicate TxMatches(db: DB, tx: Tx) {
    match tx.phase
    case Arrived => true
    case Begun => true
    case HasRead(row) => RowMatches(db, tx.op, row, false)
    case HasWritten(row, response) => RowMatches(db, tx.op, row, true) && ResponseMatches(db, tx.op, row, response)
    case HasKey(row, response, doomed) =>
      && RowMatches(db, tx.op, row, true) && ResponseMatches(db, tx.op, row, response)
      && (!doomed && tx.key.Some? ==> tx.key.value !in db.keys)
    case Replied(result) =>
      result.Ok? && tx.key.Some? ==> tx.key.value in db.keys && db.keys[tx.key.value] == result.value
  }

  /** Row locks and key locks are exclusive. */
  ghost predicate Exclusive(w: World) {
    && (forall t, u :: t in w.txs && u in w.txs && t != u && Holding(w.txs[t]) && Holding(w.txs[u]) ==>
          Target(w.txs[t].op) != Target(w.txs[u].op))
    && (forall t, u, k: nat :: t in w.txs && u in w.txs && t != u && HoldsKey(w.txs[t], k) ==> !HoldsKey(w.txs[u], k))
  }

  ghost predicate Consistent(w: World) {
    && WellKeyed(w.db)
    && Exclusive(w)
    && forall t :: t in w.txs ==> TxMatches(w.db, w.txs[t])
  }

  /** Only writing a row and saving a key take a lock. */
  lemma LocksTaken(w: World, step: Step, t: TxID)
    requires Enabled(w, step) && t in Next(w, step).txs
    ensures Holding(Next(w, step).txs[t]) && !(t in w.txs && Holding(w.txs[t])) ==>
              step == WriteRow(t) && t in w.txs && Next(w, step).txs[t].op == w.txs[t].op
    ensures t in w.txs ==> Next(w, step).txs[t].op == w.txs[t].op && Next(w, step).txs[t].key == w.txs[t].key
    ensures forall k: nat :: HoldsKey(Next(w, step).txs[t], k) && !(t in w.txs && HoldsKey(w.txs[t], k)) ==>
              step.SaveKey? && step.tx == t && t in w.txs && w.txs[t].key == Some(k)
  {
  }

  lemma StepKeepsExclusive(w: World, step: Step)
    requires Exclusive(w) && Enabled(w, step)
    ensures Exclusive(Next(w, step))
  {
    var v := Next(w, step);
    forall t, u | t in v.txs && u in v.txs && t != u && Holding(v.txs[t]) && Holding(v.txs[u])
      ensures Target(v.txs[t].op) != Target(v.txs[u].op)
    {
      LocksTaken(w, step, t);
      LocksTaken(w, step, u);
    }
    forall t, u, k: nat | t in v.txs && u in v.txs && t != u && HoldsKey(v.txs[t], k) ensures !HoldsKey(v.txs[u], k) {
      LocksTaken(w, step, t);
      LocksTaken(w, step, u);
    }
  }

  /** Rows only change status and driver, and keys only come in. */
  ghost predicate Grows(db: DB, after: DB) {
    && (forall r :: r in db.rides ==>
          && r in after.rides
          && after.rides[r] == db.rides[r].(status := after.rides[r].status, driver := after.rides[r].driver))
    && (forall o :: o in db.offers ==>
          o in after.offers && after.offers[o] == db.offers[o].(status := after.offers[o].status))
    && (forall k :: k in db.keys ==> k in after.keys && after.keys[k] == db.keys[k])
  }

  predicate SameRow(db: DB, after: DB, row: Lock) {
    match row
    case RideLock(r) =>
      (r in db.rides <==> r in after.rides) && (r in db.rides && r in after.rides ==> db.rides[r] == after.rides[r])
    case OfferLock(o) =>
      && (o in db.offers <==> o in after.offers)
      && (o in db.offers && o in after.offers ==> db.offers[o] == after.offers[o])
  }

  lemma TxMatchesIsStable(db: DB, after: DB, tx: Tx)
    requires TxMatches(db, tx) && Grows(db, after)
    requires Holding(tx) ==> SameRow(db, after, Target(tx.op))
    requires tx.key.Some? && HoldsKey(tx, tx.key.value) ==> tx.key.value !in after.keys
    ensures TxMatches(after, tx)
  {
  }

  lemma CommitGrows(w: World, t: TxID)
    requires Consistent(w) && Enabled(w, TryCommit(t))
    ensures Grows(w.db, Next(w, TryCommit(t)).db)
    ensures forall k: nat :: k in Next(w, TryCommit(t)).db.keys && k !in w.db.keys ==> HoldsKey(w.txs[t], k)
  {
    assert TxMatches(w.db, w.txs[t]);
  }

  lemma CommitTouchesItsRow(w: World, t: TxID, row: Lock)
    requires Consistent(w) && Enabled(w, TryCommit(t)) && Target(w.txs[t].op) != row
    ensures SameRow(w.db, Next(w, TryCommit(t)).db, row)
  {
    assert TxMatches(w.db, w.txs[t]);
  }

  /** A commit by one transaction leaves what every other transaction relies on. */
  lemma CommitSparesOthers(w: World, t: TxID, u: TxID)
    requires Consistent(w) && Enabled(w, TryCommit(t)) && u in w.txs && u != t
    ensures TxMatches(Next(w, TryCommit(t)).db, w.txs[u])
  {
    assert TxMatches(w.db, w.txs[u]);
    CommitGrows(w, t);
    if Holding(w.txs[u]) {
      CommitTouchesItsRow(w, t, Target(w.txs[u].op));
    }
    TxMatchesIsStable(w.db, Next(w, TryCommit(t)).db, w.txs[u]);
  }

  lemma CommitKeepsKeys(w: World, t: TxID)
    requires Consistent(w) && Enabled(w, TryCommit(t))
    ensures TxMatches(Next(w, TryCommit(t)).db, Next(w, TryCommit(t)).txs[t])
    ensures WellKeyed(Next(w, TryCommit(t)).db)
  {
    assert TxMatches(w.db, w.txs[t]);
  }

  lemma MarkOfferedSparesOthers(w: World, r: RideID, u: TxID)
    requires Consistent(w) && Enabled(w, MarkOffered(r)) && u in w.txs
    ensures TxMatches(Next(w, MarkOffered(r)).db, w.txs[u])
  {
    assert TxMatches(w.db, w.txs[u]);
    TxMatchesIsStable(w.db, Next(w, MarkOffered(r)).db, w.txs[u]);
  }

  /** A step of transaction `t` that does not commit. */
  lemma OwnStepMatches(w: World, step: Step, t: TxID)
    requires Consistent(w) && Enabled(w, step) && !step.TryCommit? && !step.MarkOffered? && step.tx == t
    ensures TxMatches(w.db, Next(w, step).txs[t])
  {
    if t in w.txs {
      assert TxMatches(w.db, w.txs[t]);
    }
  }

  lemma StepKeepsConsistent(w: World, step: Step)
    requires Consistent(w) && Enabled(w, step)
    ensures Consistent(Next(w, step))
  {
    var v := Next(w, step);
    StepKeepsExclusive(w, step);
    match step {
      case TryCommit(t) =>
        CommitKeepsKeys(w, t);
        forall u | u in v.txs && u != t ensures TxMatches(v.db, v.txs[u]) {
          CommitSparesOthers(w, t, u);
        }
      case MarkOffered(r) =>
        forall u | u in v.txs ensures TxMatches(v.db, v.txs[u]) {
          MarkOfferedSparesOthers(w, r, u);
        }
      case _ =>
        OwnStepMatches(w, step, step.tx);
    }
  }

  /** Serializability: the database effect of every commit is that of the whole request run at that moment.
      The reply may differ from the serial one in a single place: the driver it names is the one that was read,
      unless the request itself assigns the driver. */
  lemma CommitIsSerial(w: World, t: TxID)
    requires Consistent(w) && Enabled(w, TryCommit(t)) && !w.txs[t].phase.doomed
    ensures var tx, v := w.txs[t], Next(w, TryCommit(t));
            var (db, reply) := Apply(w.db, tx.op, tx.key, false);
            && v.txs[t].phase == Replied(Ok(tx.phase.response))
            && v.db == db.(keys := v.db.keys)
            && v.db.keys == (if tx.key.Some? then w.db.keys[tx.key.value := tx.phase.response] else w.db.keys)
            && reply.Ok?
            && tx.phase.response ==
               if UpdatesRide(tx.op) && !tx.op.AssignDriver? && reply.value.RideReply? && tx.phase.row.RideRow?
               then RideReply(reply.value.ride.(driver := tx.phase.row.ride.driver))
               else reply.value
  {
    assert TxMatches(w.db, w.txs[t]);
  }

  /** Nothing but a commit, or the out-of-band step, changes the database: an aborted request leaves no trace. */
  lemma OnlyCommitsWrite(w: World, step: Step)
    requires Enabled(w, step) && Next(w, step).db != w.db
    ensures step.MarkOffered? || (step.TryCommit? && !w.txs[step.tx].phase.doomed)
    ensures step.TryCommit? ==> |Next(w, step).commits| == |w.commits| + 1
  {
  }

  // ---------- Idempotency ----------

  /** Every commit's key is in the table with the commit's response, and no two commits share a key. */
  ghost predicate CommitsHaveKeys(w: World) {
    && (forall i :: 0 <= i < |w.commits| && w.commits[i].key.Some? ==>
          var k := w.commits[i].key.value;
          k in w.db.keys && w.db.keys[k] == w.commits[i].response)
    && (forall i, j :: 0 <= i < j < |w.commits| && w.commits[i].key.Some? ==> w.commits[i].key != w.commits[j].key)
  }

  predicate CommittedUnder(w: World, k: nat, response: Response) {
    exists i :: 0 <= i < |w.commits| && w.commits[i].key == Some(k) && w.commits[i].response == response
  }

  /** The key table mirrors the commits: one commit per key, its response the one stored, and no key without a commit.
      */
  ghost predicate KeysMirrorCommits(w: World) {
    CommitsHaveKeys(w) && forall k :: k in w.db.keys ==> CommittedUnder(w, k, w.db.keys[k])
  }

  lemma MoreCommits(w: World, v: World, k: nat, response: Response)
    requires CommittedUnder(w, k, response) && w.commits <= v.commits
    ensures CommittedUnder(v, k, response)
  {
    var i :| 0 <= i < |w.commits| && w.commits[i].key == Some(k) && w.commits[i].response == response;
    assert v.commits[i] == w.commits[i];
  }

  lemma StepKeepsCommits(w: World, step: Step)
    requires Consistent(w) && CommitsHaveKeys(w) && Enabled(w, step)
    ensures CommitsHaveKeys(Next(w, step))
  {
    if step.TryCommit? {
      assert TxMatches(w.db, w.txs[step.tx]);
    }
  }

  /** A key that is there was there, or is the one just committed. */
  lemma KeysComeFromCommits(w: World, step: Step, k: nat)
    requires Consistent(w) && Enabled(w, step) && k in Next(w, step).db.keys
    ensures var v := Next(w, step);
            && w.commits <= v.commits
            && (if k in w.db.keys then v.db.keys[k] == w.db.keys[k]
                else |v.commits| == |w.commits| + 1 && v.commits[|w.commits|].key == Some(k)
                     && v.commits[|w.commits|].response == v.db.keys[k])
  {
    if step.TryCommit? {
      assert TxMatches(w.db, w.txs[step.tx]);
    }
  }

  lemma StepKeepsMirror(w: World, step: Step)
    requires Consistent(w) && KeysMirrorCommits(w) && Enabled(w, step)
    ensures KeysMirrorCommits(Next(w, step))
  {
    var v := Next(w, step);
    StepKeepsCommits(w, step);
    forall k | k in v.db.keys
      ensures CommittedUnder(v, k, v.db.keys[k])
    {
      KeysComeFromCommits(w, step, k);
      if k in w.db.keys {
        MoreCommits(w, v, k, w.db.keys[k]);
      }
    }
  }

  lemma {:induction false} RunKeepsMirror(w: World, steps: seq<Step>)
    requires Consistent(w) && KeysMirrorCommits(w) && IsRun(w, steps)
    ensures Consistent(Final(w, steps)) && KeysMirrorCommits(Final(w, steps))
    decreases |steps|
  {
    if steps == [] {
    } else {
      StepKeepsConsistent(w, steps[0]);
      StepKeepsMirror(w, steps[0]);
      RunKeepsMirror(Next(w, steps[0]), steps[1..]);
    }
  }

  /** Of all the requests that carry one key, however they interleave, at most one commits. */
  lemma OneCommitPerKey(steps: seq<Step>, i: nat, j: nat)
    requires IsRun(EMPTY, steps)
    requires var w := Final(EMPTY, steps);
             i < |w.commits| && j < |w.commits| && w.commits[i].key.Some? && w.commits[i].key == w.commits[j].key
    ensures i == j
  {
    RunKeepsMirror(EMPTY, steps);
  }

  /** And every successful reply under that key is the response of the one commit. */
  lemma RepliesUnderOneKeyAgree(steps: seq<Step>, t: TxID, u: TxID)
    requires IsRun(EMPTY, steps)
    requires var w := Final(EMPTY, steps);
             && t in w.txs && u in w.txs && w.txs[t].key.Some? && w.txs[t].key == w.txs[u].key
             && w.txs[t].phase.Replied? && w.txs[u].phase.Replied?
             && w.txs[t].phase.result.Ok? && w.txs[u].phase.result.Ok?
    ensures var w := Final(EMPTY, steps);
            && w.txs[t].phase.result == w.txs[u].phase.result
            && w.txs[t].key.value in w.db.keys
            && w.txs[t].phase.result == Ok(w.db.keys[w.txs[t].key.value])
            && CommittedUnder(w, w.txs[t].key.value, w.txs[t].phase.result.value)
  {
    RunKeepsMirror(EMPTY, steps);
    var w := Final(EMPTY, steps);
    assert TxMatches(w.db, w.txs[t]) && TxMatches(w.db, w.txs[u]);
  }

  // ---------- The event log ----------

  /** The last event about ride `r`, offers left out. */
  function LastEvent(log: seq<Event>, r: RideID): Option<Event> {
    if log == [] then None
    else
      var e := log[|log| - 1];
      if e.RideEvent? && e.ride == r then Some(e) else LastEvent(log[..|log| - 1], r)
  }

  /** The status that a ride topic announces. */
  function Announces(topic: Topic): Option<RideStatus> {
    match topic
    case RideRequested => Some(Requested)
    case RideCancelled => Some(Cancelled)
    case MatchingStarted => Some(Matching)
    case RideDriverAssigned => Some(DriverAssigned)
    case RideInProgress => Some(InProgress)
    case RideCompleted => Some(Completed)
    case _ => None
  }

  /** The outcome that an offer topic announces. */
  function Resolves(topic: Topic): Option<OfferStatus> {
    match topic
    case OfferAccepted => Some(Accepted)
    case OfferDeclined => Some(Declined)
    case OfferExpired => Some(Expired)
    case _ => None
  }

  predicate Path(h: seq<RideStatus>) {
    forall i :: 0 < i < |h| ==> h[i - 1] == h[i] || Arrow(h[i - 1], h[i])
  }

  /** The row, the history and the last event of one ride agree. */
  ghost predicate Agree(row: Option<Ride>, h: seq<RideStatus>, last: Option<Event>, offered: bool) {
    match row
    case Some(ride) =>
      && h != [] && h[0] == Requested && h[|h| - 1] == ride.status && Path(h)
      && last.Some?
      && (|| Announces(last.value.topic) == Some(ride.status)
          || (ride.status == Offered && last.value.topic == MatchingStarted && offered))
      && (!offered ==> ride.status == Requested || ride.status == Matching || ride.status == Cancelled)
      && (ride.status == DriverAssigned || ride.status == InProgress || ride.status == Completed ==> ride.driver.Some?)
    case None => h == [] && last == None && !offered
  }

  function RowOf(db: DB, r: RideID): Option<Ride> {
    if r in db.rides then Some(db.rides[r]) else None
  }

  ghost predicate RideBooks(w: World, r: RideID) {
    Agree(RowOf(w.db, r), History(w, r), LastEvent(w.db.outbox, r), r in w.offered)
  }

  lemma LastEventOfAppend(log: seq<Event>, e: Event, r: RideID)
    ensures LastEvent(log + [e], r) == if e.RideEvent? && e.ride == r then Some(e) else LastEvent(log, r)
  {
    assert (log + [e])[..|log|] == log;
  }

  /** A commit that updates ride `r`: its status moves along an arrow or stands still, and the new last event announces
      it. */
  lemma CommitMovesRide(w: World, t: TxID, r: RideID)
    requires Consistent(w) && Enabled(w, TryCommit(t)) && !w.txs[t].phase.doomed
    requires UpdatesRide(w.txs[t].op) && w.txs[t].op.ride == r
    ensures var op, v, next := w.txs[t].op, Next(w, TryCommit(t)), NextRideStatus(w.txs[t].op);
            && r in w.db.rides && RowOf(v.db, r) == Some(RideAfter(op, w.db.rides[r]))
            && (w.db.rides[r].status == next || Arrow(w.db.rides[r].status, next))
            && History(v, r) == History(w, r) + [next]
            && LastEvent(v.db.outbox, r) == Some(RideEvent(TopicOf(op), r, next))
  {
    assert TxMatches(w.db, w.txs[t]);
  }

  lemma CommitCreatesRide(w: World, t: TxID, r: RideID)
    requires Consistent(w) && Enabled(w, TryCommit(t)) && !w.txs[t].phase.doomed
    requires w.txs[t].op.CreateRide? && w.txs[t].op.ride == r
    ensures var op, v := w.txs[t].op, Next(w, TryCommit(t));
            && r !in w.db.rides && RowOf(v.db, r) == Some(Ride(r, op.rider, None, Requested, op.route))
            && History(v, r) == History(w, r) + [Requested]
            && LastEvent(v.db.outbox, r) == Some(RideEvent(RideRequested, r, Requested))
  {
    assert TxMatches(w.db, w.txs[t]);
  }

  lemma CommitSparesRide(w: World, t: TxID, r: RideID)
    requires Consistent(w) && Enabled(w, TryCommit(t)) && !w.txs[t].phase.doomed && Target(w.txs[t].op) != RideLock(r)
    ensures var v := Next(w, TryCommit(t));
            && RowOf(v.db, r) == RowOf(w.db, r) && History(v, r) == History(w, r)
            && LastEvent(v.db.outbox, r) == LastEvent(w.db.outbox, r)
  {
    var tx := w.txs[t];
    assert TxMatches(w.db, tx);
    LastEventOfAppend(w.db.outbox, EventOf(tx.op, tx.phase.response), r);
  }

  lemma MoveAgrees(ride: Ride, h: seq<RideStatus>, last: Option<Event>, offered: bool, op: Op)
    requires Agree(Some(ride), h, last, offered) && UpdatesRide(op)
    requires ride.status == NextRideStatus(op) || Arrow(ride.status, NextRideStatus(op))
    ensures Agree(Some(RideAfter(op, ride)), h + [NextRideStatus(op)],
                  Some(RideEvent(TopicOf(op), op.ride, NextRideStatus(op))), offered)
  {
  }

  lemma CommitKeepsRideBooks(w: World, t: TxID, r: RideID)
    requires Consistent(w) && Enabled(w, TryCommit(t)) && !w.txs[t].phase.doomed && RideBooks(w, r)
    ensures RideBooks(Next(w, TryCommit(t)), r)
  {
    var op := w.txs[t].op;
    if Target(op) != RideLock(r) {
      CommitSparesRide(w, t, r);
    } else if op.CreateRide? {
      CommitCreatesRide(w, t, r);
    } else {
      CommitMovesRide(w, t, r);
      MoveAgrees(w.db.rides[r], History(w, r), LastEvent(w.db.outbox, r), r in w.offered, op);
    }
  }

  lemma MarkOfferedKeepsRideBooks(w: World, step: Step, r: RideID)
    requires step.MarkOffered? && Enabled(w, step) && RideBooks(w, r)
    ensures RideBooks(Next(w, step), r)
  {
  }

  lemma StepKeepsRideBooks(w: World, step: Step, r: RideID)
    requires Consistent(w) && Enabled(w, step) && RideBooks(w, r)
    ensures RideBooks(Next(w, step), r)
  {
    if step.MarkOffered? {
      MarkOfferedKeepsRideBooks(w, step, r);
    } else if step.TryCommit? && !w.txs[step.tx].phase.doomed {
      CommitKeepsRideBooks(w, step.tx, r);
    } else {
      var v := Next(w, step);
      assert v.db == w.db && v.history == w.history && v.offered == w.offered;
    }
  }

  lemma {:induction false} RunKeepsRideBooks(w: World, steps: seq<Step>, r: RideID)
    requires Consistent(w) && RideBooks(w, r) && IsRun(w, steps)
    ensures RideBooks(Final(w, steps), r)
    decreases |steps|
  {
    if steps == [] {
    } else {
      StepKeepsConsistent(w, steps[0]);
      StepKeepsRideBooks(w, steps[0], r);
      RunKeepsRideBooks(Next(w, steps[0]), steps[1..], r);
    }
  }

  /** In every run a ride's committed history starts at REQUESTED, ends at its status, and moves only along the arrows.
      */
  lemma HistoryIsAPath(steps: seq<Step>, r: RideID)
    requires IsRun(EMPTY, steps) && r in Final(EMPTY, steps).db.rides
    ensures var w := Final(EMPTY, steps);
            var h := History(w, r);
            h != [] && h[0] == Requested && h[|h| - 1] == w.db.rides[r].status && Path(h)
  {
    RunKeepsRideBooks(EMPTY, steps, r);
  }

  /** A path never comes back to a status that it has left. */
  lemma {:induction false} PathsClimb(h: seq<RideStatus>, i: nat, j: nat)
    requires Path(h) && i <= j < |h|
    ensures Rank(h[i]) <= Rank(h[j])
    ensures h[i] == h[j] ==> forall k :: i <= k <= j ==> h[k] == h[i]
    decreases j - i
  {
    if i == j {
    } else {
      PathsClimb(h, i, j - 1);
      if Arrow(h[j - 1], h[j]) {
        ArrowsRise(h[j - 1], h[j]);
      }
    }
  }

  /** The event log determines the status: it is the one the ride's last event announces, or OFFERED
      if that event is ride.matching.started and the out-of-band step moved the ride on. */
  lemma LogDeterminesStatus(steps: seq<Step>, r: RideID)
    requires IsRun(EMPTY, steps) && r in Final(EMPTY, steps).db.rides
    ensures var w := Final(EMPTY, steps);
            var last := LastEvent(w.db.outbox, r);
            && last.Some?
            && (|| Announces(last.value.topic) == Some(w.db.rides[r].status)
                || (w.db.rides[r].status == Offered && last.value.topic == MatchingStarted && r in w.offered))
  {
    RunKeepsRideBooks(EMPTY, steps, r);
  }

  /** No operation of the service moves a ride to OFFERED, so without the out-of-band step it gets no further than
      MATCHING. */
  lemma StuckWithoutTheOutOfBandStep(steps: seq<Step>, r: RideID)
    requires IsRun(EMPTY, steps) && MarkOffered(r) !in steps && r in Final(EMPTY, steps).db.rides
    ensures var s := Final(EMPTY, steps).db.rides[r].status; s == Requested || s == Matching || s == Cancelled
  {
    RunKeepsRideBooks(EMPTY, steps, r);
    OfferedOnlyOutOfBand(EMPTY, steps, r);
  }

  lemma {:induction false} OfferedOnlyOutOfBand(w: World, steps: seq<Step>, r: RideID)
    requires IsRun(w, steps) && MarkOffered(r) !in steps
    ensures r in Final(w, steps).offered <==> r in w.offered
    decreases |steps|
  {
    if steps == [] {
    } else {
      assert steps[0] in steps;
      OfferedOnlyOutOfBand(Next(w, steps[0]), steps[1..], r);
    }
  }

  /** From DRIVER_ASSIGNED on a ride has a driver. */
  lemma AssignedRidesHaveDrivers(steps: seq<Step>, r: RideID)
    requires IsRun(EMPTY, steps) && r in Final(EMPTY, steps).db.rides
    ensures var ride := Final(EMPTY, steps).db.rides[r];
            ride.status == DriverAssigned || ride.status == InProgress || ride.status == Completed ==> ride.driver.Some?
  {
    RunKeepsRideBooks(EMPTY, steps, r);
  }

  predicate DriverIsSettled(s: RideStatus) {
    s == InProgress || s == Completed || s == Cancelled
  }

  lemma StepKeepsSettledDriver(w: World, step: Step, r: RideID)
    requires Consistent(w) && Enabled(w, step) && r in w.db.rides && DriverIsSettled(w.db.rides[r].status)
    ensures var v := Next(w, step);
            r in v.db.rides && DriverIsSettled(v.db.rides[r].status) && v.db.rides[r].driver == w.db.rides[r].driver
  {
    if step.TryCommit? {
      assert TxMatches(w.db, w.txs[step.tx]);
    }
  }

  /** Once a ride is IN_PROGRESS or CANCELLED its driver never changes. (Before that, assigning again replaces the
      driver.) */
  lemma {:induction false} SettledDriverIsFinal(w: World, steps: seq<Step>, r: RideID)
    requires Consistent(w) && IsRun(w, steps) && r in w.db.rides && DriverIsSettled(w.db.rides[r].status)
    ensures r in Final(w, steps).db.rides && Final(w, steps).db.rides[r].driver == w.db.rides[r].driver
    decreases |steps|
  {
    if steps == [] {
    } else {
      StepKeepsConsistent(w, steps[0]);
      StepKeepsSettledDriver(w, steps[0], r);
      SettledDriverIsFinal(Next(w, steps[0]), steps[1..], r);
    }
  }

  /** Every outcome in the log is the offer's present, final status. */
  ghost predicate OutcomesStand(w: World) {
    forall i :: 0 <= i < |w.db.outbox| ==>
      var e := w.db.outbox[i];
      e.OfferEvent? && Resolves(e.topic).Some? ==>
        e.offer in w.db.offers && w.db.offers[e.offer].status == Resolves(e.topic).value
  }

  lemma StepKeepsOutcomes(w: World, step: Step)
    requires Consistent(w) && OutcomesStand(w) && Enabled(w, step)
    ensures OutcomesStand(Next(w, step))
  {
    if step.TryCommit? {
      assert TxMatches(w.db, w.txs[step.tx]);
    }
  }

  lemma {:induction false} RunKeepsOutcomes(w: World, steps: seq<Step>)
    requires Consistent(w) && OutcomesStand(w) && IsRun(w, steps)
    ensures OutcomesStand(Final(w, steps))
    decreases |steps|
  {
    if steps == [] {
    } else {
      StepKeepsConsistent(w, steps[0]);
      StepKeepsOutcomes(w, steps[0]);
      RunKeepsOutcomes(Next(w, steps[0]), steps[1..]);
    }
  }

  /** No offer is ever announced under two different outcomes. */
  lemma OneOutcomePerOffer(steps: seq<Step>, i: nat, j: nat)
    requires IsRun(EMPTY, steps)
    requires var log := Final(EMPTY, steps).db.outbox;
             && i < |log| && j < |log| && log[i].OfferEvent? && log[j].OfferEvent? && log[i].offer == log[j].offer
             && Resolves(log[i].topic).Some? && Resolves(log[j].topic).Some?
    ensures Final(EMPTY, steps).db.outbox[i].topic == Final(EMPTY, steps).db.outbox[j].topic
  {
    RunKeepsOutcomes(EMPTY, steps);
  }
}

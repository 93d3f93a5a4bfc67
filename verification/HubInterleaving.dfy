/** Broadcast is three critical sections. Here any number of broadcasts run at once, and between any two of
    their steps clients subscribe, unsubscribe and read. Fan-outs hold the read lock, so they overlap each
    other but keep out every step that needs the write lock. */
module HubInterleaving {
  import opened Options
  import opened Sequences
  import opened EventId
  import opened NotifyHub

  datatype Stage = Numbered | Appended | FanningOut(todo: set<ClientID>) | Done

  /** One channel. `replayed` went in at subscription, `live` later; `lost` met a full buffer. When the channel was
      made, `joinedAt` notifications had been appended, and the broadcasts in `finished` had been fanned out. */
  datatype Channel = Channel(
    filters: Filters, lastSeen: nat, joinedAt: nat, finished: set<nat>,
    replayed: seq<Notification>, live: seq<Notification>, lost: set<Notification>, read: nat, closed: bool)
  {
    function Unread(): int {
      |replayed| + |live| - read
    }
  }

  /** A broadcast is known by its number. `appended` lists the notifications in the order they entered the history. */
  datatype World = World(
    lastID: nat, note: map<nat, Notification>, stage: map<nat, Stage>,
    appended: seq<Notification>, history: seq<Notification>,
    registered: map<ClientID, nat>, channels: seq<Channel>, panicked: bool)

  datatype Step =
    | TakeNumber(event: string, data: Data)
    | Append(b: nat)
    | BeginFanOut(b: nat)
    | Send(b: nat, id: ClientID)
    | EndFanOut(b: nat)
    | Subscribe(id: ClientID, filters: Filters, lastEventID: nat)
    | Unsubscribe(id: ClientID)
    | Read(channel: nat)

  const EMPTY := World(0, map[], map[], [], [], map[], [], false)

  ghost predicate WriteLockFree(w: World) {
    forall b :: b in w.stage ==> !w.stage[b].FanningOut?
  }

  /** A hub without history appends without taking the lock. */
  ghost predicate Enabled(c: Config, w: World, step: Step) {
    match step
    case TakeNumber(_, _) => WriteLockFree(w) && w.lastID + 1 < LIMIT
    case Append(b) => (0 < c.historySize ==> WriteLockFree(w)) && b in w.stage && w.stage[b] == Numbered
    case BeginFanOut(b) => b in w.stage && w.stage[b] == Appended
    case Send(b, id) => b in w.stage && w.stage[b].FanningOut? && id in w.stage[b].todo
    case EndFanOut(b) => b in w.stage && w.stage[b] == FanningOut({})
    case Subscribe(_, _, _) => WriteLockFree(w)
    case Unsubscribe(_) => WriteLockFree(w)
    case Read(i) => i < |w.channels| && 0 < w.channels[i].Unread()
  }

  function Join(c: Config, w: World, filters: Filters, lastEventID: nat): Channel {
    var owed := if lastEventID == 0 then [] else Select(w.history, Want(filters, Some(lastEventID)));
    var replay := Replay(w.history, filters, lastEventID, c.bufferSize);
    Channel(filters, lastEventID, |w.appended|, (set b | b in w.stage && w.stage[b] == Done), replay, [],
            set n | n in owed && n !in replay, 0, false)
  }

  function Deliver(c: Config, ch: Channel, n: Notification): Channel {
    if !Matches(ch.filters, n.data) then ch
    else if ch.Unread() < c.bufferSize then ch.(live := ch.live + [n])
    else ch.(lost := ch.lost + {n})
  }

  function Next(c: Config, w: World, step: Step): World
    requires Enabled(c, w, step)
  {
    match step
    case TakeNumber(event, data) =>
      var b := w.lastID + 1;
      w.(lastID := b, note := w.note[b := Notification(b, event, data)], stage := w.stage[b := Numbered])
    case Append(b) =>
      if b !in w.note then w
      else w.(stage := w.stage[b := Appended], appended := w.appended + [w.note[b]],
              history := Remember(w.history, c.historySize, w.note[b]))
    case BeginFanOut(b) => w.(stage := w.stage[b := FanningOut(w.registered.Keys)])
    case Send(b, id) =>
      var v := w.(stage := w.stage[b := FanningOut(w.stage[b].todo - {id})]);
      if b !in w.note || id !in w.registered || |w.channels| <= w.registered[id] then v
      else
        var i := w.registered[id];
        v.(channels := w.channels[i := Deliver(c, w.channels[i], w.note[b])],
           panicked := w.panicked || (w.channels[i].closed && Matches(w.channels[i].filters, w.note[b].data)))
    case EndFanOut(b) => w.(stage := w.stage[b := Done])
    case Subscribe(id, filters, lastEventID) =>
      w.(registered := w.registered[id := |w.channels|], channels := w.channels + [Join(c, w, filters, lastEventID)])
    case Unsubscribe(id) =>
      if id !in w.registered || |w.channels| <= w.registered[id] then w
      else
        var i := w.registered[id];
        w.(registered := w.registered - {id}, channels := w.channels[i := w.channels[i].(closed := true)],
           panicked := w.panicked || w.channels[i].closed)
    case Read(i) => w.(channels := w.channels[i := w.channels[i].(read := w.channels[i].read + 1)])
  }

  /** Every step of the run is enabled where it is taken. */
  ghost predicate IsRun(c: Config, steps: seq<Step>)
    decreases |steps|, 0
  {
    steps == [] ||
    (IsRun(c, steps[..|steps| - 1]) && Enabled(c, End(c, steps[..|steps| - 1]), steps[|steps| - 1]))
  }

  ghost function End(c: Config, steps: seq<Step>): World
    requires IsRun(c, steps)
    decreases |steps|, 1
  {
    if steps == [] then EMPTY else Next(c, End(c, steps[..|steps| - 1]), steps[|steps| - 1])
  }

  // ---------- The books ----------

  /** Numbers are handed out once, and the appended list holds each notification past its first stage exactly once. */
  ghost predicate Books(c: Config, w: World) {
    && w.lastID < LIMIT
    && w.note.Keys == w.stage.Keys
    && (forall b :: b in w.note ==> b <= w.lastID && w.note[b].number == b)
    && (forall b :: b in w.note ==> (w.stage[b] != Numbered <==> w.note[b] in w.appended))
    && (forall i :: 0 <= i < |w.appended| ==>
          w.appended[i].number in w.note && w.note[w.appended[i].number] == w.appended[i])
    && NoRepeats(w.appended)
    && w.history == LastN(w.appended, c.historySize)
  }

  lemma TakeNumberKeepsBooks(c: Config, w: World, event: string, data: Data)
    requires Books(c, w) && Enabled(c, w, TakeNumber(event, data))
    ensures Books(c, Next(c, w, TakeNumber(event, data)))
  {
    var n := Notification(w.lastID + 1, event, data);
    forall i | 0 <= i < |w.appended|
      ensures w.appended[i] != n
    {
      assert w.appended[i].number in w.note;
    }
  }

  lemma AppendKeepsBooks(c: Config, w: World, b: nat)
    requires Books(c, w) && Enabled(c, w, Append(b))
    ensures Books(c, Next(c, w, Append(b)))
  {
    var v, n := Next(c, w, Append(b)), w.note[b];
    assert v.appended == w.appended + [n];
    RememberLastN(w.appended, c.historySize, n);
    forall a | a in v.note
      ensures v.stage[a] != Numbered <==> v.note[a] in v.appended
    {
      assert v.note[a] in v.appended <==> v.note[a] in w.appended || v.note[a] == n;
    }
  }

  /** Nothing else in the books depends on how far a fan-out is. */
  lemma BooksAreStable(c: Config, w: World, v: World)
    requires Books(c, w)
    requires v.lastID == w.lastID && v.note == w.note && v.appended == w.appended && v.history == w.history
    requires v.stage.Keys == w.stage.Keys
    requires forall b :: b in w.stage ==> (v.stage[b] == Numbered <==> w.stage[b] == Numbered)
    ensures Books(c, v)
  {
  }

  lemma StepKeepsBooks(c: Config, w: World, step: Step)
    requires Books(c, w) && Enabled(c, w, step)
    ensures Books(c, Next(c, w, step))
  {
    match step {
      case TakeNumber(event, data) => TakeNumberKeepsBooks(c, w, event, data);
      case Append(b) => AppendKeepsBooks(c, w, b);
      case _ => BooksAreStable(c, w, Next(c, w, step));
    }
  }

  // ---------- Registrations ----------

  /** Registered channels exist, are open and are registered under one identifier only; nobody has sent on or closed a
      closed channel. */
  ghost predicate Registry(w: World) {
    && !w.panicked
    && (forall id :: id in w.registered ==> w.registered[id] < |w.channels| && !w.channels[w.registered[id]].closed)
    && (forall i, j :: i in w.registered && j in w.registered && w.registered[i] == w.registered[j] ==> i == j)
    && (forall b :: b in w.stage && w.stage[b].FanningOut? ==> w.stage[b].todo <= w.registered.Keys)
  }

  lemma SendKeepsRegistry(c: Config, w: World, b: nat, id: ClientID)
    requires Registry(w) && Enabled(c, w, Send(b, id))
    ensures Registry(Next(c, w, Send(b, id)))
  {
    assert id in w.registered && !w.channels[w.registered[id]].closed;
  }

  lemma UnsubscribeKeepsRegistry(c: Config, w: World, id: ClientID)
    requires Registry(w) && Enabled(c, w, Unsubscribe(id))
    ensures Registry(Next(c, w, Unsubscribe(id)))
  {
  }

  lemma StepKeepsRegistry(c: Config, w: World, step: Step)
    requires Registry(w) && Enabled(c, w, step)
    ensures Registry(Next(c, w, step))
  {
    match step {
      case Send(b, id) => SendKeepsRegistry(c, w, b, id);
      case Unsubscribe(id) => UnsubscribeKeepsRegistry(c, w, id);
      case _ =>
    }
  }

  // ---------- Replay ----------

  /** What the history held when the channel was made. */
  function Held(c: Config, appended: seq<Notification>, ch: Channel): seq<Notification>
    requires ch.joinedAt <= |appended|
  {
    LastN(appended[..ch.joinedAt], c.historySize)
  }

  predicate Owed(ch: Channel, n: Notification) {
    0 < ch.lastSeen && Wanted(Want(ch.filters, Some(ch.lastSeen)), n)
  }

  /** The replay holds, once each, only what the channel was owed of the history, and all of that but what did not fit.
      */
  ghost predicate Replayed(c: Config, appended: seq<Notification>, ch: Channel) {
    && ch.joinedAt <= |appended|
    && NoRepeats(ch.replayed)
    && (forall n :: n in ch.replayed ==> n in Held(c, appended, ch) && Owed(ch, n))
    && (forall n :: n in Held(c, appended, ch) && Owed(ch, n) ==> n in ch.replayed || n in ch.lost)
  }

  lemma {:induction false} SelectDistinct(ns: seq<Notification>, w: Want)
    requires NoRepeats(ns)
    ensures NoRepeats(Select(ns, w))
  {
    if ns == [] {
    } else {
      SelectDistinct(ns[1..], w);
      SelectMembers(ns[1..], w);
    }
  }

  lemma JoinReplays(c: Config, w: World, filters: Filters, lastEventID: nat)
    requires NoRepeats(w.appended) && w.history == LastN(w.appended, c.historySize)
    ensures Replayed(c, w.appended, Join(c, w, filters, lastEventID))
  {
    var ch, want := Join(c, w, filters, lastEventID), Want(filters, Some(lastEventID));
    assert w.appended[..|w.appended|] == w.appended;
    assert Held(c, w.appended, ch) == w.history;
    SelectDistinct(w.history, want);
    SelectMembers(w.history, want);
    var owed := Select(w.history, want);
    assert forall n :: n in ch.replayed ==> n in owed;
  }

  /** The part of a channel that is settled when it is made; losses only add up. */
  predicate SameJoin(a: Channel, b: Channel) {
    && b.filters == a.filters && b.lastSeen == a.lastSeen && b.joinedAt == a.joinedAt && b.finished == a.finished
    && b.replayed == a.replayed && a.lost <= b.lost
  }

  lemma ReplayedIsStable(c: Config, a: Channel, before: seq<Notification>, b: Channel, after: seq<Notification>)
    requires Replayed(c, before, a) && SameJoin(a, b) && before <= after
    ensures Replayed(c, after, b)
  {
    assert after[..b.joinedAt] == before[..a.joinedAt];
  }

  lemma StepKeepsJoins(c: Config, w: World, step: Step, i: nat)
    requires Enabled(c, w, step) && i < |w.channels|
    ensures var v := Next(c, w, step);
            && i < |v.channels| && SameJoin(w.channels[i], v.channels[i]) && w.appended <= v.appended
            && (!(step.Send? && step.id in w.registered && w.registered[step.id] == i) ==>
                  v.channels[i].live == w.channels[i].live && v.channels[i].lost == w.channels[i].lost)
  {
  }

  lemma StepKeepsReplayed(c: Config, w: World, step: Step, i: nat)
    requires Books(c, w) && Enabled(c, w, step) && i < |Next(c, w, step).channels|
    requires i < |w.channels| ==> Replayed(c, w.appended, w.channels[i])
    ensures Replayed(c, Next(c, w, step).appended, Next(c, w, step).channels[i])
  {
    if i < |w.channels| {
      StepKeepsJoins(c, w, step, i);
      ReplayedIsStable(c, w.channels[i], w.appended, Next(c, w, step).channels[i], Next(c, w, step).appended);
    } else {
      JoinReplays(c, w, step.filters, step.lastEventID);
    }
  }

  // ---------- Live delivery ----------

  /** Broadcast `b` has already visited `id`, or will never visit it again. */
  predicate Passed(w: World, b: nat, id: ClientID)
    requires b in w.stage
  {
    w.stage[b] == Done || (w.stage[b].FanningOut? && id !in w.stage[b].todo)
  }

  /** A registered channel was offered exactly the broadcasts that passed it and had not been fanned out when it was
      made; those that had were appended before. */
  ghost predicate Live(w: World, id: ClientID, ch: Channel)
    requires w.note.Keys == w.stage.Keys && ch.joinedAt <= |w.appended|
  {
    && NoRepeats(ch.live)
    && (forall m :: m in ch.live ==> m.number in w.note && w.note[m.number] == m)
    && (forall b :: b in ch.finished ==> b in w.note && w.stage[b] == Done && w.note[b] in w.appended[..ch.joinedAt])
    && forall b :: b in w.note ==>
      && (w.note[b] in ch.live ==> Passed(w, b, id) && b !in ch.finished && Matches(ch.filters, w.note[b].data))
      && (Passed(w, b, id) && Matches(ch.filters, w.note[b].data) ==>
            w.note[b] in ch.live || w.note[b] in ch.lost || b in ch.finished)
  }

  /** A step that touches neither the channel nor its progress through any broadcast leaves it in order. */
  lemma LiveIsStable(w: World, v: World, id: ClientID, ch: Channel)
    requires w.note.Keys == w.stage.Keys && v.note.Keys == v.stage.Keys
    requires ch.joinedAt <= |w.appended| && w.appended <= v.appended
    requires Live(w, id, ch)
    requires forall b :: b in w.note ==> b in v.note && v.note[b] == w.note[b] && Passed(v, b, id) == Passed(w, b, id)
    requires forall b :: b in w.note && w.stage[b] == Done ==> v.stage[b] == Done
    requires forall b :: b in v.note && b !in w.note ==> !Passed(v, b, id) && v.note[b].number == b
    ensures Live(v, id, ch)
  {
    assert v.appended[..ch.joinedAt] == w.appended[..ch.joinedAt];
  }

  /** The visit of broadcast `b` to the channel. */
  lemma LiveAfterVisit(c: Config, w: World, v: World, id: ClientID, ch: Channel, b: nat)
    requires w.note.Keys == w.stage.Keys && v.stage.Keys == w.stage.Keys
    requires ch.joinedAt <= |w.appended| && v.appended == w.appended && v.note == w.note
    requires forall a :: a in w.note ==> w.note[a].number == a
    requires Live(w, id, ch) && b in w.note && Passed(v, b, id) && !Passed(w, b, id)
    requires forall a :: a in w.note && a != b ==> Passed(v, a, id) == Passed(w, a, id)
    requires forall a :: a in w.note && w.stage[a] == Done ==> v.stage[a] == Done
    ensures Live(v, id, Deliver(c, ch, w.note[b]))
  {
    forall a | a in w.note && a != b
      ensures w.note[a] != w.note[b]
    {
      assert w.note[a].number == a;
    }
    assert b !in ch.finished && w.note[b] !in ch.live;
  }

  /** Only a visit, or joining anew, changes what a registered channel holds. */
  lemma OthersLeaveChannel(c: Config, w: World, step: Step, id: ClientID)
    requires Registry(w) && Enabled(c, w, step) && id in Next(c, w, step).registered
    requires !(step.Subscribe? && id == step.id) && !(step.Send? && id == step.id)
    ensures var v := Next(c, w, step);
            && id in w.registered && v.registered[id] == w.registered[id] < |v.channels|
            && v.channels[v.registered[id]]
               == w.channels[w.registered[id]].(read := v.channels[v.registered[id]].read)
  {
  }

  /** One broadcast moves on to another stage without passing, or un-passing, the channel. */
  lemma MovingOnKeepsProgress(w: World, v: World, b: nat, id: ClientID)
    requires w.note.Keys == w.stage.Keys && b in w.stage && v.note == w.note
    requires b in v.stage && v.stage == w.stage[b := v.stage[b]]
    requires Passed(v, b, id) == Passed(w, b, id) && (w.stage[b] == Done ==> v.stage[b] == Done)
    ensures v.note.Keys == v.stage.Keys
    ensures forall a :: a in w.note ==> Passed(v, a, id) == Passed(w, a, id)
    ensures forall a :: a in w.note && w.stage[a] == Done ==> v.stage[a] == Done
  {
  }

  lemma StepKeepsProgress(c: Config, w: World, step: Step, v: World, id: ClientID)
    requires w.note.Keys == w.stage.Keys && Enabled(c, w, step) && v == Next(c, w, step) && id in w.registered
    requires w.lastID + 1 !in w.note && !(step.Send? && id == step.id)
    ensures w.appended <= v.appended && v.note.Keys == v.stage.Keys
    ensures forall b :: b in w.note ==> b in v.note && v.note[b] == w.note[b] && Passed(v, b, id) == Passed(w, b, id)
    ensures forall b :: b in w.note && w.stage[b] == Done ==> v.stage[b] == Done
    ensures forall b :: b in v.note && b !in w.note ==> !Passed(v, b, id)
  {
    match step {
      case TakeNumber(_, _) =>
      case Append(b) => MovingOnKeepsProgress(w, v, b, id);
      case BeginFanOut(b) => MovingOnKeepsProgress(w, v, b, id);
      case Send(b, to) => MovingOnKeepsProgress(w, v, b, id);
      case EndFanOut(b) => MovingOnKeepsProgress(w, v, b, id);
      case _ => assert v.note == w.note && v.stage == w.stage;
    }
  }

  lemma VisitKeepsLive(c: Config, w: World, b: nat, id: ClientID, v: World)
    requires w.note.Keys == w.stage.Keys && forall a :: a in w.note ==> w.note[a].number == a
    requires Enabled(c, w, Send(b, id)) && v == Next(c, w, Send(b, id))
    requires id in w.registered && w.registered[id] < |w.channels|
    requires w.channels[w.registered[id]].joinedAt <= |w.appended| && Live(w, id, w.channels[w.registered[id]])
    ensures v.registered == w.registered && |v.channels| == |w.channels| && v.note.Keys == v.stage.Keys
    ensures v.channels[v.registered[id]].joinedAt <= |v.appended|
    ensures Live(v, id, v.channels[v.registered[id]])
  {
    LiveAfterVisit(c, w, v, id, w.channels[w.registered[id]], b);
  }

  lemma JoinIsLive(c: Config, w: World, id: ClientID, filters: Filters, lastEventID: nat, v: World)
    requires Books(c, w) && Enabled(c, w, Subscribe(id, filters, lastEventID))
    requires v == Next(c, w, Subscribe(id, filters, lastEventID))
    ensures Live(v, id, Join(c, w, filters, lastEventID))
  {
    assert w.appended[..|w.appended|] == w.appended;
  }

  lemma OtherStepKeepsLive(c: Config, w: World, step: Step, id: ClientID, v: World)
    requires Books(c, w) && Enabled(c, w, step) && v == Next(c, w, step) && Books(c, v)
    requires id in w.registered && w.registered[id] < |w.channels|
    requires w.channels[w.registered[id]].joinedAt <= |w.appended| && Live(w, id, w.channels[w.registered[id]])
    requires !(step.Send? && id == step.id)
    ensures w.appended <= v.appended
    ensures Live(v, id, w.channels[w.registered[id]])
  {
    StepKeepsProgress(c, w, step, v, id);
    LiveIsStable(w, v, id, w.channels[w.registered[id]]);
  }

  /** Reading changes nothing that Live speaks of. */
  lemma LiveIgnoresReads(w: World, id: ClientID, ch: Channel, read: nat)
    requires w.note.Keys == w.stage.Keys && ch.joinedAt <= |w.appended|
    requires Live(w, id, ch)
    ensures Live(w, id, ch.(read := read))
  {
  }

  lemma StepKeepsLive(c: Config, w: World, step: Step, id: ClientID, v: World)
    requires Books(c, w) && Registry(w) && Enabled(c, w, step) && v == Next(c, w, step) && id in v.registered
    requires id in w.registered ==>
               w.channels[w.registered[id]].joinedAt <= |w.appended| && Live(w, id, w.channels[w.registered[id]])
    ensures Books(c, v) && v.registered[id] < |v.channels| && v.channels[v.registered[id]].joinedAt <= |v.appended|
    ensures Live(v, id, v.channels[v.registered[id]])
  {
    StepKeepsBooks(c, w, step);
    if step.Subscribe? && id == step.id {
      JoinIsLive(c, w, id, step.filters, step.lastEventID, v);
    } else if step.Send? && id == step.id {
      VisitKeepsLive(c, w, step.b, id, v);
    } else {
      OthersLeaveChannel(c, w, step, id);
      OtherStepKeepsLive(c, w, step, id, v);
      LiveIgnoresReads(v, id, w.channels[w.registered[id]], v.channels[v.registered[id]].read);
    }
  }

  // ---------- Every live delivery once ----------

  /** A channel, registered or not, was sent broadcasts only, each once. */
  ghost predicate SentOnce(w: World, ch: Channel) {
    NoRepeats(ch.live) && forall m :: m in ch.live ==> m.number in w.note && w.note[m.number] == m
  }

  lemma StepKeepsSentOnce(c: Config, w: World, step: Step, i: nat)
    requires Books(c, w) && Registry(w) && Enabled(c, w, step) && i < |Next(c, w, step).channels|
    requires i < |w.channels| ==> SentOnce(w, w.channels[i])
    requires forall id :: id in w.registered ==>
               w.channels[w.registered[id]].joinedAt <= |w.appended| && Live(w, id, w.channels[w.registered[id]])
    ensures SentOnce(Next(c, w, step), Next(c, w, step).channels[i])
  {
    if i < |w.channels| {
      StepKeepsJoins(c, w, step, i);
      if step.Send? && step.id in w.registered && w.registered[step.id] == i {
        VisitKeepsLive(c, w, step.b, step.id, Next(c, w, step));
      }
    }
  }

  ghost predicate Invariant(c: Config, w: World) {
    && Books(c, w)
    && Registry(w)
    && (forall i :: 0 <= i < |w.channels| ==> Replayed(c, w.appended, w.channels[i]) && SentOnce(w, w.channels[i]))
    && (forall id :: id in w.registered ==> Live(w, id, w.channels[w.registered[id]]))
  }

  lemma StepKeepsInvariant(c: Config, w: World, step: Step)
    requires Invariant(c, w) && Enabled(c, w, step)
    ensures Invariant(c, Next(c, w, step))
  {
    var v := Next(c, w, step);
    StepKeepsBooks(c, w, step);
    StepKeepsRegistry(c, w, step);
    forall i | 0 <= i < |v.channels|
      ensures Replayed(c, v.appended, v.channels[i]) && SentOnce(v, v.channels[i])
    {
      StepKeepsReplayed(c, w, step, i);
      StepKeepsSentOnce(c, w, step, i);
    }
    forall id | id in v.registered
      ensures v.channels[v.registered[id]].joinedAt <= |v.appended| && Live(v, id, v.channels[v.registered[id]])
    {
      StepKeepsLive(c, w, step, id, v);
    }
  }

  lemma {:induction false} RunKeepsInvariant(c: Config, steps: seq<Step>)
    requires IsRun(c, steps)
    ensures Invariant(c, End(c, steps))
    decreases |steps|
  {
    if steps == [] {
    } else {
      RunKeepsInvariant(c, steps[..|steps| - 1]);
      StepKeepsInvariant(c, End(c, steps[..|steps| - 1]), steps[|steps| - 1]);
    }
  }

  // ---------- What a client gets ----------

  /** A client that lost nothing to a full buffer has a broadcast, once it is fanned out, exactly if it matches and
      either was not yet fanned out when the client joined, or was then in the history and numbered above the client's
      identifier. */
  lemma ReceivedExactly(c: Config, steps: seq<Step>, w: World, id: ClientID, b: nat)
    requires IsRun(c, steps) && w == End(c, steps)
    requires id in w.registered && b in w.stage && w.stage[b] == Done
    ensures w.registered[id] < |w.channels| && b in w.note && w.channels[w.registered[id]].joinedAt <= |w.appended|
    ensures var ch, m := w.channels[w.registered[id]], w.note[b];
            ch.lost == {} ==>
              && (m in ch.live <==> Matches(ch.filters, m.data) && b !in ch.finished)
              && (m in ch.replayed <==> Owed(ch, m) && m in Held(c, w.appended, ch))
  {
    RunKeepsInvariant(c, steps);
    var ch := w.channels[w.registered[id]];
    assert Live(w, id, ch) && Replayed(c, w.appended, ch) && Passed(w, b, id);
  }

  /** Nothing falls between replay and live delivery. Once a broadcast has fanned out, a registered client whose filters
      match has it, or lost it to a full buffer, or it was appended before the client joined and the history had already
      dropped it, or the client asked for no replay of it. */
  lemma NothingFallsBetween(c: Config, steps: seq<Step>, w: World, id: ClientID, b: nat)
    requires IsRun(c, steps) && w == End(c, steps)
    requires id in w.registered && b in w.stage && w.stage[b] == Done
    ensures w.registered[id] < |w.channels| && b in w.note
    ensures var ch, m := w.channels[w.registered[id]], w.note[b];
            Matches(ch.filters, m.data) ==>
              || m in ch.live || m in ch.replayed || m in ch.lost
              || exists i :: 0 <= i < ch.joinedAt && i < |w.appended| && w.appended[i] == m
                             && (i + c.historySize < ch.joinedAt || ch.lastSeen == 0 || m.number <= ch.lastSeen)
  {
    RunKeepsInvariant(c, steps);
    var ch, m := w.channels[w.registered[id]], w.note[b];
    assert Live(w, id, ch) && Replayed(c, w.appended, ch);
    if Matches(ch.filters, m.data) && m !in ch.live && m !in ch.lost {
      assert Passed(w, b, id);
      var i :| 0 <= i < ch.joinedAt && w.appended[i] == m;
      if ch.joinedAt <= i + c.historySize {
        HeldFrom(c, w.appended, ch, i);
      }
    }
  }

  lemma HeldFrom(c: Config, appended: seq<Notification>, ch: Channel, i: nat)
    requires i < ch.joinedAt <= |appended| && ch.joinedAt <= i + c.historySize
    ensures appended[i] in Held(c, appended, ch)
  {
    var before := appended[..ch.joinedAt];
    if |before| <= c.historySize {
      assert before[i] == appended[i];
    } else {
      assert LastN(before, c.historySize)[i - (|before| - c.historySize)] == appended[i];
    }
  }

  lemma {:induction false} DistinctOnce(ns: seq<Notification>, n: Notification)
    requires NoRepeats(ns)
    ensures multiset(ns)[n] <= 1
  {
    if ns == [] {
    } else {
      assert ns == [ns[0]] + ns[1..];
      DistinctOnce(ns[1..], n);
      if ns[0] == n {
        assert n !in ns[1..];
      }
    }
  }

  /** Each notification enters a channel at most twice: once as replay, once live. */
  lemma AtMostTwice(c: Config, steps: seq<Step>, w: World, i: nat, m: Notification)
    requires IsRun(c, steps) && w == End(c, steps) && i < |w.channels|
    ensures multiset(w.channels[i].replayed + w.channels[i].live)[m] <= 2
  {
    RunKeepsInvariant(c, steps);
    DistinctOnce(w.channels[i].replayed, m);
    DistinctOnce(w.channels[i].live, m);
  }

  /** No interleaving sends on a closed channel or closes one twice. */
  lemma NeverPanics(c: Config, steps: seq<Step>)
    requires IsRun(c, steps)
    ensures !End(c, steps).panicked
  {
    RunKeepsInvariant(c, steps);
  }

  lemma Extend(c: Config, steps: seq<Step>, step: Step)
    requires IsRun(c, steps) && Enabled(c, End(c, steps), step)
    ensures IsRun(c, steps + [step]) && End(c, steps + [step]) == Next(c, End(c, steps), step)
  {
    assert (steps + [step])[..|steps|] == steps;
  }

  /** A client that joins when the history holds just event 2, having seen event 1, is replayed event 2. */
  lemma JoinAtHistory(w: World, m2: Notification)
    requires w.history == w.appended == [m2] && m2.number == 2
    ensures var ch := Join(Config(64, 100), w, Filters("", "", ""), 1);
            ch.replayed == [m2] && ch.live == [] && ch.read == 0 && ch.filters == Filters("", "", "")
  {
    var want := Want(Filters("", "", ""), Some(1));
    assert Select([m2][1..], want) == [];
    assert Wanted(want, m2);
  }

  lemma SecondEventIsAppended(event: string, data: Data)
    ensures var c, take, m2 := Config(64, 100), TakeNumber(event, data), Notification(2, event, data);
            && Enabled(c, EMPTY, take) && Enabled(c, Next(c, EMPTY, take), take)
            && var v := Next(c, Next(c, EMPTY, take), take);
            && Enabled(c, v, Append(2))
            && var w := Next(c, v, Append(2));
            && w.history == w.appended == [m2] && w.registered == map[] && w.channels == []
            && w.stage == map[1 := Numbered, 2 := Appended] && 2 in w.note && w.note[2] == m2
  {
    assert [] + [Notification(2, event, data)] == [Notification(2, event, data)];
  }

  /** Event 2 has entered the history, but its fan-out has yet to begin. */
  lemma AppendedNotFannedOut(event: string, data: Data, steps: seq<Step>)
    requires steps == [TakeNumber(event, data), TakeNumber(event, data), Append(2)]
    ensures var c, m2 := Config(64, 100), Notification(2, event, data);
            && IsRun(c, steps)
            && var w := End(c, steps);
               && w.history == w.appended == [m2] && w.registered == map[] && w.channels == []
               && w.stage == map[1 := Numbered, 2 := Appended] && 2 in w.note && w.note[2] == m2
  {
    var c, take := Config(64, 100), TakeNumber(event, data);
    SecondEventIsAppended(event, data);
    assert [] + [take] == [take];
    Extend(c, [], take);
    Extend(c, [take], take);
    Extend(c, [take] + [take], Append(2));
    assert steps == [take] + [take] + [Append(2)];
  }

  /** Joining then, the client is served by the fan-out too. */
  lemma JoinBeforeFanOut(w: World, m2: Notification)
    requires w.history == w.appended == [m2] && m2.number == 2
    requires w.registered == map[] && w.channels == [] && w.stage == map[1 := Numbered, 2 := Appended]
    requires 2 in w.note && w.note[2] == m2
    ensures var c, join := Config(64, 100), Subscribe(9, Filters("", "", ""), 1);
            && Enabled(c, w, join)
            && var v := Next(c, w, join);
            && Enabled(c, v, BeginFanOut(2)) && Enabled(c, Next(c, v, BeginFanOut(2)), Send(2, 9))
            && var u := Next(c, Next(c, v, BeginFanOut(2)), Send(2, 9));
            && |u.channels| == 1 && u.channels[0].replayed == u.channels[0].live == [m2]
  {
    JoinAtHistory(w, m2);
    assert [] + [m2] == [m2];
  }

  /** Twice is possible: a client that joins between the append and the fan-out of event 2 gets it from both. */
  lemma TwiceIsReachable(event: string, data: Data, early: seq<Step>, steps: seq<Step>)
    requires early == [TakeNumber(event, data), TakeNumber(event, data), Append(2)]
    requires steps == early + [Subscribe(9, Filters("", "", ""), 1)] + [BeginFanOut(2)] + [Send(2, 9)]
    ensures var c, m2 := Config(64, 100), Notification(2, event, data);
            && IsRun(c, steps)
            && |End(c, steps).channels| == 1
            && End(c, steps).channels[0].replayed == End(c, steps).channels[0].live == [m2]
  {
    var c, f, m2 := Config(64, 100), Filters("", "", ""), Notification(2, event, data);
    AppendedNotFannedOut(event, data, early);
    JoinBeforeFanOut(End(c, early), m2);
    Extend(c, early, Subscribe(9, f, 1));
    Extend(c, early + [Subscribe(9, f, 1)], BeginFanOut(2));
    Extend(c, early + [Subscribe(9, f, 1)] + [BeginFanOut(2)], Send(2, 9));
  }
}

/** Runs of the hub in which every broadcast is uninterrupted: what the history holds, and what a
    reconnecting client receives (the Last-Event-ID behaviour of section 9.2.4 of the WHATWG HTML Living Standard). */
module HubRuns {
  import opened Options
  import opened EventId
  import opened NotifyHub

  /** `read` has left the channel, `unread` is still in it. `joinedAt` counts the broadcasts before the subscription. */
  datatype Client = Client(
    filters: Filters, lastSeen: nat, joinedAt: nat, read: seq<Notification>, unread: seq<Notification>, dropped: bool)
  {
    function Received(): seq<Notification> {
      read + unread
    }
  }

  /** `log` is everything ever broadcast. */
  datatype World = World(
      lastID: nat, log: seq<Notification>, history: seq<Notification>, clients: map<ClientID, Client>)

  datatype Step =
    | Publish(event: string, data: Data)
    | Subscribe(id: ClientID, filters: Filters, lastEventID: nat)
    | Unsubscribe(id: ClientID)
    | Read(id: ClientID)

  const EMPTY := World(0, [], [], map[])

  function Deliver(c: Config, client: Client, n: Notification): Client {
    if !Matches(client.filters, n.data) then client
    else client.(unread := Offer(client.unread, c.bufferSize, n),
                 dropped := client.dropped || c.bufferSize <= |client.unread|)
  }

  function Join(c: Config, w: World, filters: Filters, lastEventID: nat): Client {
    var replay := Replay(w.history, filters, lastEventID, c.bufferSize);
    Client(filters, lastEventID, |w.log|, [], replay,
           0 < lastEventID && c.bufferSize < |Select(w.history, Want(filters, Some(lastEventID)))|)
  }

  function Next(c: Config, w: World, step: Step): World {
    match step
    case Publish(event, data) =>
      var id := Successor(w.lastID);
      var n := Notification(id, event, data);
      World(id, w.log + [n], Remember(w.history, c.historySize, n),
            map k | k in w.clients :: Deliver(c, w.clients[k], n))
    case Subscribe(id, filters, lastEventID) =>
      w.(clients := w.clients[id := Join(c, w, filters, lastEventID)])
    case Unsubscribe(id) =>
      w.(clients := w.clients - {id})
    case Read(id) =>
      if id in w.clients && w.clients[id].unread != [] then
        var client := w.clients[id];
        w.(clients := w.clients[id := client.(read := client.read + [client.unread[0]], unread := client.unread[1..])])
      else w
  }

  ghost function Final(c: Config, w: World, steps: seq<Step>): World
    decreases |steps|
  {
    if steps == [] then w else Final(c, Next(c, w, steps[0]), steps[1..])
  }

  /** Consecutive identifiers from `base + 1` on. */
  ghost predicate Numbered(ns: seq<Notification>, base: nat) {
    forall i :: 0 <= i < |ns| ==> ns[i].number == base + i + 1
  }

  /** The position in the log from which a client is served: its own identifier if the history reaches back that far,
      else as far back as the history reaches; the moment of joining if it brought no identifier or one from the future.
      */
  function ServedFrom(c: Config, client: Client): nat {
    if client.lastSeen == 0 || client.joinedAt <= client.lastSeen then client.joinedAt
    else if client.lastSeen + c.historySize <= client.joinedAt then client.joinedAt - c.historySize
    else client.lastSeen
  }

  ghost predicate ClientInvariant(c: Config, log: seq<Notification>, client: Client) {
    && ServedFrom(c, client) <= client.joinedAt <= |log|
    && (!client.dropped ==>
          client.Received() == Select(log[ServedFrom(c, client)..], Want(client.filters, None)))
  }

  ghost predicate Invariant(c: Config, w: World) {
    && w.lastID == |w.log| < LIMIT
    && Numbered(w.log, 0)
    && w.history == LastN(w.log, c.historySize)
    && forall id :: id in w.clients ==> ClientInvariant(c, w.log, w.clients[id])
  }

  /** Filtering a numbered stretch by identifier is the same as cutting it at the right place. */
  lemma {:induction false} SelectAfter(ns: seq<Notification>, base: nat, f: Filters, k: nat)
    requires Numbered(ns, base) && base + |ns| < LIMIT
    ensures Select(ns, Want(f, Some(k)))
            == if k <= base then Select(ns, Want(f, None))
               else if base + |ns| <= k then []
               else Select(ns[k - base..], Want(f, None))
  {
    if ns == [] {
    } else {
      assert ns[0].number == base + 1;
      assert Numbered(ns[1..], base + 1) by {
        forall i | 0 <= i < |ns[1..]| ensures ns[1..][i].number == base + 1 + i + 1 {
          assert ns[1..][i] == ns[i + 1];
        }
      }
      SelectAfter(ns[1..], base + 1, f, k);
      if base < k < base + |ns| {
        assert ns[1..][k - base - 1..] == ns[k - base..];
      }
    }
  }

  lemma JoinInvariant(c: Config, w: World, f: Filters, k: nat)
    requires Invariant(c, w)
    ensures ClientInvariant(c, w.log, Join(c, w, f, k))
  {
    var client := Join(c, w, f, k);
    var from := ServedFrom(c, client);
    var base := |w.log| - |w.history|;
    assert w.history == w.log[base..];
    assert Numbered(w.history, base) by {
      forall i | 0 <= i < |w.history| ensures w.history[i].number == base + i + 1 {
        assert w.history[i] == w.log[base + i];
      }
    }
    SelectAfter(w.history, base, f, k);
    if 0 < k < |w.log| {
      if base < k {
        assert w.history[k - base..] == w.log[k..];
      }
      assert Select(w.history, Want(f, Some(k))) == Select(w.log[from..], Want(f, None));
    } else {
      assert w.log[from..] == [];
    }
  }

  lemma DeliverInvariant(c: Config, log: seq<Notification>, client: Client, n: Notification)
    requires ClientInvariant(c, log, client)
    ensures ClientInvariant(c, log + [n], Deliver(c, client, n))
  {
    var from := ServedFrom(c, client);
    assert (log + [n])[from..] == log[from..] + [n];
    SelectConcat(log[from..], [n], Want(client.filters, None));
  }

  lemma ReadInvariant(c: Config, log: seq<Notification>, client: Client)
    requires ClientInvariant(c, log, client) && client.unread != []
    ensures ClientInvariant(c, log, client.(read := client.read + [client.unread[0]], unread := client.unread[1..]))
  {
    assert (client.read + [client.unread[0]]) + client.unread[1..] == client.Received();
  }

  lemma StepKeepsInvariant(c: Config, w: World, step: Step)
    requires Invariant(c, w) && w.lastID + 1 < LIMIT
    ensures Invariant(c, Next(c, w, step))
  {
    var v := Next(c, w, step);
    match step {
      case Publish(event, data) =>
        var n := Notification(v.lastID, event, data);
        RememberLastN(w.log, c.historySize, n);
        forall id | id in v.clients ensures ClientInvariant(c, v.log, v.clients[id]) {
          DeliverInvariant(c, w.log, w.clients[id], n);
        }
      case Subscribe(id, f, k) => JoinInvariant(c, w, f, k);
      case Unsubscribe(id) =>
      case Read(id) =>
        if id in w.clients && w.clients[id].unread != [] {
          ReadInvariant(c, w.log, w.clients[id]);
        }
    }
  }

  lemma {:induction false} RunKeepsInvariant(c: Config, w: World, steps: seq<Step>)
    requires Invariant(c, w) && w.lastID + |steps| < LIMIT
    ensures Invariant(c, Final(c, w, steps))
    decreases |steps|
  {
    if steps == [] {
    } else {
      StepKeepsInvariant(c, w, steps[0]);
      RunKeepsInvariant(c, Next(c, w, steps[0]), steps[1..]);
    }
  }

  /** Short of wrapping its 64-bit counter, the hub remembers exactly the last broadcasts, numbered without a gap up to
      lastID. */
  lemma HistoryIsTheTail(c: Config, steps: seq<Step>)
    requires |steps| < LIMIT
    ensures var w := Final(c, EMPTY, steps);
            && w.lastID == |w.log|
            && w.history == LastN(w.log, c.historySize)
            && |w.history| == (if c.historySize < |w.log| then c.historySize else |w.log|)
            && Numbered(w.history, w.lastID - |w.history|)
  {
    RunKeepsInvariant(c, EMPTY, steps);
    var w := Final(c, EMPTY, steps);
    var base := |w.log| - |w.history|;
    forall i | 0 <= i < |w.history| ensures w.history[i].number == base + i + 1 {
      assert w.history[i] == w.log[base + i];
    }
  }

  /** A client that lost nothing to a full buffer received every matching broadcast from its starting position on, once,
      in order. */
  lemma ReceivedFromStart(c: Config, steps: seq<Step>, id: ClientID)
    requires |steps| < LIMIT
    requires var w := Final(c, EMPTY, steps); id in w.clients && !w.clients[id].dropped
    ensures var w := Final(c, EMPTY, steps);
            var client := w.clients[id];
            && ServedFrom(c, client) <= |w.log|
            && client.Received() == Select(w.log[ServedFrom(c, client)..], Want(client.filters, None))
  {
    RunKeepsInvariant(c, EMPTY, steps);
  }

  /** The broadcasts on which a client's reception and its Last-Event-ID disagree: evicted ones it asked for,
      or live ones numbered at or below an identifier that this hub had not yet issued. */
  function Gap(c: Config, w: World, client: Client): seq<Notification>
    requires ServedFrom(c, client) <= |w.log|
  {
    var from := ServedFrom(c, client);
    var asked := if client.lastSeen < |w.log| then client.lastSeen else |w.log|;
    if asked <= from then w.log[asked..from] else w.log[from..asked]
  }

  lemma SplitSelect(log: seq<Notification>, a: nat, b: nat, w: Want)
    requires a <= b <= |log|
    ensures Select(log[a..], w) == Select(log[a..b], w) + Select(log[b..], w)
  {
    assert log[a..] == log[a..b] + log[b..];
    SelectConcat(log[a..b], log[b..], w);
  }

  lemma GapDecides(c: Config, w: World, client: Client)
    requires Invariant(c, w) && ClientInvariant(c, w.log, client) && !client.dropped && 0 < client.lastSeen
    ensures client.Received() == Select(w.log, Want(client.filters, Some(client.lastSeen)))
            <==> Select(Gap(c, w, client), Want(client.filters, None)) == []
  {
    var log, from, all := w.log, ServedFrom(c, client), Want(client.filters, None);
    var asked := if client.lastSeen < |log| then client.lastSeen else |log|;
    assert Select(log, Want(client.filters, Some(client.lastSeen))) == Select(log[asked..], all) by {
      SelectAfter(log, 0, client.filters, client.lastSeen);
      assert log[|log|..] == [];
    }
    if asked <= from {
      SplitSelect(log, asked, from, all);
    } else {
      SplitSelect(log, from, asked, all);
    }
  }

  /** Strictly increasing identifiers, all above `base`. */
  ghost predicate Ascending(ns: seq<Notification>, base: nat) {
    && (forall i :: 0 <= i < |ns| ==> base < ns[i].number)
    && (forall i, j :: 0 <= i < j < |ns| ==> ns[i].number < ns[j].number)
  }

  lemma {:induction false} SelectAscends(ns: seq<Notification>, base: nat, w: Want)
    requires Numbered(ns, base) && base + |ns| < LIMIT
    ensures Ascending(Select(ns, w), base)
  {
    if ns == [] {
    } else {
      assert ns[0].number == base + 1;
      assert Numbered(ns[1..], base + 1) by {
        forall i | 0 <= i < |ns[1..]| ensures ns[1..][i].number == base + 1 + i + 1 {
          assert ns[1..][i] == ns[i + 1];
        }
      }
      SelectAscends(ns[1..], base + 1, w);
    }
  }

  /** Whatever the client brought, it sees each identifier at most once, and in increasing order. */
  lemma ReceivedInOrder(c: Config, steps: seq<Step>, id: ClientID)
    requires |steps| < LIMIT
    requires var w := Final(c, EMPTY, steps); id in w.clients && !w.clients[id].dropped
    ensures Ascending(Final(c, EMPTY, steps).clients[id].Received(), 0)
  {
    RunKeepsInvariant(c, EMPTY, steps);
    var w := Final(c, EMPTY, steps);
    var client := w.clients[id];
    var from := ServedFrom(c, client);
    assert Numbered(w.log[from..], from) by {
      forall i | 0 <= i < |w.log[from..]| ensures w.log[from..][i].number == from + i + 1 {
        assert w.log[from..][i] == w.log[from + i];
      }
    }
    SelectAscends(w.log[from..], from, Want(client.filters, None));
  }

  /** Resume: if the history still reached back to the client's last event, the client has received exactly the matching
      notifications with a greater identifier, live ones included. */
  lemma ResumeIsExact(c: Config, steps: seq<Step>, w: World, id: ClientID)
    requires |steps| < LIMIT && w == Final(c, EMPTY, steps)
    requires id in w.clients && !w.clients[id].dropped
    requires 0 < w.clients[id].lastSeen <= w.clients[id].joinedAt <= w.clients[id].lastSeen + c.historySize
    ensures w.clients[id].Received() == Select(w.log, Want(w.clients[id].filters, Some(w.clients[id].lastSeen)))
  {
    RunKeepsInvariant(c, EMPTY, steps);
    GapDecides(c, w, w.clients[id]);
    assert Gap(c, w, w.clients[id]) == [];
  }

  /** For every Last-Event-ID, resumption is exact if and only if no broadcast in the gap matches the client's filters.
      */
  lemma ResumeIsExactIffGapIsSilent(c: Config, steps: seq<Step>, id: ClientID)
    requires |steps| < LIMIT
    requires var w := Final(c, EMPTY, steps); id in w.clients && !w.clients[id].dropped && 0 < w.clients[id].lastSeen
    ensures var w := Final(c, EMPTY, steps);
            var client := w.clients[id];
            && ServedFrom(c, client) <= |w.log|
            && (client.Received() == Select(w.log, Want(client.filters, Some(client.lastSeen)))
                <==> Select(Gap(c, w, client), Want(client.filters, None)) == [])
  {
    RunKeepsInvariant(c, EMPTY, steps);
    var w := Final(c, EMPTY, steps);
    GapDecides(c, w, w.clients[id]);
  }

  // ---------- When resumption is exact for everybody ----------

  /** A client that came with identifier `k` when `j` notifications had been broadcast, and has lost nothing since. */
  ghost predicate Resumed(c: Config, steps: seq<Step>, id: ClientID, j: nat, k: nat) {
    && |steps| < LIMIT
    && var w := Final(c, EMPTY, steps);
    && id in w.clients && !w.clients[id].dropped && w.clients[id].joinedAt == j && w.clients[id].lastSeen == k
  }

  ghost predicate IsExact(w: World, id: ClientID)
    requires id in w.clients
  {
    w.clients[id].Received() == Select(w.log, Want(w.clients[id].filters, Some(w.clients[id].lastSeen)))
  }

  lemma {:induction false} FinalConcat(c: Config, w: World, a: seq<Step>, b: seq<Step>)
    ensures Final(c, w, a + b) == Final(c, Final(c, w, a), b)
    decreases |a|
  {
    if a == [] {
      assert a + b == b;
    } else {
      assert (a + b)[1..] == a[1..] + b;
      FinalConcat(c, Next(c, w, a[0]), a[1..], b);
    }
  }

  lemma FinalNext(c: Config, w: World, a: seq<Step>, step: Step)
    ensures Final(c, w, a + [step]) == Next(c, Final(c, w, a), step)
  {
    FinalConcat(c, w, a, [step]);
    assert [step][1..] == [];
  }

  const MARKED: Data := map["ride_id" := "x"]

  function MarkedStep(n: nat, k: nat): Step {
    Publish("", if n == k + 1 then MARKED else map[])
  }

  /** `n` broadcasts, of which only the one numbered `k + 1` is about ride x. */
  function Publishes(n: nat, k: nat): seq<Step> {
    if n == 0 then [] else Publishes(n - 1, k) + [MarkedStep(n, k)]
  }

  ghost predicate Published(c: Config, w: World, n: nat, k: nat) {
    && w.clients == map[] && |w.log| == w.lastID == n && w.history == LastN(w.log, c.historySize)
    && forall i :: 0 <= i < n ==> w.log[i].number == i + 1 && w.log[i].data == if i == k then MARKED else map[]
  }

  lemma PublishNext(c: Config, w: World, n: nat, k: nat)
    requires 0 < n < LIMIT && Published(c, w, n - 1, k)
    ensures Published(c, Next(c, w, MarkedStep(n, k)), n, k)
  {
    assert Successor(n - 1) == n;
    RememberLastN(w.log, c.historySize, Notification(n, "", MarkedStep(n, k).data));
  }

  lemma {:induction false} PublishesLog(c: Config, n: nat, k: nat)
    requires n < LIMIT
    ensures Published(c, Final(c, EMPTY, Publishes(n, k)), n, k) && |Publishes(n, k)| == n
    decreases n
  {
    if n == 0 {
    } else {
      PublishesLog(c, n - 1, k);
      FinalNext(c, EMPTY, Publishes(n - 1, k), MarkedStep(n, k));
      PublishNext(c, Final(c, EMPTY, Publishes(n - 1, k)), n, k);
    }
  }

  lemma {:induction false} SelectNone(ns: seq<Notification>, w: Want)
    requires forall n :: n in ns ==> !Wanted(w, n)
    ensures Select(ns, w) == []
  {
    if ns == [] {
    } else {
      assert ns[0] in ns;
      SelectNone(ns[1..], w);
    }
  }

  const ABOUT_X := Filters("", "", "x")
  const EVERYTHING := Filters("", "", "")

  /** An evicted event is not resumed. */
  lemma EvictedIsLost(c: Config, j: nat, k: nat) returns (steps: seq<Step>)
    requires 0 < k && k + c.historySize < j && j + 1 < LIMIT
    ensures Resumed(c, steps, 7, j, k) && !IsExact(Final(c, EMPTY, steps), 7)
  {
    var w, want := Final(c, EMPTY, Publishes(j, k)), Want(ABOUT_X, Some(k));
    PublishesLog(c, j, k);
    steps := Publishes(j, k) + [Subscribe(7, ABOUT_X, k)];
    FinalNext(c, EMPTY, Publishes(j, k), Subscribe(7, ABOUT_X, k));
    forall n | n in w.history
      ensures !Wanted(want, n)
    {
      var i :| 0 <= i < |w.history| && w.history[i] == n;
      assert n == w.log[j - |w.history| + i];
    }
    SelectNone(w.history, want);
    SelectMembers(w.log, want);
    assert w.log[k] in w.log && Wanted(want, w.log[k]);
  }

  lemma JoinsEarly(c: Config, w: World, j: nat, k: nat)
    requires Published(c, w, j, k) && j < k
    ensures Join(c, w, EVERYTHING, k) == Client(EVERYTHING, k, j, [], [], false)
  {
    forall n | n in w.history
      ensures n.number <= j
    {
      var i :| 0 <= i < |w.history| && w.history[i] == n;
      assert n == w.log[j - |w.history| + i];
    }
    SelectNone(w.history, Want(EVERYTHING, Some(k)));
  }

  /** An identifier that was not yet issued does not hold back the event that gets it. */
  lemma EarlyIdentifierIsIgnored(c: Config, j: nat, k: nat) returns (steps: seq<Step>)
    requires j < k && 0 < c.bufferSize && j + 2 < LIMIT
    ensures Resumed(c, steps, 7, j, k) && !IsExact(Final(c, EMPTY, steps), 7)
  {
    var w, join, publish := Final(c, EMPTY, Publishes(j, k)), Subscribe(7, EVERYTHING, k), Publish("", map[]);
    PublishesLog(c, j, k);
    JoinsEarly(c, w, j, k);
    FinalNext(c, EMPTY, Publishes(j, k), join);
    steps := Publishes(j, k) + [join] + [publish];
    FinalNext(c, EMPTY, Publishes(j, k) + [join], publish);
    var v := Next(c, Next(c, w, join), publish);
    assert Successor(j) == j + 1;
    SelectNone(v.log, Want(EVERYTHING, Some(k)));
    assert v.clients[7].unread == [Notification(j + 1, "", map[])];
  }

  /** At the moment of subscribing it is decided: resumption with identifier `k` after `j` broadcasts is exact for every
      filter and every further course of events without a loss if and only if k <= j <= k + historySize. */
  lemma ResumptionIsExactIffCovered(c: Config, j: nat, k: nat)
    requires 0 < k && 0 < c.bufferSize && j + 2 < LIMIT
    ensures (forall steps, id :: Resumed(c, steps, id, j, k) ==> IsExact(Final(c, EMPTY, steps), id))
            <==> k <= j <= k + c.historySize
  {
    if j < k {
      var steps := EarlyIdentifierIsIgnored(c, j, k);
    } else if k + c.historySize < j {
      var steps := EvictedIsLost(c, j, k);
    } else {
      forall steps, id | Resumed(c, steps, id, j, k)
        ensures IsExact(Final(c, EMPTY, steps), id)
      {
        ResumeIsExact(c, steps, Final(c, EMPTY, steps), id);
      }
    }
  }

  /** After a restart the hub counts from one again, so a client that returns with an old, larger identifier
      is sent events it has in effect asked not to see. */
  lemma RestartBreaksResume(data: Data)
    ensures var c := Config(64, 100);
            var w := Final(c, EMPTY, [Subscribe(7, Filters("", "", ""), 5), Publish("ride.requested", data)]);
            && 7 in w.clients
            && w.clients[7].Received() == w.log
            && Select(w.log, Want(Filters("", "", ""), Some(5))) == []
  {
    var c := Config(64, 100);
    var f := Filters("", "", "");
    var first, second := Subscribe(7, f, 5), Publish("ride.requested", data);
    var w1 := Next(c, EMPTY, first);
    var w2 := Next(c, w1, second);
    assert [first, second][1..] == [second];
    assert Final(c, w1, [second]) == Final(c, w2, []);
    var n := Notification(1, "ride.requested", data);
    assert w2.log == [n] && [n][1..] == [];
    assert Select([n], Want(f, Some(5))) == Select([], Want(f, Some(5)));
  }
}

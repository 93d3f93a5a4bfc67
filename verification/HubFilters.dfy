/** Who receives what: the filters of a client and the fields of a notification, by name. */
module HubFilters {
  import opened Options
  import opened EventId
  import opened NotifyHub
  import opened HubRuns

  predicate Says(n: Notification, field: string, value: string) {
    field in n.data && n.data[field] == value
  }

  /** The notifications of which a field has the value, in order. */
  function Only(ns: seq<Notification>, field: string, value: string): seq<Notification> {
    if ns == [] then []
    else if Says(ns[0], field, value) then [ns[0]] + Only(ns[1..], field, value)
    else Only(ns[1..], field, value)
  }

  /** The notification names the driver, the rider or the ride that the client asked for. */
  predicate Names(f: Filters, n: Notification) {
    || (f.driverID != "" && Says(n, "driver_id", f.driverID))
    || (f.riderID != "" && Says(n, "rider_id", f.riderID))
    || (f.rideID != "" && Says(n, "ride_id", f.rideID))
  }

  function Naming(ns: seq<Notification>, f: Filters): seq<Notification> {
    if ns == [] then []
    else if Names(f, ns[0]) then [ns[0]] + Naming(ns[1..], f)
    else Naming(ns[1..], f)
  }

  const NOBODY := Filters("", "", "")

  /** What the hub asks of a channel before it offers a notification. */
  lemma MatchesByName(f: Filters, n: Notification)
    ensures Matches(f, n.data) <==> f == NOBODY || Names(f, n)
  {
  }

  lemma {:induction false} SelectedByFields(ns: seq<Notification>, f: Filters)
    ensures Select(ns, Want(f, None)) == if f == NOBODY then ns else Naming(ns, f)
  {
    if ns == [] {
    } else {
      SelectedByFields(ns[1..], f);
      assert [ns[0]] + ns[1..] == ns;
    }
  }

  lemma {:induction false} NamingOneField(ns: seq<Notification>, x: string)
    requires x != ""
    ensures Naming(ns, Filters(x, "", "")) == Only(ns, "driver_id", x)
    ensures Naming(ns, Filters("", x, "")) == Only(ns, "rider_id", x)
    ensures Naming(ns, Filters("", "", x)) == Only(ns, "ride_id", x)
  {
    if ns == [] {
    } else {
      NamingOneField(ns[1..], x);
    }
  }

  /** Of what was broadcast from its start on, a client that lost nothing received exactly what names the driver, the
      rider or the ride of its filters, in order; without filters, everything. */
  lemma ReceivesWhatItAskedFor(c: Config, steps: seq<Step>, w: World, id: ClientID)
    requires |steps| < LIMIT && w == Final(c, EMPTY, steps)
    requires id in w.clients && !w.clients[id].dropped
    ensures ServedFrom(c, w.clients[id]) <= |w.log|
    ensures var f, sent := w.clients[id].filters, w.log[ServedFrom(c, w.clients[id])..];
            w.clients[id].Received() == if f == NOBODY then sent else Naming(sent, f)
  {
    ReceivedFromStart(c, steps, id);
    SelectedByFields(w.log[ServedFrom(c, w.clients[id])..], w.clients[id].filters);
  }

  /** A driver's client receives the notifications with the driver's "driver_id", a rider's those with its "rider_id",
      and one that follows a ride those with its "ride_id". */
  lemma OneFilterReceivesOneField(c: Config, steps: seq<Step>, w: World, id: ClientID, x: string)
    requires |steps| < LIMIT && w == Final(c, EMPTY, steps)
    requires id in w.clients && !w.clients[id].dropped && x != ""
    ensures ServedFrom(c, w.clients[id]) <= |w.log|
    ensures var client, sent := w.clients[id], w.log[ServedFrom(c, w.clients[id])..];
            && (client.filters == Filters(x, "", "") ==> client.Received() == Only(sent, "driver_id", x))
            && (client.filters == Filters("", x, "") ==> client.Received() == Only(sent, "rider_id", x))
            && (client.filters == Filters("", "", x) ==> client.Received() == Only(sent, "ride_id", x))
  {
    ReceivesWhatItAskedFor(c, steps, w, id);
    NamingOneField(w.log[ServedFrom(c, w.clients[id])..], x);
  }

  lemma {:induction false} SelectedAfter(ns: seq<Notification>, base: nat, f: Filters, k: nat)
    requires HubRuns.Numbered(ns, base) && base + |ns| < LIMIT
    ensures Select(ns, Want(f, Some(k)))
            == var later := if k <= base then ns else if base + |ns| <= k then [] else ns[k - base..];
               if f == NOBODY then later else Naming(later, f)
  {
    SelectAfter(ns, base, f, k);
    SelectedByFields(if k <= base then ns else if base + |ns| <= k then [] else ns[k - base..], f);
  }

  /** A client that returns in time with identifier k received exactly what names it among the notifications k + 1, k +
      2, and so on, replayed or live. */
  lemma ReturnsToWhatItAskedFor(c: Config, steps: seq<Step>, w: World, id: ClientID)
    requires |steps| < LIMIT && w == Final(c, EMPTY, steps)
    requires id in w.clients && !w.clients[id].dropped
    requires 0 < w.clients[id].lastSeen <= w.clients[id].joinedAt <= w.clients[id].lastSeen + c.historySize
    ensures w.clients[id].lastSeen <= |w.log|
    ensures var f, later := w.clients[id].filters, w.log[w.clients[id].lastSeen..];
            w.clients[id].Received() == if f == NOBODY then later else Naming(later, f)
  {
    RunKeepsInvariant(c, EMPTY, steps);
    ResumeIsExact(c, steps, w, id);
    SelectedAfter(w.log, 0, w.clients[id].filters, w.clients[id].lastSeen);
    assert w.log[|w.log|..] == [] && w.log[0..] == w.log;
  }

  // ---------- Full buffers ----------

  ghost predicate Bounded(c: Config, w: World) {
    forall id :: id in w.clients ==> |w.clients[id].unread| <= c.bufferSize
  }

  lemma {:induction false} BuffersStayBounded(c: Config, steps: seq<Step>)
    ensures Bounded(c, Final(c, EMPTY, steps))
    decreases |steps|
  {
    if steps == [] {
    } else {
      var before, last := steps[..|steps| - 1], steps[|steps| - 1];
      BuffersStayBounded(c, before);
      FinalNext(c, EMPTY, before, last);
      assert before + [last] == steps;
    }
  }

  /** What a client has received stays and is only added to; what it reads, it takes from the front; and a notification
      that meets a full buffer is the one that is dropped. */
  lemma ReceivedOnlyGrows(c: Config, w: World, step: Step, id: ClientID)
    requires Bounded(c, w) && id in w.clients && id in Next(c, w, step).clients && !(step.Subscribe? && step.id == id)
    ensures var before, after := w.clients[id], Next(c, w, step).clients[id];
            && before.Received() <= after.Received() && |after.Received()| <= |before.Received()| + 1
            && before.read <= after.read
            && (|before.unread| == c.bufferSize && !step.Read? ==> after.unread == before.unread)
            && (before.dropped ==> after.dropped)
            && (!before.dropped && after.dropped ==> |before.unread| == c.bufferSize)
  {
    var client := w.clients[id];
    if step.Read? && step.id == id && client.unread != [] {
      assert client.read + [client.unread[0]] + client.unread[1..] == client.Received();
    }
  }
}

/** The notification hub: event numbering, bounded history, replay on reconnect and lossy fan-out.
    A channel is its unread buffer plus the closed flag. */
module NotifyHub {
  import opened Options
  import opened Sequences
  import opened EventId

  datatype Config = Config(bufferSize: nat, historySize: nat)

  type Data = map<string, string>

  /** Remote address and connection time; only ever compared. */
  type ClientID = nat

  /** A notification carries its number as a decimal string. */
  datatype Notification = Notification(number: nat, event: string, data: Data)
  {
    function ID(): string {
      Format(number)
    }
  }

  datatype Filters = Filters(driverID: string, riderID: string, rideID: string)

  predicate Field(data: Data, name: string, wanted: string) {
    wanted != "" && name in data && data[name] == wanted
  }

  /** With no filter set everything matches; otherwise one equal field is enough. */
  predicate Matches(f: Filters, data: Data) {
    || (f.driverID == "" && f.riderID == "" && f.rideID == "")
    || Field(data, "driver_id", f.driverID)
    || Field(data, "rider_id", f.riderID)
    || Field(data, "ride_id", f.rideID)
  }

  /** What a subscriber wants: its filters, and for a reconnecting client only what comes after event `above`. */
  datatype Want = Want(filters: Filters, above: Option<nat>)

  predicate Wanted(w: Want, n: Notification) {
    Matches(w.filters, n.data) && (w.above.Some? ==> w.above.value < n.number)
  }

  /** The notifications in `ns` that `w` wants, in order. */
  function Select(ns: seq<Notification>, w: Want): seq<Notification> {
    if ns == [] then []
    else
      var rest := Select(ns[1..], w);
      if Wanted(w, ns[0]) then [ns[0]] + rest else rest
  }

  function Take(ns: seq<Notification>, n: nat): seq<Notification> {
    if |ns| <= n then ns else ns[..n]
  }

  function LastN(ns: seq<Notification>, n: nat): seq<Notification> {
    if |ns| <= n then ns else ns[|ns| - n..]
  }

  /** Replay: the part of the history that came after event `k` and matches, cut off where the buffer is full;
      nothing for a client without an identifier. */
  function Replay(history: seq<Notification>, f: Filters, k: nat, capacity: nat): seq<Notification> {
    if k == 0 then [] else Take(Select(history, Want(f, Some(k))), capacity)
  }

  function Remember(history: seq<Notification>, size: nat, n: Notification): seq<Notification> {
    if size == 0 then history else LastN(history + [n], size)
  }

  /** Appending to the last `size` entries of a log leaves the last `size` entries of the longer log. */
  lemma RememberLastN(log: seq<Notification>, size: nat, n: Notification)
    ensures Remember(LastN(log, size), size, n) == LastN(log + [n], size)
  {
  }

  function Offer(buffer: seq<Notification>, capacity: nat, n: Notification): seq<Notification> {
    if |buffer| < capacity then buffer + [n] else buffer
  }

  /** `after` is what offering `n` to every channel of the audience, and to no other, makes of `before`. */
  ghost predicate Delivered(before: map<ClientID, seq<Notification>>, after: map<ClientID, seq<Notification>>,
                            audience: set<ClientID>, capacity: nat, n: Notification)
  {
    && after.Keys == before.Keys
    && forall id :: id in before ==> after[id] == if id in audience then Offer(before[id], capacity, n) else before[id]
  }

  ghost function WithRoom(
      before: map<ClientID, seq<Notification>>, audience: set<ClientID>, capacity: nat): set<ClientID> {
    set id | id in audience && id in before && |before[id]| < capacity
  }

  /** An order in which to range over a key set: every key, once. */
  ghost predicate Enumerates(order: seq<ClientID>, keys: set<ClientID>) {
    NoRepeats(order) && Elements(order) == keys
  }

  /** The buffers so far, how many channels took the notification, how many dropped it. */
  datatype Tally = Tally(buffers: map<ClientID, seq<Notification>>, sent: nat, dropped: nat)
  {
    function Serve(id: ClientID, wanted: bool, capacity: nat, n: Notification): Tally
      requires id in buffers
    {
      if !wanted then this
      else if |buffers[id]| < capacity then Tally(buffers[id := buffers[id] + [n]], sent + 1, dropped)
      else this.(dropped := dropped + 1)
    }
  }

  /** A fan-out one channel at a time. */
  ghost function Visit(
      before: map<ClientID, seq<Notification>>, audience: set<ClientID>, capacity: nat, n: Notification,
      order: seq<ClientID>): (t: Tally)
    requires forall id :: id in order ==> id in before
    ensures t.buffers.Keys == before.Keys
  {
    if order == [] then Tally(before, 0, 0)
    else
      var id := order[|order| - 1];
      Visit(before, audience, capacity, n, order[..|order| - 1]).Serve(id, id in audience, capacity, n)
  }

  lemma FrontEnumerates(order: seq<ClientID>, keys: set<ClientID>)
    requires Enumerates(order, keys) && order != []
    ensures order[|order| - 1] in keys
    ensures Enumerates(order[..|order| - 1], keys - {order[|order| - 1]})
  {
    var front, id := order[..|order| - 1], order[|order| - 1];
    assert order == front + [id];
    assert Elements(order) == Elements(front) + {id};
    assert id in Elements(order) && id !in front;
  }

  lemma ServeDelivers(before: map<ClientID, seq<Notification>>, t: Tally, audience: set<ClientID>, keys: set<ClientID>,
                      id: ClientID, capacity: nat, n: Notification)
    requires id in keys && keys <= before.Keys
    requires Delivered(before, t.buffers, audience * (keys - {id}), capacity, n)
    ensures Delivered(before, t.Serve(id, id in audience, capacity, n).buffers, audience * keys, capacity, n)
  {
  }

  /** In whatever order the channels are visited, each wanting channel is offered `n` once. */
  lemma {:induction false} VisitDelivers(
      before: map<ClientID, seq<Notification>>, audience: set<ClientID>, capacity: nat, n: Notification,
      order: seq<ClientID>, keys: set<ClientID>)
    requires Enumerates(order, keys) && keys <= before.Keys
    ensures Delivered(before, Visit(before, audience, capacity, n, order).buffers, audience * keys, capacity, n)
    decreases |order|
  {
    if order == [] {
    } else {
      var front, id := order[..|order| - 1], order[|order| - 1];
      FrontEnumerates(order, keys);
      VisitDelivers(before, audience, capacity, n, front, keys - {id});
      ServeDelivers(before, Visit(before, audience, capacity, n, front), audience, keys, id, capacity, n);
    }
  }

  lemma CountOne(before: map<ClientID, seq<Notification>>, served: set<ClientID>, id: ClientID, capacity: nat)
    requires id in before && id !in served
    ensures |WithRoom(before, served + {id}, capacity)|
            == |WithRoom(before, served, capacity)| + if |before[id]| < capacity then 1 else 0
  {
    assert WithRoom(before, served + {id}, capacity)
           == WithRoom(before, served, capacity) + if |before[id]| < capacity then {id} else {};
  }

  lemma RoomWithout(
      before: map<ClientID, seq<Notification>>, audience: set<ClientID>, keys: set<ClientID>, id: ClientID,
      capacity: nat)
    requires id in keys && id in before
    ensures |WithRoom(before, audience * keys, capacity)|
            == |WithRoom(before, audience * (keys - {id}), capacity)|
               + if id in audience && |before[id]| < capacity then 1 else 0
  {
    var rest := audience * (keys - {id});
    if id in audience {
      assert audience * keys == rest + {id};
      CountOne(before, rest, id, capacity);
    } else {
      assert audience * keys == rest;
    }
  }

  /** Whatever the order, the sent tally counts the wanting channels that had room. */
  lemma {:induction false} VisitCountsSent(
      before: map<ClientID, seq<Notification>>, audience: set<ClientID>, capacity: nat, n: Notification,
      order: seq<ClientID>, keys: set<ClientID>)
    requires Enumerates(order, keys) && keys <= before.Keys
    ensures Visit(before, audience, capacity, n, order).sent == |WithRoom(before, audience * keys, capacity)|
    decreases |order|
  {
    if order == [] {
      assert WithRoom(before, audience * keys, capacity) == {};
    } else {
      var front, id := order[..|order| - 1], order[|order| - 1];
      FrontEnumerates(order, keys);
      VisitCountsSent(before, audience, capacity, n, front, keys - {id});
      VisitDelivers(before, audience, capacity, n, front, keys - {id});
      RoomWithout(before, audience, keys, id, capacity);
    }
  }

  lemma AudienceWithout(audience: set<ClientID>, keys: set<ClientID>, id: ClientID)
    requires id in keys
    ensures |audience * keys| == |audience * (keys - {id})| + if id in audience then 1 else 0
  {
    if id in audience {
      assert audience * keys == audience * (keys - {id}) + {id};
    } else {
      assert audience * keys == audience * (keys - {id});
    }
  }

  /** Together the two tallies count every wanting channel. */
  lemma {:induction false} VisitCountsAll(
      before: map<ClientID, seq<Notification>>, audience: set<ClientID>, capacity: nat, n: Notification,
      order: seq<ClientID>, keys: set<ClientID>)
    requires Enumerates(order, keys) && keys <= before.Keys
    ensures var t := Visit(before, audience, capacity, n, order); t.sent + t.dropped == |audience * keys|
    decreases |order|
  {
    if order == [] {
      assert audience * keys == {};
    } else {
      var front, id := order[..|order| - 1], order[|order| - 1];
      FrontEnumerates(order, keys);
      VisitCountsAll(before, audience, capacity, n, front, keys - {id});
      AudienceWithout(audience, keys, id);
    }
  }

  /** A fan-out over all channels: every wanting one is offered `n` once, and the tallies count who took and who dropped
      it. */
  lemma VisitsAll(before: map<ClientID, seq<Notification>>, audience: set<ClientID>, capacity: nat, n: Notification,
                  order: seq<ClientID>)
    requires Enumerates(order, before.Keys) && audience <= before.Keys
    ensures var t := Visit(before, audience, capacity, n, order);
            && Delivered(before, t.buffers, audience, capacity, n)
            && t.sent == |WithRoom(before, audience, capacity)| && t.sent + t.dropped == |audience|
  {
    assert audience * before.Keys == audience;
    VisitDelivers(before, audience, capacity, n, order, before.Keys);
    VisitCountsSent(before, audience, capacity, n, order, before.Keys);
    VisitCountsAll(before, audience, capacity, n, order, before.Keys);
  }

  function Successor(lastID: nat): nat {
    (lastID + 1) % LIMIT
  }

  lemma {:induction false} SelectConcat(a: seq<Notification>, b: seq<Notification>, w: Want)
    ensures Select(a + b, w) == Select(a, w) + Select(b, w)
  {
    if a == [] {
      assert a + b == b;
    } else {
      assert (a + b)[1..] == a[1..] + b;
      SelectConcat(a[1..], b, w);
    }
  }

  lemma {:induction false} SelectMembers(ns: seq<Notification>, w: Want)
    ensures forall n :: n in Select(ns, w) <==> n in ns && Wanted(w, n)
  {
    if ns == [] {
    } else {
      assert ns == [ns[0]] + ns[1..];
      SelectMembers(ns[1..], w);
    }
  }

  class Subscriber {
    const id: ClientID
    const filters: Filters
    const capacity: nat
    var unread: seq<Notification>
    var closed: bool

    constructor (id: ClientID, filters: Filters, capacity: nat)
      ensures this.id == id && this.filters == filters && this.capacity == capacity
      ensures unread == [] && !closed
    {
      this.id, this.filters, this.capacity := id, filters, capacity;
      unread, closed := [], false;
    }

    /** A non-blocking send. Sending on a closed channel would panic, so the caller must rule it out. */
    method TrySend(n: Notification) returns (ok: bool)
      requires !closed
      modifies this
      ensures unread == Offer(old(unread), capacity, n) && !closed
      ensures ok == (|old(unread)| < capacity)
    {
      ok := |unread| < capacity;
      if ok {
        unread := unread + [n];
      }
    }

    /** Puts into an empty channel what a client that last saw event `k` is owed, until the buffer is full. */
    method Refill(history: seq<Notification>, k: nat)
      requires !closed && unread == []
      requires forall n :: n in history ==> n.number < LIMIT
      modifies this
      ensures !closed && unread == Take(Select(history, Want(filters, Some(k))), capacity)
    {
      ghost var owed := Want(filters, Some(k));
      for i := 0 to |history|
        invariant !closed && unread == Take(Select(history[..i], owed), capacity)
      {
        assert history[..i + 1] == history[..i] + [history[i]];
        SelectConcat(history[..i], [history[i]], owed);
        var n := history[i];
        if n.ID() == "" {
          continue;
        }
        ParseFormat(n.number);
        var number := Parse(n.ID());
        if number.Some? && number.value > k && Matches(filters, n.data) {
          var ok := TrySend(n);
          if !ok {
            assert history == history[..i] + history[i..];
            SelectConcat(history[..i], history[i..], owed);
            return;
          }
        }
      }
      assert history[..|history|] == history;
    }

    /** Closing twice would panic. */
    method Close()
      requires !closed
      modifies this`closed
      ensures closed
    {
      closed := true;
    }
  }

  class Hub {
    var subscribers: map<ClientID, Subscriber>
    const bufferSize: nat
    var history: seq<Notification>
    const historySize: nat
    var lastID: nat

    /** Registered channels are open, listed under their own identifier (so no two keys share one), and fit their
        buffer. */
    ghost predicate Valid()
      reads this, subscribers.Values
    {
      && 0 < bufferSize
      && lastID < LIMIT
      && (forall n :: n in history ==> n.number < LIMIT)
      && (forall id :: id in subscribers ==>
            && subscribers[id].id == id
            && !subscribers[id].closed
            && subscribers[id].capacity == bufferSize
            && |subscribers[id].unread| <= bufferSize)
    }

    constructor (bufferSize: int, historySize: int)
      ensures Valid() && subscribers == map[] && history == [] && lastID == 0
      ensures this.bufferSize == (if bufferSize <= 0 then 64 else bufferSize)
      ensures this.historySize == (if historySize < 0 then 0 else historySize)
    {
      this.bufferSize := if bufferSize <= 0 then 64 else bufferSize;
      this.historySize := if historySize < 0 then 0 else historySize;
      subscribers, history, lastID := map[], [], 0;
    }

    /** Registers a new channel, already holding the replay. A channel registered earlier under the same id is
        forgotten, not closed. */
    method SubscribeWithReplay(id: ClientID, filters: Filters, lastEventID: nat) returns (s: Subscriber)
      requires Valid()
      modifies this`subscribers
      ensures Valid() && fresh(s)
      ensures subscribers == old(subscribers)[id := s]
      ensures s.filters == filters
      ensures s.unread == Replay(history, filters, lastEventID, bufferSize)
    {
      s := new Subscriber(id, filters, bufferSize);
      subscribers := subscribers[id := s];
      if lastEventID > 0 && |history| > 0 {
        s.Refill(history, lastEventID);
      }
    }

    method Unsubscribe(id: ClientID)
      requires Valid()
      modifies this`subscribers, subscribers.Values
      ensures Valid()
      ensures subscribers == old(subscribers) - {id}
      ensures id in old(subscribers) ==> old(subscribers)[id].closed
      ensures forall other :: other in subscribers ==> unchanged(subscribers[other])
    {
      if id in subscribers {
        subscribers[id].Close();
        subscribers := subscribers - {id};
      }
    }

    method NextID() returns (id: string)
      requires Valid()
      modifies this`lastID
      ensures Valid()
      ensures lastID == Successor(old(lastID)) && id == Format(lastID)
    {
      lastID := (lastID + 1) % LIMIT;
      return Format(lastID);
    }

    method AppendHistory(n: Notification)
      requires Valid() && n.number < LIMIT
      modifies this`history
      ensures Valid()
      ensures history == Remember(old(history), historySize, n)
    {
      if historySize <= 0 {
        return;
      }
      history := history + [n];
      if |history| > historySize {
        history := history[|history| - historySize..];
      }
    }

    /** The unread buffer of each registered channel. */
    ghost function Buffers(): map<ClientID, seq<Notification>>
      reads this, subscribers.Values
    {
      map id | id in subscribers :: subscribers[id].unread
    }

    /** The registered channels whose filters want `data`. */
    ghost function Audience(data: Data): set<ClientID>
      reads this`subscribers
    {
      set id | id in subscribers && Matches(subscribers[id].filters, data)
    }

    /** The body of the fan-out loop: offers `n` to one channel if that channel wants it. */
    method OfferTo(
        id: ClientID, n: Notification, data: Data, sent: nat, dropped: nat)
      returns (sent': nat, dropped': nat)
      requires Valid() && id in subscribers
      modifies subscribers[id]
      ensures Valid()
      ensures Tally(Buffers(), sent', dropped')
              == Tally(old(Buffers()), sent, dropped).Serve(id, id in Audience(data), bufferSize, n)
    {
      sent', dropped' := sent, dropped;
      var sub := subscribers[id];
      if Matches(sub.filters, data) {
        var ok := sub.TrySend(n);
        if ok {
          sent' := sent + 1;
        } else {
          dropped' := dropped + 1;
        }
      }
      assert Buffers() == old(Buffers())[id := sub.unread];
    }

    /** Offers `n` to every matching channel and counts what was sent and what was dropped.
        `order` is the order in which the map of subscribers happens to be ranged over. */
    method FanOut(n: Notification, data: Data, order: seq<ClientID>) returns (sent: nat, dropped: nat)
      requires Valid() && Enumerates(order, subscribers.Keys)
      modifies subscribers.Values
      ensures Valid()
      ensures Delivered(old(Buffers()), Buffers(), Audience(data), bufferSize, n)
      ensures sent == |WithRoom(old(Buffers()), Audience(data), bufferSize)|
      ensures sent + dropped == |Audience(data)|
    {
      sent, dropped := 0, 0;
      ghost var before, audience := Buffers(), Audience(data);
      for i := 0 to |order|
        invariant Valid()
        invariant Tally(Buffers(), sent, dropped) == Visit(before, audience, bufferSize, n, order[..i])
      {
        assert order[..i + 1][..i] == order[..i];
        sent, dropped := OfferTo(order[i], n, data, sent, dropped);
      }
      assert order[..|order|] == order;
      VisitsAll(before, audience, bufferSize, n, order);
    }

    /** Number, remember, fan out: the three critical sections, here with nothing between them. */
    method Broadcast(event: string, payload: Data, data: Data, order: seq<ClientID>) returns (sent: nat, dropped: nat)
      requires Valid() && Enumerates(order, subscribers.Keys)
      modifies this`lastID, this`history, subscribers.Values
      ensures Valid()
      ensures lastID == Successor(old(lastID))
      ensures var n := Notification(lastID, event, payload);
              && history == Remember(old(history), historySize, n)
              && Delivered(old(Buffers()), Buffers(), Audience(data), bufferSize, n)
      ensures sent == |WithRoom(old(Buffers()), Audience(data), bufferSize)|
      ensures sent + dropped == |Audience(data)|
    {
      var id := NextID();
      ParseFormat(lastID);
      var n := Notification(Parse(id).value, event, payload);
      AppendHistory(n);
      assert Buffers() == old(Buffers());
      sent, dropped := FanOut(n, data, order);
    }
  }
}

/** A client that goes away and comes back, while broadcasts are in progress: what it loses. */
module HubReconnect {
  import opened Options
  import opened Sequences
  import opened EventId
  import opened NotifyHub
  import opened HubInterleaving

  predicate Has(ch: Channel, n: Notification) {
    n in ch.replayed || n in ch.live
  }

  /** The broadcast ended before the second channel was made, and the first never had it. */
  predicate Missed(first: Channel, second: Channel, b: nat, m: Notification) {
    b in second.finished && !Has(first, m)
  }

  /** A client returns with the identifier of an event that it had. Of what matches, nothing being evicted or dropped,
      it has lost a broadcast if and only if that was fanned out while it was away and carries a smaller number than its
      last event: if the fan-outs overtook each other, because the numbers were taken in the other order. */
  lemma ReturnLosesWhatWasOvertaken(
      c: Config, steps: seq<Step>, w: World, id: ClientID, away: nat, b: nat,
      first: Channel, second: Channel, m: Notification, last: Notification)
    requires IsRun(c, steps) && w == End(c, steps)
    requires away < |w.channels| && first == w.channels[away]
    requires id in w.registered && w.registered[id] < |w.channels| && second == w.channels[w.registered[id]]
    requires b in w.note && m == w.note[b] && b in w.stage && w.stage[b] == Done
    requires second.lost == {} && Matches(second.filters, m.data)
    requires Has(first, last) && second.lastSeen == last.number && 0 < last.number
    requires second.joinedAt <= |w.appended| && (b in second.finished ==> m in Held(c, w.appended, second))
    ensures (!Has(first, m) && !Has(second, m)) <==> Missed(first, second, b, m) && m.number < last.number
  {
    ReceivedExactly(c, steps, w, id, b);
    HadIsKnown(c, steps, w, away, last);
    NotesAreNumbered(c, steps, w, b);
  }

  lemma NotesAreNumbered(c: Config, steps: seq<Step>, w: World, b: nat)
    requires IsRun(c, steps) && w == End(c, steps) && b in w.note
    ensures w.note[b].number == b
  {
    RunKeepsInvariant(c, steps);
  }

  /** What a channel had is a broadcast under its own number. */
  lemma HadIsKnown(c: Config, steps: seq<Step>, w: World, i: nat, n: Notification)
    requires IsRun(c, steps) && w == End(c, steps) && i < |w.channels| && Has(w.channels[i], n)
    ensures n.number in w.note && w.note[n.number] == n
  {
    RunKeepsInvariant(c, steps);
    var ch := w.channels[i];
    assert Replayed(c, w.appended, ch) && SentOnce(w, ch);
    if n in ch.replayed {
      assert n in Held(c, w.appended, ch);
      assert n in w.appended[..ch.joinedAt];
    }
  }

  // ---------- A run that loses an event ----------

  const C := Config(64, 100)
  const ALL := Filters("", "", "")
  const CLIENT: ClientID := 9

  function Note(b: nat, data: Data): Notification {
    Notification(b, "", data)
  }

  function Notes(data: Data): map<nat, Notification> {
    map[1 := Note(1, data), 2 := Note(2, data)]
  }

  function Before(data: Data, read: nat, closed: bool): Channel {
    Channel(ALL, 0, 0, {}, [], [Note(2, data)], {}, read, closed)
  }

  function After(): Channel {
    Channel(ALL, 2, 2, {1, 2}, [], [], {}, 0, false)
  }

  /** Two broadcasts take their numbers, and a client joins. */
  function Joined(data: Data): World {
    World(2, Notes(data), map[1 := Numbered, 2 := Numbered], [], [], map[CLIENT := 0],
          [Channel(ALL, 0, 0, {}, [], [], {}, 0, false)], false)
  }

  /** The second broadcast is appended and fanned out first. */
  function Served(data: Data): World {
    World(2, Notes(data), map[1 := Numbered, 2 := Done], [Note(2, data)], [Note(2, data)], map[CLIENT := 0],
          [Before(data, 0, false)], false)
  }

  /** The client reads it and leaves. */
  function Gone(data: Data): World {
    Served(data).(registered := map[], channels := [Before(data, 1, true)])
  }

  /** The first broadcast is appended and fanned out, to nobody. */
  function Late(data: Data): World {
    var log := [Note(2, data), Note(1, data)];
    Gone(data).(stage := map[1 := Done, 2 := Done], appended := log, history := log)
  }

  function Returned(data: Data): World {
    Late(data).(registered := map[CLIENT := 1], channels := [Before(data, 1, true), After()])
  }

  ghost predicate Leads(steps: seq<Step>, w: World) {
    IsRun(C, steps) && End(C, steps) == w
  }

  lemma Go(steps: seq<Step>, w: World, step: Step)
    requires Leads(steps, w) && Enabled(C, w, step)
    ensures Leads(steps + [step], Next(C, w, step))
  {
    Extend(C, steps, step);
  }

  lemma JoinedIsReached(data: Data) returns (steps: seq<Step>)
    ensures Leads(steps, Joined(data))
  {
    var take, join := TakeNumber("", data), Subscribe(CLIENT, ALL, 0);
    Go([], EMPTY, take);
    var one := Next(C, EMPTY, take);
    Go([] + [take], one, take);
    var two := Next(C, one, take);
    assert two.note == Notes(data) && two.stage == map[1 := Numbered, 2 := Numbered];
    Go([] + [take] + [take], two, join);
    assert Join(C, two, ALL, 0) == Channel(ALL, 0, 0, {}, [], [], {}, 0, false);
    assert two.channels + [Join(C, two, ALL, 0)] == [Join(C, two, ALL, 0)];
    assert Next(C, two, join) == Joined(data);
    steps := [] + [take] + [take] + [join];
  }

  lemma ServedIsReached(data: Data, before: seq<Step>) returns (steps: seq<Step>)
    requires Leads(before, Joined(data))
    ensures Leads(steps, Served(data))
  {
    var appended := Next(C, Joined(data), Append(2));
    Go(before, Joined(data), Append(2));
    assert [] + [Note(2, data)] == [Note(2, data)];
    var begun := Next(C, appended, BeginFanOut(2));
    Go(before + [Append(2)], appended, BeginFanOut(2));
    var sent := Next(C, begun, Send(2, CLIENT));
    Go(before + [Append(2)] + [BeginFanOut(2)], begun, Send(2, CLIENT));
    assert sent.stage[2] == FanningOut({});
    Go(before + [Append(2)] + [BeginFanOut(2)] + [Send(2, CLIENT)], sent, EndFanOut(2));
    assert Next(C, sent, EndFanOut(2)) == Served(data);
    steps := before + [Append(2)] + [BeginFanOut(2)] + [Send(2, CLIENT)] + [EndFanOut(2)];
  }

  lemma GoneIsReached(data: Data, before: seq<Step>) returns (steps: seq<Step>)
    requires Leads(before, Served(data))
    ensures Leads(steps, Gone(data))
  {
    var read := Next(C, Served(data), Read(0));
    Go(before, Served(data), Read(0));
    Go(before + [Read(0)], read, Unsubscribe(CLIENT));
    assert Next(C, read, Unsubscribe(CLIENT)) == Gone(data);
    steps := before + [Read(0)] + [Unsubscribe(CLIENT)];
  }

  lemma LateIsReached(data: Data, before: seq<Step>) returns (steps: seq<Step>)
    requires Leads(before, Gone(data))
    ensures Leads(steps, Late(data))
  {
    var appended := Next(C, Gone(data), Append(1));
    Go(before, Gone(data), Append(1));
    assert [Note(2, data)] + [Note(1, data)] == [Note(2, data), Note(1, data)];
    var begun := Next(C, appended, BeginFanOut(1));
    Go(before + [Append(1)], appended, BeginFanOut(1));
    assert begun.stage[1] == FanningOut({});
    Go(before + [Append(1)] + [BeginFanOut(1)], begun, EndFanOut(1));
    assert Next(C, begun, EndFanOut(1)) == Late(data);
    steps := before + [Append(1)] + [BeginFanOut(1)] + [EndFanOut(1)];
  }

  lemma NothingIsReplayed(data: Data)
    ensures Join(C, Late(data), ALL, 2) == After()
  {
    var log, want := [Note(2, data), Note(1, data)], Want(ALL, Some(2));
    assert log[1..] == [Note(1, data)] && [Note(1, data)][1..] == [];
    assert Select([Note(1, data)], want) == Select([], want);
    assert Select(log, want) == [];
  }

  lemma ReturnedIsReached(data: Data, before: seq<Step>) returns (steps: seq<Step>)
    requires Leads(before, Late(data))
    ensures Leads(steps, Returned(data))
  {
    NothingIsReplayed(data);
    Go(before, Late(data), Subscribe(CLIENT, ALL, 2));
    assert Next(C, Late(data), Subscribe(CLIENT, ALL, 2)) == Returned(data);
    steps := before + [Subscribe(CLIENT, ALL, 2)];
  }

  /** Event 1 is lost to a client that had event 2 first, left, and came back with its identifier, although no buffer
      was full and the history still holds event 1. */
  lemma OvertakenEventIsLost(data: Data) returns (steps: seq<Step>)
    ensures IsRun(C, steps) && End(C, steps) == Returned(data)
    ensures Note(1, data) in Returned(data).history
    ensures Has(Before(data, 1, true), Note(2, data)) && After().lastSeen == 2
    ensures !Has(Before(data, 1, true), Note(1, data)) && !Has(After(), Note(1, data))
  {
    var joined := JoinedIsReached(data);
    var served := ServedIsReached(data, joined);
    var gone := GoneIsReached(data, served);
    var late := LateIsReached(data, gone);
    steps := ReturnedIsReached(data, late);
  }
}

/** Every timed sequence of creation attempts and consumptions against the one-time store. */
module OneTimeRuns {
  import opened Prelude
  import opened Redis
  import opened OneTimeStore
  import opened FixedWindow

  datatype Event =
    | Tick(elapsed: nat)
    | Create(client: Client, id: Id, value: string)
    | Consume(id: Id)

  /** An attempt that passed both limits, with the two counters it left behind; `created` is false
      when the identifier was taken. */
  datatype Spend = Spend(
    at: int, client: Client, id: Id, value: string, global: Entry<nat>, local: Entry<nat>, created: bool)

  /** `source` is the position of the attempt that created the value last under this identifier. */
  datatype Consumption = Consumption(id: Id, value: string, at: int, source: int)

  datatype State = State(now: int, db: Db<string>, spends: seq<Spend>, consumptions: seq<Consumption>)

  const START := State(0, Db(None, map[], map[]), [], [])

  /** The last creation under an identifier, or -1. */
  function LastCreation(spends: seq<Spend>, id: Id): (k: int)
    ensures -1 <= k < |spends|
  {
    if spends == [] then -1
    else if spends[|spends| - 1].created && spends[|spends| - 1].id == id then |spends| - 1
    else LastCreation(spends[..|spends| - 1], id)
  }

  function Next(s: State, e: Event): State {
    match e
    case Tick(elapsed) => s.(now := s.now + elapsed)
    case Create(client, id, value) =>
      var (db, reply) := CreateScript(s.db, s.now, client, id, value);
      if reply.Limited? then s.(db := db)
      else
        var spend := Spend(s.now, client, id, value, db.global.value, db.clients[client], reply.Created?);
        s.(db := db, spends := s.spends + [spend])
    case Consume(id) =>
      var (db, value) := ConsumeScript(s.db, s.now, id);
      if value.None? then s
      else
        var consumption := Consumption(id, value.value, s.now, LastCreation(s.spends, id));
        s.(db := db, consumptions := s.consumptions + [consumption])
  }

  function Run(events: seq<Event>): State {
    if events == [] then START else Next(Run(events[..|events| - 1]), events[|events| - 1])
  }

  // ----- charges of each counter -----

  function StampOf(at: int, counter: Entry<nat>): Stamp {
    Stamp(at, counter.expiresAt - WINDOW, counter.value)
  }

  function GlobalStamps(spends: seq<Spend>): seq<Stamp> {
    if spends == [] then []
    else var x := spends[|spends| - 1]; GlobalStamps(spends[..|spends| - 1]) + [StampOf(x.at, x.global)]
  }

  function ClientStamps(spends: seq<Spend>, client: Client): seq<Stamp> {
    if spends == [] then []
    else
      var x := spends[|spends| - 1];
      ClientStamps(spends[..|spends| - 1], client) + if x.client == client then [StampOf(x.at, x.local)] else []
  }

  lemma SpendIsCharged(s: State, client: Client, id: Id, value: string)
    requires !CreateScript(s.db, s.now, client, id, value).1.Limited?
    ensures var t := Next(s, Create(client, id, value));
      && GlobalStamps(t.spends) == GlobalStamps(s.spends) + [Charge(s.db.global, s.now)]
      && t.db.global == Some(Incr(s.db.global, s.now)) && Incr(s.db.global, s.now).value <= GLOBAL_LIMIT
      && ClientStamps(t.spends, client) ==
         ClientStamps(s.spends, client) + [Charge(Lookup(s.db.clients, client), s.now)]
      && Lookup(t.db.clients, client) == Some(Incr(Lookup(s.db.clients, client), s.now))
      && Incr(Lookup(s.db.clients, client), s.now).value <= CLIENT_LIMIT
  {
    var t := Next(s, Create(client, id, value));
    assert t.spends[..|t.spends| - 1] == s.spends;
  }

  lemma OthersAreNotCharged(s: State, client: Client, id: Id, value: string, other: Client)
    requires client != other
    ensures var t := Next(s, Create(client, id, value));
      ClientStamps(t.spends, other) == ClientStamps(s.spends, other)
        && Lookup(t.db.clients, other) == Lookup(s.db.clients, other)
  {
    var t := Next(s, Create(client, id, value));
    if t.spends != s.spends {
      assert t.spends[..|t.spends| - 1] == s.spends;
    }
  }

  ghost predicate GlobalConsistent(s: State) {
    Consistent(GlobalStamps(s.spends), s.db.global, s.now, GLOBAL_LIMIT)
  }

  ghost predicate ClientConsistent(s: State, client: Client) {
    Consistent(ClientStamps(s.spends, client), Lookup(s.db.clients, client), s.now, CLIENT_LIMIT)
  }

  lemma GlobalNext(s: State, e: Event)
    requires GlobalConsistent(s)
    ensures GlobalConsistent(Next(s, e))
  {
    match e
    case Tick(elapsed) => LaterNow(GlobalStamps(s.spends), s.db.global, s.now, s.now + elapsed, GLOBAL_LIMIT);
    case Create(client, id, value) =>
      if !CreateScript(s.db, s.now, client, id, value).1.Limited? {
        SpendIsCharged(s, client, id, value);
        Charged(GlobalStamps(s.spends), s.db.global, s.now, GLOBAL_LIMIT);
      }
    case Consume(_) =>
  }

  lemma ClientNext(s: State, e: Event, client: Client)
    requires ClientConsistent(s, client)
    ensures ClientConsistent(Next(s, e), client)
  {
    var stamps, counter := ClientStamps(s.spends, client), Lookup(s.db.clients, client);
    match e
    case Tick(elapsed) => LaterNow(stamps, counter, s.now, s.now + elapsed, CLIENT_LIMIT);
    case Create(c, id, value) =>
      if c != client {
        OthersAreNotCharged(s, c, id, value, client);
      } else if !CreateScript(s.db, s.now, c, id, value).1.Limited? {
        SpendIsCharged(s, c, id, value);
        Charged(stamps, counter, s.now, CLIENT_LIMIT);
      } else {
        Refused(stamps, counter, s.now, CLIENT_LIMIT);
      }
    case Consume(_) =>
  }

  lemma {:induction false} CountersRun(events: seq<Event>, client: Client)
    ensures GlobalConsistent(Run(events)) && ClientConsistent(Run(events), client)
  {
    if events != [] {
      var s, e := Run(events[..|events| - 1]), events[|events| - 1];
      CountersRun(events[..|events| - 1], client);
      GlobalNext(s, e);
      ClientNext(s, e, client);
    }
  }

  // ----- the rate bound -----

  /** Successful creations at an instant in [from, to), by one client or by all. */
  function CreatedDuring(spends: seq<Spend>, from: int, to: int, client: Option<Client>): nat {
    if spends == [] then 0
    else
      var x := spends[|spends| - 1];
      CreatedDuring(spends[..|spends| - 1], from, to, client)
      + if x.created && from <= x.at < to && (client.None? || client.value == x.client) then 1 else 0
  }

  lemma {:induction false} CreatedAreCharged(spends: seq<Spend>, from: int, to: int, client: Client)
    ensures CreatedDuring(spends, from, to, None) <= During(GlobalStamps(spends), from, to)
    ensures CreatedDuring(spends, from, to, Some(client)) <= During(ClientStamps(spends, client), from, to)
  {
    if spends != [] {
      var init, x := spends[..|spends| - 1], spends[|spends| - 1];
      CreatedAreCharged(init, from, to, client);
      DuringAppend(GlobalStamps(init), StampOf(x.at, x.global), from, to);
      DuringAppend(ClientStamps(init, client), StampOf(x.at, x.local), from, to);
      assert ClientStamps(init, client) + [] == ClientStamps(init, client);
    }
  }

  lemma DuringAppend(stamps: seq<Stamp>, stamp: Stamp, from: int, to: int)
    ensures During(stamps + [stamp], from, to) == During(stamps, from, to) + if from <= stamp.at < to then 1 else 0
  {
    assert (stamps + [stamp])[..|stamps|] == stamps;
  }

  /** In any half-open stretch of one rate window at most 240 creations succeed, and at most 40 of
      any single client. */
  lemma RateBound(events: seq<Event>, from: int, client: Client)
    ensures CreatedDuring(Run(events).spends, from, from + 60_000, None) <= 240
    ensures CreatedDuring(Run(events).spends, from, from + 60_000, Some(client)) <= 40
  {
    var s := Run(events);
    CountersRun(events, client);
    CreatedAreCharged(s.spends, from, from + WINDOW, client);
    AtMostTwiceTheLimit(GlobalStamps(s.spends), s.db.global, s.now, GLOBAL_LIMIT, from);
    AtMostTwiceTheLimit(ClientStamps(s.spends, client), Lookup(s.db.clients, client), s.now, CLIENT_LIMIT, from);
  }

  /** An attempt refused while the global counter had room was refused by its client counter, and
      it spends no global budget: every other client's next attempt meets the same global count. */
  lemma ClientRefusalIsLocal(s: State, client: Client, id: Id, value: string)
    requires Count(s.db.global, s.now) < GLOBAL_LIMIT
    requires CreateScript(s.db, s.now, client, id, value).1.Limited?
    ensures var t := Next(s, Create(client, id, value));
      && t.db.global == s.db.global && t.db.values == s.db.values && t.spends == s.spends
      && Count(Lookup(s.db.clients, client), s.now) >= CLIENT_LIMIT
      && forall other :: other != client ==> Lookup(t.db.clients, other) == Lookup(s.db.clients, other)
  {
  }

  // ----- one-time consumption -----

  /** Attempt `k` created `value` under `id`, and it had not yet expired at the instant `at`. */
  ghost predicate IssuedAs(spends: seq<Spend>, k: int, id: Id, value: string, at: int) {
    0 <= k < |spends| && spends[k].created && spends[k].id == id && spends[k].value == value
    && spends[k].at <= at < spends[k].at + 300_000
  }

  /** A stored value is the last one created under its identifier. */
  ghost predicate ValuesStored(s: State) {
    forall id :: id in s.db.values ==>
      var k := LastCreation(s.spends, id);
      && 0 <= k && s.spends[k].created && s.spends[k].id == id && s.spends[k].value == s.db.values[id].value
      && s.spends[k].at <= s.now && s.db.values[id].expiresAt == s.spends[k].at + VALUE_TTL
  }

  /** Every consumption returned what its source created, no source was used twice, and a stored value's
      creation has not been used. */
  ghost predicate SourcesUsedOnce(s: State) {
    && (forall i :: 0 <= i < |s.consumptions| ==>
          var c := s.consumptions[i];
          IssuedAs(s.spends, c.source, c.id, c.value, c.at) && c.source <= LastCreation(s.spends, c.id))
    && (forall i, j :: 0 <= i < j < |s.consumptions| ==> s.consumptions[i].source != s.consumptions[j].source)
    && (forall i :: 0 <= i < |s.consumptions| && s.consumptions[i].id in s.db.values ==>
          s.consumptions[i].source != LastCreation(s.spends, s.consumptions[i].id))
  }

  lemma LastCreationMore(spends: seq<Spend>, x: Spend, id: Id)
    ensures LastCreation(spends + [x], id) == if x.created && x.id == id then |spends| else LastCreation(spends, id)
  {
    assert (spends + [x])[..|spends|] == spends;
  }

  lemma CreateTracksValues(s: State, client: Client, id: Id, value: string)
    requires ValuesStored(s)
    ensures ValuesStored(Next(s, Create(client, id, value)))
  {
    var t := Next(s, Create(client, id, value));
    forall other | other in t.db.values ensures s.spends == t.spends || Moved(s.spends, t.spends, other) {
      if t.spends != s.spends {
        LastCreationMore(s.spends, t.spends[|s.spends|], other);
      }
    }
  }

  /** One more attempt, which is the last creation under its own identifier if it created. */
  ghost predicate Moved(spends: seq<Spend>, more: seq<Spend>, id: Id) {
    && |more| == |spends| + 1 && more[..|spends|] == spends
    && LastCreation(more, id) ==
       if more[|spends|].created && more[|spends|].id == id then |spends| else LastCreation(spends, id)
  }

  lemma CreateKeepsSources(s: State, client: Client, id: Id, value: string)
    requires SourcesUsedOnce(s)
    ensures SourcesUsedOnce(Next(s, Create(client, id, value)))
  {
    var t := Next(s, Create(client, id, value));
    forall i | 0 <= i < |s.consumptions|
      ensures s.spends == t.spends || Moved(s.spends, t.spends, s.consumptions[i].id)
    {
      if t.spends != s.spends {
        LastCreationMore(s.spends, t.spends[|s.spends|], s.consumptions[i].id);
      }
    }
  }

  lemma ConsumeTracksValues(s: State, id: Id)
    requires ValuesStored(s) && SourcesUsedOnce(s)
    ensures var t := Next(s, Consume(id)); ValuesStored(t) && SourcesUsedOnce(t)
  {
    var t := Next(s, Consume(id));
    if t.consumptions != s.consumptions {
      var c := t.consumptions[|s.consumptions|];
      assert t.consumptions == s.consumptions + [c];
      assert IssuedAs(s.spends, c.source, id, c.value, s.now);
      forall i | 0 <= i < |s.consumptions| ensures s.consumptions[i].source != c.source {
        if s.consumptions[i].id != id {
          assert s.spends[s.consumptions[i].source].id != s.spends[c.source].id;
        }
      }
    }
  }

  lemma {:induction false} ValuesRun(events: seq<Event>)
    ensures ValuesStored(Run(events)) && SourcesUsedOnce(Run(events))
  {
    if events != [] {
      var s, e := Run(events[..|events| - 1]), events[|events| - 1];
      ValuesRun(events[..|events| - 1]);
      match e
      case Tick(_) =>
      case Create(client, id, value) =>
        CreateTracksValues(s, client, id, value);
        CreateKeepsSources(s, client, id, value);
      case Consume(id) => ConsumeTracksValues(s, id);
    }
  }

  /** Each created value is returned by at most one Consume: consumptions are matched one to one with the
      creations of what they returned, before its expiry. */
  lemma ConsumedAtMostOnce(events: seq<Event>)
    ensures var s := Run(events);
      && (forall i :: 0 <= i < |s.consumptions| ==>
            var c := s.consumptions[i]; IssuedAs(s.spends, c.source, c.id, c.value, c.at))
      && (forall i, j :: 0 <= i < j < |s.consumptions| ==> s.consumptions[i].source != s.consumptions[j].source)
  {
    ValuesRun(events);
  }

  // ----- what the records stand for -----

  ghost predicate AttemptedAt(events: seq<Event>, x: Spend, n: int) {
    0 <= n < |events| && events[n] == Create(x.client, x.id, x.value) && Run(events[..n]).now == x.at
  }

  ghost predicate RequestedAt(events: seq<Event>, c: Consumption, n: int) {
    0 <= n < |events| && events[n] == Consume(c.id) && Run(events[..n]).now == c.at
  }

  ghost predicate Recorded(events: seq<Event>, s: State) {
    && (forall x :: x in s.spends ==> exists n :: AttemptedAt(events, x, n))
    && (forall c :: c in s.consumptions ==> exists n :: RequestedAt(events, c, n))
  }

  /** Every recorded creation was attempted, and every recorded consumption requested, by an event at its instant. */
  lemma {:induction false} RecordsAreEvents(events: seq<Event>)
    ensures Recorded(events, Run(events))
  {
    if events != [] {
      var init, e := events[..|events| - 1], events[|events| - 1];
      var s, t := Run(init), Run(events);
      RecordsAreEvents(init);
      forall x | x in t.spends ensures exists n :: AttemptedAt(events, x, n) {
        if x in s.spends {
          var n :| AttemptedAt(init, x, n);
          assert events[..n] == init[..n];
          assert AttemptedAt(events, x, n);
        } else {
          assert AttemptedAt(events, x, |init|);
        }
      }
      forall c | c in t.consumptions ensures exists n :: RequestedAt(events, c, n) {
        if c in s.consumptions {
          var n :| RequestedAt(init, c, n);
          assert events[..n] == init[..n];
          assert RequestedAt(events, c, n);
        } else {
          assert RequestedAt(events, c, |init|);
        }
      }
    }
  }
}

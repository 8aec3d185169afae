/** internal/googleoidc/store.go and internal/phantomauth/worm_execution_store.go: creation of
    one-time values behind two fixed-window counters, and their atomic consumption. The two Lua
    scripts are the same in both files; the second calls the account digest its client key. */
module OneTimeStore {
  import opened Prelude
  import opened Redis

  type Client = string
  type Id = string

  // Milliseconds, as the scripts receive them in whole seconds.
  const WINDOW := 60 * 1000
  const VALUE_TTL := 5 * 60 * 1000
  const GLOBAL_LIMIT := 120
  const CLIENT_LIMIT := 20

  datatype Db<+V> = Db(global: Option<Entry<nat>>, clients: map<Client, Entry<nat>>, values: map<Id, Entry<V>>)

  datatype Reply = Created | Limited | Collision

  function Lookup<K, V>(m: map<K, V>, key: K): Option<V> {
    if key in m then Some(m[key]) else None
  }

  /** GET of a counter key, with "0" for a missing one. */
  function Count(counter: Option<Entry<nat>>, now: int): nat {
    if counter.Some? && now < counter.value.expiresAt then counter.value.value else 0
  }

  /** INCR, followed by EXPIRE when the increment created the key. */
  function Incr(counter: Option<Entry<nat>>, now: int): Entry<nat> {
    if Count(counter, now) == 0 then Entry(1, now + WINDOW)
    else Entry(counter.value.value + 1, counter.value.expiresAt)
  }

  function CreateScript<V>(db: Db<V>, now: int, client: Client, id: Id, value: V): (Db<V>, Reply) {
    if Count(db.global, now) >= GLOBAL_LIMIT then (db, Limited) else
    var clientCounter := Incr(Lookup(db.clients, client), now);
    var charged := db.(clients := db.clients[client := clientCounter]);
    if clientCounter.value > CLIENT_LIMIT then (charged, Limited) else
    var spent := charged.(global := Some(Incr(db.global, now)));
    if Get(db.values, id, now).Some? then (spent, Collision)
    else (spent.(values := Set(db.values, id, value, now, VALUE_TTL)), Created)
  }

  function ConsumeScript<V>(db: Db<V>, now: int, id: Id): (Db<V>, Option<V>) {
    match Get(db.values, id, now)
    case None => (db, None)
    case Some(value) => (db.(values := Del(db.values, id)), Some(value))
  }

  /** The store object; each method is one atomic script at the instant `now`. */
  class Store<V> {
    var global: Option<Entry<nat>>
    var clients: map<Client, Entry<nat>>
    var values: map<Id, Entry<V>>

    ghost function View(): Db<V>
      reads this
    {
      Db(global, clients, values)
    }

    constructor ()
      ensures View() == Db(None, map[], map[])
    {
      global, clients, values := None, map[], map[];
    }

    method Create(now: int, client: Client, id: Id, value: V) returns (reply: Reply)
      modifies this
      ensures reply.Limited? <==>
        Count(old(global), now) >= 120 || Count(Lookup(old(clients), client), now) >= 20
      ensures reply.Collision? <==> !reply.Limited? && Get(old(values), id, now).Some?
      ensures Count(global, now) == Count(old(global), now) + if reply.Limited? then 0 else 1
      ensures Count(Lookup(clients, client), now) ==
        Count(Lookup(old(clients), client), now) + if Count(old(global), now) >= 120 then 0 else 1
      ensures forall other :: other != client ==> Lookup(clients, other) == Lookup(old(clients), other)
      ensures reply.Created? ==> forall at :: Get(values, id, at) == if at < now + 300_000 then Some(value) else None
      ensures !reply.Created? ==> values == old(values)
      ensures forall key, at :: key != id ==> Get(values, key, at) == Get(old(values), key, at)
      ensures (View(), reply) == CreateScript(old(View()), now, client, id, value)
    {
      var globalCount := Count(global, now);
      if globalCount >= GLOBAL_LIMIT {
        return Limited;
      }
      var clientCounter := Lookup(clients, client);
      var clientCount := Count(clientCounter, now) + 1;
      if clientCount == 1 {
        clients := clients[client := Entry(1, now + WINDOW)];
      } else {
        clients := clients[client := Entry(clientCount, clientCounter.value.expiresAt)];
      }
      if clientCount > CLIENT_LIMIT {
        return Limited;
      }
      globalCount := globalCount + 1;
      if globalCount == 1 {
        global := Some(Entry(1, now + WINDOW));
      } else {
        global := Some(Entry(globalCount, global.value.expiresAt));
      }
      if id in values && now < values[id].expiresAt {
        return Collision;
      }
      values := values[id := Entry(value, now + VALUE_TTL)];
      return Created;
    }

    method Consume(now: int, id: Id) returns (value: Option<V>)
      modifies this
      ensures value == Get(old(values), id, now)
      ensures value.Some? ==> forall at :: Get(values, id, at).None?
      ensures value.None? ==> values == old(values)
      ensures forall key, at :: key != id ==> Get(values, key, at) == Get(old(values), key, at)
      ensures global == old(global) && clients == old(clients)
      ensures (View(), value) == ConsumeScript(old(View()), now, id)
    {
      value := None;
      if id in values && now < values[id].expiresAt {
        value := Some(values[id].value);
        values := values - {id};
      }
    }
  }
}

/** Fixed-window counting: how often a counter can be charged in any stretch of one window. */
module FixedWindow {
  import opened Prelude
  import opened Redis
  import opened OneTimeStore

  /** One charge: when it happened, when its window began, and the count it brought that window to. */
  datatype Stamp = Stamp(at: int, window: int, ordinal: nat)

  /** The charge that incrementing `counter` makes. */
  function Charge(counter: Option<Entry<nat>>, now: int): Stamp {
    var next := Incr(counter, now);
    Stamp(now, next.expiresAt - WINDOW, next.value)
  }

  /** `y` may follow `x`: the same window and a higher count, or a window that does not overlap. */
  predicate Follows(x: Stamp, y: Stamp) {
    x.at <= y.at && ((x.window == y.window && x.ordinal < y.ordinal) || x.window + WINDOW <= y.window)
  }

  /** `stamps` are the charges within `limit` that led to `counter`, oldest first. */
  ghost predicate Consistent(stamps: seq<Stamp>, counter: Option<Entry<nat>>, now: int, limit: nat) {
    && (forall k :: 0 <= k < |stamps| ==>
          && stamps[k].window <= stamps[k].at < stamps[k].window + WINDOW && stamps[k].at <= now
          && 1 <= stamps[k].ordinal <= limit
          && counter.Some? && counter.value.value >= 1
          && Follows(stamps[k], Stamp(now, counter.value.expiresAt - WINDOW, counter.value.value + 1)))
    && (forall i, j :: 0 <= i < j < |stamps| ==> Follows(stamps[i], stamps[j]))
    && (counter.Some? ==> counter.value.expiresAt - WINDOW <= now)
  }

  lemma LaterNow(stamps: seq<Stamp>, counter: Option<Entry<nat>>, now: int, later: int, limit: nat)
    requires Consistent(stamps, counter, now, limit) && now <= later
    ensures Consistent(stamps, counter, later, limit)
  {
  }

  /** An increment above the limit leaves the charges as they are. */
  lemma Refused(stamps: seq<Stamp>, counter: Option<Entry<nat>>, now: int, limit: nat)
    requires Consistent(stamps, counter, now, limit)
    ensures Consistent(stamps, Some(Incr(counter, now)), now, limit)
  {
  }

  /** An increment within the limit adds one charge. */
  lemma Charged(stamps: seq<Stamp>, counter: Option<Entry<nat>>, now: int, limit: nat)
    requires Consistent(stamps, counter, now, limit) && Incr(counter, now).value <= limit
    ensures Consistent(stamps + [Charge(counter, now)], Some(Incr(counter, now)), now, limit)
  {
  }

  // ----- counting -----

  function InWindow(stamps: seq<Stamp>, window: int): nat {
    if stamps == [] then 0
    else InWindow(stamps[..|stamps| - 1], window) + if stamps[|stamps| - 1].window == window then 1 else 0
  }

  function During(stamps: seq<Stamp>, from: int, to: int): nat {
    if stamps == [] then 0
    else During(stamps[..|stamps| - 1], from, to) + if from <= stamps[|stamps| - 1].at < to then 1 else 0
  }

  /** Rising counts up to `limit` leave room for at most `limit` charges in one window. */
  lemma {:induction false} WindowHoldsLimit(stamps: seq<Stamp>, window: int, limit: nat)
    requires forall i, j :: 0 <= i < j < |stamps| ==> Follows(stamps[i], stamps[j])
    requires forall k :: 0 <= k < |stamps| && stamps[k].window == window ==> 1 <= stamps[k].ordinal <= limit
    ensures InWindow(stamps, window) <= limit
  {
    if stamps != [] {
      var init, last := stamps[..|stamps| - 1], stamps[|stamps| - 1];
      if last.window == window {
        forall k | 0 <= k < |init| && init[k].window == window ensures 1 <= init[k].ordinal <= last.ordinal - 1 {
          assert Follows(stamps[k], last);
        }
        WindowHoldsLimit(init, window, last.ordinal - 1);
      } else {
        WindowHoldsLimit(init, window, limit);
      }
    }
  }

  lemma {:induction false} TwoWindowsCover(stamps: seq<Stamp>, from: int, to: int, first: int, second: int)
    requires forall k :: 0 <= k < |stamps| && from <= stamps[k].at < to ==>
      stamps[k].window == first || stamps[k].window == second
    ensures During(stamps, from, to) <= InWindow(stamps, first) + InWindow(stamps, second)
  {
    if stamps != [] {
      TwoWindowsCover(stamps[..|stamps| - 1], from, to, first, second);
    }
  }

  /** Of three charges in three different windows, two are at least one window apart. */
  lemma ThirdWindowTooFar(stamps: seq<Stamp>, counter: Option<Entry<nat>>, now: int, limit: nat, i: nat, j: nat, k: nat)
    requires Consistent(stamps, counter, now, limit)
    requires i < |stamps| && j < |stamps| && k < |stamps|
    requires stamps[i].window != stamps[j].window && stamps[i].window != stamps[k].window
    requires stamps[j].window != stamps[k].window
    ensures exists x, y :: x in {i, j, k} && y in {i, j, k} && stamps[x].at + WINDOW <= stamps[y].at
  {
  }

  /** Any half-open stretch of one window meets at most two counter windows, so it holds at most
      twice the limit. */
  lemma {:induction false} AtMostTwiceTheLimit(stamps: seq<Stamp>, counter: Option<Entry<nat>>, now: int,
          limit: nat, from: int)
    requires Consistent(stamps, counter, now, limit)
    ensures During(stamps, from, from + WINDOW) <= 2 * limit
  {
    var to := from + WINDOW;
    var first, second := 0, 0;
    if i :| 0 <= i < |stamps| && from <= stamps[i].at < to {
      first, second := stamps[i].window, stamps[i].window;
      if j :| 0 <= j < |stamps| && from <= stamps[j].at < to && stamps[j].window != stamps[i].window {
        second := stamps[j].window;
        forall k | 0 <= k < |stamps| && from <= stamps[k].at < to
          ensures stamps[k].window == first || stamps[k].window == second
        {
          if stamps[k].window != first && stamps[k].window != second {
            ThirdWindowTooFar(stamps, counter, now, limit, i, j, k);
          }
        }
      }
    }
    TwoWindowsCover(stamps, from, to, first, second);
    WindowHoldsLimit(stamps, first, limit);
    WindowHoldsLimit(stamps, second, limit);
  }
}

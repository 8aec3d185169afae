/** Shared vocabulary: optional values and Redis keys that carry a time to live. */
module Prelude {

  datatype Option<+T> = None | Some(value: T)

  datatype Result<+T, +E> = Ok(value: T) | Err(error: E)

  /** How one round trip to a store ends for the caller. `ReplyLost` is the case where the
      store applied the request and the caller nevertheless sees an error. */
  datatype Delivery = Delivered | NotReached | ReplyLost
}

/** The part of Redis that Athena's scripts use. A script runs atomically at one frozen
    instant `now`; every key written by these scripts has a time to live. */
module Redis {
  import opened Prelude

  datatype Entry<+V> = Entry(value: V, expiresAt: int)

  /** GET: an entry is visible until its time to live has elapsed. */
  function Get<K, V>(db: map<K, Entry<V>>, key: K, now: int): (r: Option<V>) {
    if key in db && now < db[key].expiresAt then Some(db[key].value) else None
  }

  /** SET key value EX ttl. */
  function Set<K, V>(db: map<K, Entry<V>>, key: K, value: V, now: int, ttl: int): map<K, Entry<V>> {
    db[key := Entry(value, now + ttl)]
  }

  /** DEL key. */
  function Del<K, V>(db: map<K, Entry<V>>, key: K): map<K, Entry<V>> {
    db - {key}
  }
}

/** Statements about the single events of a run: `p` sees the events before and the event itself. */
module Traces {
  ghost predicate OccursAt<E>(events: seq<E>, p: (seq<E>, E) -> bool, k: int) {
    0 <= k < |events| && p(events[..k], events[k])
  }

  ghost predicate Occurs<E>(events: seq<E>, p: (seq<E>, E) -> bool) {
    exists k :: OccursAt(events, p, k)
  }

  lemma OccursStep<E>(events: seq<E>, p: (seq<E>, E) -> bool)
    requires events != []
    ensures var init, last := events[..|events| - 1], events[|events| - 1];
      Occurs(events, p) <==> Occurs(init, p) || p(init, last)
  {
    var init := events[..|events| - 1];
    if k :| OccursAt(init, p, k) {
      assert init[..k] == events[..k];
      assert OccursAt(events, p, k);
    }
    if p(init, events[|events| - 1]) {
      assert OccursAt(events, p, |init|);
    }
    if k :| OccursAt(events, p, k) && k < |init| {
      assert init[..k] == events[..k];
      assert OccursAt(init, p, k);
    }
  }
}

/** internal/authregistration/store.go: browser tickets and submission claims in Redis.
    Ticket keys and claim keys have different prefixes and an injective digest of the ticket
    identifier, so they are two maps indexed by that identifier. */
module RegistrationStore {
  import opened Prelude
  import opened Redis

  type TicketId = string
  type ClaimId = string

  // Milliseconds.
  const TICKET_TTL := 15 * 60 * 1000
  const CLAIM_TTL := 60 * 1000
  const CLOCK_SKEW := 60 * 1000

  datatype Ticket = Ticket(identity: string, csrfSecret: string, createdAt: int)

  datatype Db = Db(tickets: map<TicketId, Entry<Ticket>>, claims: map<TicketId, Entry<ClaimId>>)

  datatype ClaimReply = Missing | Busy | Granted(ticket: Ticket)

  /** The three numeric replies of the Complete and Delete scripts: -1, 0 and 1. */
  datatype Removal = Gone | Contended | Removed

  predicate Fresh(ticket: Ticket, now: int) {
    ticket.createdAt <= now + CLOCK_SKEW && now - ticket.createdAt <= TICKET_TTL
  }

  function CreateScript(db: Db, now: int, id: TicketId, ticket: Ticket): (Db, bool) {
    if Get(db.tickets, id, now).Some? then (db, false)
    else (db.(tickets := Set(db.tickets, id, ticket, now, TICKET_TTL)), true)
  }

  function ClaimScript(db: Db, now: int, id: TicketId, claim: ClaimId): (Db, ClaimReply) {
    match Get(db.tickets, id, now)
    case None => (db, Missing)
    case Some(ticket) =>
      if Get(db.claims, id, now).Some? then (db, Busy)
      else (db.(claims := Set(db.claims, id, claim, now, CLAIM_TTL)), Granted(ticket))
  }

  function ReleaseScript(db: Db, now: int, id: TicketId, claim: ClaimId): Db {
    if Get(db.claims, id, now) == Some(claim) then db.(claims := Del(db.claims, id)) else db
  }

  function CompleteScript(db: Db, now: int, id: TicketId, claim: ClaimId): (Db, Removal) {
    if Get(db.tickets, id, now).None? then (db, Gone)
    else if Get(db.claims, id, now) != Some(claim) then (db, Contended)
    else (Db(Del(db.tickets, id), Del(db.claims, id)), Removed)
  }

  function DeleteScript(db: Db, now: int, id: TicketId): (Db, Removal) {
    if Get(db.tickets, id, now).None? then (db, Gone)
    else if Get(db.claims, id, now).Some? then (db, Contended)
    else (db.(tickets := Del(db.tickets, id)), Removed)
  }

  /** What readers of key `id` see at instant `at` after it was written at `now` to live for `ttl`. */
  function Shown<V>(value: V, now: int, ttl: int, at: int): Option<V> {
    if at < now + ttl then Some(value) else None
  }

  /** The store object. Each method is one atomic script at the instant `now`; the contracts say what readers
      see of every key at every instant `at`, before and after. The last clause names the step that the runs of
      RegistrationRuns take. */
  class TicketStore {
    var tickets: map<TicketId, Entry<Ticket>>
    var claims: map<TicketId, Entry<ClaimId>>

    function View(): Db
      reads this
    {
      Db(tickets, claims)
    }

    constructor ()
      ensures View() == Db(map[], map[])
    {
      tickets, claims := map[], map[];
    }

    method Create(now: int, id: TicketId, ticket: Ticket) returns (created: bool)
      modifies this
      ensures created <==> Get(old(tickets), id, now).None?
      ensures forall at ::
        Get(tickets, id, at) == if created then Shown(ticket, now, TICKET_TTL, at) else Get(old(tickets), id, at)
      ensures forall key, at :: key != id ==> Get(tickets, key, at) == Get(old(tickets), key, at)
      ensures claims == old(claims)
      ensures (View(), created) == CreateScript(old(View()), now, id, ticket)
    {
      created := !(id in tickets && now < tickets[id].expiresAt);
      if created {
        tickets := tickets[id := Entry(ticket, now + TICKET_TTL)];
      }
    }

    method Claim(now: int, id: TicketId, claim: ClaimId) returns (reply: ClaimReply)
      modifies this
      ensures reply.Missing? <==> Get(tickets, id, now).None?
      ensures reply.Granted? <==> Get(tickets, id, now).Some? && Get(old(claims), id, now).None?
      ensures reply.Granted? ==> Get(tickets, id, now) == Some(reply.ticket)
      ensures forall at ::
        Get(claims, id, at) == if reply.Granted? then Shown(claim, now, CLAIM_TTL, at) else Get(old(claims), id, at)
      ensures forall key, at :: key != id ==> Get(claims, key, at) == Get(old(claims), key, at)
      ensures tickets == old(tickets)
      ensures (View(), reply) == ClaimScript(old(View()), now, id, claim)
    {
      var value := Get(tickets, id, now);
      if value.None? {
        return Missing;
      }
      if id in claims && now < claims[id].expiresAt {
        return Busy;
      }
      claims := claims[id := Entry(claim, now + CLAIM_TTL)];
      return Granted(value.value);
    }

    method ReleaseClaim(now: int, id: TicketId, claim: ClaimId)
      modifies this
      ensures forall at ::
        Get(claims, id, at) == if Get(old(claims), id, now) == Some(claim) then None else Get(old(claims), id, at)
      ensures forall key, at :: key != id ==> Get(claims, key, at) == Get(old(claims), key, at)
      ensures tickets == old(tickets)
      ensures View() == ReleaseScript(old(View()), now, id, claim)
    {
      var owner := Get(claims, id, now);
      if owner == Some(claim) {
        claims := claims - {id};
      }
    }

    method Complete(now: int, id: TicketId, claim: ClaimId) returns (result: Removal)
      modifies this
      ensures result.Gone? <==> Get(old(tickets), id, now).None?
      ensures result.Removed? <==> Get(old(tickets), id, now).Some? && Get(old(claims), id, now) == Some(claim)
      ensures result.Removed? ==> forall at :: Get(tickets, id, at).None? && Get(claims, id, at).None?
      ensures !result.Removed? ==> tickets == old(tickets) && claims == old(claims)
      ensures forall key, at :: key != id ==> Get(tickets, key, at) == Get(old(tickets), key, at)
      ensures forall key, at :: key != id ==> Get(claims, key, at) == Get(old(claims), key, at)
      ensures (View(), result) == CompleteScript(old(View()), now, id, claim)
    {
      if !(id in tickets && now < tickets[id].expiresAt) {
        return Gone;
      }
      var owner := Get(claims, id, now);
      if owner != Some(claim) {
        return Contended;
      }
      tickets := tickets - {id};
      claims := claims - {id};
      return Removed;
    }

    method Delete(now: int, id: TicketId) returns (result: Removal)
      modifies this
      ensures result.Gone? <==> Get(old(tickets), id, now).None?
      ensures result.Removed? <==> Get(old(tickets), id, now).Some? && Get(claims, id, now).None?
      ensures forall at :: Get(tickets, id, at) == if result.Removed? then None else Get(old(tickets), id, at)
      ensures forall key, at :: key != id ==> Get(tickets, key, at) == Get(old(tickets), key, at)
      ensures claims == old(claims)
      ensures (View(), result) == DeleteScript(old(View()), now, id)
    {
      if !(id in tickets && now < tickets[id].expiresAt) {
        return Gone;
      }
      if id in claims && now < claims[id].expiresAt {
        return Contended;
      }
      tickets := tickets - {id};
      return Removed;
    }
  }
}

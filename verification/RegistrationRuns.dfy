/** internal/authregistration/handler.go: concurrent submissions and cancellations over the
    ticket store, as a state machine whose steps interleave in any order with clock ticks,
    lost replies and abandoned requests. */
module RegistrationRuns {
  import opened Prelude
  import opened Redis
  import opened RegistrationStore

  /** Where one HTTP request stands. `Releasing` is the explicit or deferred release. */
  datatype Phase =
    | Submitted(id: TicketId, csrf: string)
    | Viewed(id: TicketId, csrf: string)
    | Holding(id: TicketId, csrf: string, claim: ClaimId, ticket: Ticket)
    | Registering(id: TicketId, claim: ClaimId)
    | Publishing(id: TicketId, claim: ClaimId)
    | Completing(id: TicketId, claim: ClaimId)
    | Issuing(id: TicketId, claim: ClaimId)
    | Releasing(id: TicketId, claim: ClaimId)
    | Cancelling(id: TicketId, csrf: string)
    | Deleting(id: TicketId)
    | Done

  /** One step of the system. `who` names a request; a crashed request simply takes no more steps. */
  datatype Event =
    | Tick(elapsed: nat)
    | Begin(id: TicketId, ticket: Ticket, delivery: Delivery)
    | Submit(who: nat, id: TicketId, csrf: string)
    | Cancel(who: nat, id: TicketId, csrf: string)
    | View(who: nat, reached: bool)
    | Claim(who: nat, claim: ClaimId, delivery: Delivery)
    | Check(who: nat)
    | Register(who: nat, succeeds: bool)
    | Publish(who: nat, succeeds: bool)
    | Complete(who: nat, delivery: Delivery)
    | Login(who: nat, succeeds: bool)
    | Release(who: nat, delivery: Delivery)
    | Delete(who: nat, delivery: Delivery)

  datatype Grant = Grant(id: TicketId, who: nat, at: int)
  datatype Consumption = Consumption(id: TicketId, who: nat, claim: Option<ClaimId>, at: int)
  datatype Session = Session(id: TicketId, who: nat)

  /** `created`, `grants`, `consumed` and `sessions` record what has happened so far. */
  datatype State = State(
    now: int,
    db: Db,
    requests: map<nat, Phase>,
    created: set<TicketId>,
    grants: map<ClaimId, Grant>,
    consumed: seq<Consumption>,
    sessions: seq<Session>)

  const START := State(0, Db(map[], map[]), map[], {}, map[], [], [])

  predicate TokensMatch(left: string, right: string) {
    left != "" && left == right
  }

  function Goto(s: State, who: nat, phase: Phase): State {
    s.(requests := s.requests[who := phase])
  }

  // ----- the steps -----

  function StepBegin(s: State, id: TicketId, ticket: Ticket, delivery: Delivery): State {
    if id in s.created || delivery.NotReached? then s
    else s.(db := CreateScript(s.db, s.now, id, ticket).0, created := s.created + {id})
  }

  function StepView(s: State, who: nat, reached: bool): State
    requires who in s.requests && (s.requests[who].Submitted? || s.requests[who].Cancelling?)
  {
    var phase := s.requests[who];
    var ticket := Get(s.db.tickets, phase.id, s.now);
    if !reached || ticket.None? || !Fresh(ticket.value, s.now) || !TokensMatch(phase.csrf, ticket.value.csrfSecret)
    then Goto(s, who, Done)
    else if phase.Submitted? then Goto(s, who, Viewed(phase.id, phase.csrf))
    else Goto(s, who, Deleting(phase.id))
  }

  function StepClaim(s: State, who: nat, claim: ClaimId, delivery: Delivery): State
    requires who in s.requests && s.requests[who].Viewed? && claim !in s.grants
  {
    var Viewed(id, csrf) := s.requests[who];
    var (db, reply) := ClaimScript(s.db, s.now, id, claim);
    if delivery.NotReached? || !reply.Granted? then Goto(s, who, Done)
    else
      var granted := s.(db := db, grants := s.grants[claim := Grant(id, who, s.now)]);
      if delivery.ReplyLost? then Goto(granted, who, Done)
      else Goto(granted, who, Holding(id, csrf, claim, reply.ticket))
  }

  function StepCheck(s: State, who: nat): State
    requires who in s.requests && s.requests[who].Holding?
  {
    var Holding(id, csrf, claim, ticket) := s.requests[who];
    if Fresh(ticket, s.now) && TokensMatch(csrf, ticket.csrfSecret)
    then Goto(s, who, Registering(id, claim))
    else Goto(s, who, Releasing(id, claim))
  }

  function StepComplete(s: State, who: nat, delivery: Delivery): State
    requires who in s.requests && s.requests[who].Completing?
  {
    var Completing(id, claim) := s.requests[who];
    var (db, result) := CompleteScript(s.db, s.now, id, claim);
    if delivery.NotReached? || !result.Removed? then Goto(s, who, Releasing(id, claim))
    else
      var removed := s.(db := db, consumed := s.consumed + [Consumption(id, who, Some(claim), s.now)]);
      if delivery.ReplyLost? then Goto(removed, who, Releasing(id, claim))
      else Goto(removed, who, Issuing(id, claim))
  }

  function StepRelease(s: State, who: nat, delivery: Delivery): State
    requires who in s.requests && s.requests[who].Releasing?
  {
    var Releasing(id, claim) := s.requests[who];
    if delivery.NotReached? then Goto(s, who, Done)
    else Goto(s.(db := ReleaseScript(s.db, s.now, id, claim)), who, Done)
  }

  function StepDelete(s: State, who: nat, delivery: Delivery): State
    requires who in s.requests && s.requests[who].Deleting?
  {
    var id := s.requests[who].id;
    var (db, result) := DeleteScript(s.db, s.now, id);
    if delivery.NotReached? || !result.Removed? then Goto(s, who, Done)
    else Goto(s.(db := db, consumed := s.consumed + [Consumption(id, who, None, s.now)]), who, Done)
  }

  /** Claim identifiers are fresh random values and request numbers are never reused. */
  predicate Enabled(s: State, e: Event) {
    match e
    case Tick(_) => true
    case Begin(id, _, _) => id !in s.created
    case Submit(who, _, _) => who !in s.requests
    case Cancel(who, _, _) => who !in s.requests
    case View(who, _) => who in s.requests && (s.requests[who].Submitted? || s.requests[who].Cancelling?)
    case Claim(who, claim, _) => who in s.requests && s.requests[who].Viewed? && claim !in s.grants
    case Check(who) => who in s.requests && s.requests[who].Holding?
    case Register(who, _) => who in s.requests && s.requests[who].Registering?
    case Publish(who, _) => who in s.requests && s.requests[who].Publishing?
    case Complete(who, _) => who in s.requests && s.requests[who].Completing?
    case Login(who, _) => who in s.requests && s.requests[who].Issuing?
    case Release(who, _) => who in s.requests && s.requests[who].Releasing?
    case Delete(who, _) => who in s.requests && s.requests[who].Deleting?
  }

  function Next(s: State, e: Event): State {
    if !Enabled(s, e) then s else
    match e
    case Tick(elapsed) => s.(now := s.now + elapsed)
    case Begin(id, ticket, delivery) => StepBegin(s, id, ticket, delivery)
    case Submit(who, id, csrf) => Goto(s, who, Submitted(id, csrf))
    case Cancel(who, id, csrf) => Goto(s, who, Cancelling(id, csrf))
    case View(who, reached) => StepView(s, who, reached)
    case Claim(who, claim, delivery) => StepClaim(s, who, claim, delivery)
    case Check(who) => StepCheck(s, who)
    case Register(who, succeeds) =>
      var Registering(id, claim) := s.requests[who];
      Goto(s, who, if succeeds then Publishing(id, claim) else Releasing(id, claim))
    case Publish(who, succeeds) =>
      var Publishing(id, claim) := s.requests[who];
      Goto(s, who, if succeeds then Completing(id, claim) else Releasing(id, claim))
    case Complete(who, delivery) => StepComplete(s, who, delivery)
    case Login(who, succeeds) =>
      var issued := if succeeds then [Session(s.requests[who].id, who)] else [];
      Goto(s.(sessions := s.sessions + issued), who, Done)
    case Release(who, delivery) => StepRelease(s, who, delivery)
    case Delete(who, delivery) => StepDelete(s, who, delivery)
  }

  function Run(events: seq<Event>): State {
    if events == [] then START else Next(Run(events[..|events| - 1]), events[|events| - 1])
  }

  // ----- what every reachable state satisfies -----

  predicate HoldsClaim(phase: Phase) {
    phase.Holding? || phase.Registering? || phase.Publishing? || phase.Completing? || phase.Issuing? || phase.Releasing?
  }

  /** The claim a request works with was granted to that request, for that ticket. */
  ghost predicate ClaimsOwned(s: State) {
    && (forall who :: who in s.requests && HoldsClaim(s.requests[who]) ==>
          var claim := s.requests[who].claim;
          claim in s.grants && s.grants[claim].who == who && s.grants[claim].id == s.requests[who].id)
    && (forall claim :: claim in s.grants ==> s.grants[claim].who in s.requests && s.grants[claim].id in s.created)
  }

  /** Whatever Redis holds as a claim was granted exactly one lease ago or less. */
  ghost predicate LeasesGranted(s: State) {
    forall id :: id in s.db.claims ==>
      var Entry(claim, expiresAt) := s.db.claims[id];
      claim in s.grants && s.grants[claim].id == id && s.grants[claim].at + CLAIM_TTL == expiresAt
      && s.grants[claim].at <= s.now
  }

  ghost predicate TicketsTracked(s: State) {
    && s.db.tickets.Keys <= s.created
    && (forall c :: c in s.consumed ==> c.id in s.created && c.id !in s.db.tickets)
    && (forall i, j :: 0 <= i < j < |s.consumed| ==> s.consumed[i].id != s.consumed[j].id)
  }

  /** A completion was made by the request that owned the claim, inside its lease. */
  ghost predicate CompletionsOwned(s: State) {
    forall c :: c in s.consumed && c.claim.Some? ==>
      c.claim.value in s.grants && s.grants[c.claim.value].who == c.who && s.grants[c.claim.value].id == c.id
      && s.grants[c.claim.value].at <= c.at < s.grants[c.claim.value].at + 60_000
  }

  ghost predicate CompletedBy(consumed: seq<Consumption>, id: TicketId, who: nat) {
    exists k :: 0 <= k < |consumed| && consumed[k].id == id && consumed[k].who == who && consumed[k].claim.Some?
  }

  ghost predicate SessionsEarned(s: State) {
    && (forall who :: who in s.requests && s.requests[who].Issuing? ==>
          CompletedBy(s.consumed, s.requests[who].id, who))
    && (forall x :: x in s.sessions ==>
          x.who in s.requests && s.requests[x.who].Done? && CompletedBy(s.consumed, x.id, x.who))
    && (forall i, j :: 0 <= i < j < |s.sessions| ==> s.sessions[i].who != s.sessions[j].who)
  }

  ghost predicate Inv(s: State) {
    ClaimsOwned(s) && LeasesGranted(s) && TicketsTracked(s) && CompletionsOwned(s) && SessionsEarned(s)
  }

  lemma InvGoto(s: State, who: nat, phase: Phase)
    requires Inv(s) && (who in s.requests ==> !s.requests[who].Done?)
    requires HoldsClaim(phase) ==>
      phase.claim in s.grants && s.grants[phase.claim].who == who && s.grants[phase.claim].id == phase.id
    requires phase.Issuing? ==> CompletedBy(s.consumed, phase.id, who)
    ensures Inv(Goto(s, who, phase))
  {
  }

  lemma InvBegin(s: State, id: TicketId, ticket: Ticket, delivery: Delivery)
    requires Inv(s)
    ensures Inv(StepBegin(s, id, ticket, delivery))
  {
  }

  lemma InvClaim(s: State, who: nat, claim: ClaimId, delivery: Delivery)
    requires Inv(s) && Enabled(s, Claim(who, claim, delivery))
    ensures Inv(StepClaim(s, who, claim, delivery))
  {
    var id := s.requests[who].id;
    var (db, reply) := ClaimScript(s.db, s.now, id, claim);
    if delivery.NotReached? || !reply.Granted? {
      InvGoto(s, who, Done);
    } else {
      var granted := s.(db := db, grants := s.grants[claim := Grant(id, who, s.now)]);
      InvGoto(granted, who,
              if delivery.ReplyLost? then Done else Holding(id, s.requests[who].csrf, claim, reply.ticket));
    }
  }

  /** Appending a consumption of a ticket that Redis no longer holds keeps every record intact. */
  lemma InvConsumed(s: State, db: Db, c: Consumption)
    requires Inv(s) && c.id in s.db.tickets
    requires db.tickets == s.db.tickets - {c.id}
    requires db.claims == s.db.claims || db.claims == s.db.claims - {c.id}
    requires c.claim.Some? ==>
      c.claim.value in s.grants && s.grants[c.claim.value].who == c.who && s.grants[c.claim.value].id == c.id
      && s.grants[c.claim.value].at <= c.at < s.grants[c.claim.value].at + CLAIM_TTL
    ensures var t := s.(db := db, consumed := s.consumed + [c]);
      Inv(t) && (c.claim.Some? ==> CompletedBy(t.consumed, c.id, c.who))
  {
    var t := s.(db := db, consumed := s.consumed + [c]);
    forall id, w | CompletedBy(s.consumed, id, w) ensures CompletedBy(t.consumed, id, w) {
      var k :| 0 <= k < |s.consumed| && s.consumed[k].id == id && s.consumed[k].who == w && s.consumed[k].claim.Some?;
      assert t.consumed[k] == s.consumed[k];
    }
    assert t.consumed[|s.consumed|] == c;
  }

  lemma InvComplete(s: State, who: nat, delivery: Delivery)
    requires Inv(s) && Enabled(s, Complete(who, delivery))
    ensures Inv(StepComplete(s, who, delivery))
  {
    var Completing(id, claim) := s.requests[who];
    var (db, result) := CompleteScript(s.db, s.now, id, claim);
    if delivery.NotReached? || !result.Removed? {
      InvGoto(s, who, Releasing(id, claim));
    } else {
      var c := Consumption(id, who, Some(claim), s.now);
      InvConsumed(s, db, c);
      InvGoto(s.(db := db, consumed := s.consumed + [c]), who,
        if delivery.ReplyLost? then Releasing(id, claim) else Issuing(id, claim));
    }
  }

  lemma InvRelease(s: State, who: nat, delivery: Delivery)
    requires Inv(s) && Enabled(s, Release(who, delivery))
    ensures Inv(StepRelease(s, who, delivery))
  {
    var Releasing(id, claim) := s.requests[who];
    InvGoto(if delivery.NotReached? then s else s.(db := ReleaseScript(s.db, s.now, id, claim)), who, Done);
  }

  lemma InvDelete(s: State, who: nat, delivery: Delivery)
    requires Inv(s) && Enabled(s, Delete(who, delivery))
    ensures Inv(StepDelete(s, who, delivery))
  {
    var id := s.requests[who].id;
    var (db, result) := DeleteScript(s.db, s.now, id);
    if delivery.NotReached? || !result.Removed? {
      InvGoto(s, who, Done);
    } else {
      var c := Consumption(id, who, None, s.now);
      InvConsumed(s, db, c);
      InvGoto(s.(db := db, consumed := s.consumed + [c]), who, Done);
    }
  }

  lemma InvLogin(s: State, who: nat, succeeds: bool)
    requires Inv(s) && Enabled(s, Login(who, succeeds))
    ensures Inv(Next(s, Login(who, succeeds)))
  {
    var id := s.requests[who].id;
    InvGoto(s, who, Done);
    var t := Goto(s, who, Done);
    assert forall x :: x in t.sessions + [Session(id, who)] ==> x in t.sessions || x == Session(id, who);
  }

  lemma InvTick(s: State, elapsed: nat)
    requires Inv(s)
    ensures Inv(s.(now := s.now + elapsed))
  {
  }

  /** Steps that only move a request from one phase to another. */
  lemma InvLocal(s: State, e: Event)
    requires Inv(s) && Enabled(s, e)
    requires e.Submit? || e.Cancel? || e.View? || e.Check? || e.Register? || e.Publish?
    ensures Inv(Next(s, e))
  {
    InvGoto(s, e.who, Next(s, e).requests[e.who]);
  }

  lemma InvNext(s: State, e: Event)
    requires Inv(s)
    ensures Inv(Next(s, e))
  {
    if Enabled(s, e) {
      match e
      case Tick(elapsed) => InvTick(s, elapsed);
      case Begin(id, ticket, delivery) => InvBegin(s, id, ticket, delivery);
      case Claim(who, claim, delivery) => InvClaim(s, who, claim, delivery);
      case Complete(who, delivery) => InvComplete(s, who, delivery);
      case Login(who, succeeds) => InvLogin(s, who, succeeds);
      case Release(who, delivery) => InvRelease(s, who, delivery);
      case Delete(who, delivery) => InvDelete(s, who, delivery);
      case _ => InvLocal(s, e);
    }
  }

  lemma {:induction false} InvRun(events: seq<Event>)
    ensures Inv(Run(events))
  {
    if events != [] {
      InvRun(events[..|events| - 1]);
      InvNext(Run(events[..|events| - 1]), events[|events| - 1]);
    }
  }

  // ----- safety over whole runs -----

  /** However requests interleave, a ticket is consumed at most once, and only inside the lease of
      the request that completed it. */
  lemma TicketConsumedOnce(events: seq<Event>)
    ensures var s := Run(events);
      && (forall i, j :: 0 <= i < j < |s.consumed| ==> s.consumed[i].id != s.consumed[j].id)
      && (forall c :: c in s.consumed ==> Get(s.db.tickets, c.id, s.now).None?)
      && CompletionsOwned(s)
  {
    InvRun(events);
  }

  /** At most one submission of a ticket ever issues a login session, and it is the one that
      consumed the ticket. */
  lemma OneSessionPerTicket(events: seq<Event>)
    ensures var s := Run(events);
      && (forall i, j :: 0 <= i < j < |s.sessions| ==> s.sessions[i].id != s.sessions[j].id)
      && (forall x :: x in s.sessions ==> CompletedBy(s.consumed, x.id, x.who))
  {
    InvRun(events);
    var s := Run(events);
    forall i, j | 0 <= i < j < |s.sessions| ensures s.sessions[i].id != s.sessions[j].id {
      var x, y := s.sessions[i], s.sessions[j];
      assert x in s.sessions && y in s.sessions;
      assert CompletedBy(s.consumed, x.id, x.who) && CompletedBy(s.consumed, y.id, y.who);
    }
  }

  /** A claim was granted at an instant when the ticket was visible and no other claim was. */
  ghost predicate GrantedLawfully(events: seq<Event>, claim: ClaimId, grant: Grant, n: nat) {
    n < |events| && events[n].Claim? && events[n].claim == claim && events[n].who == grant.who
    && var s := Run(events[..n]);
       s.now == grant.at && Get(s.db.tickets, grant.id, s.now).Some? && Get(s.db.claims, grant.id, s.now).None?
  }

  lemma {:induction false} GrantsAreLawful(events: seq<Event>, claim: ClaimId)
    requires claim in Run(events).grants
    ensures exists n: nat :: GrantedLawfully(events, claim, Run(events).grants[claim], n)
  {
    var before := events[..|events| - 1];
    var last := events[|events| - 1];
    var s := Run(before);
    var grant := Run(events).grants[claim];
    if claim in s.grants {
      GrantsAreLawful(before, claim);
      var n: nat :| GrantedLawfully(before, claim, s.grants[claim], n);
      assert events[..n] == before[..n];
      assert GrantedLawfully(events, claim, grant, n);
    } else {
      assert GrantedLawfully(events, claim, grant, |before|);
    }
  }

  /** Every claim that is visible in Redis was granted while its ticket was visible. */
  lemma LiveClaimsAreLawful(events: seq<Event>, id: TicketId)
    requires Get(Run(events).db.claims, id, Run(events).now).Some?
    ensures var s := Run(events);
      var claim := s.db.claims[id].value;
      && claim in s.grants && s.grants[claim].id == id && s.now < s.grants[claim].at + 60_000
      && exists n: nat :: GrantedLawfully(events, claim, s.grants[claim], n)
  {
    InvRun(events);
    GrantsAreLawful(events, Run(events).db.claims[id].value);
  }

  function Actor(e: Event): Option<nat> {
    if e.Tick? || e.Begin? then None else Some(e.who)
  }

  /** The request whose claim on `id` is visible now. */
  function Owner(s: State, id: TicketId): Option<nat> {
    match Get(s.db.claims, id, s.now)
    case None => None
    case Some(claim) => if claim in s.grants then Some(s.grants[claim].who) else None
  }

  /** The claim entry and, if it is stored, the ticket entry of `id` are the same in both states. */
  ghost predicate SameLease(s: State, t: State, id: TicketId) {
    && id in s.db.claims && id in t.db.claims && t.db.claims[id] == s.db.claims[id]
    && (id in s.db.tickets ==> id in t.db.tickets && t.db.tickets[id] == s.db.tickets[id])
  }

  lemma OthersKeepGrants(s: State, e: Event)
    ensures s.now <= Next(s, e).now
    ensures forall claim :: claim in s.grants ==>
      claim in Next(s, e).grants && Next(s, e).grants[claim] == s.grants[claim]
  {
  }

  /** While a claim is visible, no step of any other request touches it or its ticket. */
  lemma OthersKeepLease(s: State, e: Event, id: TicketId)
    requires ClaimsOwned(s) && LeasesGranted(s) && TicketsTracked(s)
    requires Owner(s, id).Some? && Actor(e) != Owner(s, id)
    ensures SameLease(s, Next(s, e), id)
  {
    if e.Complete? || e.Release? {
      if Enabled(s, e) {
        assert HoldsClaim(s.requests[e.who]);
      }
    }
  }

  /** Slow holders do no harm: from any reachable state in which a claim is visible, as long as its
      lease runs, no interleaving of other requests (earlier holders whose lease lapsed,
      cancellations, new submissions) removes that claim or its ticket. */
  lemma {:induction false} LeaseProtects(events: seq<Event>, more: seq<Event>, id: TicketId)
    requires Owner(Run(events), id).Some?
    requires Run(events + more).now < Run(events).db.claims[id].expiresAt
    requires forall k :: 0 <= k < |more| ==> Actor(more[k]) != Owner(Run(events), id)
    ensures SameLease(Run(events), Run(events + more), id)
    ensures Owner(Run(events + more), id) == Owner(Run(events), id)
    decreases |more|
  {
    if more == [] {
      assert events + more == events;
    } else {
      var init, last := more[..|more| - 1], more[|more| - 1];
      assert (events + more)[..|events + more| - 1] == events + init;
      var mid := Run(events + init);
      OthersKeepGrants(mid, last);
      LeaseProtects(events, init, id);
      InvRun(events + init);
      OthersKeepLease(mid, last, id);
    }
  }

  // ----- releasing -----

  /** A claim that was granted and is not visible. */
  ghost predicate Invisible(s: State, id: TicketId, claim: ClaimId) {
    claim in s.grants && Get(s.db.claims, id, s.now) != Some(claim)
  }

  lemma InvisibleStays(s: State, e: Event, id: TicketId, claim: ClaimId)
    requires Invisible(s, id, claim)
    ensures Invisible(Next(s, e), id, claim)
  {
  }

  /** A release that reaches the store frees the ticket: its claim is never seen again. */
  lemma {:induction false} ReleasedIsGone(events: seq<Event>, who: nat, delivery: Delivery, more: seq<Event>)
    requires who in Run(events).requests && Run(events).requests[who].Releasing? && !delivery.NotReached?
    ensures var phase, t := Run(events).requests[who], Run(events + [Release(who, delivery)] + more);
      Get(t.db.claims, phase.id, t.now) != Some(phase.claim) && phase.claim in t.grants
    decreases |more|
  {
    var phase, released := Run(events).requests[who], events + [Release(who, delivery)];
    if more == [] {
      InvRun(events);
      assert released[..|events|] == events && released + more == released;
    } else {
      var init, last := more[..|more| - 1], more[|more| - 1];
      assert (released + more)[..|released + more| - 1] == released + init;
      ReleasedIsGone(events, who, delivery, init);
      InvisibleStays(Run(released + init), last, phase.id, phase.claim);
    }
  }
}

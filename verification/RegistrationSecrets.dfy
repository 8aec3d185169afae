/** What a browser must have presented: the events behind every login session and every consumed ticket of a
    registration run. */
module RegistrationSecrets {
  import opened Prelude
  import opened Redis
  import opened RegistrationStore
  import opened RegistrationRuns

  /** The ticket was written to Redis. */
  ghost predicate Began(events: seq<Event>, id: TicketId, ticket: Ticket) {
    Begin(id, ticket, Delivered) in events || Begin(id, ticket, ReplyLost) in events
  }

  /** At event `k` a value `csrf` was compared with the secret of a ticket that is at most fifteen minutes old and
      not dated more than a minute ahead. */
  ghost predicate Compared(events: seq<Event>, k: nat, id: TicketId, ticket: Ticket, csrf: string)
    requires k < |events|
  {
    && Began(events[..k], id, ticket) && csrf != "" && csrf == ticket.csrfSecret
    && ticket.createdAt - 60_000 <= Run(events[..k]).now <= ticket.createdAt + 900_000
  }

  /** Event `k` is the check of a submission that carries the ticket's secret. */
  ghost predicate CheckedAt(events: seq<Event>, id: TicketId, who: nat, ticket: Ticket, csrf: string, k: nat) {
    k < |events| && events[k] == Check(who) && Submit(who, id, csrf) in events[..k]
    && Compared(events, k, id, ticket, csrf)
  }

  /** Event `k` is the check of a cancellation that carries the ticket's secret. */
  ghost predicate DismissedAt(events: seq<Event>, id: TicketId, who: nat, ticket: Ticket, csrf: string, k: nat) {
    k < |events| && events[k] == View(who, true) && Cancel(who, id, csrf) in events[..k]
    && Compared(events, k, id, ticket, csrf)
  }

  ghost predicate Checked(events: seq<Event>, id: TicketId, who: nat) {
    exists ticket, csrf, k :: CheckedAt(events, id, who, ticket, csrf, k)
  }

  ghost predicate Dismissed(events: seq<Event>, id: TicketId, who: nat) {
    exists ticket, csrf, k :: DismissedAt(events, id, who, ticket, csrf, k)
  }

  // ----- what a state tells about the events before it -----

  ghost predicate PhaseTold(events: seq<Event>, who: nat, phase: Phase) {
    match phase
    case Submitted(id, csrf) => Submit(who, id, csrf) in events
    case Viewed(id, csrf) => Submit(who, id, csrf) in events
    case Holding(id, csrf, _, ticket) => Submit(who, id, csrf) in events && Began(events, id, ticket)
    case Registering(id, _) => Checked(events, id, who)
    case Publishing(id, _) => Checked(events, id, who)
    case Completing(id, _) => Checked(events, id, who)
    case Issuing(id, _) => Checked(events, id, who)
    case Cancelling(id, csrf) => Cancel(who, id, csrf) in events
    case Deleting(id) => Dismissed(events, id, who)
    case _ => true
  }

  ghost predicate ConsumptionTold(events: seq<Event>, c: Consumption) {
    if c.claim.Some? then Checked(events, c.id, c.who) else Dismissed(events, c.id, c.who)
  }

  ghost predicate TicketsTold(events: seq<Event>, s: State) {
    forall id :: id in s.db.tickets ==> Began(events, id, s.db.tickets[id].value)
  }

  ghost predicate PhasesTold(events: seq<Event>, s: State) {
    forall who :: who in s.requests ==> PhaseTold(events, who, s.requests[who])
  }

  ghost predicate RecordsTold(events: seq<Event>, s: State) {
    && (forall c :: c in s.consumed ==> ConsumptionTold(events, c))
    && (forall x :: x in s.sessions ==> Checked(events, x.id, x.who))
  }

  lemma CheckedLater(events: seq<Event>, e: Event, id: TicketId, who: nat)
    ensures Checked(events, id, who) ==> Checked(events + [e], id, who)
    ensures Dismissed(events, id, who) ==> Dismissed(events + [e], id, who)
  {
    if ticket, csrf, k: nat :| CheckedAt(events, id, who, ticket, csrf, k) {
      assert (events + [e])[..k] == events[..k];
      assert CheckedAt(events + [e], id, who, ticket, csrf, k);
    }
    if ticket, csrf, k: nat :| DismissedAt(events, id, who, ticket, csrf, k) {
      assert (events + [e])[..k] == events[..k];
      assert DismissedAt(events + [e], id, who, ticket, csrf, k);
    }
  }

  lemma PhaseLater(events: seq<Event>, e: Event, who: nat, phase: Phase)
    requires PhaseTold(events, who, phase)
    ensures PhaseTold(events + [e], who, phase)
  {
    if !phase.Done? {
      CheckedLater(events, e, phase.id, who);
    }
  }

  lemma TicketsNext(events: seq<Event>, s: State, e: Event)
    requires TicketsTold(events, s)
    ensures TicketsTold(events + [e], Next(s, e))
  {
  }

  /** The checks: only the ticket's secret passes. */
  lemma ViewTold(events: seq<Event>, e: Event)
    requires var s := Run(events);
      TicketsTold(events, s) && PhasesTold(events, s) && e.View? && Enabled(s, e)
    ensures PhaseTold(events + [e], e.who, Next(Run(events), e).requests[e.who])
  {
    var s, more := Run(events), events + [e];
    var phase := s.requests[e.who];
    assert PhaseTold(events, e.who, phase);
    if Next(s, e).requests[e.who].Deleting? {
      assert more[..|events|] == events;
      assert DismissedAt(more, phase.id, e.who, s.db.tickets[phase.id].value, phase.csrf, |events|);
    }
  }

  lemma CheckTold(events: seq<Event>, e: Event)
    requires PhasesTold(events, Run(events)) && e.Check? && Enabled(Run(events), e)
    ensures PhaseTold(events + [e], e.who, Next(Run(events), e).requests[e.who])
  {
    var s, more := Run(events), events + [e];
    var phase := s.requests[e.who];
    assert PhaseTold(events, e.who, phase);
    if Next(s, e).requests[e.who].Registering? {
      assert more[..|events|] == events;
      assert CheckedAt(more, phase.id, e.who, phase.ticket, phase.csrf, |events|);
    }
  }

  /** What the acting request's new phase tells, for all other steps. */
  lemma StepTold(events: seq<Event>, s: State, e: Event)
    requires TicketsTold(events, s) && PhasesTold(events, s)
    requires Enabled(s, e) && !e.Tick? && !e.Begin? && !e.View? && !e.Check?
    ensures e.who in Next(s, e).requests && PhaseTold(events + [e], e.who, Next(s, e).requests[e.who])
  {
    if e.who in s.requests {
      assert PhaseTold(events, e.who, s.requests[e.who]);
      PhaseLater(events, e, e.who, s.requests[e.who]);
    }
  }

  lemma OthersStay(s: State, e: Event, who: nat)
    requires Actor(e) != Some(who)
    ensures who in Next(s, e).requests <==> who in s.requests
    ensures who in s.requests ==> Next(s, e).requests[who] == s.requests[who]
  {
  }

  lemma PhasesNext(events: seq<Event>, e: Event)
    requires TicketsTold(events, Run(events)) && PhasesTold(events, Run(events))
    ensures PhasesTold(events + [e], Next(Run(events), e))
  {
    var s := Run(events);
    var t := Next(s, e);
    forall who | who in t.requests ensures PhaseTold(events + [e], who, t.requests[who]) {
      if !Enabled(s, e) || Actor(e) != Some(who) {
        if Enabled(s, e) {
          OthersStay(s, e, who);
        }
        PhaseLater(events, e, who, s.requests[who]);
      } else if e.View? {
        ViewTold(events, e);
      } else if e.Check? {
        CheckTold(events, e);
      } else {
        StepTold(events, s, e);
      }
    }
  }

  lemma ConsumedOrigin(s: State, e: Event, c: Consumption)
    requires c in Next(s, e).consumed && c !in s.consumed
    ensures c.who in s.requests
    ensures if c.claim.Some? then s.requests[c.who] == Completing(c.id, c.claim.value)
            else s.requests[c.who] == Deleting(c.id)
  {
  }

  lemma SessionOrigin(s: State, e: Event, x: Session)
    requires x in Next(s, e).sessions && x !in s.sessions
    ensures x.who in s.requests && s.requests[x.who].Issuing? && s.requests[x.who].id == x.id
  {
  }

  lemma RecordsNext(events: seq<Event>, s: State, e: Event)
    requires PhasesTold(events, s) && RecordsTold(events, s)
    ensures RecordsTold(events + [e], Next(s, e))
  {
    var t := Next(s, e);
    forall c | c in t.consumed ensures ConsumptionTold(events + [e], c) {
      if c !in s.consumed {
        ConsumedOrigin(s, e, c);
        assert PhaseTold(events, c.who, s.requests[c.who]);
      }
      CheckedLater(events, e, c.id, c.who);
    }
    forall x | x in t.sessions ensures Checked(events + [e], x.id, x.who) {
      if x !in s.sessions {
        SessionOrigin(s, e, x);
        assert PhaseTold(events, x.who, s.requests[x.who]);
      }
      CheckedLater(events, e, x.id, x.who);
    }
  }

  lemma {:induction false} ToldRun(events: seq<Event>)
    ensures TicketsTold(events, Run(events)) && PhasesTold(events, Run(events)) && RecordsTold(events, Run(events))
  {
    if events != [] {
      var init, e := events[..|events| - 1], events[|events| - 1];
      ToldRun(init);
      assert events == init + [e];
      TicketsNext(init, Run(init), e);
      PhasesNext(init, e);
      RecordsNext(init, Run(init), e);
    }
  }

  // ----- safety over whole runs -----

  /** Every session, and every ticket that a submission consumes, goes back to a submission that carried the
      secret of that ticket and was checked while the ticket was fresh. */
  lemma SessionsNeedSecret(events: seq<Event>)
    ensures forall x :: x in Run(events).sessions ==> Checked(events, x.id, x.who)
    ensures forall c :: c in Run(events).consumed && c.claim.Some? ==> Checked(events, c.id, c.who)
  {
    ToldRun(events);
    assert forall c :: c in Run(events).consumed ==> ConsumptionTold(events, c);
  }

  /** Every ticket that is consumed without a claim goes back to a cancellation that carried its secret. */
  lemma CancellationsNeedSecret(events: seq<Event>)
    ensures forall c :: c in Run(events).consumed && c.claim.None? ==> Dismissed(events, c.id, c.who)
  {
    ToldRun(events);
    assert forall c :: c in Run(events).consumed ==> ConsumptionTold(events, c);
  }

  // ----- and the secret is enough -----

  lemma Snoc(events: seq<Event>, e: Event)
    ensures Run(events + [e]) == Next(Run(events), e)
  {
    assert (events + [e])[..|events|] == events;
  }

  /** A ticket and, after a while, one submission that nothing disturbs. */
  function Undisturbed(id: TicketId, ticket: Ticket, delay: nat, csrf: string, claim: ClaimId): seq<Event> {
    [Begin(id, ticket, Delivered), Tick(delay), Submit(1, id, csrf), View(1, true), Claim(1, claim, Delivered),
     Check(1), Register(1, true), Publish(1, true), Complete(1, Delivered), Login(1, true)]
  }

  /** The state in which request 1 is in `phase` before anything is consumed. */
  function At(id: TicketId, ticket: Ticket, delay: nat, claims: map<TicketId, Entry<ClaimId>>,
          grants: map<ClaimId, Grant>, phase: Phase): State
  {
    State(delay, Db(map[id := Entry(ticket, TICKET_TTL)], claims), map[1 := phase], {id}, grants, [], [])
  }

  lemma Submits(id: TicketId, ticket: Ticket, delay: nat, csrf: string)
    ensures Run([Begin(id, ticket, Delivered), Tick(delay), Submit(1, id, csrf)]) ==
      At(id, ticket, delay, map[], map[], Submitted(id, csrf))
  {
    var none: seq<Event> := [];
    var a, b, c := Begin(id, ticket, Delivered), Tick(delay), Submit(1, id, csrf);
    Snoc(none, a);
    Snoc([a], b);
    Snoc([a, b], c);
    assert none + [a] == [a] && [a] + [b] == [a, b] && [a, b] + [c] == [a, b, c];
  }

  /** A finished request takes no more steps. */
  lemma {:induction false} DoneStays(events: seq<Event>, more: seq<Event>)
    requires 1 in Run(events).requests && Run(events).requests[1].Done?
    requires forall k :: 0 <= k < |more| ==> Actor(more[k]) == Some(1)
    ensures Run(events + more) == Run(events)
  {
    if more == [] {
      assert events + more == events;
    } else {
      DoneStays(events, more[..|more| - 1]);
      Snoc(events + more[..|more| - 1], more[|more| - 1]);
      assert events + more[..|more| - 1] + [more[|more| - 1]] == events + more;
    }
  }

  lemma TwoSteps(events: seq<Event>, a: Event, b: Event)
    ensures Run(events + [a, b]) == Next(Next(Run(events), a), b)
  {
    var mid := events + [a];
    assert events + [a, b] == mid + [b];
    assert Run(mid) == Next(Run(events), a) by {
      Snoc(events, a);
    }
    assert Run(mid + [b]) == Next(Run(mid), b) by {
      Snoc(mid, b);
    }
  }

  lemma ClaimAndCheck(id: TicketId, ticket: Ticket, delay: nat, csrf: string, claim: ClaimId)
    requires delay < 900_000 && ticket.createdAt - 60_000 <= delay <= ticket.createdAt + 900_000
    requires csrf != "" && csrf == ticket.csrfSecret
    ensures var claims, grants := map[id := Entry(claim, delay + CLAIM_TTL)], map[claim := Grant(id, 1, delay)];
      Next(Next(At(id, ticket, delay, map[], map[], Viewed(id, csrf)), Claim(1, claim, Delivered)), Check(1))
      == At(id, ticket, delay, claims, grants, Registering(id, claim))
  {
    var claims, grants := map[id := Entry(claim, delay + CLAIM_TTL)], map[claim := Grant(id, 1, delay)];
    var s := Next(At(id, ticket, delay, map[], map[], Viewed(id, csrf)), Claim(1, claim, Delivered));
    assert s == At(id, ticket, delay, claims, grants, Holding(id, csrf, claim, ticket));
  }

  lemma RegisterAndPublish(id: TicketId, ticket: Ticket, delay: nat, claims: map<TicketId, Entry<ClaimId>>,
          grants: map<ClaimId, Grant>, claim: ClaimId)
    ensures Next(Next(At(id, ticket, delay, claims, grants, Registering(id, claim)), Register(1, true)),
                 Publish(1, true)) == At(id, ticket, delay, claims, grants, Completing(id, claim))
  {
  }

  lemma CompleteAndLogin(id: TicketId, ticket: Ticket, delay: nat, grants: map<ClaimId, Grant>, claim: ClaimId)
    requires delay < 900_000
    ensures var claims := map[id := Entry(claim, delay + CLAIM_TTL)];
      Next(Next(At(id, ticket, delay, claims, grants, Completing(id, claim)), Complete(1, Delivered)),
           Login(1, true)).sessions == [Session(id, 1)]
  {
  }

  /** From the claim on, a submission that was accepted once is accepted. */
  lemma AcceptedGoesThrough(events: seq<Event>, id: TicketId, ticket: Ticket, delay: nat, csrf: string, claim: ClaimId)
    requires delay < 900_000 && ticket.createdAt - 60_000 <= delay <= ticket.createdAt + 900_000
    requires csrf != "" && csrf == ticket.csrfSecret
    requires Run(events) == At(id, ticket, delay, map[], map[], Viewed(id, csrf))
    ensures Run(events + [Claim(1, claim, Delivered), Check(1)] + [Register(1, true), Publish(1, true)]
                + [Complete(1, Delivered), Login(1, true)]).sessions == [Session(id, 1)]
  {
    var claims, grants := map[id := Entry(claim, delay + CLAIM_TTL)], map[claim := Grant(id, 1, delay)];
    var checked := events + [Claim(1, claim, Delivered), Check(1)];
    var published := checked + [Register(1, true), Publish(1, true)];
    TwoSteps(events, Claim(1, claim, Delivered), Check(1));
    ClaimAndCheck(id, ticket, delay, csrf, claim);
    TwoSteps(checked, Register(1, true), Publish(1, true));
    RegisterAndPublish(id, ticket, delay, claims, grants, claim);
    TwoSteps(published, Complete(1, Delivered), Login(1, true));
    CompleteAndLogin(id, ticket, delay, grants, claim);
  }

  /** An undisturbed submission gets a session if and only if it carries the secret of a fresh ticket. */
  lemma SecretSuffices(id: TicketId, ticket: Ticket, delay: nat, csrf: string, claim: ClaimId)
    ensures Run(Undisturbed(id, ticket, delay, csrf, claim)).sessions ==
      if csrf != "" && csrf == ticket.csrfSecret && delay < 900_000
         && ticket.createdAt - 60_000 <= delay <= ticket.createdAt + 900_000
      then [Session(id, 1)] else []
  {
    var begun := [Begin(id, ticket, Delivered), Tick(delay), Submit(1, id, csrf)];
    var viewed := begun + [View(1, true)];
    var rest := [Claim(1, claim, Delivered), Check(1), Register(1, true), Publish(1, true), Complete(1, Delivered),
                 Login(1, true)];
    Submits(id, ticket, delay, csrf);
    Snoc(begun, View(1, true));
    assert Undisturbed(id, ticket, delay, csrf, claim) == viewed + rest;
    if Run(viewed).requests[1].Done? {
      DoneStays(viewed, rest);
    } else {
      assert Run(viewed) == At(id, ticket, delay, map[], map[], Viewed(id, csrf));
      AcceptedGoesThrough(viewed, id, ticket, delay, csrf, claim);
      assert viewed + [Claim(1, claim, Delivered), Check(1)] + [Register(1, true), Publish(1, true)]
             + [Complete(1, Delivered), Login(1, true)] == viewed + rest;
    }
  }

  /** And an undisturbed cancellation consumes the ticket if and only if it carries the secret of a fresh ticket. */
  lemma SecretCancels(id: TicketId, ticket: Ticket, delay: nat, csrf: string)
    ensures Run([Begin(id, ticket, Delivered), Tick(delay), Cancel(1, id, csrf)]
                + [View(1, true), Delete(1, Delivered)]).consumed ==
      if csrf != "" && csrf == ticket.csrfSecret && delay < 900_000
         && ticket.createdAt - 60_000 <= delay <= ticket.createdAt + 900_000
      then [Consumption(id, 1, None, delay)] else []
  {
    var begun := [Begin(id, ticket, Delivered), Tick(delay), Cancel(1, id, csrf)];
    Cancels(id, ticket, delay, csrf);
    TwoSteps(begun, View(1, true), Delete(1, Delivered));
    ViewAndDelete(id, ticket, delay, csrf);
  }

  lemma Cancels(id: TicketId, ticket: Ticket, delay: nat, csrf: string)
    ensures Run([Begin(id, ticket, Delivered), Tick(delay), Cancel(1, id, csrf)]) ==
      At(id, ticket, delay, map[], map[], Cancelling(id, csrf))
  {
    var none: seq<Event> := [];
    var a, b, c := Begin(id, ticket, Delivered), Tick(delay), Cancel(1, id, csrf);
    Snoc(none, a);
    Snoc([a], b);
    Snoc([a, b], c);
    assert none + [a] == [a] && [a] + [b] == [a, b] && [a, b] + [c] == [a, b, c];
  }

  lemma ViewAndDelete(id: TicketId, ticket: Ticket, delay: nat, csrf: string)
    ensures Next(Next(At(id, ticket, delay, map[], map[], Cancelling(id, csrf)), View(1, true)), Delete(1, Delivered))
              .consumed ==
      if csrf != "" && csrf == ticket.csrfSecret && delay < 900_000
         && ticket.createdAt - 60_000 <= delay <= ticket.createdAt + 900_000
      then [Consumption(id, 1, None, delay)] else []
  {
    var s := Next(At(id, ticket, delay, map[], map[], Cancelling(id, csrf)), View(1, true));
    assert s == At(id, ticket, delay, map[], map[], Deleting(id)) || s == At(id, ticket, delay, map[], map[], Done);
  }
}

/** Where an authorization comes from: the request for a challenge, the worlds that request read, and the events in
    between. */
module WormOrigins {
  import opened Prelude
  import opened OneTimeStore
  import opened WormExecution

  /** The state after each sequence of events. */
  type History = seq<Event> -> State

  function RunOf(world: World, verifies: Verifier): History {
    events => Run(world, events, verifies)
  }

  ghost predicate ReadBy(run: History, events: seq<Event>, who: nat, k: int, seen: World) {
    0 <= k < |events| && events[k] == Read(who)
    && var worlds := run(events[..k]).worlds; worlds != [] && worlds[|worlds| - 1] == seen
  }

  /** Event `k` reads the login session that `ask` came with. */
  ghost predicate SessionRead(run: History, events: seq<Event>, who: nat, ask: Ask,
          credential: Credential, k: int)
  {
    exists seen ::
      && ReadBy(run, events, who, k, seen) && AskFor(who, ask) in events[..k]
      && ask.session in seen.sessions && seen.sessions[ask.session] == credential
      && credential.login && credential.jti != "" && 0 < credential.accessRevision <= 0x7fff_ffff_ffff_ffff
  }

  /** Event `k` reads the session's account, which is the wallet at `address`. */
  ghost predicate AccountRead(run: History, events: seq<Event>, who: nat, credential: Credential,
          address: string, k: int)
  {
    exists seen ::
      && ReadBy(run, events, who, k, seen)
      && credential.account in seen.accounts && seen.accounts[credential.account] == Account(true, address)
  }

  /** Event `k` reads the Run that `ask` names, at the revision that `ask` expects. */
  ghost predicate PlanRead(run: History, events: seq<Event>, who: nat, ask: Ask, plan: string,
          k: int)
  {
    exists seen ::
      && ReadBy(run, events, who, k, seen) && ask.runId != "" && |plan| == 32
      && ask.runId in seen.runs && seen.runs[ask.runId] == Descriptor(ask.runId, ask.revision, plan)
  }

  /** Request `who` asked with `ask` and then read session, account and Run, in this order. */
  ghost predicate Asked(run: History, events: seq<Event>, who: nat, ask: Ask,
          credential: Credential, address: string, plan: string)
  {
    exists i, j, k ::
      && SessionRead(run, events, who, ask, credential, i)
      && AccountRead(run, events, who, credential, address, j)
      && PlanRead(run, events, who, ask, plan, k) && i < j < k
  }

  /** The challenge says what was asked for, what was read, and when. */
  ghost predicate Records(c: Challenge, ask: Ask, credential: Credential, nonce: string, now: int) {
    && c.runId == ask.runId && c.commandId == ask.commandId && c.revision == ask.revision
    && c.returnTo == ask.returnTo && c.account == credential.account && c.sessionDigest == Sha256(credential.jti)
    && c.accessRevision == credential.accessRevision && c.nonce == nonce
    && c.createdAt % 1000 == 0 && c.createdAt <= now < c.createdAt + 1000 && c.expiresAt == c.createdAt + 300_000
    && c.message.address == c.address && c.message.runId == ask.runId && c.message.planDigest == c.planDigest
    && c.message.nonce == nonce && c.message.issuedAt == c.createdAt && c.message.expiresAt == c.expiresAt
    && ask.commandId != "" && ask.returnTo != "" && ask.revision > 0 && nonce != "" && c.address != ""
    && credential.account != ""
  }

  /** Event `n` stores challenge `c` under `id`, for request `who`. */
  ghost predicate CreatedAt(run: History, events: seq<Event>, id: Id, c: Challenge, who: nat,
          ask: Ask, credential: Credential, nonce: string, n: int)
  {
    && 0 <= n < |events|
    && (events[n] == Create(who, id, nonce, Delivered) || events[n] == Create(who, id, nonce, ReplyLost))
    && Asked(run, events[..n], who, ask, credential, c.address, c.planDigest)
    && Records(c, ask, credential, nonce, run(events[..n]).now)
  }

  ghost predicate Created(run: History, events: seq<Event>, id: Id, c: Challenge) {
    exists who, ask, credential, nonce, n ::
      CreatedAt(run, events, id, c, who, ask, credential, nonce, n)
  }

  ghost predicate PhaseTold(run: History, events: seq<Event>, who: nat, phase: Phase) {
    match phase
    case Asking(ask) => AskFor(who, ask) in events
    case AskingAs(ask, credential) =>
      ask.revision > 0 && exists i :: SessionRead(run, events, who, ask, credential, i)
    case AskingFrom(ask, credential, address) =>
      ask.revision > 0 && exists i, j ::
        && SessionRead(run, events, who, ask, credential, i)
        && AccountRead(run, events, who, credential, address, j) && i < j
    case AskingFor(ask, credential, address, plan) =>
      ask.revision > 0 && Asked(run, events, who, ask, credential, address, plan)
    case Verifying(attempt) => Verify(who, attempt) in events
    case _ => true
  }

  ghost predicate PhasesTold(run: History, events: seq<Event>, s: State) {
    forall who :: who in s.requests ==> PhaseTold(run, events, who, s.requests[who])
  }

  ghost predicate IssuedTold(run: History, events: seq<Event>, s: State) {
    forall id :: id in s.issued ==> Created(run, events, id, s.issued[id])
  }

  // ----- the same facts after one more event -----

  lemma ReadLater(run: History, events: seq<Event>, e: Event, who: nat, k: int, seen: World)
    requires ReadBy(run, events, who, k, seen)
    ensures ReadBy(run, events + [e], who, k, seen)
  {
    assert (events + [e])[..k] == events[..k];
  }

  lemma SessionLater(run: History, events: seq<Event>, e: Event, who: nat, ask: Ask,
          credential: Credential, k: int)
    requires SessionRead(run, events, who, ask, credential, k)
    ensures SessionRead(run, events + [e], who, ask, credential, k)
  {
    var seen :|
      && ReadBy(run, events, who, k, seen) && AskFor(who, ask) in events[..k]
      && ask.session in seen.sessions && seen.sessions[ask.session] == credential;
    ReadLater(run, events, e, who, k, seen);
    assert (events + [e])[..k] == events[..k];
  }

  lemma AccountLater(run: History, events: seq<Event>, e: Event, who: nat,
          credential: Credential, address: string, k: int)
    requires AccountRead(run, events, who, credential, address, k)
    ensures AccountRead(run, events + [e], who, credential, address, k)
  {
    var seen :| ReadBy(run, events, who, k, seen) && credential.account in seen.accounts
                && seen.accounts[credential.account] == Account(true, address);
    ReadLater(run, events, e, who, k, seen);
  }

  lemma PlanLater(run: History, events: seq<Event>, e: Event, who: nat, ask: Ask, plan: string,
          k: int)
    requires PlanRead(run, events, who, ask, plan, k)
    ensures PlanRead(run, events + [e], who, ask, plan, k)
  {
    var seen :| ReadBy(run, events, who, k, seen) && ask.runId in seen.runs
                && seen.runs[ask.runId] == Descriptor(ask.runId, ask.revision, plan);
    ReadLater(run, events, e, who, k, seen);
  }

  lemma AskedLater(run: History, events: seq<Event>, e: Event, who: nat, ask: Ask,
          credential: Credential, address: string, plan: string)
    requires Asked(run, events, who, ask, credential, address, plan)
    ensures Asked(run, events + [e], who, ask, credential, address, plan)
  {
    var i, j, k :|
      && SessionRead(run, events, who, ask, credential, i)
      && AccountRead(run, events, who, credential, address, j)
      && PlanRead(run, events, who, ask, plan, k) && i < j < k;
    SessionLater(run, events, e, who, ask, credential, i);
    AccountLater(run, events, e, who, credential, address, j);
    PlanLater(run, events, e, who, ask, plan, k);
  }

  lemma CreatedAtLater(run: History, events: seq<Event>, more: seq<Event>, id: Id, c: Challenge,
          who: nat, ask: Ask, credential: Credential, nonce: string, n: int)
    requires events <= more && CreatedAt(run, events, id, c, who, ask, credential, nonce, n)
    ensures CreatedAt(run, more, id, c, who, ask, credential, nonce, n)
  {
    assert more[..n] == events[..n];
  }

  lemma CreatedLater(run: History, events: seq<Event>, e: Event, id: Id, c: Challenge)
    requires Created(run, events, id, c)
    ensures Created(run, events + [e], id, c)
  {
    var who, ask, credential, nonce, n :|
      CreatedAt(run, events, id, c, who, ask, credential, nonce, n);
    CreatedAtLater(run, events, events + [e], id, c, who, ask, credential, nonce, n);
  }

  lemma PhaseLater(run: History, events: seq<Event>, e: Event, who: nat, phase: Phase)
    requires PhaseTold(run, events, who, phase)
    ensures PhaseTold(run, events + [e], who, phase)
  {
    match phase
    case AskingAs(ask, credential) =>
      var i :| SessionRead(run, events, who, ask, credential, i);
      SessionLater(run, events, e, who, ask, credential, i);
    case AskingFrom(ask, credential, address) =>
      var i, j :|
        && SessionRead(run, events, who, ask, credential, i)
        && AccountRead(run, events, who, credential, address, j) && i < j;
      SessionLater(run, events, e, who, ask, credential, i);
      AccountLater(run, events, e, who, credential, address, j);
    case AskingFor(ask, credential, address, plan) =>
      AskedLater(run, events, e, who, ask, credential, address, plan);
    case _ =>
  }

  // ----- one event -----

  /** What a read of a challenge request has found. */
  lemma ReadFinds(phase: Phase, seen: World, number: nat)
    requires phase.Asking? || phase.AskingAs? || phase.AskingFrom?
    ensures var after := ReadPhase(phase, seen, number);
      || after.Done?
      || (phase.Asking? && after.AskingAs? && after.ask == phase.ask && phase.ask.revision > 0
          && phase.ask.session in seen.sessions && seen.sessions[phase.ask.session] == after.credential
          && after.credential.login && after.credential.jti != ""
          && 0 < after.credential.accessRevision <= 0x7fff_ffff_ffff_ffff)
      || (phase.AskingAs? && after.AskingFrom? && after.ask == phase.ask && after.credential == phase.credential
          && phase.credential.account in seen.accounts
          && seen.accounts[phase.credential.account] == Account(true, after.address))
      || (phase.AskingFrom? && after.AskingFor? && after.ask == phase.ask && after.credential == phase.credential
          && after.address == phase.address && phase.ask.runId != "" && |after.planDigest| == 32
          && phase.ask.runId in seen.runs
          && seen.runs[phase.ask.runId] == Descriptor(phase.ask.runId, phase.ask.revision, after.planDigest))
  {
  }

  lemma SessionTold(run: History, events: seq<Event>, who: nat, ask: Ask, seen: World, number: nat)
    requires PhaseTold(run, events, who, Asking(ask))
    requires ReadBy(run, events + [Read(who)], who, |events|, seen)
    ensures PhaseTold(run, events + [Read(who)], who, ReadPhase(Asking(ask), seen, number))
  {
    var more, after := events + [Read(who)], ReadPhase(Asking(ask), seen, number);
    ReadFinds(Asking(ask), seen, number);
    if !after.Done? {
      assert more[..|events|] == events;
      assert SessionRead(run, more, who, ask, after.credential, |events|);
    }
  }

  lemma AccountTold(run: History, events: seq<Event>, who: nat, ask: Ask, credential: Credential,
          seen: World, number: nat)
    requires PhaseTold(run, events, who, AskingAs(ask, credential))
    requires ReadBy(run, events + [Read(who)], who, |events|, seen)
    ensures PhaseTold(run, events + [Read(who)], who, ReadPhase(AskingAs(ask, credential), seen, number))
  {
    var more, after := events + [Read(who)], ReadPhase(AskingAs(ask, credential), seen, number);
    ReadFinds(AskingAs(ask, credential), seen, number);
    if !after.Done? {
      assert AccountRead(run, more, who, credential, after.address, |events|);
      var i :| SessionRead(run, events, who, ask, credential, i);
      SessionLater(run, events, Read(who), who, ask, credential, i);
    }
  }

  lemma PlanTold(run: History, events: seq<Event>, who: nat, ask: Ask, credential: Credential,
          address: string, seen: World, number: nat)
    requires PhaseTold(run, events, who, AskingFrom(ask, credential, address))
    requires ReadBy(run, events + [Read(who)], who, |events|, seen)
    ensures PhaseTold(run, events + [Read(who)], who,
                      ReadPhase(AskingFrom(ask, credential, address), seen, number))
  {
    var more, after := events + [Read(who)], ReadPhase(AskingFrom(ask, credential, address), seen, number);
    ReadFinds(AskingFrom(ask, credential, address), seen, number);
    if !after.Done? {
      assert PlanRead(run, more, who, ask, after.planDigest, |events|);
      var i, j :|
        && SessionRead(run, events, who, ask, credential, i)
        && AccountRead(run, events, who, credential, address, j) && i < j;
      SessionLater(run, events, Read(who), who, ask, credential, i);
      AccountLater(run, events, Read(who), who, credential, address, j);
    }
  }

  lemma ReadTold(run: History, events: seq<Event>, who: nat, phase: Phase, seen: World,
          number: nat)
    requires PhaseTold(run, events, who, phase)
    requires ReadBy(run, events + [Read(who)], who, |events|, seen)
    ensures PhaseTold(run, events + [Read(who)], who, ReadPhase(phase, seen, number))
  {
    match phase
    case Asking(ask) => SessionTold(run, events, who, ask, seen, number);
    case AskingAs(ask, credential) => AccountTold(run, events, who, ask, credential, seen, number);
    case AskingFrom(ask, credential, address) =>
      PlanTold(run, events, who, ask, credential, address, seen, number);
    case _ => PhaseLater(run, events, Read(who), who, phase);
  }

  /** What one event can do to a request that asks for a challenge or is about to consume one. */
  lemma RequestOrigin(s: State, e: Event, verifies: Verifier, who: nat)
    requires s.worlds != [] && who in Next(s, e, verifies).requests
    ensures var after := Next(s, e, verifies).requests[who];
      || after.Done? || HasProof(after)
      || (who in s.requests && after == s.requests[who])
      || (who in s.requests && e == Read(who)
          && after == ReadPhase(s.requests[who], s.worlds[|s.worlds| - 1], |s.worlds| - 1))
      || (after.Asking? && e == AskFor(who, after.ask)) || (after.Verifying? && e == Verify(who, after.attempt))
  {
    if who in s.requests {
      RequestNext(s, e, verifies, who);
      if e.Consume? && e.who == who && s.requests[who].Verifying? {
        ConsumeEnds(s, who, e.delivery);
      }
    }
  }

  lemma ConsumeEnds(s: State, who: nat, delivery: Delivery)
    requires who in s.requests && s.requests[who].Verifying? && s.worlds != []
    ensures var after := StepConsume(s, who, delivery).requests[who]; after.Done? || HasProof(after)
  {
  }

  lemma PhaseNext(run: History, events: seq<Event>, e: Event, who: nat, s: State, verifies: Verifier)
    requires s == run(events) && s.worlds != []
    requires who in s.requests ==> PhaseTold(run, events, who, s.requests[who])
    requires who in Next(s, e, verifies).requests
    ensures PhaseTold(run, events + [e], who, Next(s, e, verifies).requests[who])
  {
    RequestOrigin(s, e, verifies, who);
    if who in s.requests {
      PhaseLater(run, events, e, who, s.requests[who]);
      if e == Read(who) {
        assert (events + [e])[..|events|] == events;
        ReadTold(run, events, who, s.requests[who], s.worlds[|s.worlds| - 1], |s.worlds| - 1);
      }
    }
  }

  /** A challenge is stored by the request that has read everything, and says so. */
  lemma IssueOrigin(s: State, e: Event, verifies: Verifier, id: Id)
    requires id in Next(s, e, verifies).issued && id !in s.issued
    ensures e.Create? && e.id == id && !e.delivery.NotReached? && e.who in s.requests && s.requests[e.who].AskingFor?
    ensures var c, phase := Next(s, e, verifies).issued[id], s.requests[e.who];
      && c.address == phase.address && c.planDigest == phase.planDigest
      && (phase.ask.revision > 0 ==> Records(c, phase.ask, phase.credential, e.nonce, s.now))
  {
  }

  lemma CreatedNow(run: History, events: seq<Event>, e: Event, c: Challenge, ask: Ask,
          credential: Credential)
    requires e.Create? && !e.delivery.NotReached?
    requires Asked(run, events, e.who, ask, credential, c.address, c.planDigest)
    requires Records(c, ask, credential, e.nonce, run(events).now)
    ensures Created(run, events + [e], e.id, c)
  {
    assert (events + [e])[..|events|] == events;
    assert CreatedAt(run, events + [e], e.id, c, e.who, ask, credential, e.nonce, |events|);
  }

  lemma IssueTold(run: History, events: seq<Event>, e: Event, id: Id, s: State, verifies: Verifier)
    requires s == run(events) && id in Next(s, e, verifies).issued && id !in s.issued
    requires PhasesTold(run, events, s)
    ensures Created(run, events + [e], id, Next(s, e, verifies).issued[id])
  {
    IssueOrigin(s, e, verifies, id);
    var phase, c := s.requests[e.who], Next(s, e, verifies).issued[id];
    assert PhaseTold(run, events, e.who, phase);
    CreatedNow(run, events, e, c, phase.ask, phase.credential);
  }

  lemma IssuedNext(run: History, events: seq<Event>, e: Event, id: Id, s: State, verifies: Verifier)
    requires s == run(events) && Ledger(s) && id in Next(s, e, verifies).issued
    requires id in s.issued ==> Created(run, events, id, s.issued[id])
    requires PhasesTold(run, events, s)
    ensures Created(run, events + [e], id, Next(s, e, verifies).issued[id])
  {
    if id in s.issued {
      LedgerNext(s, e, verifies);
      CreatedLater(run, events, e, id, s.issued[id]);
    } else {
      IssueTold(run, events, e, id, s, verifies);
    }
  }

  lemma {:induction false} ToldRun(world: World, events: seq<Event>, verifies: Verifier, run: History)
    requires run == RunOf(world, verifies)
    ensures PhasesTold(run, events, run(events)) && IssuedTold(run, events, run(events))
  {
    if events != [] {
      var init, e := events[..|events| - 1], events[|events| - 1];
      var s, t := run(init), run(events);
      ToldRun(world, init, verifies, run);
      InvRun(world, init, verifies);
      assert events == init + [e];
      forall who | who in t.requests ensures PhaseTold(run, events, who, t.requests[who]) {
        PhaseNext(run, init, e, who, s, verifies);
      }
      forall id | id in t.issued ensures Created(run, events, id, t.issued[id]) {
        IssuedNext(run, init, e, id, s, verifies);
      }
    }
  }

  // ----- safety over whole runs -----

  /** The authorization is for what was asked, on the strength of what was read, under a signature of the wallet
      over exactly this; the challenge was consumed within five minutes of the second it was stored in. */
  ghost predicate CarriesOut(a: Authorization, ask: Ask, credential: Credential, address: string, nonce: string,
          now: int, verifies: Verifier)
  {
    && a.runId == ask.runId && a.commandId == ask.commandId && a.revision == ask.revision
    && a.returnTo == ask.returnTo && a.account == credential.account && a.sessionDigest == Sha256(credential.jti)
    && a.accessRevision == credential.accessRevision && a.proof.attempt.runId == ask.runId
    && var issuedAt := now - now % 1000;
       && a.proof.consumedAt < issuedAt + 300_000
       && verifies(address, Message(address, ask.runId, a.planDigest, nonce, issuedAt, issuedAt + 300_000),
                   a.proof.attempt.signature)
  }

  lemma RecordsAreCarriedOut(s: State, a: Authorization, ask: Ask, credential: Credential, nonce: string, now: int,
          verifies: Verifier)
    requires AuthorizationSound(s, a, verifies) && Records(a.proof.stored, ask, credential, nonce, now)
    ensures CarriesOut(a, ask, credential, a.proof.stored.address, nonce, now, verifies)
    ensures a.planDigest == a.proof.stored.planDigest
  {
  }

  /** Authorization `a` was asked for by `ask` of request `who`, whose challenge event `n` stored; event `i`
      consumed it for the attempt that `a.who` had made. */
  ghost predicate GoesBackTo(run: History, events: seq<Event>, a: Authorization, who: nat, ask: Ask,
          credential: Credential, address: string, nonce: string, n: int, i: int, verifies: Verifier)
  {
    && 0 <= n < i <= |events| && Verify(a.who, a.proof.attempt) in events[..i]
    && (|| events[n] == Create(who, a.proof.attempt.id, nonce, Delivered)
        || events[n] == Create(who, a.proof.attempt.id, nonce, ReplyLost))
    && Asked(run, events[..n], who, ask, credential, address, a.planDigest)
    && CarriesOut(a, ask, credential, address, nonce, run(events[..n]).now, verifies)
  }

  lemma TakenWasVerified(run: History, events: seq<Event>, s: State, who: nat, proof: Proof)
    requires PhasesTold(run, events, s) && Takes(s, who, proof)
    ensures Verify(who, proof.attempt) in events
  {
    assert PhaseTold(run, events, who, s.requests[who]);
  }

  lemma Linked(run: History, events: seq<Event>, s: State, a: Authorization, i: nat, verifies: Verifier)
    requires i <= |events| && Verify(a.who, a.proof.attempt) in events[..i]
    requires Created(run, events[..i], a.proof.attempt.id, a.proof.stored) && AuthorizationSound(s, a, verifies)
    ensures exists who, ask, credential, address, nonce, n ::
      GoesBackTo(run, events, a, who, ask, credential, address, nonce, n, i, verifies)
  {
    var who, ask, credential, nonce, n :|
      CreatedAt(run, events[..i], a.proof.attempt.id, a.proof.stored, who, ask, credential, nonce, n);
    assert events[..i][..n] == events[..n];
    RecordsAreCarriedOut(s, a, ask, credential, nonce, run(events[..n]).now, verifies);
    assert GoesBackTo(run, events, a, who, ask, credential, a.proof.stored.address, nonce, n, i, verifies);
  }

  /** Every authorization carries out what one earlier request for a challenge asked for: its Run, command, revision
      and return path, the session, wallet and plan that this request read, signed by that wallet under its nonce.
      Event `i` consumed the challenge and event `j` is the call. */
  lemma AuthorizationsGoBack(world: World, events: seq<Event>, verifies: Verifier, a: Authorization)
    requires a in Run(world, events, verifies).authorized
    ensures exists who, ask, credential, address, nonce, n, i, j ::
      && CalledAt(world, events, verifies, a, i, j)
      && GoesBackTo(RunOf(world, verifies), events, a, who, ask, credential, address, nonce, n, i, verifies)
  {
    var run := RunOf(world, verifies);
    var i, j := AuthorizationEvents(world, events, verifies, a);
    ToldRun(world, events[..i], verifies, run);
    TakenWasVerified(run, events[..i], run(events[..i]), a.who, a.proof);
    assert Created(run, events[..i], a.proof.attempt.id, run(events[..i]).issued[a.proof.attempt.id]);
    AuthorizationsAreBound(world, events, verifies);
    Linked(run, events, Run(world, events, verifies), a, i, verifies);
  }
}

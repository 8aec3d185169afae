/** internal/phantomauth/worm_execution_authorization.go: a wallet proves its owner's intent to run
    one plan. A challenge records every binding; verification consumes the challenge, reads session,
    account and plan again, compares each binding, checks the signature and only then authorizes.
    Requests interleave with each other, with the clock and with any change of the world around. */
module WormExecution {
  import opened Prelude
  import opened Redis
  import opened OneTimeStore

  const MAX_INT64 := 0x7fff_ffff_ffff_ffff
  const CHALLENGE_TTL := VALUE_TTL
  const CLOCK_SKEW := 60 * 1000
  const DIGEST_SIZE := 32

  /** SHA-256 as an injective function of its input. */
  datatype Digest = Sha256(of: string)

  datatype Credential = Credential(account: string, login: bool, jti: string, accessRevision: int)
  datatype Account = Account(solana: bool, subject: string)
  datatype Descriptor = Descriptor(runId: string, revision: int, planDigest: string)

  /** What the injected dependencies answer at one moment: the session behind a login cookie, the
      account registry and the stored Runs. */
  datatype World = World(
    sessions: map<string, Credential>, accounts: map<string, Account>, runs: map<string, Descriptor>)

  /** The sign-in message; its text spells out each of these fields. */
  datatype Message = Message(
    address: string, runId: string, planDigest: string, nonce: string, issuedAt: int, expiresAt: int)

  datatype Challenge = Challenge(
    address: string, message: Message, nonce: string, returnTo: string, runId: string, commandId: string,
    revision: int, account: string, sessionDigest: Digest, accessRevision: int, planDigest: string,
    createdAt: int, expiresAt: int)

  /** Ed25519 verification of a signature over a message by the key behind an address. */
  type Verifier = (string, Message, string) -> bool

  predicate ConstantTimeEqual(left: string, right: string) {
    left != "" && left == right
  }

  predicate UsableLogin(c: Credential) {
    c.login && c.jti != "" && 0 < c.accessRevision <= MAX_INT64
  }

  predicate ValidDescriptor(d: Descriptor, runId: string, revision: int) {
    ConstantTimeEqual(d.runId, runId) && d.revision == revision && |d.planDigest| == DIGEST_SIZE
  }

  predicate ValidChallenge(c: Challenge) {
    && c.address != "" && c.nonce != "" && c.returnTo != "" && c.runId != "" && c.commandId != "" && c.account != ""
    && c.revision > 0 && c.accessRevision != 0 && |c.planDigest| == DIGEST_SIZE
    && c.expiresAt - c.createdAt == CHALLENGE_TTL
  }

  predicate Timely(c: Challenge, now: int) {
    c.createdAt <= now + CLOCK_SKEW && now < c.expiresAt
  }

  // ----- requests and their steps -----

  datatype Ask = Ask(runId: string, commandId: string, revision: int, session: string, returnTo: string)
  datatype Attempt = Attempt(runId: string, id: Id, session: string, signature: string)

  /** A consumed challenge; `consumedIn` and the later `...In` fields number the world that was read. */
  datatype Proof = Proof(attempt: Attempt, stored: Challenge, consumedAt: int, consumedIn: nat)

  datatype Phase =
    | Asking(ask: Ask)
    | AskingAs(ask: Ask, credential: Credential)
    | AskingFrom(ask: Ask, credential: Credential, address: string)
    | AskingFor(ask: Ask, credential: Credential, address: string, planDigest: string)
    | Verifying(attempt: Attempt)
    | Consumed(proof: Proof)
    | Authenticated(proof: Proof, credential: Credential, sessionIn: nat)
    | Identified(proof: Proof, credential: Credential, sessionIn: nat, accountIn: nat)
    | Planned(proof: Proof, credential: Credential, sessionIn: nat, accountIn: nat, descriptor: Descriptor, planIn: nat)
    | Done

  /** The request handed to the authorizer, with the proof that led to it. */
  datatype Authorization = Authorization(
    who: nat, runId: string, commandId: string, revision: int, account: string, sessionDigest: Digest,
    accessRevision: int, planDigest: string, returnTo: string, at: int,
    proof: Proof, sessionIn: nat, accountIn: nat, planIn: nat)

  /** `worlds` are all worlds so far, the current one last. `issued` and `consumedBy` record creation
      and consumption of challenges. */
  datatype State = State(
    now: int, worlds: seq<World>, db: Db<Challenge>, requests: map<nat, Phase>,
    issued: map<Id, Challenge>, consumedBy: map<Id, nat>, authorized: seq<Authorization>)

  datatype Event =
    | Tick(elapsed: nat)
    | Change(world: World)
    | AskFor(who: nat, ask: Ask)
    | Verify(who: nat, attempt: Attempt)
    | Read(who: nat)
    | Create(who: nat, id: Id, nonce: string, delivery: Delivery)
    | Consume(who: nat, delivery: Delivery)
    | Authorize(who: nat)

  function Start(world: World): State {
    State(0, [world], Db(None, map[], map[]), map[], map[], map[], [])
  }

  function Goto(s: State, who: nat, phase: Phase): State {
    s.(requests := s.requests[who := phase])
  }

  /** The next read of the world that a request makes, and what it concludes from it. */
  function ReadPhase(phase: Phase, world: World, number: nat): Phase {
    match phase
    case Asking(ask) =>
      (match Lookup(world.sessions, ask.session)
       case Some(credential) => if UsableLogin(credential) && ask.revision > 0 then AskingAs(ask, credential) else Done
       case None => Done)
    case AskingAs(ask, credential) =>
      (match Lookup(world.accounts, credential.account)
       case Some(account) => if account.solana then AskingFrom(ask, credential, account.subject) else Done
       case None => Done)
    case AskingFrom(ask, credential, address) =>
      (match Lookup(world.runs, ask.runId)
       case Some(d) =>
         if ValidDescriptor(d, ask.runId, ask.revision) then AskingFor(ask, credential, address, d.planDigest)
         else Done
       case None => Done)
    case Consumed(proof) =>
      (match Lookup(world.sessions, proof.attempt.session)
       case Some(credential) =>
         if UsableLogin(credential) && ConstantTimeEqual(proof.stored.account, credential.account)
            && proof.stored.sessionDigest == Sha256(credential.jti)
            && proof.stored.accessRevision == credential.accessRevision
         then Authenticated(proof, credential, number) else Done
       case None => Done)
    case Authenticated(proof, credential, sessionIn) =>
      (match Lookup(world.accounts, credential.account)
       case Some(account) =>
         if account.solana && ConstantTimeEqual(account.subject, proof.stored.address)
         then Identified(proof, credential, sessionIn, number) else Done
       case None => Done)
    case Identified(proof, credential, sessionIn, accountIn) =>
      (match Lookup(world.runs, proof.stored.runId)
       case Some(d) =>
         if ValidDescriptor(d, proof.stored.runId, proof.stored.revision) && d.planDigest == proof.stored.planDigest
         then Planned(proof, credential, sessionIn, accountIn, d, number) else Done
       case None => Done)
    case _ => phase
  }

  /** The challenge for a request that has read session, account and plan; instants are truncated to seconds. */
  function NewChallenge(now: int, phase: Phase, nonce: string): Challenge
    requires phase.AskingFor?
  {
    var AskingFor(ask, credential, address, plan) := phase;
    var issuedAt := now - now % 1000;
    var expiresAt := issuedAt + CHALLENGE_TTL;
    Challenge(
      address, Message(address, ask.runId, plan, nonce, issuedAt, expiresAt), nonce, ask.returnTo, ask.runId,
      ask.commandId,
      ask.revision, credential.account, Sha256(credential.jti), credential.accessRevision, plan, issuedAt, expiresAt)
  }

  function StepCreate(s: State, who: nat, id: Id, challenge: Challenge, delivery: Delivery): State
    requires id !in s.issued
  {
    var (db, reply) := CreateScript(s.db, s.now, challenge.account, id, challenge);
    if !ValidChallenge(challenge) || delivery.NotReached? then Goto(s, who, Done)
    else if !reply.Created? then Goto(s.(db := db), who, Done)
    else Goto(s.(db := db, issued := s.issued[id := challenge]), who, Done)
  }

  function StepConsume(s: State, who: nat, delivery: Delivery): State
    requires who in s.requests && s.requests[who].Verifying? && s.worlds != []
  {
    var attempt := s.requests[who].attempt;
    var (db, value) := ConsumeScript(s.db, s.now, attempt.id);
    if delivery.NotReached? || value.None? then Goto(s, who, Done)
    else
      var t := s.(db := db, consumedBy := s.consumedBy[attempt.id := who]);
      var stored := value.value;
      if delivery.ReplyLost? || !ValidChallenge(stored) || !Timely(stored, s.now)
        || !ConstantTimeEqual(stored.runId, attempt.runId)
      then Goto(t, who, Done)
      else Goto(t, who, Consumed(Proof(attempt, stored, s.now, |s.worlds| - 1)))
  }

  /** The message and signature checks, then the call of the authorizer. */
  function StepAuthorize(s: State, who: nat, verifies: Verifier): State
    requires who in s.requests && s.requests[who].Planned?
  {
    var Planned(proof, credential, sessionIn, accountIn, descriptor, planIn) := s.requests[who];
    var c := proof.stored;
    var expected := Message(c.address, c.runId, c.planDigest, c.nonce, c.createdAt, c.expiresAt);
    if expected != c.message || !verifies(c.address, c.message, proof.attempt.signature) then Goto(s, who, Done)
    else
      var a := Authorization(who, c.runId, c.commandId, c.revision, c.account, Sha256(credential.jti),
        c.accessRevision, c.planDigest, c.returnTo, s.now, proof, sessionIn, accountIn, planIn);
      Goto(s.(authorized := s.authorized + [a]), who, Done)
  }

  /** Challenge identifiers are fresh random values and request numbers are never reused. */
  function Next(s: State, e: Event, verifies: Verifier): State {
    match e
    case Tick(elapsed) => s.(now := s.now + elapsed)
    case Change(world) => s.(worlds := s.worlds + [world])
    case AskFor(who, ask) => if who in s.requests then s else Goto(s, who, Asking(ask))
    case Verify(who, attempt) => if who in s.requests then s else Goto(s, who, Verifying(attempt))
    case Read(who) =>
      if who !in s.requests || s.worlds == [] then s
      else Goto(s, who, ReadPhase(s.requests[who], s.worlds[|s.worlds| - 1], |s.worlds| - 1))
    case Create(who, id, nonce, delivery) =>
      if who !in s.requests || !s.requests[who].AskingFor? || id in s.issued then s
      else StepCreate(s, who, id, NewChallenge(s.now, s.requests[who], nonce), delivery)
    case Consume(who, delivery) =>
      if who in s.requests && s.requests[who].Verifying? && s.worlds != [] then StepConsume(s, who, delivery) else s
    case Authorize(who) =>
      if who in s.requests && s.requests[who].Planned? then StepAuthorize(s, who, verifies) else s
  }

  function Run(world: World, events: seq<Event>, verifies: Verifier): State {
    if events == [] then Start(world)
    else Next(Run(world, events[..|events| - 1], verifies), events[|events| - 1], verifies)
  }

  // ----- what every reachable state satisfies -----

  /** A proof holds a challenge that was issued under the presented identifier, consumed by this very
      request while it was valid, for the Run named in the request. */
  ghost predicate ProofSound(s: State, who: nat, proof: Proof) {
    var id := proof.attempt.id;
    && id in s.issued && proof.stored == s.issued[id] && id in s.consumedBy && s.consumedBy[id] == who
    && proof.consumedAt < proof.stored.expiresAt && proof.consumedAt <= s.now
    && proof.stored.runId == proof.attempt.runId && proof.consumedIn < |s.worlds|
  }

  /** The session read from world `number`, after the challenge was consumed, has the recorded bindings. */
  ghost predicate SessionSound(s: State, proof: Proof, credential: Credential, number: nat) {
    && proof.consumedIn <= number < |s.worlds|
    && Lookup(s.worlds[number].sessions, proof.attempt.session) == Some(credential)
    && credential.login && credential.jti != "" && 0 < credential.accessRevision <= 0x7fff_ffff_ffff_ffff
    && credential.account == proof.stored.account && Sha256(credential.jti) == proof.stored.sessionDigest
    && credential.accessRevision == proof.stored.accessRevision
  }

  /** The account read from world `number`, after the session, is the wallet at the recorded address. */
  ghost predicate AccountSound(s: State, proof: Proof, sessionIn: nat, number: nat) {
    sessionIn <= number < |s.worlds|
    && Lookup(s.worlds[number].accounts, proof.stored.account) == Some(Account(true, proof.stored.address))
  }

  /** The plan read from world `number`, after the account, is the recorded one. */
  ghost predicate PlanSound(s: State, proof: Proof, accountIn: nat, number: nat) {
    && accountIn <= number < |s.worlds|
    && proof.stored.runId in s.worlds[number].runs
    && var d := s.worlds[number].runs[proof.stored.runId];
       d.runId == proof.stored.runId && d.revision == proof.stored.revision && d.planDigest == proof.stored.planDigest
  }

  ghost predicate PhaseSound(s: State, who: nat, phase: Phase) {
    match phase
    case Consumed(proof) => ProofSound(s, who, proof)
    case Authenticated(proof, credential, n) => ProofSound(s, who, proof) && SessionSound(s, proof, credential, n)
    case Identified(proof, credential, n, k) =>
      ProofSound(s, who, proof) && SessionSound(s, proof, credential, n) && AccountSound(s, proof, n, k)
    case Planned(proof, credential, n, k, d, m) =>
      ProofSound(s, who, proof) && SessionSound(s, proof, credential, n) && AccountSound(s, proof, n, k)
        && PlanSound(s, proof, k, m)
    case _ => true
  }

  /** Every field of an authorization equals the field recorded in the challenge, the session, the wallet
      account and the plan read back after consumption agree with it, and the wallet at the recorded address
      signed exactly those bindings. */
  ghost predicate AuthorizationSound(s: State, a: Authorization, verifies: Verifier) {
    var c := a.proof.stored;
    && ProofSound(s, a.who, a.proof) && AccountSound(s, a.proof, a.sessionIn, a.accountIn)
    && PlanSound(s, a.proof, a.accountIn, a.planIn)
    && (exists credential :: SessionSound(s, a.proof, credential, a.sessionIn))
    && a.runId == c.runId && a.commandId == c.commandId && a.revision == c.revision && a.account == c.account
    && a.sessionDigest == c.sessionDigest && a.accessRevision == c.accessRevision && a.planDigest == c.planDigest
    && a.returnTo == c.returnTo && a.proof.consumedAt <= a.at <= s.now
    && verifies(c.address, Message(c.address, a.runId, a.planDigest, c.nonce, c.createdAt, c.expiresAt),
       a.proof.attempt.signature)
  }

  /** Redis holds only issued challenges that nobody has consumed. */
  ghost predicate Ledger(s: State) {
    && s.worlds != []
    && (forall id :: id in s.db.values ==>
          id in s.issued && s.db.values[id].value == s.issued[id] && id !in s.consumedBy)
    && s.consumedBy.Keys <= s.issued.Keys
  }

  ghost predicate Phases(s: State) {
    forall who :: who in s.requests ==> PhaseSound(s, who, s.requests[who])
  }

  ghost predicate Authorizations(s: State, verifies: Verifier) {
    && (forall a :: a in s.authorized ==> AuthorizationSound(s, a, verifies))
    && (forall a :: a in s.authorized ==> a.who in s.requests && s.requests[a.who].Done?)
    && (forall i, j :: 0 <= i < j < |s.authorized| ==> s.authorized[i].who != s.authorized[j].who)
  }

  /** What a later state keeps of an earlier one, so that soundness carries over. */
  ghost predicate Grows(s: State, t: State) {
    && s.worlds <= t.worlds && s.now <= t.now
    && (forall id :: id in s.issued ==> id in t.issued && t.issued[id] == s.issued[id])
    && (forall id :: id in s.consumedBy ==> id in t.consumedBy && t.consumedBy[id] == s.consumedBy[id])
  }

  lemma LedgerCreate(s: State, who: nat, id: Id, challenge: Challenge, delivery: Delivery)
    requires Ledger(s) && id !in s.issued
    ensures var t := StepCreate(s, who, id, challenge, delivery); Ledger(t) && Grows(s, t)
  {
  }

  lemma LedgerConsume(s: State, who: nat, delivery: Delivery)
    requires Ledger(s) && who in s.requests && s.requests[who].Verifying?
    ensures var t := StepConsume(s, who, delivery); Ledger(t) && Grows(s, t)
  {
  }

  lemma LedgerNext(s: State, e: Event, verifies: Verifier)
    requires Ledger(s)
    ensures Ledger(Next(s, e, verifies)) && Grows(s, Next(s, e, verifies))
  {
    var t := Next(s, e, verifies);
    if e.Create? {
      if t != s {
        LedgerCreate(s, e.who, e.id, NewChallenge(s.now, s.requests[e.who], e.nonce), e.delivery);
      }
    } else if e.Consume? {
      if t != s {
        LedgerConsume(s, e.who, e.delivery);
      }
    } else {
      assert t.db == s.db && t.issued == s.issued && t.consumedBy == s.consumedBy;
    }
  }

  lemma PhaseGrows(s: State, t: State, who: nat, phase: Phase)
    requires Grows(s, t) && PhaseSound(s, who, phase)
    ensures PhaseSound(t, who, phase)
  {
  }

  lemma AuthorizationGrows(s: State, t: State, a: Authorization, verifies: Verifier)
    requires Grows(s, t) && AuthorizationSound(s, a, verifies)
    ensures AuthorizationSound(t, a, verifies)
  {
    var credential :| SessionSound(s, a.proof, credential, a.sessionIn);
    assert SessionSound(t, a.proof, credential, a.sessionIn);
  }

  lemma ReadIsSound(s: State, who: nat, phase: Phase)
    requires s.worlds != [] && PhaseSound(s, who, phase)
    ensures PhaseSound(s, who, ReadPhase(phase, s.worlds[|s.worlds| - 1], |s.worlds| - 1))
  {
  }

  lemma ConsumeIsSound(s: State, who: nat, delivery: Delivery)
    requires Ledger(s) && who in s.requests && s.requests[who].Verifying?
    ensures var t := StepConsume(s, who, delivery); PhaseSound(t, who, t.requests[who])
  {
  }

  /** A request gets past the consumption exactly when the store answers with a complete challenge for the named Run
      that has five minutes to live in all, has not expired and is not dated more than a minute ahead. */
  lemma ConsumedIff(s: State, who: nat, delivery: Delivery)
    requires who in s.requests && s.requests[who].Verifying? && s.worlds != []
    ensures StepConsume(s, who, delivery).requests[who].Consumed? <==>
      && delivery.Delivered? && Get(s.db.values, s.requests[who].attempt.id, s.now).Some?
      && var c := s.db.values[s.requests[who].attempt.id].value;
         && c.runId == s.requests[who].attempt.runId != "" && c.createdAt - 60_000 <= s.now < c.expiresAt
         && c.expiresAt == c.createdAt + 300_000 && |c.planDigest| == 32 && c.revision > 0 && c.accessRevision != 0
         && "" !in {c.address, c.nonce, c.returnTo, c.commandId, c.account}
  {
  }

  predicate HasProof(phase: Phase) {
    phase.Consumed? || phase.Authenticated? || phase.Identified? || phase.Planned?
  }

  lemma CreateEnds(s: State, who: nat, id: string, challenge: Challenge, delivery: Delivery)
    requires id !in s.issued
    ensures StepCreate(s, who, id, challenge, delivery).requests == s.requests[who := Done]
  {
  }

  lemma ConsumeMoves(s: State, who: nat, delivery: Delivery, other: nat)
    requires who in s.requests && s.requests[who].Verifying? && s.worlds != [] && other in s.requests
    ensures var t := StepConsume(s, who, delivery);
      other in t.requests && (other != who ==> t.requests[other] == s.requests[other])
  {
  }

  lemma AuthorizeEnds(s: State, who: nat, verifies: Verifier)
    requires who in s.requests && s.requests[who].Planned?
    ensures StepAuthorize(s, who, verifies).requests == s.requests[who := Done]
  {
  }

  /** What one step can do to a request that exists. */
  lemma RequestNext(s: State, e: Event, verifies: Verifier, who: nat)
    requires s.worlds != [] && who in s.requests
    ensures var t := Next(s, e, verifies);
      && who in t.requests
      && (|| t.requests[who] == s.requests[who] || t.requests[who].Done?
          || (e == Read(who) && t.requests[who] == ReadPhase(s.requests[who], s.worlds[|s.worlds| - 1], |s.worlds| - 1))
          || (e.Consume? && e.who == who && s.requests[who].Verifying?))
  {
    if e.Create? && e.who in s.requests && s.requests[e.who].AskingFor? && e.id !in s.issued {
      CreateEnds(s, e.who, e.id, NewChallenge(s.now, s.requests[e.who], e.nonce), e.delivery);
    } else if e.Consume? && e.who in s.requests && s.requests[e.who].Verifying? {
      ConsumeMoves(s, e.who, e.delivery, who);
    } else if e.Authorize? && e.who in s.requests && s.requests[e.who].Planned? {
      AuthorizeEnds(s, e.who, verifies);
    }
  }

  /** Only reading the world and consuming a challenge put a request into a phase with a proof. */
  lemma PhaseOrigin(s: State, e: Event, verifies: Verifier, who: nat)
    requires s.worlds != [] && who in Next(s, e, verifies).requests
    requires HasProof(Next(s, e, verifies).requests[who])
    ensures who in s.requests
    ensures var t := Next(s, e, verifies);
      || t.requests[who] == s.requests[who]
      || (e == Read(who) && t.requests[who] == ReadPhase(s.requests[who], s.worlds[|s.worlds| - 1], |s.worlds| - 1))
      || (e.Consume? && e.who == who && s.requests[who].Verifying?)
  {
    if who in s.requests {
      RequestNext(s, e, verifies, who);
    }
  }

  lemma PhasesNext(s: State, e: Event, verifies: Verifier, who: nat)
    requires Ledger(s) && (who in s.requests ==> PhaseSound(s, who, s.requests[who]))
    requires who in Next(s, e, verifies).requests
    ensures var t := Next(s, e, verifies); PhaseSound(t, who, t.requests[who])
  {
    var t := Next(s, e, verifies);
    if HasProof(t.requests[who]) {
      PhaseOrigin(s, e, verifies, who);
      if e.Consume? && e.who == who && s.requests[who].Verifying? {
        ConsumeIsSound(s, who, e.delivery);
      } else {
        LedgerNext(s, e, verifies);
        ReadIsSound(s, who, s.requests[who]);
        PhaseGrows(s, t, who, t.requests[who]);
      }
    }
  }

  /** The authorizer is called with the bindings of the proof that reached the last phase. */
  lemma AuthorizeIsSound(s: State, who: nat, verifies: Verifier)
    requires who in s.requests && s.requests[who].Planned? && PhaseSound(s, who, s.requests[who])
    requires StepAuthorize(s, who, verifies).authorized != s.authorized
    ensures var t := StepAuthorize(s, who, verifies);
      |t.authorized| == |s.authorized| + 1 && t.authorized[|s.authorized|].who == who
      && AuthorizationSound(t, t.authorized[|s.authorized|], verifies)
  {
    var t := StepAuthorize(s, who, verifies);
    assert SessionSound(t, s.requests[who].proof, s.requests[who].credential, s.requests[who].sessionIn);
  }

  lemma DoneStaysDone(s: State, e: Event, verifies: Verifier, who: nat)
    requires who in s.requests && s.requests[who].Done?
    ensures who in Next(s, e, verifies).requests && Next(s, e, verifies).requests[who].Done?
  {
  }

  lemma AuthorizationOrigin(s: State, e: Event, verifies: Verifier)
    requires Next(s, e, verifies).authorized != s.authorized
    ensures e.Authorize? && e.who in s.requests && s.requests[e.who].Planned?
    ensures var t := Next(s, e, verifies);
      && |t.authorized| == |s.authorized| + 1 && s.authorized <= t.authorized
      && var a := t.authorized[|s.authorized|];
         a.who == e.who && a.proof == s.requests[e.who].proof && a.at == s.now
  {
  }

  lemma OldAuthorizationsNext(s: State, e: Event, verifies: Verifier)
    requires Ledger(s) && Authorizations(s, verifies)
    ensures var t := Next(s, e, verifies);
      forall a :: a in s.authorized ==>
        AuthorizationSound(t, a, verifies) && a.who in t.requests && t.requests[a.who].Done?
  {
    var t := Next(s, e, verifies);
    LedgerNext(s, e, verifies);
    forall a | a in s.authorized
      ensures AuthorizationSound(t, a, verifies) && a.who in t.requests && t.requests[a.who].Done?
    {
      AuthorizationGrows(s, t, a, verifies);
      DoneStaysDone(s, e, verifies, a.who);
    }
  }

  lemma NewAuthorization(s: State, t: State, verifies: Verifier, who: nat)
    requires Authorizations(s, verifies) && who in s.requests && !s.requests[who].Done?
    requires forall a :: a in s.authorized ==>
      AuthorizationSound(t, a, verifies) && a.who in t.requests && t.requests[a.who].Done?
    requires |t.authorized| == |s.authorized| + 1 && t.authorized[..|s.authorized|] == s.authorized
    requires t.authorized[|s.authorized|].who == who && who in t.requests && t.requests[who].Done?
    requires AuthorizationSound(t, t.authorized[|s.authorized|], verifies)
    ensures Authorizations(t, verifies)
  {
    assert t.authorized == s.authorized + [t.authorized[|s.authorized|]];
  }

  lemma AuthorizationsNext(s: State, e: Event, verifies: Verifier)
    requires Ledger(s) && Phases(s) && Authorizations(s, verifies)
    ensures Authorizations(Next(s, e, verifies), verifies)
  {
    var t := Next(s, e, verifies);
    OldAuthorizationsNext(s, e, verifies);
    if t.authorized != s.authorized {
      AuthorizationOrigin(s, e, verifies);
      AuthorizeIsSound(s, e.who, verifies);
      NewAuthorization(s, t, verifies, e.who);
    }
  }

  lemma {:induction false} InvRun(world: World, events: seq<Event>, verifies: Verifier)
    ensures var s := Run(world, events, verifies); Ledger(s) && Phases(s) && Authorizations(s, verifies)
  {
    if events != [] {
      var s, e := Run(world, events[..|events| - 1], verifies), events[|events| - 1];
      InvRun(world, events[..|events| - 1], verifies);
      LedgerNext(s, e, verifies);
      var t := Next(s, e, verifies);
      forall who | who in t.requests ensures PhaseSound(t, who, t.requests[who]) {
        PhasesNext(s, e, verifies, who);
      }
      AuthorizationsNext(s, e, verifies);
    }
  }

  // ----- safety over whole runs -----

  /** The authorizer is called at most once per challenge. Each call follows one issued challenge that
      was consumed before its expiry, repeats every binding of that challenge, and agrees with the
      session, the account and the plan as they stood after the consumption, read in this order. */
  lemma AuthorizationsAreBound(world: World, events: seq<Event>, verifies: Verifier)
    ensures var s := Run(world, events, verifies);
      && (forall i, j :: 0 <= i < j < |s.authorized| ==>
            s.authorized[i].proof.attempt.id != s.authorized[j].proof.attempt.id)
      && (forall a :: a in s.authorized ==> AuthorizationSound(s, a, verifies))
  {
    InvRun(world, events, verifies);
    var s := Run(world, events, verifies);
    forall i, j | 0 <= i < j < |s.authorized|
      ensures s.authorized[i].proof.attempt.id != s.authorized[j].proof.attempt.id
    {
      assert AuthorizationSound(s, s.authorized[i], verifies) && AuthorizationSound(s, s.authorized[j], verifies);
    }
  }

  lemma Snoc(world: World, events: seq<Event>, e: Event, verifies: Verifier)
    ensures Run(world, events + [e], verifies) == Next(Run(world, events, verifies), e, verifies)
  {
    assert (events + [e])[..|events|] == events;
  }

  lemma Extend(world: World, events: seq<Event>, e: Event, verifies: Verifier) returns (more: seq<Event>)
    ensures Run(world, more, verifies) == Next(Run(world, events, verifies), e, verifies)
  {
    more := events + [e];
    Snoc(world, events, e, verifies);
  }

  ghost predicate Late(a: Authorization) {
    a.at >= a.proof.stored.expiresAt
  }

  /** The time that passes during `events`. */
  function Elapsed(events: seq<Event>): nat {
    if events == [] then 0
    else Elapsed(events[..|events| - 1]) + if events[|events| - 1].Tick? then events[|events| - 1].elapsed else 0
  }

  /** A request keeps its proof until it is done. */
  lemma ProofStays(s: State, e: Event, verifies: Verifier, who: nat)
    requires s.worlds != [] && who in s.requests && HasProof(s.requests[who])
    ensures var t := Next(s, e, verifies);
      who in t.requests
        && (t.requests[who].Done? || (HasProof(t.requests[who]) && t.requests[who].proof == s.requests[who].proof))
  {
    RequestNext(s, e, verifies, who);
  }

  lemma {:induction false} ProofStaysLong(world: World, events: seq<Event>, more: seq<Event>, who: nat,
          verifies: Verifier)
    requires var s := Run(world, events, verifies); who in s.requests && HasProof(s.requests[who])
    ensures var s, t := Run(world, events, verifies), Run(world, events + more, verifies);
      && t.now == s.now + Elapsed(more)
      && who in t.requests
      && (t.requests[who].Done? || (HasProof(t.requests[who]) && t.requests[who].proof == s.requests[who].proof))
    decreases |more|
  {
    if more == [] {
      assert events + more == events;
    } else {
      var init, last := more[..|more| - 1], more[|more| - 1];
      assert (events + more)[..|events + more| - 1] == events + init;
      ProofStaysLong(world, events, init, who, verifies);
      var mid := Run(world, events + init, verifies);
      InvRun(world, events + init, verifies);
      NowNext(mid, last, verifies);
      if mid.requests[who].Done? {
        DoneStaysDone(mid, last, verifies, who);
      } else {
        ProofStays(mid, last, verifies, who);
      }
    }
  }

  lemma NowNext(s: State, e: Event, verifies: Verifier)
    ensures Next(s, e, verifies).now == s.now + if e.Tick? then e.elapsed else 0
  {
  }

  // ----- when the authorizer is called -----

  lemma {:induction false} NowAt(world: World, events: seq<Event>, verifies: Verifier, i: nat, j: nat)
    requires i <= j <= |events|
    ensures Run(world, events[..j], verifies).now == Run(world, events[..i], verifies).now + Elapsed(events[i..j])
    decreases j - i
  {
    if i == j {
      assert events[i..j] == [];
    } else {
      NowAt(world, events, verifies, i, j - 1);
      assert events[..j][..j - 1] == events[..j - 1] && events[i..j][..j - i - 1] == events[i..j - 1];
      NowNext(Run(world, events[..j - 1], verifies), events[j - 1], verifies);
    }
  }

  /** Event `i` is the successful consumption that gave `who` its proof. */
  ghost predicate ConsumedAtEvent(world: World, events: seq<Event>, verifies: Verifier, who: nat, proof: Proof,
          i: int)
  {
    0 <= i < |events| && events[i] == Consume(who, Delivered) && Takes(Run(world, events[..i], verifies), who, proof)
  }

  /** A request is about to consume the stored challenge with its attempt. */
  ghost predicate Takes(s: State, who: nat, proof: Proof) {
    && s.now == proof.consumedAt && who in s.requests && s.requests[who] == Verifying(proof.attempt)
    && proof.attempt.id in s.issued && s.issued[proof.attempt.id] == proof.stored
  }

  lemma ConsumeStamps(s: State, who: nat, delivery: Delivery)
    requires Ledger(s) && who in s.requests && s.requests[who].Verifying?
    requires HasProof(StepConsume(s, who, delivery).requests[who])
    ensures delivery.Delivered? && Takes(s, who, StepConsume(s, who, delivery).requests[who].proof)
  {
  }

  /** A proof was there before the step, or the step is its consumption. */
  lemma ProofNext(s: State, e: Event, verifies: Verifier, who: nat)
    requires Ledger(s) && who in Next(s, e, verifies).requests && HasProof(Next(s, e, verifies).requests[who])
    ensures var proof := Next(s, e, verifies).requests[who].proof;
      || (who in s.requests && HasProof(s.requests[who]) && s.requests[who].proof == proof)
      || (e == Consume(who, Delivered) && Takes(s, who, proof))
  {
    PhaseOrigin(s, e, verifies, who);
    if !HasProof(s.requests[who]) {
      ConsumeStamps(s, who, e.delivery);
    }
  }

  lemma {:induction false} ProofHasConsumption(world: World, events: seq<Event>, verifies: Verifier, who: nat)
    returns (i: int)
    requires var s := Run(world, events, verifies); who in s.requests && HasProof(s.requests[who])
    ensures ConsumedAtEvent(world, events, verifies, who, Run(world, events, verifies).requests[who].proof, i)
  {
    var init, e := events[..|events| - 1], events[|events| - 1];
    var s := Run(world, init, verifies);
    InvRun(world, init, verifies);
    ProofNext(s, e, verifies, who);
    if e == Consume(who, Delivered) && Takes(s, who, Run(world, events, verifies).requests[who].proof) {
      i := |init|;
    } else {
      i := ProofHasConsumption(world, init, verifies, who);
      assert init[..i] == events[..i];
    }
  }

  /** The consumption and the call behind authorization `a`. */
  ghost predicate CalledAt(world: World, events: seq<Event>, verifies: Verifier, a: Authorization, i: int, j: int) {
    && ConsumedAtEvent(world, events, verifies, a.who, a.proof, i)
    && i < j < |events| && events[j] == Authorize(a.who) && Run(world, events[..j], verifies).now == a.at
  }

  /** An authorization was there before the step, or the step is its call. */
  lemma AuthorizationNext(s: State, e: Event, verifies: Verifier, a: Authorization)
    requires a in Next(s, e, verifies).authorized
    ensures a in s.authorized ||
      (e == Authorize(a.who) && a.who in s.requests && HasProof(s.requests[a.who])
        && a.proof == s.requests[a.who].proof && a.at == s.now)
  {
    if Next(s, e, verifies).authorized != s.authorized {
      AuthorizationOrigin(s, e, verifies);
    }
  }

  lemma {:induction false} AuthorizationEvents(world: World, events: seq<Event>, verifies: Verifier, a: Authorization)
    returns (i: int, j: int)
    requires a in Run(world, events, verifies).authorized
    ensures CalledAt(world, events, verifies, a, i, j)
  {
    var init, e := events[..|events| - 1], events[|events| - 1];
    AuthorizationNext(Run(world, init, verifies), e, verifies, a);
    if a in Run(world, init, verifies).authorized {
      i, j := AuthorizationEvents(world, init, verifies, a);
      assert init[..i] == events[..i] && init[..j] == events[..j];
    } else {
      i := ProofHasConsumption(world, init, verifies, a.who);
      j := |init|;
      assert init[..i] == events[..i] && events[..j] == init;
    }
  }

  /** Expiry is checked when the challenge is consumed, not when the authorizer is called. Every call is on
      time if and only if what happens between the consumption of its challenge and the call takes less than
      the lifetime the challenge had left. */
  lemma AuthorizationOnTimeIff(world: World, events: seq<Event>, verifies: Verifier, a: Authorization)
    requires a in Run(world, events, verifies).authorized
    ensures exists i, j ::
      && CalledAt(world, events, verifies, a, i, j)
      && (!Late(a) <==> Elapsed(events[i..j]) < a.proof.stored.expiresAt - a.proof.consumedAt)
  {
    var i, j := AuthorizationEvents(world, events, verifies, a);
    NowAt(world, events, verifies, i, j);
    assert CalledAt(world, events, verifies, a, i, j);
  }

  ghost predicate OnTime(s: State, who: nat) {
    forall a :: a in s.authorized && a.who == who ==> !Late(a)
  }

  /** What a request authorizes is the challenge it has consumed. */
  lemma {:induction false} AuthorizesItsProof(world: World, events: seq<Event>, more: seq<Event>, who: nat,
          verifies: Verifier)
    requires var s := Run(world, events, verifies); who in s.requests && HasProof(s.requests[who])
    ensures forall a :: a in Run(world, events + more, verifies).authorized && a.who == who ==>
      a.proof == Run(world, events, verifies).requests[who].proof
    decreases |more|
  {
    if more == [] {
      assert events + more == events;
      InvRun(world, events, verifies);
    } else {
      var init, last := more[..|more| - 1], more[|more| - 1];
      assert (events + more)[..|events + more| - 1] == events + init;
      AuthorizesItsProof(world, events, init, who, verifies);
      ProofStaysLong(world, events, init, who, verifies);
      var mid := Run(world, events + init, verifies);
      forall a | a in Run(world, events + more, verifies).authorized && a.who == who
        ensures a.proof == Run(world, events, verifies).requests[who].proof
      {
        AuthorizationNext(mid, last, verifies, a);
      }
    }
  }

  /** `world` still says of session, account and plan what the challenge recorded, and the signature is good. */
  ghost predicate Confirms(world: World, proof: Proof, credential: Credential, d: Descriptor, verifies: Verifier) {
    var c := proof.stored;
    && Lookup(world.sessions, proof.attempt.session) == Some(credential)
    && credential.login && credential.jti != "" && 0 < credential.accessRevision <= 0x7fff_ffff_ffff_ffff
    && c.account == credential.account && c.account != "" && c.sessionDigest == Sha256(credential.jti)
    && c.accessRevision == credential.accessRevision
    && Lookup(world.accounts, c.account) == Some(Account(true, c.address)) && c.address != ""
    && Lookup(world.runs, c.runId) == Some(d) && d == Descriptor(c.runId, c.revision, c.planDigest)
    && c.runId != "" && |c.planDigest| == 32
    && c.message == Message(c.address, c.runId, c.planDigest, c.nonce, c.createdAt, c.expiresAt)
    && verifies(c.address, c.message, proof.attempt.signature)
  }

  lemma AuthorizeSucceeds(s: State, who: nat, proof: Proof, credential: Credential, d: Descriptor, n: nat,
          world: World, verifies: Verifier)
    requires who in s.requests && s.requests[who] == Planned(proof, credential, n, n, d, n)
    requires Confirms(world, proof, credential, d, verifies)
    ensures var t := Next(s, Authorize(who), verifies);
      |t.authorized| == |s.authorized| + 1 && t.authorized[|s.authorized|].who == who
      && t.authorized[|s.authorized|].proof == proof && t.authorized[|s.authorized|].at == s.now
  {
  }

  lemma Longer(world: World, events: seq<Event>, more: seq<Event>, e: Event, verifies: Verifier)
    returns (longer: seq<Event>)
    ensures Run(world, events + longer, verifies) == Next(Run(world, events + more, verifies), e, verifies)
    ensures Elapsed(longer) == Elapsed(more) + if e.Tick? then e.elapsed else 0
  {
    longer := more + [e];
    assert longer[..|more|] == more;
    Snoc(world, events + more, e, verifies);
    assert events + longer == events + more + [e];
  }

  lemma ReadLonger(world: World, events: seq<Event>, more: seq<Event>, who: nat, before: Phase, after: Phase,
          verifies: Verifier)
    returns (longer: seq<Event>)
    requires var s := Run(world, events + more, verifies);
      && s.worlds != [] && who in s.requests && s.requests[who] == before
      && ReadPhase(before, s.worlds[|s.worlds| - 1], |s.worlds| - 1) == after
    ensures Run(world, events + longer, verifies) == Goto(Run(world, events + more, verifies), who, after)
    ensures Elapsed(longer) == Elapsed(more)
  {
    longer := Longer(world, events, more, Read(who), verifies);
  }

  lemma ConfirmedReads(world: World, proof: Proof, credential: Credential, d: Descriptor, n: nat, verifies: Verifier)
    requires Confirms(world, proof, credential, d, verifies)
    ensures ReadPhase(Consumed(proof), world, n) == Authenticated(proof, credential, n)
    ensures ReadPhase(Authenticated(proof, credential, n), world, n) == Identified(proof, credential, n, n)
    ensures ReadPhase(Identified(proof, credential, n, n), world, n) == Planned(proof, credential, n, n, d, n)
  {
  }

  /** Three reads of a world that confirms the challenge. */
  lemma ReadBack(world: World, events: seq<Event>, more: seq<Event>, who: nat, proof: Proof, credential: Credential,
          d: Descriptor, verifies: Verifier)
    returns (longer: seq<Event>)
    requires var s := Run(world, events + more, verifies);
      && s.worlds != [] && Confirms(s.worlds[|s.worlds| - 1], proof, credential, d, verifies)
      && who in s.requests && s.requests[who] == Consumed(proof)
    ensures var s, t := Run(world, events + more, verifies), Run(world, events + longer, verifies);
      var n := |s.worlds| - 1;
      && t.now == s.now && t.authorized == s.authorized && who in t.requests
      && t.requests[who] == Planned(proof, credential, n, n, d, n)
    ensures Elapsed(longer) == Elapsed(more)
  {
    var s := Run(world, events + more, verifies);
    var n := |s.worlds| - 1;
    ConfirmedReads(s.worlds[n], proof, credential, d, n, verifies);
    var first, second := Authenticated(proof, credential, n), Identified(proof, credential, n, n);
    longer := ReadLonger(world, events, more, who, Consumed(proof), first, verifies);
    longer := ReadLonger(world, events, longer, who, first, second, verifies);
    longer := ReadLonger(world, events, longer, who, second, Planned(proof, credential, n, n, d, n), verifies);
  }

  /** After a delay of `delay` the request is still authorized, whatever has become of the challenge. */
  lemma DelayedAuthorization(world: World, events: seq<Event>, who: nat, credential: Credential, d: Descriptor,
          delay: nat, verifies: Verifier)
    returns (more: seq<Event>)
    requires var s := Run(world, events, verifies);
      && s.worlds != [] && who in s.requests && s.requests[who].Consumed?
      && Confirms(s.worlds[|s.worlds| - 1], s.requests[who].proof, credential, d, verifies)
    ensures var s, t := Run(world, events, verifies), Run(world, events + more, verifies);
      && Elapsed(more) == delay && |t.authorized| == |s.authorized| + 1
      && t.authorized[|s.authorized|].who == who && t.authorized[|s.authorized|].at == s.now + delay
      && t.authorized[|s.authorized|].proof == s.requests[who].proof
  {
    var s := Run(world, events, verifies);
    var proof, n := s.requests[who].proof, |s.worlds| - 1;
    assert events + [] == events;
    more := Longer(world, events, [], Tick(delay), verifies);
    assert Run(world, events + more, verifies) == s.(now := s.now + delay);
    more := ReadBack(world, events, more, who, proof, credential, d, verifies);
    AuthorizeSucceeds(Run(world, events + more, verifies), who, proof, credential, d, n, s.worlds[n], verifies);
    more := Longer(world, events, more, Authorize(who), verifies);
  }

  /** Checked at consumption: every continuation that takes at most `delay` authorizes on time if and only if
      `delay` is less than the lifetime the challenge has left. */
  lemma PromptContinuationsIff(world: World, events: seq<Event>, who: nat, credential: Credential, d: Descriptor,
          delay: nat, verifies: Verifier)
    requires var s := Run(world, events, verifies);
      && s.worlds != [] && who in s.requests && s.requests[who].Consumed?
      && Confirms(s.worlds[|s.worlds| - 1], s.requests[who].proof, credential, d, verifies)
    ensures var s := Run(world, events, verifies);
      (forall more :: Elapsed(more) <= delay ==> OnTime(Run(world, events + more, verifies), who)) <==>
        delay < s.requests[who].proof.stored.expiresAt - s.now
  {
    var s := Run(world, events, verifies);
    var proof := s.requests[who].proof;
    if delay < proof.stored.expiresAt - s.now {
      forall more | Elapsed(more) <= delay ensures OnTime(Run(world, events + more, verifies), who) {
        AuthorizesItsProof(world, events, more, who, verifies);
        ProofStaysLong(world, events, more, who, verifies);
        InvRun(world, events + more, verifies);
      }
    } else {
      var more := DelayedAuthorization(world, events, who, credential, d, delay, verifies);
      var t := Run(world, events + more, verifies);
      assert t.authorized[|s.authorized|] in t.authorized;
      assert !OnTime(t, who);
    }
  }

  /** A world in which `ask` is a legitimate request of the wallet at `address`. */
  ghost predicate Legitimate(world: World, ask: Ask, credential: Credential, address: string, d: Descriptor) {
    && Lookup(world.sessions, ask.session) == Some(credential) && credential.account != ""
    && credential.login && credential.jti != "" && 0 < credential.accessRevision <= 0x7fff_ffff_ffff_ffff
    && Lookup(world.accounts, credential.account) == Some(Account(true, address)) && address != ""
    && Lookup(world.runs, ask.runId) == Some(d) && d.runId == ask.runId != "" && d.revision == ask.revision
    && |d.planDigest| == 32
    && ask.revision > 0 && ask.commandId != "" && ask.returnTo != ""
  }

  lemma ReachAskingFor(world: World, ask: Ask, credential: Credential, address: string, d: Descriptor,
          verifies: Verifier)
    returns (events: seq<Event>)
    requires Legitimate(world, ask, credential, address, d)
    ensures Run(world, events, verifies) ==
      Start(world).(requests := map[0 := AskingFor(ask, credential, address, d.planDigest)])
  {
    events := Extend(world, [], AskFor(0, ask), verifies);
    events := Extend(world, events, Read(0), verifies);
    assert Run(world, events, verifies) == Start(world).(requests := map[0 := AskingAs(ask, credential)]);
    events := Extend(world, events, Read(0), verifies);
    assert Run(world, events, verifies) == Start(world).(requests := map[0 := AskingFrom(ask, credential, address)]);
    events := Extend(world, events, Read(0), verifies);
  }

  lemma ReachIssued(world: World, ask: Ask, credential: Credential, address: string, d: Descriptor,
          nonce: string, id: Id, verifies: Verifier)
    returns (events: seq<Event>)
    requires Legitimate(world, ask, credential, address, d) && nonce != ""
    ensures var s := Run(world, events, verifies);
      && s.now == 0 && s.worlds == [world] && 1 !in s.requests && s.authorized == []
      && s.db.values ==
         map[id := Entry(NewChallenge(0, AskingFor(ask, credential, address, d.planDigest), nonce), VALUE_TTL)]
  {
    events := ReachAskingFor(world, ask, credential, address, d, verifies);
    events := Extend(world, events, Create(0, id, nonce, Delivered), verifies);
  }

  lemma ConsumeSucceeds(s: State, who: nat, proof: Proof, verifies: Verifier)
    requires who in s.requests && s.requests[who] == Verifying(proof.attempt) && s.worlds != []
    requires Get(s.db.values, proof.attempt.id, s.now) == Some(proof.stored)
    requires ValidChallenge(proof.stored) && Timely(proof.stored, s.now) && proof.stored.runId == proof.attempt.runId
    requires proof.consumedAt == s.now && proof.consumedIn == |s.worlds| - 1
    ensures var t := Next(s, Consume(who, Delivered), verifies);
      t.now == s.now && t.worlds == s.worlds && t.authorized == s.authorized
        && t.requests == s.requests[who := Consumed(proof)]
  {
  }

  /** For every legitimate request there is a run in which a dependency answers only after the
      challenge has expired and the authorizer is still called. */
  lemma LateAuthorizationExists(world: World, ask: Ask, credential: Credential, address: string, d: Descriptor,
          nonce: string, attempt: Attempt, verifies: Verifier)
    requires Legitimate(world, ask, credential, address, d) && nonce != ""
    requires attempt.runId == ask.runId && attempt.session == ask.session
    requires verifies(address, Message(address, ask.runId, d.planDigest, nonce, 0, CHALLENGE_TTL), attempt.signature)
    ensures exists events :: var s := Run(world, events, verifies); |s.authorized| == 1 && Late(s.authorized[0])
  {
    var proof := Proof(attempt, NewChallenge(0, AskingFor(ask, credential, address, d.planDigest), nonce), 0, 0);
    var events := ReachIssued(world, ask, credential, address, d, nonce, attempt.id, verifies);
    events := Extend(world, events, Verify(1, attempt), verifies);
    ConsumeSucceeds(Run(world, events, verifies), 1, proof, verifies);
    events := Extend(world, events, Consume(1, Delivered), verifies);
    var more := DelayedAuthorization(world, events, 1, credential, d, CHALLENGE_TTL, verifies);
    assert |Run(world, events + more, verifies).authorized| == 1;
  }
}

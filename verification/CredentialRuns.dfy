/** The credential manager over its durable store. Reads of the store and publications of what was
    read are separate steps of many requests; store replies may get lost. */
module CredentialRuns {
  import opened Prelude
  import opened Traces
  import opened Credentials

  datatype Pending = Pending(id: Id, profile: Profile)

  /** `profiles` and `keys` are the durable tables; `used` are all key identifiers ever generated. */
  datatype State = State(
    profiles: map<Id, Profile>, keys: map<Id, seq<Token>>, memory: Memory, pending: map<nat, Pending>, used: set<Jti>)

  datatype Event =
    | Register(who: nat, id: Id, profile: Profile)
    | Find(who: nat, id: Id)
    | RecordLogin(who: nat, id: Id, email: string, at: int)
    | Publication(who: nat)
    | IssueKey(id: Id, token: Token, delivery: Delivery)
    | DeleteKey(id: Id, displayId: string, delivery: Delivery)

  function TokensOf(keys: map<Id, seq<Token>>, id: Id): seq<Token> {
    if id in keys then keys[id] else []
  }

  // ----- the steps -----

  function StepPublication(rules: Rules, s: State, who: nat): State
    requires who in s.pending
  {
    var Pending(id, profile) := s.pending[who];
    var t := s.(pending := s.pending - {who});
    match Publish(rules, s.memory, id, Account(profile, []))
    case None => t
    case Some(memory) => t.(memory := memory)
  }

  /** The metadata is inserted first; the key enters memory when the store's reply arrives. */
  function StepIssue(s: State, id: Id, token: Token, delivery: Delivery): State
    requires id in s.memory.accounts
  {
    var t := s.(used := s.used + {token.jti});
    if delivery.NotReached? || HasId(s.memory.accounts[id].tokens, token.id) || HasId(TokensOf(s.keys, id), token.id)
    then t
    else
      var stored := t.(keys := s.keys[id := TokensOf(s.keys, id) + [token]]);
      if delivery.ReplyLost? then stored else stored.(memory := Issue(s.memory, id, token))
  }

  function StepDelete(s: State, id: Id, displayId: string, delivery: Delivery): State
    requires id in s.memory.accounts
  {
    if delivery.NotReached? || !HasId(s.memory.accounts[id].tokens, displayId)
      || !HasId(TokensOf(s.keys, id), displayId)
    then s
    else
      var stored := s.(keys := s.keys[id := WithoutId(TokensOf(s.keys, id), displayId)]);
      if delivery.ReplyLost? then stored else stored.(memory := Delete(s.memory, id, displayId))
  }

  predicate Taken(rules: Rules, profiles: map<Id, Profile>, key: Key) {
    exists id :: id in profiles && HasExternalIdentity(rules, profiles[id]) && KeyOf(profiles[id]) == key
  }

  /** The unique index on the lower-case username. */
  predicate NameTaken(rules: Rules, profiles: map<Id, Profile>, username: string) {
    exists id :: id in profiles && rules.lower(profiles[id].username) == rules.lower(username)
  }

  /** The unique index on the administrator role. */
  predicate RoleTaken(profiles: map<Id, Profile>, administrator: bool) {
    administrator && exists id :: id in profiles && profiles[id].administrator
  }

  function Next(rules: Rules, s: State, e: Event): State {
    match e
    case Register(who, id, profile) =>
      if who in s.pending || id in s.profiles || !Publishable(rules, id, profile)
        || !HasExternalIdentity(rules, profile)
        || Taken(rules, s.profiles, KeyOf(profile)) || NameTaken(rules, s.profiles, profile.username)
        || RoleTaken(s.profiles, profile.administrator)
      then s
      else s.(profiles := s.profiles[id := profile], pending := s.pending[who := Pending(id, profile)])
    case Find(who, id) =>
      if who in s.pending || id !in s.profiles then s
      else s.(pending := s.pending[who := Pending(id, s.profiles[id])])
    case RecordLogin(who, id, email, at) =>
      if who in s.pending || id !in s.profiles
        || !Publishable(rules, id, s.profiles[id].(email := email, lastLogin := at))
      then s
      else
        var profile := s.profiles[id].(email := email, lastLogin := at);
        s.(profiles := s.profiles[id := profile], pending := s.pending[who := Pending(id, profile)])
    case Publication(who) => if who in s.pending then StepPublication(rules, s, who) else s
    case IssueKey(id, token, delivery) =>
      if id !in s.memory.accounts || !rules.displayId(token.id) || token.jti in s.used then s
      else StepIssue(s, id, token, delivery)
    case DeleteKey(id, displayId, delivery) =>
      if id !in s.memory.accounts then s else StepDelete(s, id, displayId, delivery)
  }

  function Run(rules: Rules, start: State, events: seq<Event>): State {
    if events == [] then start else Next(rules, Run(rules, start, events[..|events| - 1]), events[|events| - 1])
  }

  // ----- identities -----

  /** Rows that can be published, with no external identity held twice. */
  ghost predicate Sound(rules: Rules, profiles: map<Id, Profile>) {
    && (forall id :: id in profiles ==> Publishable(rules, id, profiles[id]))
    && (forall i, j ::
          i in profiles && j in profiles && External(profiles[i]) && KeyOf(profiles[i]) == KeyOf(profiles[j]) ==>
            i == j)
  }

  /** Every copy of a row, published or about to be, has the row's permanent part. */
  ghost predicate Mirrors(rules: Rules, s: State) {
    MemoryMirrors(rules, s.profiles, s.memory.accounts) && PendingMirrors(rules, s.profiles, s.pending)
  }

  /** What was read from the store can always be published. */
  lemma PublicationSucceeds(rules: Rules, s: State, who: nat)
    requires Sound(rules, s.profiles) && Indexed(s.memory) && Mirrors(rules, s) && who in s.pending
    ensures var Pending(id, profile) := s.pending[who];
      Publish(rules, s.memory, id, Account(profile, [])) ==
        Some(Memory(s.memory.accounts[id :=
          Account(profile, if id in s.memory.accounts then s.memory.accounts[id].tokens else [])],
                    if External(profile) then s.memory.index[KeyOf(profile) := id] else s.memory.index))
  {
    var Pending(id, profile) := s.pending[who];
    PublishableIsExternal(rules, id, profile);
    if External(profile) && KeyOf(profile) in s.memory.index {
      var other := s.memory.index[KeyOf(profile)];
      assert KeyOf(s.profiles[other]) == KeyOf(s.profiles[id]);
    }
  }

  lemma SoundNext(rules: Rules, s: State, e: Event)
    requires Sound(rules, s.profiles)
    ensures Sound(rules, Next(rules, s, e).profiles)
  {
    if e.Register? && Next(rules, s, e) != s {
      forall i | i in s.profiles && External(s.profiles[i]) ensures KeyOf(s.profiles[i]) != KeyOf(e.profile) {
        PublishableIsExternal(rules, i, s.profiles[i]);
      }
    }
  }

  lemma IndexedTokens(m: Memory, id: Id, tokens: seq<Token>)
    requires Indexed(m) && id in m.accounts
    ensures Indexed(m.(accounts := m.accounts[id := Account(m.accounts[id].profile, tokens)]))
  {
  }

  lemma KeyIsFree(rules: Rules, s: State, who: nat)
    requires Sound(rules, s.profiles) && Indexed(s.memory) && Mirrors(rules, s) && who in s.pending
    ensures var Pending(id, profile) := s.pending[who];
      && (id in s.memory.accounts ==> SameIdentity(s.memory.accounts[id].profile, profile))
      && (External(profile) && KeyOf(profile) in s.memory.index ==> s.memory.index[KeyOf(profile)] == id)
  {
    var Pending(id, profile) := s.pending[who];
    if External(profile) && KeyOf(profile) in s.memory.index {
      var other := s.memory.index[KeyOf(profile)];
      assert KeyOf(s.profiles[other]) == KeyOf(s.profiles[id]);
    }
  }

  lemma IndexedPublication(rules: Rules, s: State, who: nat)
    requires Sound(rules, s.profiles) && Indexed(s.memory) && Mirrors(rules, s) && who in s.pending
    ensures Indexed(StepPublication(rules, s, who).memory)
  {
    var Pending(id, profile) := s.pending[who];
    PublicationSucceeds(rules, s, who);
    KeyIsFree(rules, s, who);
    IndexedPublish(s.memory, id, profile, StepPublication(rules, s, who).memory.accounts[id].tokens);
  }

  lemma IndexedKeys(s: State, id: Id, token: Token, displayId: string, delivery: Delivery)
    requires Indexed(s.memory) && id in s.memory.accounts
    ensures Indexed(StepIssue(s, id, token, delivery).memory) && Indexed(StepDelete(s, id, displayId, delivery).memory)
  {
    var tokens := s.memory.accounts[id].tokens;
    IndexedTokens(s.memory, id, tokens + [token]);
    IndexedTokens(s.memory, id, WithoutId(tokens, displayId));
  }

  lemma IndexedNext(rules: Rules, s: State, e: Event)
    requires Sound(rules, s.profiles) && Indexed(s.memory) && Mirrors(rules, s)
    ensures Indexed(Next(rules, s, e).memory)
  {
    if e.Publication? && e.who in s.pending {
      IndexedPublication(rules, s, e.who);
    } else if e.IssueKey? && e.id in s.memory.accounts {
      IndexedKeys(s, e.id, e.token, e.token.id, e.delivery);
    } else if e.DeleteKey? && e.id in s.memory.accounts {
      IndexedKeys(s, e.id, Token("", "", 0, 0), e.displayId, e.delivery);
    }
  }

  ghost predicate MemoryMirrors(rules: Rules, profiles: map<Id, Profile>, accounts: map<Id, Account>) {
    forall id :: id in accounts ==>
      id in profiles && SameIdentity(accounts[id].profile, profiles[id]) && Publishable(rules, id, accounts[id].profile)
  }

  ghost predicate PendingMirrors(rules: Rules, profiles: map<Id, Profile>, pending: map<nat, Pending>) {
    forall who :: who in pending ==>
      pending[who].id in profiles && SameIdentity(pending[who].profile, profiles[pending[who].id])
      && Publishable(rules, pending[who].id, pending[who].profile)
  }

  /** Rows stay, and keep their permanent part. */
  ghost predicate Evolves(profiles: map<Id, Profile>, later: map<Id, Profile>) {
    forall id :: id in profiles ==> id in later && SameIdentity(profiles[id], later[id])
  }

  lemma RowsEvolve(rules: Rules, s: State, e: Event)
    ensures Evolves(s.profiles, Next(rules, s, e).profiles)
  {
  }

  /** A request holds what it held before, or the current row. */
  lemma PendingOrigin(rules: Rules, s: State, e: Event, who: nat)
    requires who in Next(rules, s, e).pending
    ensures var t := Next(rules, s, e);
      || (who in s.pending && t.pending[who] == s.pending[who])
      || (t.pending[who].id in t.profiles && t.pending[who].profile == t.profiles[t.pending[who].id])
  {
  }

  /** An account is published as it was before, or from a pending row. */
  lemma MemoryOrigin(rules: Rules, s: State, e: Event, id: Id)
    requires id in Next(rules, s, e).memory.accounts
    ensures var t := Next(rules, s, e);
      || (id in s.memory.accounts && t.memory.accounts[id].profile == s.memory.accounts[id].profile)
      || (exists who :: who in s.pending && s.pending[who] == Pending(id, t.memory.accounts[id].profile))
  {
    var t := Next(rules, s, e);
    if e.Publication? && e.who in s.pending && t.memory != s.memory && id == s.pending[e.who].id {
      assert s.pending[e.who] == Pending(id, t.memory.accounts[id].profile);
    }
  }

  lemma MirrorsNext(rules: Rules, s: State, e: Event)
    requires Sound(rules, s.profiles) && Mirrors(rules, s)
    ensures Mirrors(rules, Next(rules, s, e))
  {
    var t := Next(rules, s, e);
    RowsEvolve(rules, s, e);
    SoundNext(rules, s, e);
    forall who | who in t.pending
      ensures t.pending[who].id in t.profiles && SameIdentity(t.pending[who].profile, t.profiles[t.pending[who].id])
      ensures Publishable(rules, t.pending[who].id, t.pending[who].profile)
    {
      PendingOrigin(rules, s, e, who);
    }
    forall id | id in t.memory.accounts
      ensures id in t.profiles && SameIdentity(t.memory.accounts[id].profile, t.profiles[id])
      ensures Publishable(rules, id, t.memory.accounts[id].profile)
    {
      MemoryOrigin(rules, s, e, id);
    }
  }

  // ----- keys: memory against the store -----

  /** The key of a display identifier. */
  function Find(tokens: seq<Token>, name: string): Option<Token> {
    if tokens == [] then None else if tokens[0].id == name then Some(tokens[0]) else Find(tokens[1..], name)
  }

  function InMemory(s: State, id: Id): seq<Token> {
    if id in s.memory.accounts then s.memory.accounts[id].tokens else []
  }

  function Stored(s: State, id: Id): seq<Token> {
    TokensOf(s.keys, id)
  }

  ghost predicate DistinctIds(tokens: seq<Token>) {
    forall i, j :: 0 <= i < j < |tokens| ==> tokens[i].id != tokens[j].id
  }

  lemma {:induction false} FindIsHas(tokens: seq<Token>, name: string)
    ensures Find(tokens, name).Some? <==> HasId(tokens, name)
    ensures Find(tokens, name).Some? ==> Find(tokens, name).value in tokens && Find(tokens, name).value.id == name
  {
    if tokens != [] {
      FindIsHas(tokens[1..], name);
      if tokens[0].id != name && HasId(tokens, name) {
        var k :| 0 <= k < |tokens| && tokens[k].id == name;
        assert tokens[1..][k - 1].id == name;
      }
    }
  }

  lemma {:induction false} FindMember(tokens: seq<Token>, token: Token)
    requires DistinctIds(tokens) && token in tokens
    ensures Find(tokens, token.id) == Some(token)
  {
    if tokens[0] != token {
      assert token in tokens[1..];
      FindMember(tokens[1..], token);
      var k :| 0 <= k < |tokens| && tokens[k] == token;
      assert tokens[0].id != tokens[k].id;
    }
  }

  lemma {:induction false} FindMore(tokens: seq<Token>, token: Token, name: string)
    ensures Find(tokens + [token], name) ==
      if Find(tokens, name).Some? then Find(tokens, name) else if token.id == name then Some(token) else None
  {
    if tokens != [] {
      assert (tokens + [token])[1..] == tokens[1..] + [token];
      FindMore(tokens[1..], token, name);
    }
  }

  lemma {:induction false} FindWithout(tokens: seq<Token>, gone: string, name: string)
    requires DistinctIds(tokens)
    ensures Find(WithoutId(tokens, gone), name) == if name == gone then None else Find(tokens, name)
    ensures DistinctIds(WithoutId(tokens, gone)) && forall token :: token in WithoutId(tokens, gone) ==> token in tokens
  {
    if tokens != [] {
      var rest := tokens[1..];
      FindWithout(rest, gone, name);
      if tokens[0].id == gone {
        NotFoundBehind(tokens, gone);
      } else {
        DistinctFront(tokens, WithoutId(rest, gone));
      }
    }
  }

  lemma NotFoundBehind(tokens: seq<Token>, name: string)
    requires DistinctIds(tokens) && tokens != [] && tokens[0].id == name
    ensures Find(tokens[1..], name) == None
  {
    FindIsHas(tokens[1..], name);
  }

  lemma DistinctFront(tokens: seq<Token>, rest: seq<Token>)
    requires DistinctIds(tokens) && tokens != [] && DistinctIds(rest)
    requires forall token :: token in rest ==> token in tokens[1..]
    ensures DistinctIds([tokens[0]] + rest)
  {
    forall k | 0 <= k < |rest| ensures rest[k].id != tokens[0].id {
      assert rest[k] in tokens[1..];
    }
  }

  ghost predicate Either(token: Token, memory: seq<Token>, stored: seq<Token>) {
    token in memory || token in stored
  }

  /** Display identifiers are unique on both sides, a key identifier belongs to one key, and a display
      identifier present on both sides names the same key. */
  ghost predicate Keyed(memory: seq<Token>, stored: seq<Token>, used: set<Jti>) {
    && DistinctIds(memory) && DistinctIds(stored)
    && (forall token :: Either(token, memory, stored) ==> token.jti in used)
    && (forall a, b :: Either(a, memory, stored) && Either(b, memory, stored) && a.jti == b.jti ==> a == b)
    && (forall name :: Find(memory, name).Some? && Find(stored, name).Some? ==>
          Find(memory, name) == Find(stored, name))
  }

  ghost predicate AllKeyed(s: State) {
    forall id :: Keyed(InMemory(s, id), Stored(s, id), s.used)
  }

  /** Memory and store agree on a display identifier of an account. */
  predicate Agree(s: State, id: Id, name: string) {
    Find(InMemory(s, id), name) == Find(Stored(s, id), name)
  }

  /** A key call on this display identifier that changed the store while the caller saw an error. */
  predicate LostCall(rules: Rules, s: State, e: Event, id: Id, name: string) {
    && ((e.IssueKey? && e.id == id && e.token.id == name) || (e.DeleteKey? && e.id == id && e.displayId == name))
    && e.delivery.ReplyLost? && Next(rules, s, e).keys != s.keys
  }

  /** What a step does to the keys of one account. */
  datatype Change = Same | Added(token: Token, acknowledged: bool) | Removed(name: string, acknowledged: bool)

  function ChangeOf(rules: Rules, s: State, e: Event, id: Id): Change {
    if id !in s.memory.accounts then Same
    else if e.IssueKey? && e.id == id && rules.displayId(e.token.id) && e.token.jti !in s.used
      && !e.delivery.NotReached?
            && !HasId(InMemory(s, id), e.token.id) && !HasId(Stored(s, id), e.token.id)
    then Added(e.token, e.delivery.Delivered?)
    else if e.DeleteKey? && e.id == id && !e.delivery.NotReached?
            && HasId(InMemory(s, id), e.displayId) && HasId(Stored(s, id), e.displayId)
    then Removed(e.displayId, e.delivery.Delivered?)
    else Same
  }

  function Changed(tokens: seq<Token>, change: Change): seq<Token> {
    match change
    case Same => tokens
    case Added(token, _) => tokens + [token]
    case Removed(name, _) => WithoutId(tokens, name)
  }

  function ChangedMemory(tokens: seq<Token>, change: Change): seq<Token> {
    if change.Same? || !change.acknowledged then tokens else Changed(tokens, change)
  }

  lemma PublicationKeepsKeys(rules: Rules, s: State, who: nat, id: Id)
    requires who in s.pending
    ensures var t := StepPublication(rules, s, who);
      InMemory(t, id) == InMemory(s, id) && Stored(t, id) == Stored(s, id)
  {
  }

  lemma IssueShape(s: State, key: Id, token: Token, delivery: Delivery, id: Id)
    requires key in s.memory.accounts
    ensures var t := StepIssue(s, key, token, delivery);
      var added := key == id && !delivery.NotReached? && !HasId(InMemory(s, id), token.id)
        && !HasId(Stored(s, id), token.id);
      && InMemory(t, id) == (if added && delivery.Delivered? then InMemory(s, id) + [token] else InMemory(s, id))
      && Stored(t, id) == (if added then Stored(s, id) + [token] else Stored(s, id))
  {
  }

  lemma DeleteShape(s: State, key: Id, name: string, delivery: Delivery, id: Id)
    requires key in s.memory.accounts
    ensures var t := StepDelete(s, key, name, delivery);
      var removed := key == id && !delivery.NotReached? && HasId(InMemory(s, id), name) && HasId(Stored(s, id), name);
      && InMemory(t, id) ==
         (if removed && delivery.Delivered? then WithoutId(InMemory(s, id), name) else InMemory(s, id))
      && Stored(t, id) == (if removed then WithoutId(Stored(s, id), name) else Stored(s, id))
  {
  }

  lemma KeyShape(rules: Rules, s: State, e: Event, id: Id)
    ensures var t := Next(rules, s, e);
      && InMemory(t, id) == ChangedMemory(InMemory(s, id), ChangeOf(rules, s, e, id))
      && Stored(t, id) == Changed(Stored(s, id), ChangeOf(rules, s, e, id))
  {
    if e.Publication? && e.who in s.pending {
      PublicationKeepsKeys(rules, s, e.who, id);
    } else if e.IssueKey? && e.id in s.memory.accounts {
      IssueShape(s, e.id, e.token, e.delivery, id);
    } else if e.DeleteKey? && e.id in s.memory.accounts {
      DeleteShape(s, e.id, e.displayId, e.delivery, id);
    }
  }

  lemma UsedGrows(rules: Rules, s: State, e: Event, id: Id)
    ensures s.used <= Next(rules, s, e).used
    ensures var change := ChangeOf(rules, s, e, id);
      change.Added? ==> change.token.jti !in s.used && change.token.jti in Next(rules, s, e).used
  {
  }

  /** The change fits the keys it is applied to. */
  ghost predicate Fits(memory: seq<Token>, stored: seq<Token>, used: set<Jti>, change: Change) {
    match change
    case Same => true
    case Added(token, _) => Find(memory, token.id) == Find(stored, token.id) == None && token.jti !in used
    case Removed(name, _) => Find(memory, name).Some? && Find(stored, name).Some?
  }

  lemma ChangeFits(rules: Rules, s: State, e: Event, id: Id)
    ensures Fits(InMemory(s, id), Stored(s, id), s.used, ChangeOf(rules, s, e, id))
  {
    if e.IssueKey? {
      FindIsHas(InMemory(s, id), e.token.id);
      FindIsHas(Stored(s, id), e.token.id);
    } else if e.DeleteKey? {
      FindIsHas(InMemory(s, id), e.displayId);
      FindIsHas(Stored(s, id), e.displayId);
    }
  }

  /** How a change shows under a display identifier. */
  lemma FindChanged(tokens: seq<Token>, change: Change, name: string)
    requires DistinctIds(tokens) && (change.Added? ==> Find(tokens, change.token.id).None?)
    ensures Find(Changed(tokens, change), name) ==
      if change.Added? && change.token.id == name then Some(change.token)
      else if change.Removed? && change.name == name then None
      else Find(tokens, name)
  {
    match change
    case Same =>
    case Added(token, _) => FindMore(tokens, token, name);
    case Removed(gone, _) => FindWithout(tokens, gone, name);
  }

  lemma ChangedIsDistinct(tokens: seq<Token>, change: Change)
    requires DistinctIds(tokens) && (change.Added? ==> Find(tokens, change.token.id).None?)
    ensures DistinctIds(Changed(tokens, change))
    ensures forall token :: token in Changed(tokens, change) ==>
      token in tokens || (change.Added? && token == change.token)
  {
    match change
    case Same =>
    case Added(token, _) => FindIsHas(tokens, token.id);
    case Removed(gone, _) => FindWithout(tokens, gone, "");
  }

  lemma KeyedChange(memory: seq<Token>, stored: seq<Token>, used: set<Jti>, change: Change, later: set<Jti>)
    requires Keyed(memory, stored, used) && Fits(memory, stored, used, change)
    requires used <= later && (change.Added? ==> change.token.jti in later)
    ensures Keyed(ChangedMemory(memory, change), Changed(stored, change), later)
  {
    ChangedIsDistinct(memory, change);
    ChangedIsDistinct(stored, change);
    var m, k := ChangedMemory(memory, change), Changed(stored, change);
    forall name | Find(m, name).Some? && Find(k, name).Some? ensures Find(m, name) == Find(k, name) {
      FindChanged(memory, change, name);
      FindChanged(stored, change, name);
    }
    forall token | Either(token, m, k)
      ensures Either(token, memory, stored) || (change.Added? && token == change.token)
    {
    }
  }

  lemma KeyedNext(rules: Rules, s: State, e: Event)
    requires AllKeyed(s)
    ensures AllKeyed(Next(rules, s, e))
  {
    var t := Next(rules, s, e);
    forall id ensures Keyed(InMemory(t, id), Stored(t, id), t.used) {
      KeyShape(rules, s, e, id);
      UsedGrows(rules, s, e, id);
      ChangeFits(rules, s, e, id);
      KeyedChange(InMemory(s, id), Stored(s, id), s.used, ChangeOf(rules, s, e, id), t.used);
    }
  }

  /** A lost call is one whose change the store has and memory has not. */
  lemma LostIsUnacknowledged(rules: Rules, s: State, e: Event, id: Id, name: string)
    ensures var change := ChangeOf(rules, s, e, id);
      LostCall(rules, s, e, id, name) <==>
        !change.Same? && !change.acknowledged && name == if change.Added? then change.token.id else change.name
  {
    if (e.IssueKey? || e.DeleteKey?) && e.id == id {
      KeyShape(rules, s, e, id);
      if ChangeOf(rules, s, e, id).Removed? {
        ShorterWithout(Stored(s, id), e.displayId);
      }
    }
  }

  lemma {:induction false} ShorterWithout(tokens: seq<Token>, name: string)
    requires HasId(tokens, name)
    ensures |WithoutId(tokens, name)| < |tokens|
  {
    if tokens[0].id != name {
      var k :| 0 <= k < |tokens| && tokens[k].id == name;
      assert tokens[1..][k - 1].id == name;
      ShorterWithout(tokens[1..], name);
    }
  }

  /** One step: agreement is lost exactly by a lost call, and a disagreement is beyond repair. */
  lemma AgreeNext(rules: Rules, s: State, e: Event, id: Id, name: string)
    requires AllKeyed(s)
    ensures var t := Next(rules, s, e);
      && (Agree(t, id, name) <==> Agree(s, id, name) && !LostCall(rules, s, e, id, name))
      && (!Agree(s, id, name) ==>
            Find(InMemory(t, id), name) == Find(InMemory(s, id), name)
              && Find(Stored(t, id), name) == Find(Stored(s, id), name))
  {
    var memory, stored, change := InMemory(s, id), Stored(s, id), ChangeOf(rules, s, e, id);
    assert Keyed(memory, stored, s.used);
    KeyShape(rules, s, e, id);
    ChangeFits(rules, s, e, id);
    LostIsUnacknowledged(rules, s, e, id, name);
    FindChanged(memory, change, name);
    FindChanged(stored, change, name);
  }

  // ----- whole runs -----

  /** A manager as NewCredentialManager leaves it: all durable accounts published with their keys. */
  ghost predicate Initial(rules: Rules, s: State) {
    && Sound(rules, s.profiles) && Indexed(s.memory) && s.pending == map[] && AllKeyed(s)
    && s.memory.accounts.Keys == s.profiles.Keys
    && (forall id :: id in s.profiles ==> s.memory.accounts[id].profile == s.profiles[id])
    && forall id :: InMemory(s, id) == Stored(s, id)
  }

  lemma {:induction false} InvRun(rules: Rules, start: State, events: seq<Event>)
    requires Initial(rules, start)
    ensures var s := Run(rules, start, events);
      Sound(rules, s.profiles) && Indexed(s.memory) && Mirrors(rules, s) && AllKeyed(s)
  {
    if events != [] {
      var s, e := Run(rules, start, events[..|events| - 1]), events[|events| - 1];
      InvRun(rules, start, events[..|events| - 1]);
      SoundNext(rules, s, e);
      IndexedNext(rules, s, e);
      MirrorsNext(rules, s, e);
      KeyedNext(rules, s, e);
    }
  }

  /** In every reachable state the index maps an identity to an account exactly when that account holds
      it, and that account is the one that holds it in the store. */
  lemma IndexIsExact(rules: Rules, start: State, events: seq<Event>, key: Key, id: Id)
    requires Initial(rules, start)
    ensures var m := Run(rules, start, events).memory;
      (key in m.index && m.index[key] == id) <==>
      (id in m.accounts && HasExternalIdentity(rules, m.accounts[id].profile) && KeyOf(m.accounts[id].profile) == key)
    ensures var s := Run(rules, start, events);
      key in s.memory.index ==> s.memory.index[key] in s.profiles && KeyOf(s.profiles[s.memory.index[key]]) == key
  {
    InvRun(rules, start, events);
    var s := Run(rules, start, events);
    if id in s.memory.accounts {
      PublishableIsExternal(rules, id, s.memory.accounts[id].profile);
    }
  }

  /** Some call on this display identifier changed the store without its reply arriving. */
  ghost predicate Lost(rules: Rules, start: State, events: seq<Event>, id: Id, name: string) {
    Occurs(events, (before, e) => LostCall(rules, Run(rules, start, before), e, id, name))
  }

  /** Over every run, memory and store agree on a display identifier of an account if and only if no call
      on it took effect with its reply lost. */
  lemma {:induction false} KeysAgreeIff(rules: Rules, start: State, events: seq<Event>, id: Id, name: string)
    requires Initial(rules, start)
    ensures Agree(Run(rules, start, events), id, name) <==> !Lost(rules, start, events, id, name)
  {
    if events != [] {
      var init := events[..|events| - 1];
      KeysAgreeIff(rules, start, init, id, name);
      InvRun(rules, start, init);
      AgreeNext(rules, Run(rules, start, init), events[|events| - 1], id, name);
      OccursStep(events, (before, e) => LostCall(rules, Run(rules, start, before), e, id, name));
    }
  }

  /** A disagreement is permanent: no later event changes either side. */
  lemma {:induction false} DivergenceStays(rules: Rules, start: State, events: seq<Event>, more: seq<Event>, id: Id,
          name: string)
    requires Initial(rules, start) && !Agree(Run(rules, start, events), id, name)
    ensures var s, t := Run(rules, start, events), Run(rules, start, events + more);
      Find(InMemory(t, id), name) == Find(InMemory(s, id), name)
        && Find(Stored(t, id), name) == Find(Stored(s, id), name)
    decreases |more|
  {
    if more == [] {
      assert events + more == events;
    } else {
      var init := more[..|more| - 1];
      assert (events + more)[..|events + more| - 1] == events + init;
      DivergenceStays(rules, start, events, init, id, name);
      InvRun(rules, start, events + init);
      AgreeNext(rules, Run(rules, start, events + init), more[|more| - 1], id, name);
    }
  }

  /** A key identifier validates in a state exactly if memory has its key under its display identifier. */
  lemma ValidatesIsFound(rules: Rules, s: State, id: Id, token: Token)
    requires Keyed(InMemory(s, id), Stored(s, id), s.used) && Either(token, InMemory(s, id), Stored(s, id))
    ensures Validates(rules, s.memory, id, ApiKey(token.jti)) <==> Find(InMemory(s, id), token.id) == Some(token)
    ensures HasJti(Stored(s, id), token.jti) <==> Find(Stored(s, id), token.id) == Some(token)
  {
    JtiIsFound(InMemory(s, id), InMemory(s, id), Stored(s, id), s.used, token);
    JtiIsFound(Stored(s, id), InMemory(s, id), Stored(s, id), s.used, token);
  }

  lemma JtiIsFound(tokens: seq<Token>, memory: seq<Token>, stored: seq<Token>, used: set<Jti>, token: Token)
    requires Keyed(memory, stored, used) && Either(token, memory, stored) && (tokens == memory || tokens == stored)
    ensures HasJti(tokens, token.jti) <==> Find(tokens, token.id) == Some(token)
  {
    if HasJti(tokens, token.jti) {
      var k :| 0 <= k < |tokens| && tokens[k].jti == token.jti;
      assert Either(tokens[k], memory, stored);
      FindMember(tokens, token);
    }
    FindIsHas(tokens, token.id);
  }

  /** A key validates exactly while the store has it, if and only if no call on its display identifier took
      effect with its reply lost. */
  lemma KeyValidatesIff(rules: Rules, start: State, events: seq<Event>, id: Id, token: Token)
    requires Initial(rules, start)
    requires var s := Run(rules, start, events); Either(token, InMemory(s, id), Stored(s, id))
    ensures var s := Run(rules, start, events);
      (Validates(rules, s.memory, id, ApiKey(token.jti)) <==> HasJti(Stored(s, id), token.jti)) <==>
        !Lost(rules, start, events, id, token.id)
  {
    var s := Run(rules, start, events);
    InvRun(rules, start, events);
    assert Keyed(InMemory(s, id), Stored(s, id), s.used);
    ValidatesIsFound(rules, s, id, token);
    KeysAgreeIff(rules, start, events, id, token.id);
    if token in InMemory(s, id) {
      FindMember(InMemory(s, id), token);
    } else {
      FindMember(Stored(s, id), token);
    }
  }

  /** A deletion whose reply is lost: the store no longer has the key, and it validates ever after. */
  lemma LostDeletion(rules: Rules, start: State, id: Id, token: Token, more: seq<Event>)
    requires Initial(rules, start) && token in Stored(start, id)
    ensures var s := Run(rules, start, [DeleteKey(id, token.id, ReplyLost)] + more);
      Validates(rules, s.memory, id, ApiKey(token.jti)) && Find(Stored(s, id), token.id) == None
  {
    var events := [DeleteKey(id, token.id, ReplyLost)];
    var none: seq<Event> := [];
    assert events[..0] == none && Run(rules, start, none) == start;
    assert Keyed(InMemory(start, id), Stored(start, id), start.used);
    FindMember(Stored(start, id), token);
    FindIsHas(Stored(start, id), token.id);
    KeyShape(rules, start, events[0], id);
    FindWithout(Stored(start, id), token.id, token.id);
    DivergenceStays(rules, start, events, more, id, token.id);
    FindIsHas(InMemory(Run(rules, start, events + more), id), token.id);
  }

  /** An issue whose reply is lost: the store has the key, and it never validates. */
  lemma LostIssue(rules: Rules, start: State, id: Id, token: Token, more: seq<Event>)
    requires Initial(rules, start) && id in start.memory.accounts && rules.displayId(token.id)
    requires token.jti !in start.used
    requires !HasId(Stored(start, id), token.id)
    ensures var s := Run(rules, start, [IssueKey(id, token, ReplyLost)] + more);
      !Validates(rules, s.memory, id, ApiKey(token.jti)) && HasJti(Stored(s, id), token.jti)
  {
    var events := [IssueKey(id, token, ReplyLost)];
    var none: seq<Event> := [];
    assert events[..0] == none && Run(rules, start, none) == start;
    FindIsHas(Stored(start, id), token.id);
    KeyShape(rules, start, events[0], id);
    FindMore(Stored(start, id), token, token.id);
    DivergenceStays(rules, start, events, more, id, token.id);
    InvRun(rules, start, events + more);
    var s := Run(rules, start, events + more);
    assert Keyed(InMemory(s, id), Stored(s, id), s.used);
    FindIsHas(Stored(s, id), token.id);
    ValidatesIsFound(rules, s, id, token);
  }

  lemma KeysKeepProfiles(rules: Rules, s: State, e: Event, id: Id)
    requires !e.Publication? && id in s.memory.accounts
    ensures var t := Next(rules, s, e);
      id in t.memory.accounts && t.memory.accounts[id].profile == s.memory.accounts[id].profile
  {
  }

  lemma AccountStays(rules: Rules, s: State, e: Event, id: Id)
    requires Sound(rules, s.profiles) && Indexed(s.memory) && Mirrors(rules, s) && id in s.memory.accounts
    ensures var t := Next(rules, s, e);
      id in t.memory.accounts && SameIdentity(s.memory.accounts[id].profile, t.memory.accounts[id].profile)
  {
    if !e.Publication? {
      KeysKeepProfiles(rules, s, e, id);
    } else if e.who in s.pending {
      PublicationSucceeds(rules, s, e.who);
      KeyIsFree(rules, s, e.who);
    }
  }

  /** Username, provider, subject and role never change after publication. */
  lemma {:induction false} IdentityIsPermanent(rules: Rules, start: State, events: seq<Event>, more: seq<Event>, id: Id)
    requires Initial(rules, start) && id in Run(rules, start, events).memory.accounts
    ensures var m, n := Run(rules, start, events).memory, Run(rules, start, events + more).memory;
      id in n.accounts && SameIdentity(m.accounts[id].profile, n.accounts[id].profile)
    decreases |more|
  {
    if more == [] {
      assert events + more == events;
    } else {
      var init := more[..|more| - 1];
      assert (events + more)[..|events + more| - 1] == events + init;
      IdentityIsPermanent(rules, start, events, init, id);
      InvRun(rules, start, events + init);
      AccountStays(rules, Run(rules, start, events + init), more[|more| - 1], id);
    }
  }

  /** So the session of a login keeps validating, for that login's account and no other. */
  lemma SessionsStayValid(rules: Rules, start: State, events: seq<Event>, more: seq<Event>, id: Id, other: Id,
          binding: Key)
    requires Initial(rules, start) && Validates(rules, Run(rules, start, events).memory, id, LoginSession(binding))
    ensures Validates(rules, Run(rules, start, events + more).memory, other, LoginSession(binding)) <==> other == id
  {
    var m, n := Run(rules, start, events).memory, Run(rules, start, events + more).memory;
    IdentityIsPermanent(rules, start, events, more, id);
    InvRun(rules, start, events);
    InvRun(rules, start, events + more);
    PublishableIsExternal(rules, id, m.accounts[id].profile);
    PublishableIsExternal(rules, id, n.accounts[id].profile);
    if other in n.accounts {
      PublishableIsExternal(rules, other, n.accounts[other].profile);
    }
  }

  // ----- what is registered and published -----

  /** Every account in memory or in the store is a proper one. */
  lemma AccountsAreProper(rules: Rules, start: State, events: seq<Event>, id: Id)
    requires Initial(rules, start)
    ensures var s := Run(rules, start, events);
      && (id in s.memory.accounts ==> ProperAccount(rules, id, s.memory.accounts[id].profile))
      && (id in s.profiles ==> ProperAccount(rules, id, s.profiles[id]))
  {
    InvRun(rules, start, events);
    var s := Run(rules, start, events);
    if id in s.memory.accounts {
      PublishableIff(rules, id, s.memory.accounts[id].profile);
    }
    if id in s.profiles {
      PublishableIff(rules, id, s.profiles[id]);
    }
  }

  /** Nobody has this provider, subject and role. */
  ghost predicate Free(profiles: map<Id, Profile>, p: Profile) {
    forall id :: id in profiles ==>
      profiles[id].provider != p.provider || profiles[id].subject != p.subject
      || profiles[id].administrator != p.administrator
  }

  /** A new account is stored exactly when it is a proper Google or wallet account whose identity and lower-case name
      nobody has, and is not a second administrator. */
  lemma RegisteredIff(rules: Rules, s: State, who: nat, id: Id, profile: Profile)
    requires Sound(rules, s.profiles) && who !in s.pending && id !in s.profiles
    ensures var t := Next(rules, s, Register(who, id, profile));
      && (id in t.profiles <==>
            && ProperAccount(rules, id, profile) && profile.provider != Development && Free(s.profiles, profile)
            && forall other :: other in s.profiles ==>
                 && rules.lower(s.profiles[other].username) != rules.lower(profile.username)
                 && !(s.profiles[other].administrator && profile.administrator))
      && (id in t.profiles ==> t.profiles == s.profiles[id := profile] && who in t.pending
                               && t.pending[who] == Pending(id, profile))
  {
    PublishableIff(rules, id, profile);
    if Publishable(rules, id, profile) {
      PublishableIsExternal(rules, id, profile);
    }
    if id' :| id' in s.profiles && KeyOf(s.profiles[id']) == KeyOf(profile) {
      PublishableIsExternal(rules, id', s.profiles[id']);
      assert Publishable(rules, id, profile) && HasExternalIdentity(rules, profile) ==>
          Taken(rules, s.profiles, KeyOf(profile));
    }
  }

  /** Usernames differ in more than case, and there is one administrator at most. */
  ghost predicate NamesDiffer(rules: Rules, profiles: map<Id, Profile>) {
    forall i, j :: i in profiles && j in profiles && i != j ==>
      && rules.lower(profiles[i].username) != rules.lower(profiles[j].username)
      && !(profiles[i].administrator && profiles[j].administrator)
  }

  lemma {:induction false} NamesStayUnique(rules: Rules, start: State, events: seq<Event>)
    requires NamesDiffer(rules, start.profiles)
    ensures NamesDiffer(rules, Run(rules, start, events).profiles)
  {
    if events != [] {
      NamesStayUnique(rules, start, events[..|events| - 1]);
      NamesNext(rules, Run(rules, start, events[..|events| - 1]), events[|events| - 1]);
    }
  }

  lemma NamesNext(rules: Rules, s: State, e: Event)
    requires NamesDiffer(rules, s.profiles)
    ensures NamesDiffer(rules, Next(rules, s, e).profiles)
  {
  }

  lemma Snoc(rules: Rules, start: State, events: seq<Event>, e: Event)
    ensures Run(rules, start, events + [e]) == Next(rules, Run(rules, start, events), e)
  {
    assert (events + [e])[..|events|] == events;
  }

  /** What a request has read or written is published by its next step, with the keys the account has in memory. */
  lemma PendingIsPublished(rules: Rules, start: State, events: seq<Event>, who: nat)
    requires Initial(rules, start) && who in Run(rules, start, events).pending
    ensures var s, t := Run(rules, start, events), Run(rules, start, events + [Publication(who)]);
      var Pending(id, profile) := s.pending[who];
      && id in t.memory.accounts && t.memory.accounts[id] == Account(profile, InMemory(s, id))
      && (External(profile) ==> KeyOf(profile) in t.memory.index && t.memory.index[KeyOf(profile)] == id)
  {
    InvRun(rules, start, events);
    Snoc(rules, start, events, Publication(who));
    PublicationSucceeds(rules, Run(rules, start, events), who);
  }

  /** A request may read any stored row, or record a login that leaves a proper account. */
  lemma LoginIsRecorded(rules: Rules, s: State, who: nat, id: Id, email: string, at: int)
    requires who !in s.pending && id in s.profiles
    ensures var t := Next(rules, s, Event.Find(who, id));
      who in t.pending && t.pending[who] == Pending(id, s.profiles[id])
    ensures var t, row := Next(rules, s, RecordLogin(who, id, email, at)),
                          s.profiles[id].(email := email, lastLogin := at);
      if ProperAccount(rules, id, row)
      then t == s.(profiles := s.profiles[id := row], pending := s.pending[who := Pending(id, row)]) else t == s
  {
    PublishableIff(rules, id, s.profiles[id].(email := email, lastLogin := at));
  }
}

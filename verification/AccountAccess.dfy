/** internal/accountaccess: the access aggregate of an account, its validation, the authorization
    rule, and the controller that publishes durable aggregates to the process. */
module AccountAccess {
  import opened Prelude

  type Id = string

  const MAX_INT64 := 0x7fff_ffff_ffff_ffff

  // Modules and levels are open string types in the source, so other values stay representable.
  datatype Module =
    | MarketRadar | SportsLive | SportsHistory | ManagedOO | WormMarkets | WormTrading | WorldCupCorners
    | Token | Wallet
    | OtherModule(name: string)
  datatype Level = NoAccess | Read | ReadWrite | OtherLevel(name: string)

  const ALL_MODULES: seq<Module> :=
    [MarketRadar, SportsLive, SportsHistory, ManagedOO, WormMarkets, WormTrading, WorldCupCorners, Token, Wallet]

  datatype Access = Access(
    administrator: bool, login: bool, apiKey: bool, profitSharing: bool, modules: map<Module, Level>, revision: nat)

  function MaxLevel(m: Module): Option<Level> {
    match m
    case MarketRadar | SportsLive | WormMarkets | WorldCupCorners => Some(Read)
    case SportsHistory | ManagedOO | WormTrading | Token | Wallet => Some(ReadWrite)
    case OtherModule(_) => None
  }

  predicate ValidLevel(m: Module, level: Level) {
    MaxLevel(m).Some? && (level == NoAccess || level == Read || (level == ReadWrite && MaxLevel(m) == Some(ReadWrite)))
  }

  /** Access.Validate: the number of modules, only known modules, every module with a permitted level,
      and the fixed shape of an administrator. */
  predicate Valid(a: Access) {
    && |a.modules| == |ALL_MODULES|
    && (forall m :: m in a.modules ==> MaxLevel(m).Some?)
    && (forall k :: 0 <= k < |ALL_MODULES| ==>
          ALL_MODULES[k] in a.modules && ValidLevel(ALL_MODULES[k], a.modules[ALL_MODULES[k]]))
    && (a.administrator ==>
          a.login && !a.apiKey && !a.profitSharing && forall m :: m in a.modules ==> a.modules[m] == NoAccess)
  }

  /** Some modules can be written to, the others only be read. */
  ghost predicate Permitted(m: Module, level: Level) {
    && !m.OtherModule?
    && (level == NoAccess || level == Read
        || (level == ReadWrite && m in {SportsHistory, ManagedOO, WormTrading, Token, Wallet}))
  }

  /** A valid aggregate has exactly one permitted level for every product module and for nothing else; an
      administrator's has a fixed shape without any business access. */
  lemma ValidIsComplete(a: Access)
    ensures Valid(a) <==>
      && (forall m :: m in a.modules <==> !m.OtherModule?)
      && (forall m :: m in a.modules ==> Permitted(m, a.modules[m]))
      && (a.administrator ==>
            a.login && !a.apiKey && !a.profitSharing && forall m :: m in a.modules ==> a.modules[m] == NoAccess)
  {
    if Valid(a) {
      forall m: Module | !m.OtherModule? ensures m in a.modules && Permitted(m, a.modules[m]) {
        var k := IndexOf(m);
        assert ALL_MODULES[k] == m;
      }
    }
    if forall m :: m in a.modules <==> !m.OtherModule? {
      NineModules(a.modules);
    }
  }

  lemma NineModules(modules: map<Module, Level>)
    requires forall m :: m in modules <==> !m.OtherModule?
    ensures |modules| == 9
  {
    assert modules.Keys ==
      {MarketRadar, SportsLive, SportsHistory, ManagedOO, WormMarkets, WormTrading, WorldCupCorners, Token, Wallet};
    assert |modules| == |modules.Keys|;
  }

  function IndexOf(m: Module): (k: nat)
    requires !m.OtherModule?
    ensures k < |ALL_MODULES| && ALL_MODULES[k] == m
  {
    match m
    case MarketRadar => 0 case SportsLive => 1 case SportsHistory => 2 case ManagedOO => 3 case WormMarkets => 4
    case WormTrading => 5 case WorldCupCorners => 6 case Token => 7 case Wallet => 8
  }

  // ----- authorization -----

  datatype Requirement = Requirement(
    administrator: bool, profitSharing: bool, target: Option<Module>, level: Option<Level>)

  datatype Verdict = Allowed | Denied | UnknownAccount | BadRequirement | MissingModule

  predicate ValidRequirement(r: Requirement) {
    if r.administrator then !r.profitSharing && r.target.None? && r.level.None?
    else if r.profitSharing then r.target.None? && r.level.None?
    else
      && (r.level == Some(Read) || r.level == Some(ReadWrite))
      && r.target.Some? && ValidLevel(r.target.value, r.level.value)
  }

  predicate Satisfies(effective: Level, required: Level) {
    if required == Read then effective == Read || effective == ReadWrite
    else required == ReadWrite && effective == ReadWrite
  }

  function Authorize(published: map<Id, Access>, id: Id, r: Requirement): Verdict {
    if !ValidRequirement(r) then BadRequirement
    else if id !in published then UnknownAccount
    else
      var a := published[id];
      if r.administrator then if a.administrator then Allowed else Denied
      else if r.profitSharing then if a.profitSharing then Allowed else Denied
      else if r.target.value !in a.modules then MissingModule
      else if Satisfies(a.modules[r.target.value], r.level.value) then Allowed else Denied
  }

  /** The levels form a hierarchy. */
  function Rank(level: Level): int {
    match level case NoAccess => 0 case Read => 1 case ReadWrite => 2 case OtherLevel(_) => -1
  }

  /** A requirement is one of three kinds of rule. */
  lemma RequirementIsOneRule(r: Requirement)
    ensures ValidRequirement(r) <==>
      || r == Requirement(true, false, None, None)
      || r == Requirement(false, true, None, None)
      || (exists m, level :: r == Requirement(false, false, Some(m), Some(level))
            && Permitted(m, level) && (level == Read || level == ReadWrite))
  {
    if ValidRequirement(r) && !r.administrator && !r.profitSharing {
      assert r == Requirement(false, false, Some(r.target.value), Some(r.level.value));
      assert Permitted(r.target.value, r.level.value);
    }
  }

  /** Every answer. Invalid requirements come first, then unknown accounts. The administrator rule is for
      administrators alone, the profit-sharing rule for those who have it, and a module rule follows the order of
      levels. */
  lemma AuthorizeIsOrder(published: map<Id, Access>, id: Id, r: Requirement)
    ensures Authorize(published, id, r) == BadRequirement <==> !ValidRequirement(r)
    ensures Authorize(published, id, r) == UnknownAccount <==> ValidRequirement(r) && id !in published
    ensures ValidRequirement(r) && id in published ==>
      var a, v := published[id], Authorize(published, id, r);
      && (r.administrator ==> v == if a.administrator then Allowed else Denied)
      && (r.profitSharing ==> v == if a.profitSharing then Allowed else Denied)
      && (r.target.Some? && r.target.value !in a.modules ==> v == MissingModule)
      && (r.target.Some? && r.target.value in a.modules ==>
            v == if Rank(a.modules[r.target.value]) >= Rank(r.level.value) then Allowed else Denied)
      // For valid aggregates no module is missing, and administrators pass the administrator rule only.
      && (Valid(a) ==> v != MissingModule && (a.administrator ==> (v == Allowed <==> r.administrator)))
  {
    if id in published && Valid(published[id]) {
      ValidIsComplete(published[id]);
      RequirementIsOneRule(r);
    }
  }

  // ----- steps of the controller -----

  datatype Failure = NotFound | InvalidArgument | Conflict | StoreError

  /** Update's checks before it turns to the store. */
  function CheckUpdate(published: map<Id, Access>, id: Id, next: Access, expected: nat): Option<Failure> {
    if next.revision != expected || expected >= MAX_INT64 || !Valid(next) then Some(InvalidArgument)
    else if id !in published then Some(NotFound)
    else if published[id].administrator then Some(InvalidArgument)
    else if published[id].revision != expected then Some(Conflict)
    else None
  }

  /** What every update must look like. */
  predicate Offered(next: Access, expected: nat) {
    next.revision == expected < 0x7fff_ffff_ffff_ffff && Valid(next)
  }

  /** The store's compare-and-set on the revision, which also refuses administrators on either side. */
  function CompareAndSet(durable: map<Id, Access>, id: Id, next: Access, expected: nat): Result<Access, Failure> {
    if expected == 0 || expected >= MAX_INT64 || next.revision != expected || next.administrator || !Valid(next)
    then Err(StoreError)
    else if id !in durable || durable[id].administrator || durable[id].revision != expected then Err(Conflict)
    else Ok(next.(revision := expected + 1))
  }

  /** Register's locked section: a newer revision that is already published is never overwritten. */
  function PublishNewer(published: map<Id, Access>, id: Id, persisted: Access): map<Id, Access> {
    if id !in published || published[id].revision < persisted.revision then published[id := persisted] else published
  }

  predicate Persistable(a: Access) {
    a.revision != 0 && Valid(a)
  }

  class Store {
    var durable: map<Id, Access>

    constructor (rows: map<Id, Access>)
      ensures durable == rows
    {
      durable := rows;
    }

    method UpdateAccountAccess(id: Id, next: Access, expected: nat) returns (r: Result<Access, Failure>)
      modifies this
      ensures r.Ok? <==>
        && 0 < expected && Offered(next, expected) && !next.administrator
        && id in old(durable) && !old(durable)[id].administrator && old(durable)[id].revision == expected
      ensures r.Ok? ==> r.value == next.(revision := expected + 1) && durable == old(durable)[id := r.value]
      ensures r.Err? ==> durable == old(durable)
      // A revision is spent once: of all updates based on it, no second one succeeds.
      ensures r.Ok? ==> forall other :: CompareAndSet(durable, id, other, expected).Err?
      ensures r == CompareAndSet(old(durable), id, next, expected)
    {
      if expected == 0 || expected >= MAX_INT64 || next.revision != expected || next.administrator || !Valid(next) {
        return Err(StoreError);
      }
      if id !in durable || durable[id].administrator || durable[id].revision != expected {
        return Err(Conflict);
      }
      var persisted := next.(revision := durable[id].revision + 1);
      durable := durable[id := persisted];
      return Ok(persisted);
    }
  }

  /** The process-local snapshot. The methods are the source's, one call at a time; AccountAccessRuns
      interleaves their steps. */
  class Controller {
    var access: map<Id, Access>

    constructor (store: Store)
      requires forall id :: id in store.durable ==> Persistable(store.durable[id])
      ensures access == store.durable
    {
      access := store.durable;
    }

    method Register(store: Store, id: Id) returns (r: Result<Access, Failure>)
      modifies this
      ensures id !in store.durable ==> r == Err(StoreError) && access == old(access)
      ensures id in store.durable && !Persistable(store.durable[id]) ==> r == Err(StoreError) && access == old(access)
      ensures id in store.durable && Persistable(store.durable[id]) ==>
        access == PublishNewer(old(access), id, store.durable[id]) && r == Ok(access[id])
    {
      if id !in store.durable {
        return Err(StoreError);
      }
      var persisted := store.durable[id];
      if persisted.revision == 0 || !Valid(persisted) {
        return Err(StoreError);
      }
      if id !in access || access[id].revision < persisted.revision {
        access := access[id := persisted];
      }
      return Ok(access[id]);
    }

    method Update(store: Store, id: Id, next: Access, expected: nat) returns (r: Result<Access, Failure>)
      modifies this, store
      // Only an update based on the aggregate that is both published and durable succeeds.
      ensures r.Ok? ==>
        && id in old(access) && id in old(store.durable)
        && !old(access)[id].administrator && !old(store.durable)[id].administrator
        && old(access)[id].revision == old(store.durable)[id].revision == expected > 0
      // It then raises the revision by one, durably and in the snapshot, and leaves all other accounts alone.
      ensures r.Ok? ==>
        && Offered(next, expected) && r.value == next.(revision := expected + 1) && Persistable(r.value)
        && access == old(access)[id := r.value] && store.durable == old(store.durable)[id := r.value]
      ensures r.Err? ==> access == old(access) && store.durable == old(store.durable)
      // And every such update succeeds.
      ensures id in old(access) && id in old(store.durable) && old(access)[id] == old(store.durable)[id]
              && Offered(next, expected) && !next.administrator
              && !old(access)[id].administrator && old(access)[id].revision == expected > 0
              ==> r.Ok?
      ensures r == Err(NotFound) <==> Offered(next, expected) && id !in old(access)
      ensures r == Err(InvalidArgument) <==>
        !Offered(next, expected) || (id in old(access) && old(access)[id].administrator)
      // The two steps that AccountAccessRuns takes.
      ensures var refused := CheckUpdate(old(access), id, next, expected);
        r == if refused.Some? then Err(refused.value) else CompareAndSet(old(store.durable), id, next, expected)
    {
      if next.revision != expected || expected >= MAX_INT64 || !Valid(next) {
        return Err(InvalidArgument);
      }
      if id !in access {
        return Err(NotFound);
      }
      if access[id].administrator {
        return Err(InvalidArgument);
      }
      if access[id].revision != expected {
        return Err(Conflict);
      }
      r := store.UpdateAccountAccess(id, next, expected);
      if r.Ok? {
        assert r.value.revision > expected && Valid(r.value);
        access := access[id := r.value];
      }
    }
  }
}

/** Update and Register as interleaving steps over one durable store. Updates hold their own mutex
    from check to publication; registrations read the store and publish later. */
module AccountAccessRuns {
  import opened Prelude
  import opened AccountAccess

  datatype Updater = Idle | Checked(id: Id, next: Access, expected: nat) | Committed(id: Id, persisted: Access)

  /** `current` tells whether the read came after the last commit of the account whose reply was lost. */
  datatype Pending = Pending(id: Id, persisted: Access, current: bool)

  /** `lost` are the accounts whose last effective commit ended with its reply lost, and for which no
      registration that read the store after that commit has published since. */
  datatype State = State(
    durable: map<Id, Access>, published: map<Id, Access>, updater: Updater, registrars: map<nat, Pending>,
    lost: set<Id>)

  datatype Event =
    | CreateAccount(id: Id, access: Access)
    | BeginUpdate(id: Id, next: Access, expected: nat)
    | CommitUpdate(delivery: Delivery)
    | PublishUpdate
    | ReadAccess(who: nat, id: Id)
    | PublishAccess(who: nat)

  /** NewController: everything durable is loaded, after validation. */
  function Start(durable: map<Id, Access>): State {
    State(durable, durable, Idle, map[], {})
  }

  function StepCommit(s: State, delivery: Delivery): State
    requires s.updater.Checked?
  {
    var Checked(id, next, expected) := s.updater;
    match CompareAndSet(s.durable, id, next, expected)
    case Err(_) => s.(updater := Idle)
    case Ok(persisted) =>
      if delivery.NotReached? then s.(updater := Idle)
      else
        var t := s.(durable := s.durable[id := persisted]);
        if delivery.Delivered? then t.(updater := Committed(id, persisted), lost := s.lost - {id})
        else t.(updater := Idle, registrars := Outdated(s.registrars, id), lost := s.lost + {id})
  }

  /** Reads of `id` that are under way came before the commit that was just lost. */
  function Outdated(registrars: map<nat, Pending>, id: Id): map<nat, Pending> {
    map who | who in registrars ::
      if registrars[who].id == id then registrars[who].(current := false) else registrars[who]
  }

  function Next(s: State, e: Event): State {
    match e
    case CreateAccount(id, access) =>
      if id in s.durable || !Persistable(access) then s
      else s.(durable := s.durable[id := access])
    case BeginUpdate(id, next, expected) =>
      if s.updater.Idle? && CheckUpdate(s.published, id, next, expected).None?
      then s.(updater := Checked(id, next, expected)) else s
    case CommitUpdate(delivery) => if s.updater.Checked? then StepCommit(s, delivery) else s
    case PublishUpdate =>
      if s.updater.Committed?
      then s.(updater := Idle, published := s.published[s.updater.id := s.updater.persisted]) else s
    case ReadAccess(who, id) =>
      if who !in s.registrars && id in s.durable && Persistable(s.durable[id])
      then s.(registrars := s.registrars[who := Pending(id, s.durable[id], true)]) else s
    case PublishAccess(who) =>
      if who in s.registrars then
        var Pending(id, persisted, current) := s.registrars[who];
        s.(registrars := s.registrars - {who}, published := PublishNewer(s.published, id, persisted),
           lost := if current then s.lost - {id} else s.lost)
      else s
  }

  function Run(durable: map<Id, Access>, events: seq<Event>): State {
    if events == [] then Start(durable) else Next(Run(durable, events[..|events| - 1]), events[|events| - 1])
  }

  /** `a` is a possibly outdated copy of the durable aggregate: never newer, and identical if of the
      same revision. The administrator role is the same in every copy. */
  ghost predicate Copy(durable: map<Id, Access>, id: Id, a: Access) {
    && id in durable && a.revision <= durable[id].revision && a.administrator == durable[id].administrator
    && (a.revision == durable[id].revision ==> a == durable[id])
  }

  ghost predicate Copies(s: State) {
    && (forall id :: id in s.published ==> Copy(s.durable, id, s.published[id]))
    && (forall who :: who in s.registrars ==> Copy(s.durable, s.registrars[who].id, s.registrars[who].persisted))
  }

  ghost predicate UpdaterReady(s: State) {
    match s.updater
    case Idle => true
    case Checked(id, _, expected) => id in s.published && s.published[id].revision >= expected
    case Committed(id, persisted) => id in s.published && id in s.durable && s.durable[id] == persisted
  }

  /** Nothing updates an account that is not published yet, so what was read of it is still current. */
  ghost predicate FirstReadsCurrent(s: State) {
    forall who :: who in s.registrars && s.registrars[who].id !in s.published ==>
      s.registrars[who].id in s.durable && s.registrars[who].persisted == s.durable[s.registrars[who].id]
  }

  ghost predicate OneBehind(s: State) {
    forall id :: id in s.published ==> id in s.durable && s.durable[id].revision <= s.published[id].revision + 1
  }

  /** The snapshot lags behind the store only for the account between commit and publication and for
      accounts with a lost commit, and for the latter it does. */
  ghost predicate LagExplained(s: State) {
    && (forall id :: id in s.published && id in s.durable && s.published[id] != s.durable[id] ==>
          id in s.lost || (s.updater.Committed? && s.updater.id == id))
    && (forall id :: id in s.lost ==>
          id in s.published && id in s.durable && s.published[id].revision < s.durable[id].revision)
    && (s.updater.Committed? ==> s.updater.id !in s.lost)
  }

  /** Of an account with a lost commit, reads before the commit are older and reads after it are current. */
  ghost predicate Tagged(durable: map<Id, Access>, lost: set<Id>, p: Pending) {
    p.id in lost && p.id in durable ==>
      if p.current then p.persisted == durable[p.id] else p.persisted.revision < durable[p.id].revision
  }

  ghost predicate ReadsTagged(s: State) {
    forall who :: who in s.registrars ==> Tagged(s.durable, s.lost, s.registrars[who])
  }

  /** A commit raises the revision, so every copy becomes an older one. */
  lemma CopyOfCommit(durable: map<Id, Access>, id: Id, a: Access, key: Id, next: Access, expected: nat)
    requires Copy(durable, id, a) && CompareAndSet(durable, key, next, expected).Ok?
    ensures Copy(durable[key := CompareAndSet(durable, key, next, expected).value], id, a)
  {
  }

  lemma CopiesCommit(s: State, delivery: Delivery)
    requires Copies(s) && s.updater.Checked?
    ensures Copies(StepCommit(s, delivery))
  {
    var t := StepCommit(s, delivery);
    var Checked(key, next, expected) := s.updater;
    if t.durable != s.durable {
      forall id | id in t.published ensures Copy(t.durable, id, t.published[id]) {
        CopyOfCommit(s.durable, id, s.published[id], key, next, expected);
      }
      forall who | who in t.registrars ensures Copy(t.durable, t.registrars[who].id, t.registrars[who].persisted) {
        CopyOfCommit(s.durable, s.registrars[who].id, s.registrars[who].persisted, key, next, expected);
      }
    }
  }

  lemma CopiesNext(s: State, e: Event)
    requires Copies(s) && UpdaterReady(s)
    ensures Copies(Next(s, e))
  {
    if e.CommitUpdate? {
      if s.updater.Checked? {
        CopiesCommit(s, e.delivery);
      }
    }
  }

  lemma UpdaterNext(s: State, e: Event)
    requires Copies(s) && UpdaterReady(s)
    ensures UpdaterReady(Next(s, e))
  {
  }

  lemma FirstReadsNext(s: State, e: Event)
    requires UpdaterReady(s) && FirstReadsCurrent(s)
    ensures FirstReadsCurrent(Next(s, e))
  {
  }

  /** The store refuses to touch an administrator, so its published aggregate is always the durable one. */
  ghost predicate AdministratorsFixed(s: State) {
    forall id :: id in s.published && s.published[id].administrator ==>
      id in s.durable && s.published[id] == s.durable[id]
  }

  lemma OneBehindCommit(s: State, delivery: Delivery)
    requires UpdaterReady(s) && OneBehind(s) && s.updater.Checked?
    ensures OneBehind(StepCommit(s, delivery))
  {
  }

  lemma OneBehindNext(s: State, e: Event)
    requires Copies(s) && UpdaterReady(s) && FirstReadsCurrent(s) && OneBehind(s)
    ensures OneBehind(Next(s, e))
  {
    if e.CommitUpdate? {
      if s.updater.Checked? {
        OneBehindCommit(s, e.delivery);
      }
    }
  }

  /** No update of an account with a lost commit passes the store. */
  lemma LostIsRefused(s: State)
    requires UpdaterReady(s) && LagExplained(s) && s.updater.Checked? && s.updater.id in s.lost
    ensures CompareAndSet(s.durable, s.updater.id, s.updater.next, s.updater.expected).Err?
  {
  }

  lemma LagCommit(s: State, delivery: Delivery)
    requires Copies(s) && UpdaterReady(s) && LagExplained(s) && s.updater.Checked?
    ensures LagExplained(StepCommit(s, delivery))
  {
    if s.updater.id in s.lost {
      LostIsRefused(s);
    }
  }

  lemma TagsCommit(s: State, delivery: Delivery)
    requires Copies(s) && UpdaterReady(s) && LagExplained(s) && ReadsTagged(s) && s.updater.Checked?
    ensures ReadsTagged(StepCommit(s, delivery))
  {
    var t := StepCommit(s, delivery);
    if s.updater.id in s.lost {
      LostIsRefused(s);
    } else if t.durable != s.durable {
      forall who | who in t.registrars ensures Tagged(t.durable, t.lost, t.registrars[who]) {
        assert Tagged(s.durable, s.lost, s.registrars[who])
          && Copy(s.durable, s.registrars[who].id, s.registrars[who].persisted);
      }
    }
  }

  lemma LagPublish(s: State, who: nat)
    requires Copies(s) && FirstReadsCurrent(s) && LagExplained(s) && ReadsTagged(s) && who in s.registrars
    ensures LagExplained(Next(s, PublishAccess(who)))
  {
    var Pending(id, persisted, current) := s.registrars[who];
    assert Copy(s.durable, id, persisted);
  }

  lemma LagNext(s: State, e: Event)
    requires Copies(s) && UpdaterReady(s) && FirstReadsCurrent(s) && LagExplained(s) && ReadsTagged(s)
    ensures LagExplained(Next(s, e))
  {
    if e.CommitUpdate? && s.updater.Checked? {
      LagCommit(s, e.delivery);
    } else if e.PublishAccess? && e.who in s.registrars {
      LagPublish(s, e.who);
    }
  }

  lemma TagsNext(s: State, e: Event)
    requires Copies(s) && UpdaterReady(s) && LagExplained(s) && ReadsTagged(s)
    ensures ReadsTagged(Next(s, e))
  {
    if e.CommitUpdate? && s.updater.Checked? {
      TagsCommit(s, e.delivery);
    }
  }

  lemma {:induction false} InvRun(durable: map<Id, Access>, events: seq<Event>)
    ensures var s := Run(durable, events);
      Copies(s) && UpdaterReady(s) && FirstReadsCurrent(s) && OneBehind(s) && LagExplained(s) && ReadsTagged(s)
  {
    if events != [] {
      var s, e := Run(durable, events[..|events| - 1]), events[|events| - 1];
      InvRun(durable, events[..|events| - 1]);
      CopiesNext(s, e);
      UpdaterNext(s, e);
      FirstReadsNext(s, e);
      OneBehindNext(s, e);
      LagNext(s, e);
      TagsNext(s, e);
    }
  }

  // ----- validity -----

  /** Every aggregate anywhere in the state has property `p`. */
  ghost predicate All(s: State, p: Access -> bool) {
    && (forall id :: id in s.durable ==> p(s.durable[id]))
    && (forall id :: id in s.published ==> p(s.published[id]))
    && (forall who :: who in s.registrars ==> p(s.registrars[who].persisted))
    && (s.updater.Committed? ==> p(s.updater.persisted))
  }

  lemma WrittenIsPersistable(durable: map<Id, Access>, id: Id, next: Access, expected: nat)
    requires CompareAndSet(durable, id, next, expected).Ok?
    ensures Persistable(CompareAndSet(durable, id, next, expected).value)
  {
  }

  lemma AllNext(s: State, e: Event, p: Access -> bool)
    requires All(s, p)
    requires e.CreateAccount? && Persistable(e.access) ==> p(e.access)
    requires s.updater.Checked? ==>
      var written := CompareAndSet(s.durable, s.updater.id, s.updater.next, s.updater.expected);
      written.Ok? ==> p(written.value)
    ensures All(Next(s, e), p)
  {
  }

  lemma {:induction false} AllRun(durable: map<Id, Access>, events: seq<Event>, p: Access -> bool)
    requires (forall id :: id in durable ==> p(durable[id])) && forall a :: Persistable(a) ==> p(a)
    ensures All(Run(durable, events), p)
  {
    if events != [] {
      var s := Run(durable, events[..|events| - 1]);
      AllRun(durable, events[..|events| - 1], p);
      if s.updater.Checked? && CompareAndSet(s.durable, s.updater.id, s.updater.next, s.updater.expected).Ok? {
        WrittenIsPersistable(s.durable, s.updater.id, s.updater.next, s.updater.expected);
      }
      AllNext(s, events[|events| - 1], p);
    }
  }

  // ----- safety over whole runs -----

  /** In every interleaving a published aggregate is never newer than the durable one and at most one
      revision older. Outside the gap between commit and publication it is older if and only if the account's
      last effective commit lost its reply and no registration that read after it has published since. */
  lemma SnapshotFollowsStore(durable: map<Id, Access>, events: seq<Event>, id: Id)
    requires id in Run(durable, events).published
    ensures var s := Run(durable, events);
      && id in s.durable
      && s.published[id].revision <= s.durable[id].revision <= s.published[id].revision + 1
      && s.published[id].administrator == s.durable[id].administrator
      && (s.published[id].revision == s.durable[id].revision ==> s.published[id] == s.durable[id])
      && (!(s.updater.Committed? && s.updater.id == id) ==> (s.published[id] != s.durable[id] <==> id in s.lost))
  {
    InvRun(durable, events);
  }

  /** From `s` to `t` the published aggregate of `id` stays published, does not lose revisions, keeps
      the role, and does not change at all if it is an administrator's. */
  ghost predicate Advanced(s: State, t: State, id: Id) {
    && id in s.published && id in t.published && s.published[id].revision <= t.published[id].revision
    && s.published[id].administrator == t.published[id].administrator
    && (s.published[id].administrator ==> t.published[id] == s.published[id])
  }

  lemma AdvancedStep(s: State, e: Event, id: Id)
    requires Copies(s) && UpdaterReady(s) && FirstReadsCurrent(s) && OneBehind(s) && AdministratorsFixed(s)
    requires id in s.published
    ensures Advanced(s, Next(s, e), id)
  {
  }

  lemma AdministratorsNext(s: State, e: Event)
    requires Copies(s) && UpdaterReady(s) && FirstReadsCurrent(s) && OneBehind(s) && AdministratorsFixed(s)
    ensures AdministratorsFixed(Next(s, e))
  {
    if e.PublishAccess? && e.who in s.registrars {
      var Pending(id, persisted, current) := s.registrars[e.who];
      if id !in s.published || s.published[id].revision < persisted.revision {
        assert persisted == s.durable[id];
      }
    }
  }

  lemma {:induction false} AdministratorsRun(durable: map<Id, Access>, events: seq<Event>)
    ensures AdministratorsFixed(Run(durable, events))
  {
    if events != [] {
      AdministratorsRun(durable, events[..|events| - 1]);
      InvRun(durable, events[..|events| - 1]);
      AdministratorsNext(Run(durable, events[..|events| - 1]), events[|events| - 1]);
    }
  }

  /** Published revisions never decrease and nothing is unpublished; an administrator's aggregate never
      changes, and no account gains or loses the role. */
  lemma {:induction false} PublicationAdvances(durable: map<Id, Access>, events: seq<Event>, more: seq<Event>, id: Id)
    requires id in Run(durable, events).published
    ensures Advanced(Run(durable, events), Run(durable, events + more), id)
    decreases |more|
  {
    if more == [] {
      assert events + more == events;
    } else {
      var init, e := more[..|more| - 1], more[|more| - 1];
      assert (events + more)[..|events + more| - 1] == events + init;
      PublicationAdvances(durable, events, init, id);
      InvRun(durable, events + init);
      AdministratorsRun(durable, events + init);
      AdvancedStep(Run(durable, events + init), e, id);
    }
  }

  /** Every authorization decision sees a complete aggregate: the missing-module branch is never taken. */
  lemma AuthorizeNeverMisses(durable: map<Id, Access>, events: seq<Event>, id: Id, r: Requirement)
    requires forall id :: id in durable ==> Persistable(durable[id])
    ensures Authorize(Run(durable, events).published, id, r) != MissingModule
  {
    AllRun(durable, events, a => Persistable(a));
    if id in Run(durable, events).published {
      AuthorizeIsOrder(Run(durable, events).published, id, r);
    }
  }

  /** The lag without an update under way is real: any permitted update whose commit reply is lost
      leaves the snapshot one revision behind. */
  lemma LostReplyLags(durable: map<Id, Access>, id: Id, next: Access)
    requires id in durable && Persistable(durable[id]) && !durable[id].administrator
    requires Valid(next) && !next.administrator && next.revision == durable[id].revision < MAX_INT64
    ensures var s := Run(durable, [BeginUpdate(id, next, next.revision), CommitUpdate(ReplyLost)]);
      s.updater.Idle? && id in s.published && id in s.durable && s.durable[id].revision == s.published[id].revision + 1
  {
    var begin, commit := BeginUpdate(id, next, next.revision), CommitUpdate(ReplyLost);
    assert [begin, commit][..1] == [begin] && [begin][..0] == [];
    assert Run(durable, [begin]) == Next(Start(durable), begin);
  }

  /** From then on updates at the published revision are refused by the store, until a registration
      publishes the durable aggregate again. */
  lemma LostReplyStalls(s: State, id: Id, next: Access, delivery: Delivery)
    requires Copies(s) && LagExplained(s) && id in s.lost
    requires s.updater == Checked(id, next, s.published[id].revision)
    ensures StepCommit(s, delivery) == s.(updater := Idle)
  {
  }

  lemma RegistrationHeals(s: State, who: nat, id: Id)
    requires Copies(s) && LagExplained(s) && id in s.lost && who !in s.registrars && Persistable(s.durable[id])
    ensures var t := Next(Next(s, ReadAccess(who, id)), PublishAccess(who));
      id in t.published && t.published[id] == t.durable[id] && id !in t.lost
  {
  }
}

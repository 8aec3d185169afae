/** internal/accountcredentials: the process-local registry of accounts, its identity index and the
    API keys of each account. Text rules that live in Go libraries are parameters. */
module Credentials {
  import opened Prelude

  type Id = string
  type Jti = string

  datatype Provider = Google | SolanaWallet | Development | OtherProvider(name: string)

  /** `canonicalId` is CanonicalAccountID(id) == id; `subject` is NormalizeIdentitySubject; `trim` is
      strings.TrimSpace; `control` finds a control character; `username` is ValidateUsername;
      `displayId` is the display identifier pattern; `lower` is the database's lower(). */
  datatype Rules = Rules(
    canonicalId: string -> bool, subject: (Provider, string) -> Option<string>, trim: string -> string,
    control: string -> bool, username: (string, bool) -> bool, displayId: string -> bool, lower: string -> string)

  datatype Token = Token(id: string, jti: Jti, issuedAt: int, expiresAt: int)

  /** The row of an account; everything but `email` and `lastLogin` is permanent. */
  datatype Profile = Profile(
    username: string, provider: Provider, subject: string, email: string, administrator: bool, lastLogin: int)

  datatype Account = Account(profile: Profile, tokens: seq<Token>)

  /** Provider, subject and realm; the realm is the administrator role. */
  datatype Key = Key(provider: Provider, subject: string, administrator: bool)

  datatype Memory = Memory(accounts: map<Id, Account>, index: map<Key, Id>)

  function KeyOf(p: Profile): Key {
    Key(p.provider, p.subject, p.administrator)
  }

  /** NormalizeExternalIdentity: the canonical subject and email, or None. */
  function NormalizeIdentity(rules: Rules, p: Profile): Option<(string, string)> {
    if p.provider != Google && p.provider != SolanaWallet then None
    else match rules.subject(p.provider, p.subject)
         case None => None
         case Some(subject) =>
           var email := rules.trim(p.email);
           if p.provider == Google then
             if email == "" || rules.control(email) then None else Some((subject, email))
           else
             if p.administrator || email != "" then None else Some((subject, email))
  }

  predicate HasExternalIdentity(rules: Rules, p: Profile) {
    NormalizeIdentity(rules, p).Some?
  }

  predicate DevelopmentShape(p: Profile) {
    p.provider == Development && p.subject == "" && p.email == ""
    && ((!p.administrator && p.username == "local-user") || (p.administrator && p.username == "local-admin"))
  }

  /** The validation at the head of publishLocked. */
  predicate Publishable(rules: Rules, id: Id, p: Profile) {
    && rules.canonicalId(id)
    && match p.provider
       case Google | SolanaWallet =>
         NormalizeIdentity(rules, p) == Some((p.subject, p.email)) && rules.username(p.username, p.administrator)
       case Development => DevelopmentShape(p)
       case OtherProvider(_) => false
  }

  predicate SameIdentity(p: Profile, q: Profile) {
    p.username == q.username && p.provider == q.provider && p.subject == q.subject && p.administrator == q.administrator
  }

  predicate External(p: Profile) {
    p.provider == Google || p.provider == SolanaWallet
  }

  /** The identity index names exactly the account that holds an external identity. */
  ghost predicate Indexed(m: Memory) {
    && (forall key :: key in m.index ==>
          m.index[key] in m.accounts && External(m.accounts[m.index[key]].profile)
            && KeyOf(m.accounts[m.index[key]].profile) == key)
    && (forall id :: id in m.accounts && External(m.accounts[id].profile) ==>
          KeyOf(m.accounts[id].profile) in m.index && m.index[KeyOf(m.accounts[id].profile)] == id)
  }

  lemma PublishableIsExternal(rules: Rules, id: Id, p: Profile)
    requires Publishable(rules, id, p)
    ensures HasExternalIdentity(rules, p) <==> External(p)
  {
  }

  /** A Google identity has a verified email without control characters, a wallet belongs to a member and has none,
      and the two development accounts have fixed names. */
  ghost predicate ProperAccount(rules: Rules, id: Id, p: Profile) {
    && rules.canonicalId(id)
    && (|| (&& p.provider == Google && rules.subject(Google, p.subject) == Some(p.subject)
            && rules.trim(p.email) == p.email != "" && !rules.control(p.email)
            && rules.username(p.username, p.administrator))
        || (&& p.provider == SolanaWallet && rules.subject(SolanaWallet, p.subject) == Some(p.subject)
            && rules.trim(p.email) == p.email == "" && !p.administrator && rules.username(p.username, false))
        || (&& p.provider == Development && p.subject == "" && p.email == ""
            && p.username == if p.administrator then "local-admin" else "local-user"))
  }

  lemma PublishableIff(rules: Rules, id: Id, p: Profile)
    ensures Publishable(rules, id, p) <==> ProperAccount(rules, id, p)
  {
  }

  /** publishLocked: None is an error, which leaves the registry as it was. */
  function Publish(rules: Rules, m: Memory, id: Id, account: Account): Option<Memory> {
    var p := account.profile;
    if !Publishable(rules, id, p) then None
    else if HasExternalIdentity(rules, p) && KeyOf(p) in m.index && m.index[KeyOf(p)] != id then None
    else
      var index := if HasExternalIdentity(rules, p) then m.index[KeyOf(p) := id] else m.index;
      if id !in m.accounts then Some(Memory(m.accounts[id := account], index))
      else if !SameIdentity(m.accounts[id].profile, p) then None
      else Some(Memory(m.accounts[id := Account(p, m.accounts[id].tokens)], index))
  }

  /** Publishing a row under its own or a free identity keeps the index exact. */
  lemma IndexedPublish(m: Memory, id: Id, profile: Profile, tokens: seq<Token>)
    requires Indexed(m)
    requires id in m.accounts ==> SameIdentity(m.accounts[id].profile, profile)
    requires External(profile) && KeyOf(profile) in m.index ==> m.index[KeyOf(profile)] == id
    ensures Indexed(Memory(m.accounts[id := Account(profile, tokens)],
      if External(profile) then m.index[KeyOf(profile) := id] else m.index))
  {
  }

  predicate HasId(tokens: seq<Token>, id: string) {
    exists k :: 0 <= k < |tokens| && tokens[k].id == id
  }

  /** The tokens without the first one of display identifier `id`. */
  function WithoutId(tokens: seq<Token>, id: string): seq<Token> {
    if tokens == [] then []
    else if tokens[0].id == id then tokens[1..]
    else [tokens[0]] + WithoutId(tokens[1..], id)
  }

  lemma {:induction false} WithoutIdAt(tokens: seq<Token>, id: string, index: nat)
    requires index < |tokens| && tokens[index].id == id && forall k :: 0 <= k < index ==> tokens[k].id != id
    ensures WithoutId(tokens, id) == tokens[..index] + tokens[index + 1..]
  {
    if index > 0 {
      var rest := tokens[1..];
      WithoutIdAt(rest, id, index - 1);
      assert tokens[..index] + tokens[index + 1..] == [tokens[0]] + (rest[..index - 1] + rest[index..]);
    }
  }

  predicate HasJti(tokens: seq<Token>, jti: Jti) {
    exists k :: 0 <= k < |tokens| && tokens[k].jti == jti
  }

  /** tokenIDIndex */
  method TokenIdIndex(tokens: seq<Token>, id: string) returns (index: int)
    ensures -1 <= index < |tokens|
    ensures index >= 0 ==> tokens[index].id == id && forall k :: 0 <= k < index ==> tokens[k].id != id
    ensures index < 0 ==> forall k :: 0 <= k < |tokens| ==> tokens[k].id != id
  {
    for k := 0 to |tokens|
      invariant forall i :: 0 <= i < k ==> tokens[i].id != id
    {
      if tokens[k].id == id {
        return k;
      }
    }
    return -1;
  }

  /** tokenJTIIndex, reduced to the question ValidateCredential asks. */
  method TokenHasJti(tokens: seq<Token>, jti: Jti) returns (found: bool)
    ensures found <==> HasJti(tokens, jti)
  {
    for k := 0 to |tokens|
      invariant forall i :: 0 <= i < k ==> tokens[i].jti != jti
    {
      if tokens[k].jti == jti {
        return true;
      }
    }
    return false;
  }

  /** When a publication succeeds, what it leaves behind, and that it keeps the index exact. */
  lemma PublishIsExact(rules: Rules, m: Memory, id: Id, account: Account)
    ensures var p, r := account.profile, Publish(rules, m, id, account);
      && (r.Some? <==>
            && Publishable(rules, id, p) && (External(p) && KeyOf(p) in m.index ==> m.index[KeyOf(p)] == id)
            && (id in m.accounts ==> SameIdentity(m.accounts[id].profile, p)))
      && (r.Some? ==>
            r.value.accounts ==
            m.accounts[id := Account(p, if id in m.accounts then m.accounts[id].tokens else account.tokens)])
      && (r.Some? && Indexed(m) ==> Indexed(r.value))
  {
    var p := account.profile;
    if Publishable(rules, id, p) {
      PublishableIsExternal(rules, id, p);
      var r := Publish(rules, m, id, account);
      if r.Some? && Indexed(m) {
        IndexedPublish(m, id, p, r.value.accounts[id].tokens);
      }
    }
  }

  class CredentialManager {
    const rules: Rules
    var accounts: map<Id, Account>
    var identityAccounts: map<Key, Id>

    ghost function View(): Memory
      reads this
    {
      Memory(accounts, identityAccounts)
    }

    constructor (rules: Rules)
      ensures this.rules == rules && View() == Memory(map[], map[])
    {
      this.rules := rules;
      accounts, identityAccounts := map[], map[];
    }

    method PublishLocked(id: Id, account: Account) returns (ok: bool)
      modifies this
      // It succeeds for a proper account whose identity nobody else holds and that keeps its own identity.
      ensures ok <==>
        && Publishable(rules, id, account.profile)
        && (External(account.profile) && KeyOf(account.profile) in old(identityAccounts) ==>
              old(identityAccounts)[KeyOf(account.profile)] == id)
        && (id in old(accounts) ==> SameIdentity(old(accounts)[id].profile, account.profile))
      // A published account takes the new profile and keeps its keys; a new one comes with its own.
      ensures ok ==> accounts == old(accounts)[id :=
        Account(account.profile, if id in old(accounts) then old(accounts)[id].tokens else account.tokens)]
      ensures !ok ==> View() == old(View())
      // The identity index stays exact.
      ensures old(Indexed(View())) ==> Indexed(View())
      ensures View() == var r := Publish(rules, old(View()), id, account); if r.Some? then r.value else old(View())
    {
      var p := account.profile;
      PublishIsExact(rules, View(), id, account);
      if !rules.canonicalId(id) {
        return false;
      }
      match p.provider {
        case Google | SolanaWallet =>
          var normalized := NormalizeIdentity(rules, p);
          if normalized != Some((p.subject, p.email)) || !rules.username(p.username, p.administrator) {
            return false;
          }
        case Development =>
          if !DevelopmentShape(p) {
            return false;
          }
        case OtherProvider(_) =>
          return false;
      }
      var external := HasExternalIdentity(rules, p);
      if external && KeyOf(p) in identityAccounts && identityAccounts[KeyOf(p)] != id {
        return false;
      }
      if id !in accounts {
        accounts := accounts[id := account];
      } else {
        var previous := accounts[id];
        if previous.profile.username != p.username || previous.profile.provider != p.provider
           || previous.profile.subject != p.subject || previous.profile.administrator != p.administrator
        {
          return false;
        }
        accounts := accounts[id := Account(p, previous.tokens)];
      }
      if external {
        identityAccounts := identityAccounts[KeyOf(p) := id];
      }
      return true;
    }

    /** IssueAPIKey; `stored` is whether the store accepted the metadata. */
    method IssueApiKey(id: Id, token: Token, stored: bool) returns (ok: bool)
      modifies this
      ensures ok <==>
        && id in old(accounts) && rules.displayId(token.id) && stored
        && !HasId(old(accounts)[id].tokens, token.id)
      ensures View() == if ok then Issue(old(View()), id, token) else old(View())
    {
      if id !in accounts || !rules.displayId(token.id) {
        return false;
      }
      var record := accounts[id];
      var index := TokenIdIndex(record.tokens, token.id);
      if index >= 0 || !stored {
        return false;
      }
      accounts := accounts[id := Account(record.profile, record.tokens + [token])];
      return true;
    }

    /** DeleteAPIKey; `deleted` is whether the store confirmed the deletion. */
    method DeleteApiKey(id: Id, displayId: string, deleted: bool) returns (ok: bool)
      modifies this
      ensures ok <==> id in old(accounts) && HasId(old(accounts)[id].tokens, displayId) && deleted
      ensures View() == if ok then Delete(old(View()), id, displayId) else old(View())
    {
      if id !in accounts {
        return false;
      }
      var record := accounts[id];
      var index := TokenIdIndex(record.tokens, displayId);
      if index < 0 || !deleted {
        return false;
      }
      WithoutIdAt(record.tokens, displayId, index);
      accounts := accounts[id := Account(record.profile, record.tokens[..index] + record.tokens[index + 1..])];
      return true;
    }

    /** ValidateCredential */
    method ValidateCredential(id: Id, credential: Credential) returns (ok: bool)
      ensures ok <==> Validates(rules, View(), id, credential)
    {
      if id !in accounts {
        return false;
      }
      var record := accounts[id];
      match credential {
        case LoginSession(binding) =>
          return HasExternalIdentity(rules, record.profile) && binding == KeyOf(record.profile);
        case ApiKey(jti) =>
          ok := TokenHasJti(record.tokens, jti);
        case OtherCapability =>
          return false;
      }
    }
  }

  /** The identity binding of a session is an injective digest of realm, provider and subject. */
  datatype Credential = LoginSession(binding: Key) | ApiKey(jti: Jti) | OtherCapability

  predicate Validates(rules: Rules, m: Memory, id: Id, credential: Credential) {
    id in m.accounts
    && match credential
       case LoginSession(binding) =>
         HasExternalIdentity(rules, m.accounts[id].profile) && binding == KeyOf(m.accounts[id].profile)
       case ApiKey(jti) => HasJti(m.accounts[id].tokens, jti)
       case OtherCapability => false
  }

  /** Only an external identity has login sessions, only a listed key identifier is a key, and no other capability
      is good for anything. */
  lemma ValidatesIff(rules: Rules, m: Memory, id: Id, credential: Credential)
    ensures Validates(rules, m, id, credential) <==>
      && id in m.accounts && !credential.OtherCapability?
      && (credential.LoginSession? ==>
            HasExternalIdentity(rules, m.accounts[id].profile) && KeyOf(m.accounts[id].profile) == credential.binding)
      && (credential.ApiKey? ==> exists token :: token in m.accounts[id].tokens && token.jti == credential.jti)
  {
  }

  function Issue(m: Memory, id: Id, token: Token): Memory
    requires id in m.accounts
  {
    m.(accounts := m.accounts[id := Account(m.accounts[id].profile, m.accounts[id].tokens + [token])])
  }

  function Delete(m: Memory, id: Id, displayId: string): Memory
    requires id in m.accounts
  {
    m.(accounts := m.accounts[id := Account(m.accounts[id].profile, WithoutId(m.accounts[id].tokens, displayId))])
  }
}

/** OAuth account bindings, unique in both directions, and the one-time login states. */
module OAuth {
  import opened Wrappers
  import opened Sequences

  type UserId = nat

  datatype Tokens = Tokens(email: Option<string>, access: string, refresh: Option<string>, expiresAt: Option<int>)

  datatype Binding = Binding(user: UserId, provider: string, externalId: string, tokens: Tokens)

  /** An account as the provider describes it; `boundUser` was looked up at the callback and may be stale. */
  datatype Identity = Identity(provider: string, externalId: string, tokens: Tokens, emailVerified: bool, boundUser: Option<UserId>)

  /** `allowed`: the status permits a login. */
  datatype User = User(id: UserId, allowed: bool, email: Option<string>)

  // ---------------------------------------------------------------- the binding table

  function ByExternal(bindings: seq<Binding>, provider: string, externalId: string): Option<nat> {
    FirstIndex(bindings, (b: Binding) => b.provider == provider && b.externalId == externalId)
  }

  function ByUser(bindings: seq<Binding>, user: UserId, provider: string): Option<nat> {
    FirstIndex(bindings, (b: Binding) => b.user == user && b.provider == provider)
  }

  function Rebound(b: Binding, i: Identity): Binding {
    b.(externalId := i.externalId, tokens := i.tokens)
  }

  function Upsert(bindings: seq<Binding>, user: UserId, i: Identity): Result<seq<Binding>> {
    var byExternal := ByExternal(bindings, i.provider, i.externalId);
    if byExternal.Some? && bindings[byExternal.value].user != user then Failure(Conflict)
    else
      match if byExternal.Some? then byExternal else ByUser(bindings, user, i.provider)
      case None => Success(bindings + [Binding(user, i.provider, i.externalId, i.tokens)])
      case Some(at) => Success(bindings[at := Rebound(bindings[at], i)])
  }

  function Unbound(bindings: seq<Binding>, user: UserId, provider: string): seq<Binding> {
    match ByUser(bindings, user, provider)
    case None => bindings
    case Some(at) => bindings[..at] + bindings[at + 1..]
  }

  function AccountKey(b: Binding): (string, string) {
    (b.provider, b.externalId)
  }

  function OwnerKey(b: Binding): (UserId, string) {
    (b.user, b.provider)
  }

  /** An account belongs to one user, and a user has one account per provider. */
  predicate TwoWayUnique(bindings: seq<Binding>) {
    DistinctBy(AccountKey, bindings) && DistinctBy(OwnerKey, bindings)
  }

  /** Who an account logs in as. */
  function OwnerOf(bindings: seq<Binding>, provider: string, externalId: string): Option<UserId> {
    match ByExternal(bindings, provider, externalId)
    case None => None
    case Some(at) => Some(bindings[at].user)
  }

  /** Which account a user has with a provider. */
  function AccountOf(bindings: seq<Binding>, user: UserId, provider: string): Option<string> {
    match ByUser(bindings, user, provider)
    case None => None
    case Some(at) => Some(bindings[at].externalId)
  }

  lemma OwnerMeans(bindings: seq<Binding>, provider: string, externalId: string, user: UserId)
    requires TwoWayUnique(bindings)
    ensures OwnerOf(bindings, provider, externalId) == Some(user) <==> AccountOf(bindings, user, provider) == Some(externalId)
    ensures OwnerOf(bindings, provider, externalId) == Some(user) <==>
      exists b :: b in bindings && b.user == user && b.provider == provider && b.externalId == externalId
  {
    var at, of := ByExternal(bindings, provider, externalId), ByUser(bindings, user, provider);
    forall b | b in bindings && b.user == user && b.provider == provider && b.externalId == externalId
      ensures at.Some? && of.Some? && bindings[at.value] == b && bindings[of.value] == b
    {
      var k :| 0 <= k < |bindings| && bindings[k] == b;
      assert at.Some? && of.Some?;
      DistinctMember(AccountKey, bindings, b, bindings[at.value]);
      DistinctMember(OwnerKey, bindings, b, bindings[of.value]);
    }
    if at.Some? {
      assert bindings[at.value] in bindings;
    }
    if of.Some? {
      assert bindings[of.value] in bindings;
    }
  }

  lemma UpsertUnique(bindings: seq<Binding>, user: UserId, i: Identity)
    requires TwoWayUnique(bindings) && Upsert(bindings, user, i).Success?
    ensures TwoWayUnique(Upsert(bindings, user, i).value)
  {
    var after := Upsert(bindings, user, i).value;
    var byExternal, byUser := ByExternal(bindings, i.provider, i.externalId), ByUser(bindings, user, i.provider);
    if byExternal.Some? {
      assert after == bindings[byExternal.value := Rebound(bindings[byExternal.value], i)];
    } else if byUser.Some? {
      forall k | 0 <= k < |bindings|
        ensures AccountKey(bindings[k]) != (i.provider, i.externalId)
      {
        assert !(bindings[k].provider == i.provider && bindings[k].externalId == i.externalId);
      }
    } else {
      forall k | 0 <= k < |bindings|
        ensures AccountKey(bindings[k]) != (i.provider, i.externalId) && OwnerKey(bindings[k]) != (user, i.provider)
      {
        assert !(bindings[k].provider == i.provider && bindings[k].externalId == i.externalId);
        assert !(bindings[k].user == user && bindings[k].provider == i.provider);
      }
    }
  }

  /** A bind is refused exactly when the account belongs to somebody else; otherwise the account belongs
      to the user afterwards, and nobody else's accounts change. */
  lemma UpsertMeans(bindings: seq<Binding>, user: UserId, i: Identity)
    requires TwoWayUnique(bindings)
    ensures Upsert(bindings, user, i).Failure? <==>
      OwnerOf(bindings, i.provider, i.externalId).Some? && OwnerOf(bindings, i.provider, i.externalId) != Some(user)
    ensures Upsert(bindings, user, i).Success? ==>
      AccountOf(Upsert(bindings, user, i).value, user, i.provider) == Some(i.externalId)
    ensures Upsert(bindings, user, i).Success? ==> forall other, provider :: other != user || provider != i.provider ==>
      AccountOf(Upsert(bindings, user, i).value, other, provider) == AccountOf(bindings, other, provider)
  {
    if Upsert(bindings, user, i).Success? {
      var after := Upsert(bindings, user, i).value;
      UpsertUnique(bindings, user, i);
      UpsertRow(bindings, user, i);
      forall u: UserId, provider: string, externalId: string | u != user || provider != i.provider
        ensures OwnerOf(after, provider, externalId) == Some(u) <==> OwnerOf(bindings, provider, externalId) == Some(u)
      {
        OwnerMeans(bindings, provider, externalId, u);
        OwnerMeans(after, provider, externalId, u);
      }
      forall other: UserId, provider: string | other != user || provider != i.provider
        ensures AccountOf(after, other, provider) == AccountOf(bindings, other, provider)
      {
        SameAccount(bindings, after, other, provider);
      }
      OwnerMeans(after, i.provider, i.externalId, user);
    }
  }

  /** The rows after a bind: the user's row for that provider is the new account, all others are as before. */
  lemma UpsertRow(bindings: seq<Binding>, user: UserId, i: Identity)
    requires TwoWayUnique(bindings) && Upsert(bindings, user, i).Success?
    ensures Binding(user, i.provider, i.externalId, i.tokens) in Upsert(bindings, user, i).value
    ensures forall b: Binding :: b.user != user || b.provider != i.provider ==> (b in Upsert(bindings, user, i).value <==> b in bindings)
  {
    var after := Upsert(bindings, user, i).value;
    var byExternal, byUser := ByExternal(bindings, i.provider, i.externalId), ByUser(bindings, user, i.provider);
    if byExternal.None? && byUser.None? {
      assert after[|bindings|] == Binding(user, i.provider, i.externalId, i.tokens);
    } else {
      var at := if byExternal.Some? then byExternal.value else byUser.value;
      assert after[at] == Binding(user, i.provider, i.externalId, i.tokens);
      forall b: Binding | b.user != user || b.provider != i.provider
        ensures b in after <==> b in bindings
      {
        if b in bindings {
          var k :| 0 <= k < |bindings| && bindings[k] == b;
          assert after[k] == b;
        }
      }
    }
  }

  lemma SameAccount(a: seq<Binding>, b: seq<Binding>, user: UserId, provider: string)
    requires TwoWayUnique(a) && TwoWayUnique(b)
    requires forall externalId: string :: OwnerOf(a, provider, externalId) == Some(user) <==> OwnerOf(b, provider, externalId) == Some(user)
    ensures AccountOf(a, user, provider) == AccountOf(b, user, provider)
  {
    hide OwnerOf, AccountOf;
    if AccountOf(a, user, provider).Some? {
      OwnerMeans(a, provider, AccountOf(a, user, provider).value, user);
      OwnerMeans(b, provider, AccountOf(a, user, provider).value, user);
    }
    if AccountOf(b, user, provider).Some? {
      OwnerMeans(a, provider, AccountOf(b, user, provider).value, user);
      OwnerMeans(b, provider, AccountOf(b, user, provider).value, user);
    }
  }

  lemma UnboundMeans(bindings: seq<Binding>, user: UserId, provider: string)
    requires TwoWayUnique(bindings)
    ensures TwoWayUnique(Unbound(bindings, user, provider))
    ensures forall b :: b in Unbound(bindings, user, provider) <==> b in bindings && (b.user != user || b.provider != provider)
  {
    var found := ByUser(bindings, user, provider);
    if found.Some? {
      var at := found.value;
      var after := Unbound(bindings, user, provider);
      assert bindings == bindings[..at] + [bindings[at]] + bindings[at + 1..];
      forall i, j | 0 <= i < j < |after|
        ensures AccountKey(after[i]) != AccountKey(after[j]) && OwnerKey(after[i]) != OwnerKey(after[j])
      {
        var k, l := if i < at then i else i + 1, if j < at then j else j + 1;
        assert after[i] == bindings[k] && after[j] == bindings[l];
      }
      forall k | 0 <= k < |after|
        ensures OwnerKey(after[k]) != OwnerKey(bindings[at])
      {
        var l := if k < at then k else k + 1;
        assert after[k] == bindings[l] && l != at;
      }
    }
  }

  // ---------------------------------------------------------------- logging in and binding

  /** The local user of an account: the bound one, or the one with the same verified e-mail address. */
  function LocalUser(users: seq<User>, lower: string -> string, i: Identity): Result<UserId> {
    if i.boundUser.Some? then
      match FirstIndex(users, (u: User) => u.id == i.boundUser.value)
      case None => Failure(Unauthenticated)
      case Some(at) => if users[at].allowed then Success(users[at].id) else Failure(Unauthenticated)
    else if !i.emailVerified || i.tokens.email.None? then Failure(Unauthenticated)
    else
      match FirstIndex(users, (u: User) => u.email.Some? && lower(u.email.value) == lower(i.tokens.email.value))
      case None => Failure(Unauthenticated)
      case Some(at) => if users[at].allowed then Success(users[at].id) else Failure(Unauthenticated)
  }

  /** `resolve_login_user`: the user, and the table afterwards. */
  function Login(bindings: seq<Binding>, users: seq<User>, lower: string -> string, i: Identity): Result<(UserId, seq<Binding>)> {
    match LocalUser(users, lower, i)
    case Failure(e) => Failure(e)
    case Success(user) =>
      match Upsert(bindings, user, i)
      case Failure(e) => Failure(e)
      case Success(after) => Success((user, after))
  }

  /** `bind_identity`. */
  function Bind(bindings: seq<Binding>, user: User, i: Identity): Result<seq<Binding>> {
    if i.boundUser.Some? && i.boundUser.value != user.id then Failure(Conflict)
    else if !user.allowed then Failure(Unauthenticated)
    else Upsert(bindings, user.id, i)
  }

  /** A login never takes an account away from its owner, even if the callback saw an older table; it
      leaves the account with the user, so that the next login finds the same one. */
  lemma LoginKeepsOwner(bindings: seq<Binding>, users: seq<User>, lower: string -> string, i: Identity)
    requires TwoWayUnique(bindings) && Login(bindings, users, lower, i).Success?
    ensures var (user, after) := Login(bindings, users, lower, i).value;
      && (OwnerOf(bindings, i.provider, i.externalId).Some? ==> OwnerOf(bindings, i.provider, i.externalId) == Some(user))
      && OwnerOf(after, i.provider, i.externalId) == Some(user)
      && TwoWayUnique(after)
      && (exists u :: u in users && u.id == user && u.allowed)
      && (i.boundUser.Some? ==> user == i.boundUser.value) && (i.boundUser.None? ==> i.emailVerified)
  {
    hide Upsert, OwnerOf, AccountOf, TwoWayUnique;
    var (user, after) := Login(bindings, users, lower, i).value;
    UpsertMeans(bindings, user, i);
    UpsertUnique(bindings, user, i);
    OwnerMeans(after, i.provider, i.externalId, user);
  }

  // ---------------------------------------------------------------- when they succeed, and as whom

  /** The first user whose address equals the given one, letter case aside. */
  ghost predicate FirstByAddress(users: seq<User>, lower: string -> string, address: string, k: int) {
    && 0 <= k < |users| && users[k].email.Some? && lower(users[k].email.value) == lower(address)
    && forall j :: 0 <= j < k && users[j].email.Some? ==> lower(users[j].email.value) != lower(address)
  }

  ghost predicate FirstById(users: seq<User>, id: UserId, k: int) {
    0 <= k < |users| && users[k].id == id && forall j :: 0 <= j < k ==> users[j].id != id
  }

  ghost predicate OwnedByOther(bindings: seq<Binding>, i: Identity, user: UserId) {
    exists b :: b in bindings && b.provider == i.provider && b.externalId == i.externalId && b.user != user
  }

  /** The user has the account; every binding of other users or other providers is as before. */
  ghost predicate Has(before: seq<Binding>, after: seq<Binding>, user: UserId, i: Identity) {
    && Binding(user, i.provider, i.externalId, i.tokens) in after
    && (forall b: Binding :: b in after && b.user == user && b.provider == i.provider ==> b.externalId == i.externalId && b.tokens == i.tokens)
    && forall b: Binding :: b.user != user || b.provider != i.provider ==> (b in after <==> b in before)
  }

  lemma UpsertRefused(bindings: seq<Binding>, user: UserId, i: Identity)
    requires TwoWayUnique(bindings)
    ensures Upsert(bindings, user, i).Failure? <==> OwnedByOther(bindings, i, user)
    ensures Upsert(bindings, user, i).Success? ==> Has(bindings, Upsert(bindings, user, i).value, user, i)
  {
    var at := ByExternal(bindings, i.provider, i.externalId);
    if b :| b in bindings && b.provider == i.provider && b.externalId == i.externalId && b.user != user {
      var k :| 0 <= k < |bindings| && bindings[k] == b;
      assert at.Some?;
      DistinctMember(AccountKey, bindings, b, bindings[at.value]);
    }
    if at.Some? {
      assert bindings[at.value] in bindings;
    }
    if Upsert(bindings, user, i).Success? {
      UpsertRow(bindings, user, i);
      UpsertUnique(bindings, user, i);
      var after := Upsert(bindings, user, i).value;
      var row := Binding(user, i.provider, i.externalId, i.tokens);
      forall b: Binding | b in after && b.user == user && b.provider == i.provider
        ensures b == row
      {
        DistinctMember(OwnerKey, after, b, row);
      }
    }
  }

  /** Whom a bound account logs in as: its user, if there is one and the status permits it. Whom an unbound
      account logs in as: the first user with its verified address, likewise. Neither if somebody else has
      the account by now. */
  lemma LoginMeans(bindings: seq<Binding>, users: seq<User>, lower: string -> string, i: Identity)
    requires TwoWayUnique(bindings)
    ensures i.boundUser.None? ==>
      (Login(bindings, users, lower, i).Success? <==>
       i.emailVerified && i.tokens.email.Some?
       && exists k :: FirstByAddress(users, lower, i.tokens.email.value, k) && users[k].allowed && !OwnedByOther(bindings, i, users[k].id))
    ensures i.boundUser.Some? ==>
      (Login(bindings, users, lower, i).Success? <==>
       exists k :: FirstById(users, i.boundUser.value, k) && users[k].allowed && !OwnedByOther(bindings, i, users[k].id))
    ensures Login(bindings, users, lower, i).Success? ==>
      var (user, after) := Login(bindings, users, lower, i).value;
      && Has(bindings, after, user, i)
      && (i.boundUser.Some? ==> user == i.boundUser.value)
      && (i.boundUser.None? ==> exists k :: FirstByAddress(users, lower, i.tokens.email.value, k) && users[k].id == user)
  {
    hide Upsert, TwoWayUnique, OwnedByOther, Has;
    var r := LocalUser(users, lower, i);
    LocalUserMeans(users, lower, i);
    forall user
      ensures Upsert(bindings, user, i).Failure? <==> OwnedByOther(bindings, i, user)
      ensures Upsert(bindings, user, i).Success? ==> Has(bindings, Upsert(bindings, user, i).value, user, i)
    {
      UpsertRefused(bindings, user, i);
    }
  }

  lemma LocalUserMeans(users: seq<User>, lower: string -> string, i: Identity)
    ensures var r := LocalUser(users, lower, i);
      && (i.boundUser.None? && i.emailVerified && i.tokens.email.Some? ==> forall k ::
            (FirstByAddress(users, lower, i.tokens.email.value, k) ==> (r.Success? <==> users[k].allowed) && (r.Success? ==> r.value == users[k].id)))
      && (i.boundUser.None? && r.Success? ==>
            i.emailVerified && i.tokens.email.Some? && exists k :: FirstByAddress(users, lower, i.tokens.email.value, k))
      && (i.boundUser.Some? ==> forall k ::
            (FirstById(users, i.boundUser.value, k) ==> (r.Success? <==> users[k].allowed) && (r.Success? ==> r.value == users[k].id)))
      && (i.boundUser.Some? && r.Success? ==> exists k :: FirstById(users, i.boundUser.value, k))
  {
    if i.boundUser.Some? {
      var found := FirstIndex(users, (u: User) => u.id == i.boundUser.value);
      if found.Some? {
        assert FirstById(users, i.boundUser.value, found.value);
      }
    } else if i.emailVerified && i.tokens.email.Some? {
      var found := FirstIndex(users, (u: User) => u.email.Some? && lower(u.email.value) == lower(i.tokens.email.value));
      if found.Some? {
        assert FirstByAddress(users, lower, i.tokens.email.value, found.value);
      }
    }
  }

  /** A bind succeeds exactly for a user whose status permits it and an account that nobody else has. */
  lemma BindMeans(bindings: seq<Binding>, user: User, i: Identity)
    requires TwoWayUnique(bindings)
    ensures Bind(bindings, user, i).Success? <==>
      (i.boundUser.None? || i.boundUser.value == user.id) && user.allowed && !OwnedByOther(bindings, i, user.id)
    ensures Bind(bindings, user, i).Success? ==> Has(bindings, Bind(bindings, user, i).value, user.id, i)
  {
    hide Upsert, TwoWayUnique, OwnedByOther, Has;
    UpsertRefused(bindings, user.id, i);
  }

  // ---------------------------------------------------------------- runs

  datatype Command =
    | DoLogin(users: seq<User>, lower: string -> string, identity: Identity)
    | DoBind(user: User, identity: Identity)
    | DoUnbind(userId: UserId, provider: string)

  function Apply(bindings: seq<Binding>, c: Command): seq<Binding> {
    match c
    case DoLogin(users, lower, i) => (match Login(bindings, users, lower, i) case Success((_, after)) => after case Failure(_) => bindings)
    case DoBind(user, i) => (match Bind(bindings, user, i) case Success(after) => after case Failure(_) => bindings)
    case DoUnbind(user, provider) => Unbound(bindings, user, provider)
  }

  function Final(bindings: seq<Binding>, run: seq<Command>): seq<Binding>
    decreases |run|
  {
    if run == [] then bindings else Final(Apply(bindings, run[0]), run[1..])
  }

  /** Over every run of logins, binds and unbinds, accounts and users stay matched one to one per provider. */
  lemma {:induction false} RunUnique(bindings: seq<Binding>, run: seq<Command>)
    requires TwoWayUnique(bindings)
    ensures TwoWayUnique(Final(bindings, run))
    decreases |run|
  {
    hide TwoWayUnique, Upsert, Unbound;
    if run != [] {
      match run[0] {
        case DoLogin(users, lower, i) =>
          if Login(bindings, users, lower, i).Success? {
            UpsertUnique(bindings, Login(bindings, users, lower, i).value.0, i);
          }
        case DoBind(user, i) =>
          if Bind(bindings, user, i).Success? {
            UpsertUnique(bindings, user.id, i);
          }
        case DoUnbind(user, provider) =>
          UnboundMeans(bindings, user, provider);
      }
      RunUnique(Apply(bindings, run[0]), run[1..]);
    }
  }

  class BindingRepository {
    var bindings: seq<Binding>

    constructor (bindings: seq<Binding>)
      ensures this.bindings == bindings
    {
      this.bindings := bindings;
    }

    /** A conflict changes nothing. */
    method UpsertBinding(user: UserId, i: Identity) returns (r: Result<Binding>)
      modifies this
      ensures match Upsert(old(bindings), user, i)
        case Success(after) => bindings == after && r.Success? && r.value in after
          && r.value.user == user && r.value.externalId == i.externalId && r.value.tokens == i.tokens
        case Failure(e) => bindings == old(bindings) && r == Failure(e)
    {
      var found := ByExternal(bindings, i.provider, i.externalId);
      if found.Some? && bindings[found.value].user != user {
        return Failure(Conflict);
      }
      if found == None {
        found := ByUser(bindings, user, i.provider);
      }
      match found {
        case None =>
          bindings := bindings + [Binding(user, i.provider, i.externalId, i.tokens)];
          r := Success(bindings[|bindings| - 1]);
        case Some(at) =>
          bindings := bindings[at := bindings[at].(externalId := i.externalId)];
          bindings := bindings[at := bindings[at].(tokens := i.tokens)];
          assert bindings == old(bindings)[at := Rebound(old(bindings)[at], i)];
          r := Success(bindings[at]);
      }
    }

    method DeleteByUserProvider(user: UserId, provider: string) returns (deleted: bool)
      modifies this
      ensures bindings == Unbound(old(bindings), user, provider)
      ensures deleted <==> exists b :: b in old(bindings) && b.user == user && b.provider == provider
    {
      var found := ByUser(bindings, user, provider);
      if found == None {
        return false;
      }
      assert bindings[found.value] in bindings;
      bindings := bindings[..found.value] + bindings[found.value + 1..];
      return true;
    }
  }

  // ---------------------------------------------------------------- one-time login states

  datatype StatePayload = StatePayload(provider: string, redirectUri: string)

  datatype StoredState = StoredState(payload: StatePayload, expiresAt: real)

  type States = map<string, StoredState>

  function Peeked(values: States, state: string, now: real): (Option<StatePayload>, States) {
    if state !in values then (None, values)
    else if values[state].expiresAt <= now then (None, values - {state})
    else (Some(values[state].payload), values)
  }

  function Popped(values: States, state: string, now: real): (Option<StatePayload>, States) {
    var (payload, rest) := Peeked(values, state, now);
    (payload, rest - {state})
  }

  class StateStore {
    var values: States

    constructor ()
      ensures values == map[]
    {
      values := map[];
    }

    method StoreState(state: string, payload: StatePayload, ttl: real, now: real)
      modifies this
      ensures values == old(values)[state := StoredState(payload, now + ttl)]
    {
      values := values[state := StoredState(payload, now + ttl)];
    }

    method PeekState(state: string, now: real) returns (payload: Option<StatePayload>)
      modifies this
      ensures (payload, values) == Peeked(old(values), state, now)
      ensures forall p :: payload == Some(p) <==> state in old(values) && now < old(values)[state].expiresAt && old(values)[state].payload == p
      ensures values == if payload.Some? then old(values) else old(values) - {state}
    {
      if state !in values {
        return None;
      }
      if values[state].expiresAt <= now {
        values := values - {state};
        return None;
      }
      return Some(values[state].payload);
    }

    method PopState(state: string, now: real) returns (payload: Option<StatePayload>)
      modifies this
      ensures (payload, values) == Popped(old(values), state, now)
      ensures forall p :: payload == Some(p) <==> state in old(values) && now < old(values)[state].expiresAt && old(values)[state].payload == p
      ensures values == old(values) - {state}
    {
      payload := PeekState(state, now);
      values := values - {state};
    }
  }

  datatype StateCommand = Store(state: string, payload: StatePayload, expiresAt: real) | Peek(state: string, now: real) | Pop(state: string, now: real)

  function StateAfter(values: States, c: StateCommand): States {
    match c
    case Store(state, payload, expiresAt) => values[state := StoredState(payload, expiresAt)]
    case Peek(state, now) => Peeked(values, state, now).1
    case Pop(state, now) => Popped(values, state, now).1
  }

  /** How many callbacks get a payload for a state during a run. */
  function Redeemed(values: States, run: seq<StateCommand>, state: string): nat
    decreases |run|
  {
    if run == [] then 0
    else
      var hit := run[0].Pop? && run[0].state == state && Popped(values, state, run[0].now).0.Some?;
      (if hit then 1 else 0) + Redeemed(StateAfter(values, run[0]), run[1..], state)
  }

  function TimesStored(run: seq<StateCommand>, state: string): nat {
    if run == [] then 0 else (if run[0].Store? && run[0].state == state then 1 else 0) + TimesStored(run[1..], state)
  }

  /** Over every run, a state is redeemed at most as often as it was stored: once for each login. */
  lemma {:induction false} RedeemedOnce(values: States, run: seq<StateCommand>, state: string)
    ensures Redeemed(values, run, state) <= TimesStored(run, state) + if state in values then 1 else 0
    decreases |run|
  {
    if run != [] {
      RedeemedOnce(StateAfter(values, run[0]), run[1..], state);
    }
  }
}

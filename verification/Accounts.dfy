/** Users and organizations: value objects, aggregates, their two tables, and login. */
module Accounts {
  import opened Wrappers
  import opened Text
  import opened Slug

  datatype Error = BadEmail | BadPassword | BadSlug | Conflict | UniqueViolation | ForeignKeyViolation | ColumnTooLong | BadPlanTier

  // ---------------------------------------------------------------------
  // Value objects
  // ---------------------------------------------------------------------

  /** ^[^\s@]+@[^\s@]+\.[^\s@]+$ */
  predicate EmailPattern(s: string) {
    exists i, j :: 0 <= i < |s| && 0 <= j < |s| && EmailParts(s, i, j)
  }

  /** The one `@` is at `i`, and a dot inside the domain at `j`. */
  predicate EmailParts(s: string, i: int, j: int) {
    && 0 < i && i + 1 < j < |s| - 1 && s[i] == '@' && s[j] == '.'
    && forall k :: 0 <= k < |s| && k != i ==> s[k] != '@' && !IsSpace(s[k])
  }

  function EmailOf(value: string): Result<string, Error> {
    var normalized := Trim(Lower(value));
    if !EmailPattern(normalized) || |normalized| > 320 then Failure(BadEmail) else Success(normalized)
  }

  /** An address is accepted, trimmed and in lower case, when it has one `@`, no white space and a dot inside its domain. */
  lemma EmailIff(value: string)
    ensures var s := Trim(Lower(value));
      if |s| <= 320 && exists i, j :: 0 < i < j - 1 && j < |s| - 1 && s[i] == '@' && s[j] == '.' &&
                                      forall k :: 0 <= k < |s| && k != i ==> s[k] != '@' && !IsSpace(s[k])
      then EmailOf(value) == Success(s) else EmailOf(value) == Failure(BadEmail)
  {
    hide Trim, Lower, IsSpace;
    var s := Trim(Lower(value));
    forall i, j | 0 < i < j - 1 && j < |s| - 1 && s[i] == '@' && s[j] == '.' &&
                  forall k :: 0 <= k < |s| && k != i ==> s[k] != '@' && !IsSpace(s[k])
      ensures EmailPattern(s)
    {
      assert EmailParts(s, i, j);
    }
  }

  /** A salted hash; it verifies the text that it was made from. */
  datatype Hash = Hash(password: string, salt: nat)

  predicate Verifies(h: Hash, password: string) {
    h.password == password
  }

  function HashOf(password: string, salt: nat): Result<Hash, Error> {
    if |password| < 8 then Failure(BadPassword) else Success(Hash(password, salt))
  }

  // ---------------------------------------------------------------------
  // Aggregates
  // ---------------------------------------------------------------------

  datatype UserStatus = PendingVerification | UserActive | UserSuspended

  datatype User = User(
    id: string,
    email: string,
    hash: Hash,
    displayName: string,
    status: UserStatus,
    lastLoginAt: Option<int>,
    emailVerifiedAt: Option<int>)

  function NewUser(id: string, salt: nat, email: string, password: string, displayName: string): Result<User, Error> {
    match EmailOf(email)
    case Failure(e) => Failure(e)
    case Success(address) =>
      match HashOf(password, salt)
      case Failure(e) => Failure(e)
      case Success(hash) => Success(User(id, address, hash, displayName, PendingVerification, None, None))
  }

  class UserAggregate {
    var user: User

    constructor Reconstitute(u: User)
      ensures user == u
    {
      user := u;
    }

    /** Returns false for the ConflictException. */
    method Activate(now: int) returns (ok: bool)
      modifies this
      ensures ok == (old(user).status == PendingVerification)
      ensures user == if ok then old(user).(status := UserActive, emailVerifiedAt := Some(now)) else old(user)
    {
      if user.status != PendingVerification {
        return false;
      }
      user := user.(status := UserActive);
      user := user.(emailVerifiedAt := Some(now));
      return true;
    }

    method RecordLogin(now: int)
      modifies this
      ensures user == old(user).(lastLoginAt := Some(now))
    {
      user := user.(lastLoginAt := Some(now));
    }
  }

  datatype TenantStatus = Provisioning | TenantActive | Suspended | Deprovisioning | Deleted

  datatype Settings = Settings(allowPublicSignup: bool, enforcesMfa: bool, ssoEnabled: bool, auditEnabled: bool)

  datatype Organization = Organization(
    id: string,
    name: string,
    slug: string,
    planTier: string,
    status: TenantStatus,
    ownerId: string,
    provisionedAt: Option<int>,
    settings: Settings)

  function NewOrganization(id: string, name: string, slug: string, planTier: string, ownerId: string): Result<Organization, Error> {
    match TenantSlug(slug)
    case None => Failure(BadSlug)
    case Some(s) => Success(Organization(id, name, s, planTier, Provisioning, ownerId, None, Settings(false, false, false, true)))
  }

  datatype DomainEvent =
    | TenantCreated(tenantId: string, correlationId: string, name: string, slug: string, plan: string, ownerId: string)
    | TenantProvisioned(tenantId: string, correlationId: string, defaultProjectId: string, provisionedAt: int)

  class OrganizationAggregate {
    var organization: Organization
    var events: seq<DomainEvent>

    /** A new organization, as NewOrganization makes it, with its first event. */
    constructor Create(o: Organization, correlationId: string)
      ensures organization == o
      ensures events == [TenantCreated(o.id, correlationId, o.name, o.slug, o.planTier, o.ownerId)]
    {
      organization := o;
      events := [TenantCreated(o.id, correlationId, o.name, o.slug, o.planTier, o.ownerId)];
    }

    constructor Reconstitute(o: Organization)
      ensures organization == o && events == []
    {
      organization, events := o, [];
    }

    /** Returns false for the ConflictException. */
    method MarkProvisioned(defaultProjectId: string, correlationId: string, now: int) returns (ok: bool)
      modifies this
      ensures ok == (old(organization).status == Provisioning)
      ensures organization ==
              if ok then old(organization).(status := TenantActive, provisionedAt := Some(now)) else old(organization)
      ensures events ==
              old(events) + if ok then [TenantProvisioned(old(organization).id, correlationId, defaultProjectId, now)] else []
    {
      if organization.status != Provisioning {
        return false;
      }
      organization := organization.(status := TenantActive);
      organization := organization.(provisionedAt := Some(now));
      events := events + [TenantProvisioned(organization.id, correlationId, defaultProjectId, now)];
      return true;
    }
  }

  // ---------------------------------------------------------------------
  // The two tables and their repositories
  // ---------------------------------------------------------------------

  datatype Directory = Directory(users: seq<User>, organizations: seq<Organization>)

  const EMPTY := Directory([], [])

  predicate HasUser(users: seq<User>, id: string) {
    exists i :: 0 <= i < |users| && users[i].id == id
  }

  predicate HasOrganization(organizations: seq<Organization>, id: string) {
    exists i :: 0 <= i < |organizations| && organizations[i].id == id
  }

  function FindByEmail(users: seq<User>, email: string): (r: Option<User>)
    ensures r.Some? ==> r.value in users && r.value.email == Lower(email)
    ensures r.None? ==> forall i :: 0 <= i < |users| ==> users[i].email != Lower(email)
  {
    if users == [] then None
    else if users[0].email == Lower(email) then Some(users[0])
    else FindByEmail(users[1..], email)
  }

  function FindBySlug(organizations: seq<Organization>, slug: string): (r: Option<Organization>)
    ensures r.Some? ==> r.value in organizations && r.value.slug == slug
    ensures r.None? ==> forall i :: 0 <= i < |organizations| ==> organizations[i].slug != slug
  {
    if organizations == [] then None
    else if organizations[0].slug == slug then Some(organizations[0])
    else FindBySlug(organizations[1..], slug)
  }

  function FindByOwnerId(organizations: seq<Organization>, ownerId: string): (r: Option<Organization>)
    ensures r.Some? ==>
      exists i :: 0 <= i < |organizations| && organizations[i] == r.value && r.value.ownerId == ownerId &&
                  forall j :: 0 <= j < i ==> organizations[j].ownerId != ownerId
    ensures r.None? ==> forall i :: 0 <= i < |organizations| ==> organizations[i].ownerId != ownerId
  {
    if organizations == [] then None
    else if organizations[0].ownerId == ownerId then Some(organizations[0])
    else
      var found := FindByOwnerId(organizations[1..], ownerId);
      assert forall i :: 0 < i < |organizations| ==> organizations[i] == organizations[1..][i - 1];
      found
  }

  function PutUser(users: seq<User>, u: User): seq<User> {
    if users == [] then [u]
    else if users[0].id == u.id then [u] + users[1..]
    else [users[0]] + PutUser(users[1..], u)
  }

  /** Repository.save: insert or overwrite by id, under the table's constraints. */
  function SaveUser(d: Directory, u: User): Result<Directory, Error> {
    if |u.displayName| > 100 then Failure(ColumnTooLong)
    else if exists i :: 0 <= i < |d.users| && d.users[i].id != u.id && d.users[i].email == u.email then Failure(UniqueViolation)
    else Success(d.(users := PutUser(d.users, u)))
  }

  predicate PlanTier(tier: string) {
    tier == "free" || tier == "starter" || tier == "pro" || tier == "enterprise"
  }

  function PutOrganization(organizations: seq<Organization>, o: Organization): seq<Organization> {
    if organizations == [] then [o]
    else if organizations[0].id == o.id then [o] + organizations[1..]
    else [organizations[0]] + PutOrganization(organizations[1..], o)
  }

  function Provision(d: Directory, o: Organization): Result<Directory, Error> {
    if |o.name| > 100 then Failure(ColumnTooLong)
    else if !PlanTier(o.planTier) then Failure(BadPlanTier)
    else if exists i :: 0 <= i < |d.organizations| && d.organizations[i].id != o.id && d.organizations[i].slug == o.slug
    then Failure(UniqueViolation)
    else if !HasUser(d.users, o.ownerId) then Failure(ForeignKeyViolation)
    else Success(d.(organizations := PutOrganization(d.organizations, o)))
  }

  predicate ValidUsers(users: seq<User>) {
    && (forall i, j :: 0 <= i < j < |users| ==> users[i].id != users[j].id && users[i].email != users[j].email)
    && forall i :: 0 <= i < |users| ==> EmailOf(users[i].email) == Success(users[i].email) && |users[i].displayName| <= 100
  }

  predicate ValidOrganizations(organizations: seq<Organization>) {
    && (forall i, j :: 0 <= i < j < |organizations| ==>
          organizations[i].id != organizations[j].id && organizations[i].slug != organizations[j].slug)
    && forall i :: 0 <= i < |organizations| ==> TenantSlug(organizations[i].slug) == Some(organizations[i].slug)
  }

  predicate Owned(d: Directory) {
    forall i :: 0 <= i < |d.organizations| ==> HasUser(d.users, d.organizations[i].ownerId)
  }

  /** Keys are unique, stored values pass their own value objects, every owner exists. */
  predicate Valid(d: Directory) {
    ValidUsers(d.users) && ValidOrganizations(d.organizations) && Owned(d)
  }

  // ---------------------------------------------------------------------
  // Login
  // ---------------------------------------------------------------------

  datatype LoginCommand = LoginCommand(email: string, password: string, organizationSlug: Option<string>)

  /** What a signed token says. */
  datatype Token =
    | Access(sub: string, email: string, tenantId: string, role: string, expiresIn: string)
    | Refresh(sub: string, tenantId: string, expiresIn: string)

  datatype TokenPair = TokenPair(
    accessToken: Token,
    refreshToken: Token,
    expiresIn: int,
    userId: string,
    email: string,
    tenantId: string)

  /** The tokens of an owner; access lasts 900 seconds. */
  function TokensFor(userId: string, email: string, tenantId: string): TokenPair {
    TokenPair(Access(userId, email, tenantId, "owner", "15m"), Refresh(userId, tenantId, "7d"), 900, userId, email, tenantId)
  }

  datatype LoginError =
    | InvalidCredentials
    | AccountIs(status: UserStatus)
    | TenantIs(tenantStatus: TenantStatus)
    | NotSaved(error: Error)

  datatype Login = Login(directory: Directory, result: Result<TokenPair, LoginError>)

  function ResolveOrganization(d: Directory, userId: string, slug: Option<string>): Option<Organization> {
    if slug.GetOr("") != "" then FindBySlug(d.organizations, slug.value) else FindByOwnerId(d.organizations, userId)
  }

  function Authenticate(d: Directory, c: LoginCommand, now: int): Login {
    match FindByEmail(d.users, c.email)
    case None => Login(d, Failure(InvalidCredentials))
    case Some(u) =>
      if !Verifies(u.hash, c.password) then Login(d, Failure(InvalidCredentials))
      else if u.status != UserActive then Login(d, Failure(AccountIs(u.status)))
      else match ResolveOrganization(d, u.id, c.organizationSlug)
        case None => Login(d, Failure(InvalidCredentials))
        case Some(o) =>
          if o.ownerId != u.id then Login(d, Failure(InvalidCredentials))
          else if o.status != TenantActive then Login(d, Failure(TenantIs(o.status)))
          else match SaveUser(d, u.(lastLoginAt := Some(now)))
            case Failure(e) => Login(d, Failure(NotSaved(e)))
            case Success(d') => Login(d', Success(TokensFor(u.id, u.email, o.id)))
  }

  class AuthenticateHandler {
    var directory: Directory

    constructor (d: Directory)
      ensures directory == d
    {
      directory := d;
    }

    method Execute(c: LoginCommand, now: int) returns (r: Result<TokenPair, LoginError>)
      modifies this
      ensures Login(directory, r) == Authenticate(old(directory), c, now)
      ensures Valid(old(directory)) ==>
        (r.Success? <==>
         exists k, i :: 0 <= k < |old(directory).users| && 0 <= i < |old(directory).organizations| &&
           var u, o := old(directory).users[k], old(directory).organizations[i];
           u.email == Lower(c.email) && u.hash.password == c.password && u.status == UserActive &&
           o.ownerId == u.id && o.status == TenantActive &&
           if c.organizationSlug.GetOr("") != "" then o.slug == c.organizationSlug.value
           else forall j :: 0 <= j < i ==> old(directory).organizations[j].ownerId != u.id)
      ensures r.Success? ==>
        var t := r.value;
        && t.accessToken == Access(t.userId, t.email, t.tenantId, "owner", "15m")
        && t.refreshToken == Refresh(t.userId, t.tenantId, "7d") && t.expiresIn == 900
    {
      if Valid(directory) {
        LoginIff(directory, c, now);
      }
      var found := FindByEmail(directory.users, c.email);
      if found.None? || !Verifies(found.value.hash, c.password) {
        return Failure(InvalidCredentials);
      }
      var aggregate := new UserAggregate.Reconstitute(found.value);
      if aggregate.user.status != UserActive {
        return Failure(AccountIs(aggregate.user.status));
      }
      var organization := ResolveOrganization(directory, aggregate.user.id, c.organizationSlug);
      if organization.None? || organization.value.ownerId != aggregate.user.id {
        return Failure(InvalidCredentials);
      }
      if organization.value.status != TenantActive {
        return Failure(TenantIs(organization.value.status));
      }
      aggregate.RecordLogin(now);
      var saved := SaveUser(directory, aggregate.user);
      if saved.Failure? {
        return Failure(NotSaved(saved.error));
      }
      directory := saved.value;
      var user, tenantId := aggregate.user, organization.value.id;
      var accessToken := Access(user.id, user.email, tenantId, "owner", "15m");
      var refreshToken := Refresh(user.id, tenantId, "7d");
      return Success(TokenPair(accessToken, refreshToken, 900, user.id, user.email, tenantId));
    }
  }

  // ---------------------------------------------------------------------
  // What the writes keep
  // ---------------------------------------------------------------------

  lemma HasUserBehind(users: seq<User>, id: string)
    requires users != [] && users[0].id != id
    ensures HasUser(users, id) ==> HasUser(users[1..], id)
  {
    if i :| 0 <= i < |users| && users[i].id == id {
      assert users[1..][i - 1].id == id;
    }
  }

  lemma {:induction false} PutUserPlace(users: seq<User>, u: User) returns (k: nat)
    ensures k <= |users| && (k == |users| ==> !HasUser(users, u.id)) && (k < |users| ==> users[k].id == u.id)
    ensures |PutUser(users, u)| == if k < |users| then |users| else k + 1
    ensures forall i :: 0 <= i < |PutUser(users, u)| ==> PutUser(users, u)[i] == if i == k then u else users[i]
  {
    k := 0;
    if users != [] && users[0].id != u.id {
      hide PutUser, HasUser;
      HasUserBehind(users, u.id);
      PutUserBehind(users, u);
      var n := PutUserPlace(users[1..], u);
      k := n + 1;
    }
  }

  lemma PutUserAt(users: seq<User>, u: User) returns (k: nat)
    ensures k <= |users| && (k == |users| ==> !HasUser(users, u.id)) && (k < |users| ==> users[k].id == u.id)
    ensures PutUser(users, u) == if k < |users| then users[k := u] else users + [u]
  {
    hide PutUser, HasUser;
    k := PutUserPlace(users, u);
    assert PutUser(users, u) == if k < |users| then users[k := u] else users + [u];
  }

  lemma PutUserBehind(users: seq<User>, u: User)
    requires users != [] && users[0].id != u.id
    ensures PutUser(users, u) == [users[0]] + PutUser(users[1..], u)
  {
  }

  lemma {:induction false} PutNewOrganization(organizations: seq<Organization>, o: Organization)
    requires !HasOrganization(organizations, o.id)
    ensures PutOrganization(organizations, o) == organizations + [o]
  {
    if organizations != [] {
      assert organizations[0].id != o.id;
      forall i | 0 <= i < |organizations[1..]| ensures organizations[1..][i].id != o.id {
        assert organizations[1..][i] == organizations[i + 1];
      }
      PutNewOrganization(organizations[1..], o);
    }
  }

  lemma PutUserKeepsValid(users: seq<User>, u: User)
    requires ValidUsers(users) && EmailOf(u.email) == Success(u.email) && |u.displayName| <= 100
    requires forall i :: 0 <= i < |users| && users[i].id != u.id ==> users[i].email != u.email
    ensures ValidUsers(PutUser(users, u))
  {
    hide EmailOf, PutUser;
    var k := PutUserAt(users, u);
    if k == |users| {
      assert forall i :: 0 <= i < |users| ==> users[i].id != u.id;
    }
  }

  lemma PutUserKeepsIds(users: seq<User>, u: User, id: string)
    requires HasUser(users, id)
    ensures HasUser(PutUser(users, u), id)
  {
    hide PutUser;
    var k := PutUserAt(users, u);
    var i :| 0 <= i < |users| && users[i].id == id;
    assert PutUser(users, u)[i].id == id;
  }

  lemma SaveUserKeepsValid(d: Directory, u: User)
    requires Valid(d) && EmailOf(u.email) == Success(u.email) && SaveUser(d, u).Success?
    ensures Valid(SaveUser(d, u).value)
  {
    hide EmailOf, ValidUsers, ValidOrganizations, PutUser;
    PutUserKeepsValid(d.users, u);
    forall i | 0 <= i < |d.organizations| ensures HasUser(PutUser(d.users, u), d.organizations[i].ownerId) {
      PutUserKeepsIds(d.users, u, d.organizations[i].ownerId);
    }
  }

  lemma PutOrganizationKeepsValid(organizations: seq<Organization>, o: Organization)
    requires ValidOrganizations(organizations) && TenantSlug(o.slug) == Some(o.slug) && !HasOrganization(organizations, o.id)
    requires forall i :: 0 <= i < |organizations| ==> organizations[i].slug != o.slug
    ensures ValidOrganizations(PutOrganization(organizations, o))
  {
    hide TenantSlug, PutOrganization;
    PutNewOrganization(organizations, o);
    assert forall i :: 0 <= i < |organizations| ==> organizations[i].id != o.id;
  }

  lemma ProvisionKeepsValid(d: Directory, o: Organization)
    requires Valid(d) && TenantSlug(o.slug) == Some(o.slug) && !HasOrganization(d.organizations, o.id)
    requires Provision(d, o).Success?
    ensures Valid(Provision(d, o).value)
  {
    hide TenantSlug, ValidUsers, ValidOrganizations, PutOrganization;
    assert forall i :: 0 <= i < |d.organizations| ==> d.organizations[i].id != o.id;
    PutNewOrganization(d.organizations, o);
    PutOrganizationKeepsValid(d.organizations, o);
  }

  /** A login leaves the directory valid, and changes nothing but the last login of the user it lets in. */
  lemma LoginChangesOnlyLastLogin(d: Directory, c: LoginCommand, now: int)
    requires Valid(d)
    ensures var l := Authenticate(d, c, now);
            Valid(l.directory) && (l.result.Failure? ==> l.directory == d) &&
            l.directory.organizations == d.organizations && |l.directory.users| == |d.users| &&
            forall i :: 0 <= i < |d.users| ==>
              l.directory.users[i] == if l.result.Success? && d.users[i].id == l.result.value.userId
                                      then d.users[i].(lastLoginAt := Some(now)) else d.users[i]
  {
    hide EmailOf, TenantSlug, PutUser;
    var l := Authenticate(d, c, now);
    if l.result.Success? {
      var u := FindByEmail(d.users, c.email).value;
      TouchedUser(d.users, u, u.(lastLoginAt := Some(now)));
      SaveUserKeepsValid(d, u.(lastLoginAt := Some(now)));
    }
  }

  lemma TouchedUser(users: seq<User>, u: User, u': User)
    requires ValidUsers(users) && u in users && u'.id == u.id
    ensures |PutUser(users, u')| == |users|
    ensures forall i :: 0 <= i < |users| ==> PutUser(users, u')[i] == if users[i].id == u.id then u' else users[i]
  {
    hide EmailOf, PutUser;
    var i :| 0 <= i < |users| && users[i] == u;
    var k := PutUserAt(users, u');
    assert k < |users| && k == i;
  }

  /** Whatever slug the caller names, both tokens open only an active organization that the user owns. */
  lemma TokenOpensOwnTenant(d: Directory, c: LoginCommand, now: int)
    requires Authenticate(d, c, now).result.Success?
    ensures var t := Authenticate(d, c, now).result.value;
            exists u, o :: u in d.users && o in d.organizations &&
              u.email == Lower(c.email) && u.status == UserActive && u.hash.password == c.password &&
              o.ownerId == u.id && o.status == TenantActive && (c.organizationSlug.GetOr("") != "" ==> o.slug == c.organizationSlug.value) &&
              t.accessToken == Access(u.id, u.email, o.id, "owner", "15m") && t.refreshToken == Refresh(u.id, o.id, "7d") &&
              t.expiresIn == 900 && t.userId == u.id && t.email == u.email && t.tenantId == o.id
  {
    var u := FindByEmail(d.users, c.email).value;
    var o := ResolveOrganization(d, u.id, c.organizationSlug).value;
    assert o in d.organizations && u in d.users;
  }

  lemma TheUser(d: Directory, email: string, k: nat)
    requires ValidUsers(d.users) && k < |d.users| && d.users[k].email == Lower(email)
    ensures FindByEmail(d.users, email) == Some(d.users[k])
  {
    hide EmailOf;
    var u := FindByEmail(d.users, email).value;
    var i :| 0 <= i < |d.users| && d.users[i] == u;
  }

  lemma LastLoginIsSaved(d: Directory, u: User, now: int)
    requires ValidUsers(d.users) && u in d.users
    ensures SaveUser(d, u.(lastLoginAt := Some(now))).Success?
  {
    hide EmailOf, PutUser;
  }

  /** The organization that a login goes to, by the rows of its table. */
  lemma ResolvedIff(d: Directory, userId: string, slug: Option<string>, o: Organization)
    requires ValidOrganizations(d.organizations)
    ensures ResolveOrganization(d, userId, slug) == Some(o) <==>
            exists i :: 0 <= i < |d.organizations| && d.organizations[i] == o &&
              if slug.GetOr("") != "" then o.slug == slug.value
              else o.ownerId == userId && forall j :: 0 <= j < i ==> d.organizations[j].ownerId != userId
  {
    hide TenantSlug;
  }

  /**
   * A login succeeds exactly when a user has the address and the password and is active, and either
   * the organization of the named slug is active and theirs, or no slug is named, they own an
   * organization, and the first one that they own is active.
   */
  lemma LoginIff(d: Directory, c: LoginCommand, now: int)
    requires Valid(d)
    ensures Authenticate(d, c, now).result.Success? <==>
            exists k, i :: 0 <= k < |d.users| && 0 <= i < |d.organizations| &&
              var u, o := d.users[k], d.organizations[i];
              u.email == Lower(c.email) && u.hash.password == c.password && u.status == UserActive &&
              o.ownerId == u.id && o.status == TenantActive &&
              if c.organizationSlug.GetOr("") != "" then o.slug == c.organizationSlug.value
              else forall j :: 0 <= j < i ==> d.organizations[j].ownerId != u.id
  {
    hide Authenticate, Valid;
    if Authenticate(d, c, now).result.Success? {
      var k, i := LoginNeeds(d, c, now);
      assert d.users[k].id == d.organizations[i].ownerId;
    }
    forall k, i {:trigger d.users[k], d.organizations[i]} | 0 <= k < |d.users| && 0 <= i < |d.organizations|
      ensures MayLogIn(d, c, k, i) ==> Authenticate(d, c, now).result.Success?
    {
      if MayLogIn(d, c, k, i) {
        LoginSuffices(d, c, now, k, i);
      }
    }
  }

  ghost predicate MayLogIn(d: Directory, c: LoginCommand, k: nat, i: nat)
    requires k < |d.users| && i < |d.organizations|
  {
    var u, o := d.users[k], d.organizations[i];
    u.email == Lower(c.email) && u.hash.password == c.password && u.status == UserActive &&
    o.ownerId == u.id && o.status == TenantActive &&
    if c.organizationSlug.GetOr("") != "" then o.slug == c.organizationSlug.value
    else forall j :: 0 <= j < i ==> d.organizations[j].ownerId != u.id
  }

  lemma LoginNeeds(d: Directory, c: LoginCommand, now: int) returns (k: nat, i: nat)
    requires Valid(d) && Authenticate(d, c, now).result.Success?
    ensures k < |d.users| && i < |d.organizations| && MayLogIn(d, c, k, i)
  {
    hide ResolveOrganization, SaveUser, EmailOf;
    var u := FindByEmail(d.users, c.email).value;
    var o := ResolveOrganization(d, u.id, c.organizationSlug).value;
    ResolvedIff(d, u.id, c.organizationSlug, o);
    k :| 0 <= k < |d.users| && d.users[k] == u;
    i :| 0 <= i < |d.organizations| && d.organizations[i] == o &&
             if c.organizationSlug.GetOr("") != "" then o.slug == c.organizationSlug.value
             else o.ownerId == u.id && forall j :: 0 <= j < i ==> d.organizations[j].ownerId != u.id;
  }

  lemma LoginSuffices(d: Directory, c: LoginCommand, now: int, k: nat, i: nat)
    requires Valid(d) && k < |d.users| && i < |d.organizations| && MayLogIn(d, c, k, i)
    ensures Authenticate(d, c, now).result.Success?
  {
    hide ResolveOrganization, SaveUser, FindByEmail, ValidUsers, ValidOrganizations, Owned;
    TheUser(d, c.email, k);
    ResolvedIff(d, d.users[k].id, c.organizationSlug, d.organizations[i]);
    LastLoginIsSaved(d, d.users[k], now);
  }

  /**
   * The status of an account is told to those who know its password, that of an organization to its
   * active owner; everybody else who fails gets the one answer that tells nothing.
   */
  lemma RefusalIff(d: Directory, c: LoginCommand, now: int)
    requires Valid(d)
    ensures var r := Authenticate(d, c, now).result;
      && (forall s :: r == Failure(AccountIs(s)) <==>
            s != UserActive &&
            exists k :: 0 <= k < |d.users| && var u := d.users[k];
                        u.email == Lower(c.email) && u.hash.password == c.password && u.status == s)
      && (forall s :: r == Failure(TenantIs(s)) ==>
            s != TenantActive &&
            exists k, i :: 0 <= k < |d.users| && 0 <= i < |d.organizations| &&
                           var u, o := d.users[k], d.organizations[i];
                           u.email == Lower(c.email) && u.hash.password == c.password && u.status == UserActive &&
                           o.ownerId == u.id && o.status == s)
      && (r.Success? || r == Failure(InvalidCredentials) || r.error.AccountIs? || r.error.TenantIs?)
  {
    hide SaveUser, FindByEmail, ValidUsers, ValidOrganizations, Owned, FindBySlug, FindByOwnerId;
    forall k | 0 <= k < |d.users| && d.users[k].email == Lower(c.email) {
      TheUser(d, c.email, k);
    }
    var found := FindByEmail(d.users, c.email);
    if found.Some? {
      LastLoginIsSaved(d, found.value, now);
      var o := ResolveOrganization(d, found.value.id, c.organizationSlug);
      assert o.Some? ==> o.value in d.organizations;
    }
  }
}

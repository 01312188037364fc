/**
 * The script that provisions the first tenant and the administrator who owns it:
 * two writes, the user first, each skipped when its row exists already.
 */
module Bootstrap {
  import opened Wrappers
  import opened Text
  import opened Slug
  import opened Accounts

  /** The environment; `folded` is the trimmed tenant name in lower case and compatibility decomposition. */
  datatype Env = Env(
    adminEmail: Option<string>,
    adminPassword: Option<string>,
    adminName: Option<string>,
    tenantName: Option<string>,
    tenantSlug: Option<string>,
    tenantPlan: Option<string>,
    folded: string,
    production: bool,
    allowProduction: bool)

  datatype Config = Config(email: string, password: string, name: string, tenantName: string, slug: string, planTier: string)

  /** Generated ids, the salt and the time of one run. */
  datatype Ids = Ids(
    userId: string,
    salt: nat,
    organizationId: string,
    creationId: string,
    defaultProjectId: string,
    provisioningId: string,
    now: int)

  datatype Outcome = Outcome(organizationId: string, organizationCreated: bool, userId: string, userCreated: bool)

  datatype Problem = Missing(names: seq<string>) | RefusedInProduction | Rejected(error: Error)

  datatype Ended = Ended(directory: Directory, result: Result<Outcome, Problem>)

  datatype Step = Step(directory: Directory, id: string, created: bool)

  // ---------------------------------------------------------------------
  // The script
  // ---------------------------------------------------------------------

  function Given(value: Option<string>): string {
    Trim(value.GetOr(""))
  }

  function ReadConfig(env: Env): Result<Config, Problem> {
    var missing :=
      (if Given(env.adminEmail) == "" then ["INITIAL_ADMIN_EMAIL"] else []) +
      (if env.adminPassword.GetOr("") == "" then ["INITIAL_ADMIN_PASSWORD"] else []) +
      (if Given(env.adminName) == "" then ["INITIAL_ADMIN_NAME"] else []) +
      (if Given(env.tenantName) == "" then ["INITIAL_TENANT_NAME"] else []);
    if missing != [] then Failure(Missing(missing))
    else Success(Config(Given(env.adminEmail), env.adminPassword.GetOr(""), Given(env.adminName), Given(env.tenantName),
                        Explicit(env.tenantSlug).GetOr(SlugOf(env.folded)), env.tenantPlan.GetOr("enterprise")))
  }

  /** What the script takes from the environment, and which variables it misses. */
  lemma ConfigTells(env: Env)
    ensures ReadConfig(env).Success? <==>
            && Trim(env.adminEmail.GetOr("")) != "" && env.adminPassword.GetOr("") != ""
            && Trim(env.adminName.GetOr("")) != "" && Trim(env.tenantName.GetOr("")) != ""
    ensures ReadConfig(env).Success? ==>
      var cfg := ReadConfig(env).value;
      && cfg.email == Trim(env.adminEmail.value) && cfg.password == env.adminPassword.value
      && cfg.name == Trim(env.adminName.value) && cfg.tenantName == Trim(env.tenantName.value)
      && cfg.slug == (if env.tenantSlug.Some? && |Trim(env.tenantSlug.value)| >= 3 then Lower(Trim(env.tenantSlug.value))
                      else SlugOf(env.folded))
      && cfg.planTier == (if env.tenantPlan.Some? then env.tenantPlan.value else "enterprise")
    ensures ReadConfig(env).Failure? ==>
      && ReadConfig(env).error.Missing?
      && var names := ReadConfig(env).error.names;
         && ("INITIAL_ADMIN_EMAIL" in names <==> Trim(env.adminEmail.GetOr("")) == "")
         && ("INITIAL_ADMIN_PASSWORD" in names <==> env.adminPassword.GetOr("") == "")
         && ("INITIAL_ADMIN_NAME" in names <==> Trim(env.adminName.GetOr("")) == "")
         && ("INITIAL_TENANT_NAME" in names <==> Trim(env.tenantName.GetOr("")) == "")
  {
    hide Trim, Lower, SlugOf;
    TrimKeepsTrimmed("");
  }

  function Activated(u: User, now: int): User {
    u.(status := UserActive, emailVerifiedAt := Some(now))
  }

  function UserStep(d: Directory, cfg: Config, ids: Ids): Result<Step, Error> {
    match FindByEmail(d.users, cfg.email)
    case Some(u) => Success(Step(d, u.id, false))
    case None =>
      match NewUser(ids.userId, ids.salt, cfg.email, cfg.password, cfg.name)
      case Failure(e) => Failure(e)
      case Success(u) =>
        match SaveUser(d, Activated(u, ids.now))
        case Failure(e) => Failure(e)
        case Success(d') => Success(Step(d', u.id, true))
  }

  function Marked(o: Organization, now: int): Organization {
    o.(status := TenantActive, provisionedAt := Some(now))
  }

  function OrganizationStep(d: Directory, cfg: Config, ownerId: string, ids: Ids): Result<Step, Error> {
    match FindBySlug(d.organizations, cfg.slug)
    case Some(o) => Success(Step(d, o.id, false))
    case None =>
      match NewOrganization(ids.organizationId, cfg.tenantName, cfg.slug, cfg.planTier, ownerId)
      case Failure(e) => Failure(e)
      case Success(o) =>
        match Provision(d, Marked(o, ids.now))
        case Failure(e) => Failure(e)
        case Success(d') => Success(Step(d', o.id, true))
  }

  function Refused(env: Env): bool {
    env.production && !env.allowProduction
  }

  function Run(d: Directory, env: Env, ids: Ids): Ended {
    match ReadConfig(env)
    case Failure(p) => Ended(d, Failure(p))
    case Success(cfg) =>
      if Refused(env) then Ended(d, Failure(RefusedInProduction))
      else match UserStep(d, cfg, ids)
        case Failure(e) => Ended(d, Failure(Rejected(e)))
        case Success(u) =>
          match OrganizationStep(u.directory, cfg, u.id, ids)
          case Failure(e) => Ended(u.directory, Failure(Rejected(e)))
          case Success(o) => Ended(o.directory, Success(Outcome(o.id, o.created, u.id, u.created)))
  }

  class BootstrapScript {
    var directory: Directory

    constructor (d: Directory)
      ensures directory == d
    {
      directory := d;
    }

    method ProvisionAdminUser(cfg: Config, ids: Ids) returns (r: Result<(string, bool), Error>)
      modifies this
      ensures match UserStep(old(directory), cfg, ids)
              case Failure(e) => r == Failure(e) && directory == old(directory)
              case Success(s) => r == Success((s.id, s.created)) && directory == s.directory
    {
      var existing := FindByEmail(directory.users, cfg.email);
      if existing.Some? {
        return Success((existing.value.id, false));
      }
      var created := NewUser(ids.userId, ids.salt, cfg.email, cfg.password, cfg.name);
      if created.Failure? {
        return Failure(created.error);
      }
      var aggregate := new UserAggregate.Reconstitute(created.value);
      var activated := aggregate.Activate(ids.now);
      var saved := SaveUser(directory, aggregate.user);
      if saved.Failure? {
        return Failure(saved.error);
      }
      directory := saved.value;
      return Success((aggregate.user.id, true));
    }

    method ProvisionOrganization(cfg: Config, ownerId: string, ids: Ids) returns (r: Result<(string, bool), Error>)
      modifies this
      ensures match OrganizationStep(old(directory), cfg, ownerId, ids)
              case Failure(e) => r == Failure(e) && directory == old(directory)
              case Success(s) => r == Success((s.id, s.created)) && directory == s.directory
    {
      var existing := FindBySlug(directory.organizations, cfg.slug);
      if existing.Some? {
        return Success((existing.value.id, false));
      }
      var created := NewOrganization(ids.organizationId, cfg.tenantName, cfg.slug, cfg.planTier, ownerId);
      if created.Failure? {
        return Failure(created.error);
      }
      var aggregate := new OrganizationAggregate.Create(created.value, ids.creationId);
      var provisioned := aggregate.MarkProvisioned(ids.defaultProjectId, ids.provisioningId, ids.now);
      var saved := Provision(directory, aggregate.organization);
      if saved.Failure? {
        return Failure(saved.error);
      }
      directory := saved.value;
      return Success((aggregate.organization.id, true));
    }

    method Execute(env: Env, ids: Ids) returns (r: Result<Outcome, Problem>)
      modifies this
      ensures Ended(directory, r) == Run(old(directory), env, ids)
      ensures env.production && !env.allowProduction ==> r.Failure? && directory == old(directory)
    {
      var cfg := ReadConfig(env);
      if cfg.Failure? {
        return Failure(cfg.error);
      }
      if env.production && !env.allowProduction {
        return Failure(RefusedInProduction);
      }
      var user := ProvisionAdminUser(cfg.value, ids);
      if user.Failure? {
        return Failure(Rejected(user.error));
      }
      var organization := ProvisionOrganization(cfg.value, user.value.0, ids);
      if organization.Failure? {
        return Failure(Rejected(organization.error));
      }
      return Success(Outcome(organization.value.0, organization.value.1, user.value.0, user.value.1));
    }
  }

  /** Generated ids are new. */
  predicate Fresh(d: Directory, ids: Ids) {
    !HasUser(d.users, ids.userId) && !HasOrganization(d.organizations, ids.organizationId)
  }

  // ---------------------------------------------------------------------
  // One step from any directory
  // ---------------------------------------------------------------------

  /** The slug of a configuration that a tenant accepts is stored as it is. */
  lemma ConfigSlugIsFixed(env: Env)
    requires ReadConfig(env).Success? && TenantSlug(ReadConfig(env).value.slug).Some?
    ensures TenantSlug(ReadConfig(env).value.slug) == Some(ReadConfig(env).value.slug)
  {
    if Explicit(env.tenantSlug).Some? {
      ExplicitSlugAcceptedIff(env.tenantSlug.value);
    } else {
      DerivedSlugAcceptedIff(env.folded);
    }
  }

  /** The address that a configuration's email is stored under is the one it is looked up by. */
  lemma ConfigEmailIsFound(env: Env)
    requires ReadConfig(env).Success? && EmailOf(ReadConfig(env).value.email).Success?
    ensures EmailOf(ReadConfig(env).value.email) == Success(Lower(ReadConfig(env).value.email))
    ensures EmailOf(Lower(ReadConfig(env).value.email)) == Success(Lower(ReadConfig(env).value.email))
  {
    TrimLowerOfTrimmed(ReadConfig(env).value.email);
  }

  lemma {:induction false} FindAppendedUser(users: seq<User>, u: User, email: string)
    requires FindByEmail(users, email).None? && u.email == Lower(email)
    ensures FindByEmail(users + [u], email) == Some(u)
  {
    if users != [] {
      FindAppendedUser(users[1..], u, email);
      assert users + [u] == [users[0]] + (users[1..] + [u]);
    }
  }

  lemma {:induction false} FindAppendedOrganization(organizations: seq<Organization>, o: Organization, slug: string)
    requires FindBySlug(organizations, slug).None? && o.slug == slug
    ensures FindBySlug(organizations + [o], slug) == Some(o)
  {
    if organizations != [] {
      FindAppendedOrganization(organizations[1..], o, slug);
      assert organizations + [o] == [organizations[0]] + (organizations[1..] + [o]);
    }
  }

  /** The two rows of a clean run. */
  function AdminOf(cfg: Config, ids: Ids): User {
    User(ids.userId, Lower(cfg.email), Hash(cfg.password, ids.salt), cfg.name, UserActive, None, Some(ids.now))
  }

  function TenantOf(cfg: Config, ownerId: string, ids: Ids): Organization {
    Organization(ids.organizationId, cfg.tenantName, cfg.slug, cfg.planTier, TenantActive, ownerId,
                 Some(ids.now), Settings(false, false, false, true))
  }

  lemma PutNewUser(users: seq<User>, u: User)
    requires !HasUser(users, u.id)
    ensures PutUser(users, u) == users + [u]
  {
    var k := PutUserAt(users, u);
  }

  lemma UserIsCreated(d: Directory, env: Env, ids: Ids)
    requires Valid(d) && Fresh(d, ids) && ReadConfig(env).Success? && UserStep(d, ReadConfig(env).value, ids).Success?
    requires FindByEmail(d.users, ReadConfig(env).value.email).None?
    ensures var cfg := ReadConfig(env).value;
            |cfg.name| <= 100 && Valid(d.(users := d.users + [AdminOf(cfg, ids)])) &&
            UserStep(d, cfg, ids) == Success(Step(d.(users := d.users + [AdminOf(cfg, ids)]), ids.userId, true))
  {
    hide Valid, EmailOf, PutUser, ReadConfig;
    var cfg := ReadConfig(env).value;
    ConfigEmailIsFound(env);
    PutNewUser(d.users, AdminOf(cfg, ids));
    SaveUserKeepsValid(d, AdminOf(cfg, ids));
  }

  /** After the first write the administrator is found again, as they were or as created. */
  lemma UserIsThere(d: Directory, env: Env, ids: Ids)
    requires Valid(d) && Fresh(d, ids) && ReadConfig(env).Success? && UserStep(d, ReadConfig(env).value, ids).Success?
    ensures var cfg := ReadConfig(env).value; var s := UserStep(d, cfg, ids).value;
            var before := FindByEmail(d.users, cfg.email);
            Valid(s.directory) && s.directory.organizations == d.organizations && HasUser(s.directory.users, s.id) &&
            FindByEmail(s.directory.users, cfg.email) == Some(before.GetOr(AdminOf(cfg, ids))) &&
            s.id == before.GetOr(AdminOf(cfg, ids)).id && s.created == before.None? &&
            s.directory.users == d.users + if before.Some? then [] else [AdminOf(cfg, ids)]
  {
    hide Valid, NewUser, SaveUser, ReadConfig;
    var cfg := ReadConfig(env).value;
    var s := UserStep(d, cfg, ids).value;
    var before := FindByEmail(d.users, cfg.email);
    if before.None? {
      UserIsCreated(d, env, ids);
      FindAppendedUser(d.users, AdminOf(cfg, ids), cfg.email);
      assert s.directory.users[|d.users|] == AdminOf(cfg, ids);
    } else {
      var i :| 0 <= i < |d.users| && d.users[i] == before.value;
    }
  }

  lemma OrganizationIsCreated(d: Directory, env: Env, ownerId: string, ids: Ids)
    requires Valid(d) && !HasOrganization(d.organizations, ids.organizationId)
    requires ReadConfig(env).Success? && OrganizationStep(d, ReadConfig(env).value, ownerId, ids).Success?
    requires FindBySlug(d.organizations, ReadConfig(env).value.slug).None?
    ensures var cfg := ReadConfig(env).value; var o := TenantOf(cfg, ownerId, ids);
            Valid(d.(organizations := d.organizations + [o])) &&
            OrganizationStep(d, cfg, ownerId, ids) ==
            Success(Step(d.(organizations := d.organizations + [o]), ids.organizationId, true))
  {
    hide Valid, TenantSlug, PutOrganization, ReadConfig;
    var cfg := ReadConfig(env).value;
    ConfigSlugIsFixed(env);
    PutNewOrganization(d.organizations, TenantOf(cfg, ownerId, ids));
    ProvisionKeepsValid(d, TenantOf(cfg, ownerId, ids));
  }

  /** After the second write the organization is found again. */
  lemma OrganizationIsThere(d: Directory, env: Env, ownerId: string, ids: Ids)
    requires Valid(d) && !HasOrganization(d.organizations, ids.organizationId)
    requires ReadConfig(env).Success? && OrganizationStep(d, ReadConfig(env).value, ownerId, ids).Success?
    ensures var cfg := ReadConfig(env).value; var s := OrganizationStep(d, cfg, ownerId, ids).value;
            var before, o := FindBySlug(d.organizations, cfg.slug), TenantOf(cfg, ownerId, ids);
            Valid(s.directory) && s.directory.users == d.users &&
            FindBySlug(s.directory.organizations, cfg.slug) == Some(before.GetOr(o)) &&
            s.id == before.GetOr(o).id && s.created == before.None? &&
            s.directory.organizations == d.organizations + if before.Some? then [] else [o]
  {
    hide Valid, NewOrganization, Provision, ReadConfig;
    var cfg := ReadConfig(env).value;
    if FindBySlug(d.organizations, cfg.slug).None? {
      OrganizationIsCreated(d, env, ownerId, ids);
      FindAppendedOrganization(d.organizations, TenantOf(cfg, ownerId, ids), cfg.slug);
    }
  }

  /** Every run, whatever it meets and however it ends, leaves the directory valid. */
  lemma RunKeepsValid(d: Directory, env: Env, ids: Ids)
    requires Valid(d) && Fresh(d, ids)
    ensures Valid(Run(d, env, ids).directory)
  {
    hide Valid, UserStep, OrganizationStep, ReadConfig;
    if ReadConfig(env).Success? && !Refused(env) && UserStep(d, ReadConfig(env).value, ids).Success? {
      UserIsThere(d, env, ids);
      var s := UserStep(d, ReadConfig(env).value, ids).value;
      if OrganizationStep(s.directory, ReadConfig(env).value, s.id, ids).Success? {
        OrganizationIsThere(s.directory, env, s.id, ids);
      }
    }
  }

  /** Once a run has succeeded, another with the same settings writes nothing and reports the same two ids. */
  lemma RerunWritesNothing(d: Directory, env: Env, ids: Ids, ids': Ids)
    requires Valid(d) && Fresh(d, ids) && Run(d, env, ids).result.Success?
    ensures var done := Run(d, env, ids);
            Run(done.directory, env, ids') ==
            Ended(done.directory, Success(Outcome(done.result.value.organizationId, false, done.result.value.userId, false)))
  {
    hide Valid, ReadConfig;
    var cfg := ReadConfig(env).value;
    UserIsThere(d, env, ids);
    var s := UserStep(d, cfg, ids).value;
    OrganizationIsThere(s.directory, env, s.id, ids);
  }

  /** The directory in which a successful run ends. */
  lemma RunEndsIn(d: Directory, env: Env, ids: Ids)
    requires Valid(d) && Fresh(d, ids) && Run(d, env, ids).result.Success?
    ensures var cfg := ReadConfig(env).value; var done := Run(d, env, ids);
            var u := FindByEmail(d.users, cfg.email).GetOr(AdminOf(cfg, ids));
            var o := FindBySlug(d.organizations, cfg.slug).GetOr(TenantOf(cfg, u.id, ids));
            Valid(done.directory) &&
            FindByEmail(done.directory.users, cfg.email) == Some(u) && done.result.value.userId == u.id &&
            FindBySlug(done.directory.organizations, cfg.slug) == Some(o) && done.result.value.organizationId == o.id &&
            u.email == Lower(cfg.email)
  {
    hide Valid, UserStep, OrganizationStep, ReadConfig;
    var cfg := ReadConfig(env).value;
    UserIsThere(d, env, ids);
    var s := UserStep(d, cfg, ids).value;
    OrganizationIsThere(s.directory, env, s.id, ids);
  }

  // ---------------------------------------------------------------------
  // Logging in afterwards
  // ---------------------------------------------------------------------

  /** The administrator found by a run can log in with the configured password. */
  predicate UsableUser(d: Directory, cfg: Config) {
    var u := FindByEmail(d.users, cfg.email);
    u.None? || (u.value.status == UserActive && Verifies(u.value.hash, cfg.password))
  }

  /** The organization found by a run, if any, is active and owned by the administrator. */
  predicate UsableOrganization(d: Directory, cfg: Config) {
    var u, o := FindByEmail(d.users, cfg.email), FindBySlug(d.organizations, cfg.slug);
    o.None? || (u.Some? && o.value.ownerId == u.value.id && o.value.status == TenantActive)
  }

  /** After a successful run, the organization belongs to the reported user exactly when it was created or was theirs. */
  lemma OwnerLinkedIff(d: Directory, env: Env, ids: Ids)
    requires Valid(d) && Fresh(d, ids) && Run(d, env, ids).result.Success?
    ensures var cfg := ReadConfig(env).value; var done := Run(d, env, ids);
            var u, o := FindByEmail(d.users, cfg.email), FindBySlug(d.organizations, cfg.slug);
            var now := FindBySlug(done.directory.organizations, cfg.slug);
            now.Some? && now.value.id == done.result.value.organizationId &&
            (now.value.ownerId == done.result.value.userId <==> o.None? || (u.Some? && o.value.ownerId == u.value.id))
  {
    RunEndsIn(d, env, ids);
    hide ReadConfig, ValidUsers, ValidOrganizations, Run;
    var cfg := ReadConfig(env).value;
    if FindBySlug(d.organizations, cfg.slug).Some? {
      OwnerIsNotFresh(d, FindBySlug(d.organizations, cfg.slug).value, ids);
    }
  }

  lemma OwnerIsNotFresh(d: Directory, o: Organization, ids: Ids)
    requires Owned(d) && o in d.organizations && Fresh(d, ids)
    ensures o.ownerId != ids.userId
  {
    var i :| 0 <= i < |d.organizations| && d.organizations[i] == o;
    assert HasUser(d.users, d.organizations[i].ownerId);
  }

  lemma SaveLoginSucceeds(d: Directory, u: User, now: int)
    requires Valid(d) && u in d.users
    ensures SaveUser(d, u.(lastLoginAt := Some(now))).Success?
  {
    hide EmailOf, TenantSlug;
    var i :| 0 <= i < |d.users| && d.users[i] == u;
  }

  /** What login answers about a given user and organization. */
  lemma LoginOf(d: Directory, c: LoginCommand, u: User, o: Organization, now: int)
    requires Valid(d) && FindByEmail(d.users, c.email) == Some(u)
    requires c.organizationSlug.Some? && c.organizationSlug.value != ""
    requires FindBySlug(d.organizations, c.organizationSlug.value) == Some(o)
    ensures var login := Authenticate(d, c, now).result;
            (login.Success? <==> Verifies(u.hash, c.password) && u.status == UserActive && o.ownerId == u.id && o.status == TenantActive) &&
            (login.Success? ==> login.value == TokensFor(u.id, u.email, o.id))
  {
    hide Valid, SaveUser;
    SaveLoginSucceeds(d, u, now);
  }

  /**
   * After a successful run from any directory, logging in with the configured email, password
   * and slug yields a token for the reported tenant exactly when the user and the organization
   * that the run found, if it found any, were usable already.
   */
  lemma LoginAfterRunIff(d: Directory, env: Env, ids: Ids, now: int)
    requires Valid(d) && Fresh(d, ids) && Run(d, env, ids).result.Success?
    ensures var cfg := ReadConfig(env).value; var done := Run(d, env, ids);
            var login := Authenticate(done.directory, LoginCommand(cfg.email, cfg.password, Some(cfg.slug)), now).result;
            (login.Success? <==> UsableUser(d, cfg) && UsableOrganization(d, cfg)) &&
            (login.Success? ==>
              login.value == TokensFor(done.result.value.userId, Lower(cfg.email), done.result.value.organizationId))
  {
    SlugIsNotEmpty(d, env, ids);
    RunEndsIn(d, env, ids);
    hide ReadConfig, ValidUsers, ValidOrganizations, Run, Authenticate;
    var cfg := ReadConfig(env).value;
    var u := FindByEmail(d.users, cfg.email).GetOr(AdminOf(cfg, ids));
    var found := FindBySlug(d.organizations, cfg.slug);
    var o := found.GetOr(TenantOf(cfg, u.id, ids));
    LoginOf(Run(d, env, ids).directory, LoginCommand(cfg.email, cfg.password, Some(cfg.slug)), u, o, now);
    if found.Some? {
      OwnerIsNotFresh(d, o, ids);
    }
  }

  lemma SlugIsNotEmpty(d: Directory, env: Env, ids: Ids)
    requires Valid(d) && Fresh(d, ids) && Run(d, env, ids).result.Success?
    ensures ReadConfig(env).value.slug != ""
  {
    hide Valid, UserStep, OrganizationStep, Hyphenate;
    if Explicit(env.tenantSlug).None? {
      DerivedSlugAcceptedIff(env.folded);
    }
  }

  // ---------------------------------------------------------------------
  // Recovery of runs that were cut off
  // ---------------------------------------------------------------------

  /** What the environment must give for a run from an empty store to succeed. */
  predicate Provisionable(env: Env) {
    && ReadConfig(env).Success? && !Refused(env)
    && var cfg := ReadConfig(env).value;
    && EmailOf(cfg.email).Success? && |cfg.password| >= 8 && |cfg.name| <= 100
    && TenantSlug(cfg.slug).Some? && |cfg.tenantName| <= 100 && PlanTier(cfg.planTier)
  }

  const EXAMPLE := Env(Some("a@b.c"), Some("password"), Some("Admin"), Some("Atlas"), None, None, "atlas", false, false)

  lemma ExampleEmail()
    ensures EmailOf("a@b.c") == Success("a@b.c")
  {
    assert Lower("a@b.c") == "a@b.c";
    TrimKeepsTrimmed("a@b.c");
    assert EmailParts("a@b.c", 1, 3);
  }

  lemma ExampleSlug()
    ensures TenantSlug("atlas") == Some("atlas") && SlugOf("atlas") == "atlas"
  {
    hide TenantSlug, SlugOf;
    GoodSlugIsFixed("atlas");
  }

  lemma ExampleConfig()
    ensures ReadConfig(EXAMPLE) == Success(Config("a@b.c", "password", "Admin", "Atlas", "atlas", "enterprise"))
  {
    hide Trim, SlugOf, Lower;
    TrimKeepsTrimmed("a@b.c");
    TrimKeepsTrimmed("Admin");
    TrimKeepsTrimmed("Atlas");
    ExampleSlug();
  }

  /** The four required variables suffice: a valid email, eight characters of password, and two names. */
  lemma FourVariablesSuffice()
    ensures Provisionable(EXAMPLE)
  {
    hide ReadConfig, EmailOf, TenantSlug;
    ExampleEmail();
    ExampleSlug();
    ExampleConfig();
  }

  /** With neither slug nor plan given: when the four required variables are good enough. */
  lemma MinimalSettingsIff(env: Env)
    requires Explicit(env.tenantSlug).None? && env.tenantPlan.None?
    ensures Provisionable(env) <==>
            && !Refused(env)
            && EmailOf(Given(env.adminEmail)).Success? && |env.adminPassword.GetOr("")| >= 8
            && 1 <= |Given(env.adminName)| <= 100 && 1 <= |Given(env.tenantName)| <= 100
            && HasAlnum(env.folded)
  {
    hide SlugOf, Explicit, HasAlnum, EmailOf, TenantSlug, Trim;
    DerivedSlugAcceptedIff(env.folded);
    NoEmailInNothing();
  }

  lemma NoEmailInNothing()
    ensures EmailOf("").Failure?
  {
  }

  lemma EmptyIsValid()
    ensures Valid(EMPTY)
  {
  }

  lemma UserFromEmpty(env: Env, ids: Ids)
    requires ReadConfig(env).Success?
    ensures var cfg := ReadConfig(env).value;
            UserStep(EMPTY, cfg, ids).Success? <==> EmailOf(cfg.email).Success? && |cfg.password| >= 8 && |cfg.name| <= 100
  {
    hide EmailOf, ReadConfig;
  }

  lemma OrganizationFromNone(d: Directory, env: Env, ownerId: string, ids: Ids)
    requires ReadConfig(env).Success? && d.organizations == [] && HasUser(d.users, ownerId)
    ensures var cfg := ReadConfig(env).value;
            OrganizationStep(d, cfg, ownerId, ids).Success? <==>
            TenantSlug(cfg.slug).Some? && |cfg.tenantName| <= 100 && PlanTier(cfg.planTier)
  {
    hide TenantSlug, ReadConfig;
  }

  /** The store after only the first write of some run, or after both. */
  predicate UserOnly(d: Directory, cfg: Config, ids: Ids) {
    d == Directory([AdminOf(cfg, ids)], [])
  }

  predicate Provisioned(d: Directory, cfg: Config, ids: Ids, ids': Ids) {
    d == Directory([AdminOf(cfg, ids)], [TenantOf(cfg, ids.userId, ids')])
  }

  /** A run from an empty store succeeds exactly with such settings, and then leaves the two rows of one run. */
  lemma RunFromEmptyIff(env: Env, ids: Ids)
    ensures Run(EMPTY, env, ids).result.Success? <==> Provisionable(env)
    ensures Provisionable(env) ==> Provisioned(Run(EMPTY, env, ids).directory, ReadConfig(env).value, ids, ids)
  {
    hide Valid, EmailOf, TenantSlug, ReadConfig, UserStep, OrganizationStep;
    EmptyIsValid();
    if ReadConfig(env).Success? {
      UserFromEmpty(env, ids);
      if UserStep(EMPTY, ReadConfig(env).value, ids).Success? {
        UserIsThere(EMPTY, env, ids);
        var s := UserStep(EMPTY, ReadConfig(env).value, ids).value;
        OrganizationFromNone(s.directory, env, s.id, ids);
        if OrganizationStep(s.directory, ReadConfig(env).value, s.id, ids).Success? {
          OrganizationIsThere(s.directory, env, s.id, ids);
        }
      }
    }
  }

  /** A run from an empty store, by its settings alone, and by the columns of the two rows that it stores. */
  lemma CleanRun(env: Env, ids: Ids)
    ensures
      var run := Run(EMPTY, env, ids);
      var slug := if env.tenantSlug.Some? && |Trim(env.tenantSlug.value)| >= 3 then Lower(Trim(env.tenantSlug.value))
                  else SlugOf(env.folded);
      var plan := if env.tenantPlan.Some? then env.tenantPlan.value else "enterprise";
      && (run.result.Success? <==>
          && (env.production ==> env.allowProduction)
          && EmailOf(Trim(env.adminEmail.GetOr(""))).Success? && |env.adminPassword.GetOr("")| >= 8
          && 1 <= |Trim(env.adminName.GetOr(""))| <= 100 && 1 <= |Trim(env.tenantName.GetOr(""))| <= 100
          && TenantSlug(slug).Some? && plan in {"free", "starter", "pro", "enterprise"})
      && (run.result.Success? ==>
          && run.result.value == Outcome(ids.organizationId, true, ids.userId, true)
          && |run.directory.users| == |run.directory.organizations| == 1
          && (var u := run.directory.users[0];
              && u.id == ids.userId && u.email == Lower(Trim(env.adminEmail.value))
              && u.hash.password == env.adminPassword.value && u.displayName == Trim(env.adminName.value)
              && u.status == UserActive && u.emailVerifiedAt == Some(ids.now) && u.lastLoginAt == None)
          && (var o := run.directory.organizations[0];
              && o.id == ids.organizationId && o.name == Trim(env.tenantName.value) && o.slug == slug
              && o.planTier == plan && o.status == TenantActive && o.ownerId == ids.userId
              && o.provisionedAt == Some(ids.now) && o.settings.auditEnabled
              && !o.settings.allowPublicSignup && !o.settings.enforcesMfa && !o.settings.ssoEnabled))
  {
    hide ReadConfig, EmailOf, TenantSlug, Trim, Lower, SlugOf, Run;
    TrimKeepsTrimmed("");
    ConfigTells(env);
    NoEmailInNothing();
    RunFromEmptyIff(env, ids);
    if Provisionable(env) {
      CleanOutcome(env, ids);
    }
  }

  lemma CleanOutcome(env: Env, ids: Ids)
    requires Provisionable(env)
    ensures Run(EMPTY, env, ids).result == Success(Outcome(ids.organizationId, true, ids.userId, true))
  {
    hide Valid, EmailOf, TenantSlug, ReadConfig, UserStep, OrganizationStep;
    EmptyIsValid();
    RunFromEmptyIff(env, ids);
    UserFromEmpty(env, ids);
    UserIsThere(EMPTY, env, ids);
    var s := UserStep(EMPTY, ReadConfig(env).value, ids).value;
    OrganizationIsThere(s.directory, env, s.id, ids);
  }

  /**
   * A run from an empty store fails after its first write exactly when the user's settings are
   * good and the organization's are not; then it leaves the administrator without an organization.
   */
  lemma HalfDoneIff(env: Env, ids: Ids)
    ensures var done := Run(EMPTY, env, ids);
            (done.result.Failure? && done.directory != EMPTY <==>
              && ReadConfig(env).Success? && !Refused(env)
              && EmailOf(ReadConfig(env).value.email).Success?
              && |ReadConfig(env).value.password| >= 8 && |ReadConfig(env).value.name| <= 100
              && !Provisionable(env)) &&
            (done.result.Failure? && done.directory != EMPTY ==> UserOnly(done.directory, ReadConfig(env).value, ids))
  {
    hide Valid, EmailOf, TenantSlug, ReadConfig, UserStep, OrganizationStep, FindByEmail;
    EmptyIsValid();
    RunFromEmptyIff(env, ids);
    if ReadConfig(env).Success? {
      UserFromEmpty(env, ids);
      if UserStep(EMPTY, ReadConfig(env).value, ids).Success? {
        UserIsThere(EMPTY, env, ids);
        assert FindByEmail(EMPTY.users, ReadConfig(env).value.email).None? by {
          NobodyThere(ReadConfig(env).value.email);
        }
      }
    }
  }

  lemma NobodyThere(email: string)
    ensures FindByEmail([], email) == None
  {
  }

  /** Where a run may be cut off. */
  datatype Cut = BeforeBoth | Between | AfterBoth

  datatype Attempt = Attempt(ids: Ids, cut: Cut)

  /** What an attempt leaves behind. */
  function AfterAttempt(d: Directory, env: Env, a: Attempt): Directory {
    match a.cut
    case BeforeBoth => d
    case Between =>
      if ReadConfig(env).Failure? || Refused(env) || UserStep(d, ReadConfig(env).value, a.ids).Failure? then d
      else UserStep(d, ReadConfig(env).value, a.ids).value.directory
    case AfterBoth => Run(d, env, a.ids).directory
  }

  function AfterAttempts(d: Directory, env: Env, attempts: seq<Attempt>): Directory
    decreases attempts
  {
    if attempts == [] then d else AfterAttempts(AfterAttempt(d, env, attempts[0]), env, attempts[1..])
  }

  predicate FreshAttempts(d: Directory, env: Env, attempts: seq<Attempt>)
    decreases attempts
  {
    attempts != [] ==>
      Fresh(d, attempts[0].ids) && FreshAttempts(AfterAttempt(d, env, attempts[0]), env, attempts[1..])
  }

  predicate SomeCompleted(attempts: seq<Attempt>) {
    exists i :: 0 <= i < |attempts| && attempts[i].cut == AfterBoth
  }

  /** How far the attempts have come. */
  ghost predicate OnTheWay(d: Directory, cfg: Config) {
    d == EMPTY || (exists ids :: UserOnly(d, cfg, ids)) || (exists ids, ids' :: Provisioned(d, cfg, ids, ids'))
  }

  ghost predicate Finished(d: Directory, cfg: Config) {
    exists ids, ids' :: Provisioned(d, cfg, ids, ids')
  }

  lemma AttemptFromUserOnly(d: Directory, env: Env, ids: Ids, a: Attempt)
    requires Provisionable(env) && Valid(d) && UserOnly(d, ReadConfig(env).value, ids) && Fresh(d, a.ids)
    ensures AfterAttempt(d, env, a) == d || Provisioned(AfterAttempt(d, env, a), ReadConfig(env).value, ids, a.ids)
    ensures a.cut == AfterBoth ==> Provisioned(AfterAttempt(d, env, a), ReadConfig(env).value, ids, a.ids)
  {
    hide Valid, EmailOf, TenantSlug, ReadConfig, NewUser, SaveUser, NewOrganization, Provision;
    var cfg := ReadConfig(env).value;
    assert FindByEmail(d.users, cfg.email) == Some(AdminOf(cfg, ids));
    assert d.users[0].id == ids.userId;
    OrganizationFromNone(d, env, ids.userId, a.ids);
    OrganizationIsThere(d, env, ids.userId, a.ids);
  }

  lemma AttemptFromProvisioned(d: Directory, env: Env, ids: Ids, ids': Ids, a: Attempt)
    requires Provisionable(env) && Provisioned(d, ReadConfig(env).value, ids, ids')
    ensures AfterAttempt(d, env, a) == d
  {
    hide EmailOf, TenantSlug, ReadConfig, NewUser, SaveUser, NewOrganization, Provision;
    var cfg := ReadConfig(env).value;
    assert FindByEmail(d.users, cfg.email) == Some(AdminOf(cfg, ids));
    assert FindBySlug(d.organizations, cfg.slug) == Some(TenantOf(cfg, ids.userId, ids'));
  }

  lemma AttemptFromEmpty(env: Env, a: Attempt)
    requires Provisionable(env)
    ensures AfterAttempt(EMPTY, env, a) == EMPTY || UserOnly(AfterAttempt(EMPTY, env, a), ReadConfig(env).value, a.ids) ||
            Provisioned(AfterAttempt(EMPTY, env, a), ReadConfig(env).value, a.ids, a.ids)
    ensures a.cut == AfterBoth ==> Provisioned(AfterAttempt(EMPTY, env, a), ReadConfig(env).value, a.ids, a.ids)
    ensures Valid(AfterAttempt(EMPTY, env, a))
  {
    hide Valid, EmailOf, TenantSlug, ReadConfig, UserStep, Run;
    RunFromEmptyIff(env, a.ids);
    EmptyIsValid();
    RunKeepsValid(EMPTY, env, a.ids);
    UserFromEmpty(env, a.ids);
    UserIsThere(EMPTY, env, a.ids);
  }

  lemma AttemptMovesOn(d: Directory, env: Env, a: Attempt)
    requires Provisionable(env) && Valid(d) && OnTheWay(d, ReadConfig(env).value) && Fresh(d, a.ids)
    ensures Valid(AfterAttempt(d, env, a)) && OnTheWay(AfterAttempt(d, env, a), ReadConfig(env).value)
    ensures a.cut == AfterBoth || Finished(d, ReadConfig(env).value) ==> Finished(AfterAttempt(d, env, a), ReadConfig(env).value)
  {
    hide Valid, EmailOf, TenantSlug, ReadConfig, AfterAttempt, UserOnly, Provisioned;
    var cfg := ReadConfig(env).value;
    if ids, ids' :| Provisioned(d, cfg, ids, ids') {
      AttemptFromProvisioned(d, env, ids, ids', a);
    } else if ids :| UserOnly(d, cfg, ids) {
      AttemptFromUserOnly(d, env, ids, a);
      AttemptKeepsValid(d, env, a);
    } else {
      AttemptFromEmpty(env, a);
    }
  }

  lemma AttemptKeepsValid(d: Directory, env: Env, a: Attempt)
    requires Valid(d) && Fresh(d, a.ids)
    ensures Valid(AfterAttempt(d, env, a))
  {
    hide Valid, ReadConfig, UserStep, Run;
    RunKeepsValid(d, env, a.ids);
    if ReadConfig(env).Success? && UserStep(d, ReadConfig(env).value, a.ids).Success? {
      UserIsThere(d, env, a.ids);
    }
  }

  lemma {:induction false} AttemptsMoveOn(d: Directory, env: Env, attempts: seq<Attempt>)
    requires Provisionable(env) && Valid(d) && OnTheWay(d, ReadConfig(env).value) && FreshAttempts(d, env, attempts)
    ensures OnTheWay(AfterAttempts(d, env, attempts), ReadConfig(env).value) && Valid(AfterAttempts(d, env, attempts))
    ensures SomeCompleted(attempts) || Finished(d, ReadConfig(env).value) ==>
              Finished(AfterAttempts(d, env, attempts), ReadConfig(env).value)
    decreases attempts
  {
    hide Valid, OnTheWay, Finished, ReadConfig, Provisionable, AfterAttempt;
    if attempts != [] {
      AttemptMovesOn(d, env, attempts[0]);
      AttemptsMoveOn(AfterAttempt(d, env, attempts[0]), env, attempts[1..]);
      if i :| 1 <= i < |attempts| && attempts[i].cut == AfterBoth {
        assert attempts[1..][i - 1].cut == AfterBoth;
      }
    }
  }

  // ---------------------------------------------------------------------
  // The store of any recovery is the store of one clean run
  // ---------------------------------------------------------------------

  function FacelessUser(u: User): User {
    u.(id := "", hash := u.hash.(salt := 0), emailVerifiedAt := if u.emailVerifiedAt.Some? then Some(0) else None)
  }

  function FacelessOrganization(o: Organization): Organization {
    o.(id := "", ownerId := "", provisionedAt := if o.provisionedAt.Some? then Some(0) else None)
  }

  /** Equal up to generated ids, salts and times, with the same organizations owned by the same users. */
  predicate SameUpToIds(d: Directory, e: Directory) {
    && |d.users| == |e.users| && |d.organizations| == |e.organizations|
    && (forall i :: 0 <= i < |d.users| ==> FacelessUser(d.users[i]) == FacelessUser(e.users[i]))
    && (forall j :: 0 <= j < |d.organizations| ==>
          FacelessOrganization(d.organizations[j]) == FacelessOrganization(e.organizations[j]))
    && forall i, j :: 0 <= i < |d.users| && 0 <= j < |d.organizations| ==>
         (d.organizations[j].ownerId == d.users[i].id <==> e.organizations[j].ownerId == e.users[i].id)
  }

  lemma LoginWhenProvisioned(d: Directory, cfg: Config, ids: Ids, ids': Ids, slug: Option<string>, now: int)
    requires Valid(d) && Provisioned(d, cfg, ids, ids') && (slug == None || slug == Some(cfg.slug))
    ensures Authenticate(d, LoginCommand(cfg.email, cfg.password, slug), now).result ==
            Success(TokensFor(ids.userId, Lower(cfg.email), ids'.organizationId))
  {
    hide Valid, SaveUser, FindByEmail, FindBySlug, FindByOwnerId;
    OnlyOnes(AdminOf(cfg, ids), TenantOf(cfg, ids.userId, ids'), cfg.email);
    SaveLoginSucceeds(d, AdminOf(cfg, ids), now);
  }

  lemma OnlyOnes(u: User, o: Organization, email: string)
    ensures u.email == Lower(email) ==> FindByEmail([u], email) == Some(u)
    ensures FindBySlug([o], o.slug) == Some(o) && FindByOwnerId([o], o.ownerId) == Some(o)
  {
  }

  /** The one user logs in to the one organization. */
  predicate LetsIn(d: Directory, cfg: Config, slug: Option<string>, now: int) {
    && |d.users| == |d.organizations| == 1
    && Authenticate(d, LoginCommand(cfg.email, cfg.password, slug), now).result ==
       Success(TokensFor(d.users[0].id, Lower(cfg.email), d.organizations[0].id))
  }

  /**
   * From an empty store, any number of runs of which any may be cut off before, between or after
   * the two writes, and of which at least one gets through, leave what a single clean run leaves;
   * from then on the administrator can log in, with the tenant's slug or without.
   */
  lemma Recovery(env: Env, attempts: seq<Attempt>, clean: Ids, now: int)
    requires Provisionable(env) && FreshAttempts(EMPTY, env, attempts) && SomeCompleted(attempts)
    ensures SameUpToIds(AfterAttempts(EMPTY, env, attempts), Run(EMPTY, env, clean).directory)
    ensures LetsIn(AfterAttempts(EMPTY, env, attempts), ReadConfig(env).value, None, now)
    ensures LetsIn(AfterAttempts(EMPTY, env, attempts), ReadConfig(env).value, Some(ReadConfig(env).value.slug), now)
  {
    hide Valid, ReadConfig, AfterAttempts, Run, EmailOf, TenantSlug, FreshAttempts, Authenticate;
    EmptyIsValid();
    AttemptsMoveOn(EMPTY, env, attempts);
    RunFromEmptyIff(env, clean);
    var d, cfg := AfterAttempts(EMPTY, env, attempts), ReadConfig(env).value;
    var ids, ids' :| Provisioned(d, cfg, ids, ids');
    LoginWhenProvisioned(d, cfg, ids, ids', None, now);
    LoginWhenProvisioned(d, cfg, ids, ids', Some(cfg.slug), now);
  }
}

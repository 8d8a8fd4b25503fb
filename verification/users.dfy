/** Account provisioning and the privilege predicate of the authentication
    layer: SAML login, idempotent get-or-create, bootstrap of the default
    administrator. The password hash is an uninterpreted parameter `hash`;
    the random secret and the fresh row id are parameters too. */
module Users {
  import opened Outcomes
  import opened Models
  import opened UserStore

  const AdminEmailVariable := "TRACECAT__SETUP_ADMIN_EMAIL"
  const AdminPasswordVariable := "TRACECAT__SETUP_ADMIN_PASSWORD"

  // ---------------------------------------------------------------------------
  // Privilege

  /** A user without the admin role and without the superuser flag. */
  predicate IsUnprivileged(u: User)
    ensures IsUnprivileged(u) <==> u.role == Basic && !u.isSuperuser
  {
    u.role != Admin && !u.isSuperuser
  }

  /** Reference definition: privileged means admin role or superuser flag. */
  predicate IsPrivileged(u: User) {
    u.role == Admin || u.isSuperuser
  }

  /** Being unprivileged is exactly not being privileged, in both directions. */
  lemma UnprivilegedIffNotPrivileged(u: User)
    ensures IsUnprivileged(u) <==> !IsPrivileged(u)
    ensures u.role == Admin ==> !IsUnprivileged(u)
    ensures u.isSuperuser ==> !IsUnprivileged(u)
  {
  }

  // ---------------------------------------------------------------------------
  // SAML provisioning

  /** The row written for a first SAML login: only email, digest and the
      verified flag are given, the other columns take their defaults. */
  function SamlAccount(id: UserId, email: Email, digest: Digest, verified: bool): User {
    User(id, email, digest, None, None, true, false, verified, Basic)
  }

  /** Handles a successful SAML assertion for `email`: reuses the account with
      that email when association is allowed, refuses it otherwise, and creates
      an account protected by the digest of a fresh secret when none exists. */
  function SamlCallback(s: Store, email: Email, associateByEmail: bool, isVerifiedByDefault: bool,
                        generated: Secret, id: UserId, hash: Secret -> Digest): (r: Step<User>)
    ensures email in s && associateByEmail ==> r == Step(Ok(s[email]), s)
    ensures email in s && !associateByEmail ==> r == Step(Err(UserAlreadyExists), s)
    ensures email !in s ==>
      && r.result.Ok?
      && r.result.value.email == email
      && r.result.value.id == id
      && r.result.value.isVerified == isVerifiedByDefault
      && r.result.value.hashedPassword == hash(generated)
      && IsUnprivileged(r.result.value)
      && r.store.Keys == s.Keys + {email}
      && r.store[email] == r.result.value
    ensures r.store.Keys <= s.Keys + {email}
    ensures Extends(s, r.store)
    ensures WellKeyed(s) ==> WellKeyed(r.store)
  {
    match GetByEmail(s, email)
    case Ok(user) =>
      if !associateByEmail then Step(Err(UserAlreadyExists), s) else Step(Ok(user), s)
    case Err(_) =>
      // the lookup fails only with UserNotExists, the one exception caught
      Create(s, SamlAccount(id, email, hash(generated), isVerifiedByDefault))
  }

  /** The caller learns nothing of the generated secret beyond its digest: two
      SAML logins that differ only in the secret agree on everything else. */
  lemma SamlSecretOnlyThroughDigest(s: Store, email: Email, associateByEmail: bool,
                                    isVerifiedByDefault: bool, g1: Secret, g2: Secret,
                                    id: UserId, hash: Secret -> Digest)
    ensures
      var a := SamlCallback(s, email, associateByEmail, isVerifiedByDefault, g1, id, hash);
      var b := SamlCallback(s, email, associateByEmail, isVerifiedByDefault, g2, id, hash);
      && a.result.Ok? == b.result.Ok?
      && a.store.Keys == b.store.Keys
      && (a.result.Ok? ==> a.result.value.(hashedPassword := "") == b.result.value.(hashedPassword := ""))
      && (hash(g1) == hash(g2) ==> a == b)
  {
  }

  // ---------------------------------------------------------------------------
  // Account creation and get-or-create

  /** `u` is the account built from `p`: same fields, password replaced by its digest. */
  ghost predicate Realizes(u: User, p: UserCreate, hash: Secret -> Digest) {
    && u.email == p.email
    && u.hashedPassword == hash(p.password)
    && u.firstName == p.firstName
    && u.lastName == p.lastName
    && u.isActive == p.isActive
    && u.isSuperuser == p.isSuperuser
    && u.isVerified == p.isVerified
    && u.role == p.role
  }

  /** The row stored for creation parameters `p`. */
  function AccountFor(p: UserCreate, id: UserId, hash: Secret -> Digest): User {
    User(id, p.email, hash(p.password), p.firstName, p.lastName,
         p.isActive, p.isSuperuser, p.isVerified, p.role)
  }

  /** The user manager's `create`, called without the `safe` restriction so
      that superuser, verified and role are kept: refuses an email already in
      use, otherwise stores the account with the hashed password. */
  function ManagerCreate(s: Store, p: UserCreate, id: UserId, hash: Secret -> Digest): (r: Step<User>)
    ensures r.result.Ok? <==> p.email !in s
    ensures r.result.Err? ==> r == Step(Err(UserAlreadyExists), s)
    ensures r.result.Ok? ==>
      && Realizes(r.result.value, p, hash)
      && r.result.value.id == id
      && r.store.Keys == s.Keys + {p.email}
      && r.store[p.email] == r.result.value
    ensures Extends(s, r.store)
    ensures WellKeyed(s) ==> WellKeyed(r.store)
  {
    match GetByEmail(s, p.email)
    case Ok(_) => Step(Err(UserAlreadyExists), s)
    case Err(_) => Create(s, AccountFor(p, id, hash))
  }

  /** Creates the account for `p`; on an email collision either re-raises
      (`existOk` false) or hands back the account already stored for that email. */
  function GetOrCreateUser(s: Store, p: UserCreate, existOk: bool, id: UserId,
                           hash: Secret -> Digest): (r: Step<User>)
    ensures p.email in s && existOk ==> r == Step(Ok(s[p.email]), s)
    ensures p.email in s && !existOk ==> r == Step(Err(UserAlreadyExists), s)
    ensures p.email !in s ==>
      && r.result.Ok?
      && Realizes(r.result.value, p, hash)
      && r.result.value.id == id
      && r.store.Keys == s.Keys + {p.email}
      && r.store[p.email] == r.result.value
    ensures r.store.Keys <= s.Keys + {p.email}
    ensures Extends(s, r.store)
    ensures WellKeyed(s) ==> WellKeyed(r.store)
  {
    var created := ManagerCreate(s, p, id, hash);
    match created.result
    case Ok(_) => created
    case Err(UserAlreadyExists) =>
      if !existOk then created
      else Step(GetByEmail(created.store, p.email), created.store)
    case Err(_) => created
  }

  /** With `existOk` a collision never fails the call. */
  lemma GetOrCreateNeverFailsWhenExistOk(s: Store, p: UserCreate, id: UserId, hash: Secret -> Digest)
    ensures GetOrCreateUser(s, p, true, id, hash).result.Ok?
    ensures GetOrCreateUser(s, p, true, id, hash).result.value.email == p.email || !WellKeyed(s)
  {
  }

  /** Calling get-or-create twice with the same parameters returns the same
      account, and the second call leaves the store as the first left it, with
      exactly one record for the email. A second call without `existOk` fails. */
  lemma GetOrCreateTwice(s: Store, p: UserCreate, id1: UserId, id2: UserId, hash: Secret -> Digest)
    ensures
      var a := GetOrCreateUser(s, p, true, id1, hash);
      var b := GetOrCreateUser(a.store, p, true, id2, hash);
      && b == a
      && a.result.Ok?
      && p.email in b.store && b.store[p.email] == a.result.value
      && |b.store| <= |s| + 1
    ensures
      var a := GetOrCreateUser(s, p, true, id1, hash);
      GetOrCreateUser(a.store, p, false, id2, hash) == Step(Err(UserAlreadyExists), a.store)
  {
  }

  // ---------------------------------------------------------------------------
  // Default administrator

  /** The truth test applied to a value read from the environment: set and non-empty. */
  predicate IsSet(v: Option<string>) {
    v.Some? && v.value != ""
  }

  /** Builds the creation parameters of the bootstrap administrator from the
      two configuration values, checking the email first. */
  function DefaultAdminUser(emailSetting: Option<string>, passwordSetting: Option<string>): (r: Result<UserCreate>)
    ensures r.Ok? <==> IsSet(emailSetting) && IsSet(passwordSetting)
    ensures !IsSet(emailSetting) ==> r == Err(SettingNotSet(AdminEmailVariable))
    ensures IsSet(emailSetting) && !IsSet(passwordSetting) ==> r == Err(SettingNotSet(AdminPasswordVariable))
    ensures r.Ok? ==>
      && r.value.email == emailSetting.value
      && r.value.password == passwordSetting.value
      && r.value.firstName == Some("Root")
      && r.value.lastName == Some("User")
      && r.value.isSuperuser
      && r.value.isVerified
      && r.value.role == Admin
  {
    if !IsSet(emailSetting) then Err(SettingNotSet(AdminEmailVariable))
    else if !IsSet(passwordSetting) then Err(SettingNotSet(AdminPasswordVariable))
    else Ok(UserCreate(emailSetting.value, passwordSetting.value, Some("Root"), Some("User"),
                       true, true, true, Admin))
  }

  /** Every account built from the default administrator's parameters is privileged. */
  lemma DefaultAdminIsPrivileged(emailSetting: Option<string>, passwordSetting: Option<string>,
                                 u: User, hash: Secret -> Digest)
    requires DefaultAdminUser(emailSetting, passwordSetting).Ok?
    requires Realizes(u, DefaultAdminUser(emailSetting, passwordSetting).value, hash)
    ensures IsPrivileged(u) && !IsUnprivileged(u)
  {
  }

  /** Bootstraps the administrator: a configuration error aborts before the
      store is touched; otherwise get-or-create with `existOk`. */
  function GetOrCreateDefaultAdminUser(s: Store, emailSetting: Option<string>, passwordSetting: Option<string>,
                                       id: UserId, hash: Secret -> Digest): (r: Step<User>)
    ensures !IsSet(emailSetting) ==> r == Step(Err(SettingNotSet(AdminEmailVariable)), s)
    ensures IsSet(emailSetting) && !IsSet(passwordSetting) ==>
      r == Step(Err(SettingNotSet(AdminPasswordVariable)), s)
    ensures IsSet(emailSetting) && IsSet(passwordSetting) && emailSetting.value in s ==>
      r == Step(Ok(s[emailSetting.value]), s)
    ensures IsSet(emailSetting) && IsSet(passwordSetting) && emailSetting.value !in s ==>
      && r.result.Ok?
      && r.result.value.email == emailSetting.value
      && r.result.value.hashedPassword == hash(passwordSetting.value)
      && Realizes(r.result.value, DefaultAdminUser(emailSetting, passwordSetting).value, hash)
      && !IsUnprivileged(r.result.value)
      && r.store.Keys == s.Keys + {emailSetting.value}
      && r.store[emailSetting.value] == r.result.value
    ensures !(IsSet(emailSetting) && IsSet(passwordSetting)) ==> r.store == s
    ensures Extends(s, r.store)
    ensures WellKeyed(s) ==> WellKeyed(r.store)
  {
    match DefaultAdminUser(emailSetting, passwordSetting)
    case Err(e) => Step(Err(e), s)
    case Ok(p) => GetOrCreateUser(s, p, true, id, hash)
  }

  /** Bootstrapping twice with the same configuration yields the same single
      account and leaves the store as the first run left it. */
  lemma BootstrapIdempotent(s: Store, emailSetting: Option<string>, passwordSetting: Option<string>,
                            id1: UserId, id2: UserId, hash: Secret -> Digest)
    ensures
      var a := GetOrCreateDefaultAdminUser(s, emailSetting, passwordSetting, id1, hash);
      var b := GetOrCreateDefaultAdminUser(a.store, emailSetting, passwordSetting, id2, hash);
      a == b
  {
  }

  /** Bootstrapping does not upgrade an account that already holds the
      administrator's email: an ordinary member registered under that email is
      returned as it is, still unprivileged. */
  lemma BootstrapKeepsExistingMember(s: Store, emailSetting: Option<string>, passwordSetting: Option<string>,
                                     id: UserId, hash: Secret -> Digest)
    requires IsSet(emailSetting) && IsSet(passwordSetting)
    requires emailSetting.value in s && IsUnprivileged(s[emailSetting.value])
    ensures
      var r := GetOrCreateDefaultAdminUser(s, emailSetting, passwordSetting, id, hash);
      r.result.Ok? && IsUnprivileged(r.result.value) && r.store == s
  {
  }
}

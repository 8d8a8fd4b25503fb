# Tracecat user provisioning, modelled in Dafny

This project models the account-provisioning and authorisation logic of
Tracecat's authentication layer (`tracecat/auth/users.py`):

- **SAML login** (`UserManager.saml_callback`): reuse the account with the
  asserted email, refuse it when association by email is off, or create a new
  account whose password is the digest of a secret nobody is told.
- **Idempotent get-or-create** (`get_or_create_user`): create an account, and on
  an email collision either re-raise or return the stored account.
- **Default administrator** (`default_admin_user`,
  `get_or_create_default_admin_user`): validate the two configuration values,
  email first, and provision a fixed superuser/admin account.
- **Privilege predicate** (`is_unprivileged`).

The user table is an immutable map from email to user record
(`UserStore.Store`). Every operation that can write returns a
`Step(result, store)`, so "nothing else changes" is stated directly.
Exceptions are values of `Outcomes.Error`. The password hash is an
uninterpreted function parameter `hash`. The generated secret, the new row's
id and the two environment values are parameters too.

Files:

- `outcomes.dfy`: `Option`, `Error` and `Result`.
- `models.dfy`: `User`, `UserCreate` and `Role`.
- `store.dfy`: the store, its lookup and insert primitives, and its invariants.
  `WellKeyed` says every record sits under its own email. `Extends` says
  no record is deleted or rewritten.
- `users.dfy`: the operations of `users.py` and their properties.
- `provisioning.dfy`: any sequence of provisioning calls, and idempotence over
  repeated calls.

Notes on the code's behaviour:

- Bootstrap calls the user manager's `create` with `safe=False`, so
  superuser, verified and role are kept.
- Every account created here carries a password digest. SAML accounts get the
  digest of a generated secret, so no digest is ever absent.
- A second bootstrap returns whatever account holds the administrator's email,
  even an ordinary member's (`Users.BootstrapKeepsExistingMember`).

## Model

| member | source | states |
|---|---|---|
| UserStore.GetByEmail | tracecat/auth/users.py:79 | the lookup succeeds exactly when the email is stored; it then yields a stored record, which carries that email in a well-keyed store; otherwise it fails with `UserNotExists` |
| UserStore.Create | tracecat/auth/users.py:90 | the database insert adds one record under a fresh email and keeps all others, so emails stay unique; every modelled caller looks the email up first, so the collision branch (an integrity error in the database, reported as `UserAlreadyExists` with the store unchanged) is never reached |
| UserStore.GetAfterCreate | tracecat/auth/users.py:208-216 | an account just created is found again by its email |
| UserStore.CreateTwiceFails | tracecat/auth/users.py:211-212 | a second account with the same email is refused |
| UserStore.WellKeyedEmailsUnique | tracecat/auth/users.py:212 | in a well-keyed store two records with the same email are one record |
| Users.IsUnprivileged | tracecat/auth/users.py:198-200 | a user is unprivileged exactly when its role is the basic role and its superuser flag is clear |
| Users.UnprivilegedIffNotPrivileged | tracecat/auth/users.py:198-200 | unprivileged is the exact negation of "admin role or superuser"; either one alone makes a user privileged |
| Users.SamlCallback | tracecat/auth/users.py:63-94 | an existing email with association allowed returns the stored account, store unchanged; without association it yields `UserAlreadyExists`, store unchanged; a new email adds exactly one account under that email, verified as requested, with the digest of the generated secret, unprivileged, all other accounts kept |
| Users.SamlSecretOnlyThroughDigest | tracecat/auth/users.py:84-88 | two SAML logins that differ only in the generated secret agree on everything but the stored digest, and are identical when the digests are |
| Users.ManagerCreate | tracecat/auth/users.py:208 | creation succeeds exactly when the email is new; the stored account carries the parameters' fields with the password replaced by its digest; a collision yields `UserAlreadyExists`, store unchanged |
| Users.GetOrCreateUser | tracecat/auth/users.py:203-216 | a new email yields the newly created account, added as the only change; an existing email yields the stored account with `exist_ok`, or `UserAlreadyExists` without it, store unchanged either way |
| Users.GetOrCreateNeverFailsWhenExistOk | tracecat/auth/users.py:211-216 | with `exist_ok` the call never fails, and in a well-keyed store the account returned carries the requested email |
| Users.GetOrCreateTwice | tracecat/auth/users.py:207-216 | a second identical call returns the same account and leaves the store as the first call left it, with one record for the email and at most one new record in all; the same second call without `exist_ok` fails with `UserAlreadyExists` |
| Users.DefaultAdminUser | tracecat/auth/users.py:235-249 | succeeds exactly when both values are set and non-empty; a missing or empty email is reported first, then a missing or empty password; success gives the supplied email and password, names "Root" "User", superuser, verified, admin role |
| Users.DefaultAdminIsPrivileged | tracecat/auth/users.py:241-249 | every account built from the default administrator's parameters is privileged, so `is_unprivileged` is false for it |
| Users.GetOrCreateDefaultAdminUser | tracecat/auth/users.py:225-226 | a configuration error is raised before the store is touched; with both values set, an existing email returns the stored account unchanged, and a new one adds the fixed administrator record (supplied email, digest of the supplied password, names Root and User, superuser, verified, admin role), all others kept |
| Users.BootstrapIdempotent | tracecat/auth/users.py:225-226 | bootstrapping again with the same configuration returns the same outcome and leaves the same store |
| Users.BootstrapKeepsExistingMember | tracecat/auth/users.py:211-216 | when an ordinary member already holds the administrator's email, bootstrapping returns that member unchanged and still unprivileged |
| Provisioning.HandleAddsOnlyNamed | tracecat/auth/users.py:82-90 | a SAML login, get-or-create call or bootstrap adds no account except under the email it names (for a bootstrap, only when both settings are set) |
| Provisioning.Serve | tracecat/auth/users.py:203-216 | over any sequence of SAML logins, get-or-create calls and bootstraps: one outcome per call, the first being the first call's own outcome; no account deleted or rewritten; emails kept unique |
| Provisioning.ServeAddsOnlyNamed | tracecat/auth/users.py:203-216 | a sequence of provisioning calls adds accounts only under the emails the calls name, which are at most one per call |
| Provisioning.RetriesAreStable | tracecat/auth/users.py:211-216 | once an account exists for the email, any number of further get-or-create calls with `exist_ok` return it and leave the store unchanged |
| Provisioning.GetOrCreateRepeated | tracecat/auth/users.py:203-216 | get-or-create repeated any number of times returns the first call's account every time and ends with the first call's store |

## Left out

- FastAPI dependency providers and context managers (`get_user_db`, `get_access_token_db`, `get_user_db_context`, `get_user_manager`, `get_user_manager_context`, `get_user_db_sqlmodel`): framework wiring and async resource scoping with no logic of their own.
- Cookie transport, database token strategy, authentication backend and `FastAPIUserWithLogoutRouter`: the file only configures them, and their token issue, resolution, expiry and logout logic lives in the fastapi-users library, which is not part of this model.
- `current_active_user` and `optional_current_active_user`: guards generated by the library.
- `on_after_register`, `on_after_forgot_password`, `on_after_request_verify`, the SAML success log line and the `logger.info` / `logger.warning` calls in `get_or_create_user`: they only write log entries.
- `list_users`: a plain SQL select with no logic of its own.
- Password hashing and secret generation: opaque library primitives, here the parameter `hash` and the parameter `generated`. UUID generation is the parameter `id`.
- Concurrency: the guarantee that concurrent duplicate registrations give exactly one account rests on the database's unique constraint; calls are modelled one after another.
- Reading environment variables: the two settings are `Option<string>` inputs.
- Users.DefaultAdminUser: succeeds for any non-empty email string and keeps it verbatim. The `UserCreate` schema types the email as an email address, so the library rejects a malformed address with a validation error and normalises a valid one; that validation is not part of this model.
- UserStore.GetByEmail: compares emails exactly, because normalisation and case-insensitive matching are done by the library and the database, not by this file.
- Users.IsUnprivileged: its contract relies on the role having exactly two values, basic and admin. `tracecat/auth/models.py` is not part of this model, and a third role would count as unprivileged under the source's `!= ADMIN` test.
- Users.SamlCallback: the defaults of the columns the SAML path leaves unset are taken as active, not superuser, basic role and no names. They come from the table schema, which is not part of this model.
- Users.ManagerCreate: the library's `create` is not part of this model. It is taken to refuse an existing email, to hash the password, and to keep every other field. Its password validation hook is taken to accept every password, because the user manager here does not override it.

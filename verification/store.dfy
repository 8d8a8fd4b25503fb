/** The persistent user table, abstracted as a map from email to record.
    Every operation that may write returns its outcome together with the
    store it leaves behind. */
module UserStore {
  import opened Outcomes
  import opened Models

  type Store = map<Email, User>

  /** The outcome of an operation and the store after it. */
  datatype Step<+T> = Step(result: Result<T>, store: Store)

  /** Every record sits under its own email, so no two records share an email. */
  ghost predicate WellKeyed(s: Store) {
    forall e :: e in s ==> s[e].email == e
  }

  /** `s'` keeps every record of `s` unchanged: nothing is deleted or rewritten. */
  ghost predicate Extends(s: Store, s': Store) {
    && s.Keys <= s'.Keys
    && forall e {:trigger s'[e]} :: e in s ==> s'[e] == s[e]
  }

  /** Looks an account up by email; a missing email is `UserNotExists`. */
  function GetByEmail(s: Store, email: Email): (r: Result<User>)
    ensures r.Ok? <==> email in s
    ensures r.Ok? ==> r.value.email == email || !WellKeyed(s)
    ensures r.Ok? ==> r.value in s.Values
    ensures r.Err? ==> r.error == UserNotExists
  {
    if email in s then Ok(s[email]) else Err(UserNotExists)
  }

  /** Inserts a record under its email. No modelled caller inserts an email
      that is already stored: every caller looks the email up first. The
      database would reject such an insert with an integrity error; the model
      reports it as `UserAlreadyExists` so that the store never holds two
      records for one email. */
  function Create(s: Store, u: User): (r: Step<User>)
    ensures r.result.Ok? <==> u.email !in s
    ensures r.result.Err? ==> r.result.error == UserAlreadyExists && r.store == s
    ensures r.result.Ok? ==> r.result.value == u && r.store.Keys == s.Keys + {u.email}
    ensures r.result.Ok? ==> |r.store| == |s| + 1
    ensures Extends(s, r.store)
    ensures WellKeyed(s) ==> WellKeyed(r.store)
  {
    if u.email in s then Step(Err(UserAlreadyExists), s)
    else Step(Ok(u), s[u.email := u])
  }

  /** A created record is found again by its email. */
  lemma GetAfterCreate(s: Store, u: User)
    requires u.email !in s
    ensures GetByEmail(Create(s, u).store, u.email) == Ok(u)
  {
  }

  /** Two records for one email cannot both be created. */
  lemma CreateTwiceFails(s: Store, u: User, v: User)
    requires u.email == v.email
    ensures Create(Create(s, u).store, v).result == Err(UserAlreadyExists)
  {
  }

  /** In a well-keyed store the email determines the record. */
  lemma WellKeyedEmailsUnique(s: Store, e1: Email, e2: Email)
    requires WellKeyed(s)
    requires e1 in s && e2 in s && s[e1].email == s[e2].email
    ensures e1 == e2 && s[e1] == s[e2]
  {
  }
}

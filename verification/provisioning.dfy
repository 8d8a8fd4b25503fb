/** The user store under an arbitrary sequence of provisioning calls: SAML
    logins, get-or-create requests and administrator bootstraps, served one
    after another. */
module Provisioning {
  import opened Outcomes
  import opened Models
  import opened UserStore
  import opened Users

  /** One provisioning call with all of its inputs. */
  datatype Request =
    | SamlLogin(email: Email, associateByEmail: bool, isVerifiedByDefault: bool,
                generated: Secret, id: UserId)
    | GetOrCreate(params: UserCreate, existOk: bool, id: UserId)
    | BootstrapAdmin(emailSetting: Option<string>, passwordSetting: Option<string>, id: UserId)

  /** The email under which a request may add an account. */
  function Named(req: Request): set<Email> {
    match req
    case SamlLogin(email, _, _, _, _) => {email}
    case GetOrCreate(p, _, _) => {p.email}
    case BootstrapAdmin(e, pw, _) => if IsSet(e) && IsSet(pw) then {e.value} else {}
  }

  /** The emails named by a sequence of requests; at most one per request. */
  function AllNamed(reqs: seq<Request>): (names: set<Email>)
    ensures |names| <= |reqs|
  {
    if reqs == [] then {} else Named(reqs[0]) + AllNamed(reqs[1..])
  }

  /** Runs one request against the store. */
  function Handle(s: Store, req: Request, hash: Secret -> Digest): (r: Step<User>)
    ensures Extends(s, r.store)
    ensures WellKeyed(s) ==> WellKeyed(r.store)
  {
    match req
    case SamlLogin(email, associate, verified, generated, id) =>
      SamlCallback(s, email, associate, verified, generated, id, hash)
    case GetOrCreate(p, existOk, id) =>
      GetOrCreateUser(s, p, existOk, id, hash)
    case BootstrapAdmin(e, pw, id) =>
      GetOrCreateDefaultAdminUser(s, e, pw, id, hash)
  }

  /** A request adds no account except under the email it names. */
  lemma HandleAddsOnlyNamed(s: Store, req: Request, hash: Secret -> Digest)
    ensures Handle(s, req, hash).store.Keys <= s.Keys + Named(req)
  {
  }

  /** The outcome of each request in order, and the store after the last one. */
  datatype Transcript = Transcript(results: seq<Result<User>>, store: Store)

  /** Serves the requests in order, returning one outcome per request and the
      final store. No account is ever deleted or rewritten, emails stay
      unique. */
  function Serve(s: Store, reqs: seq<Request>, hash: Secret -> Digest): (r: Transcript)
    ensures |r.results| == |reqs|
    ensures reqs != [] ==> r.results[0] == Handle(s, reqs[0], hash).result
    ensures Extends(s, r.store)
    ensures WellKeyed(s) ==> WellKeyed(r.store)
    decreases |reqs|
  {
    if reqs == [] then Transcript([], s)
    else
      var first := Handle(s, reqs[0], hash);
      var rest := Serve(first.store, reqs[1..], hash);
      Transcript([first.result] + rest.results, rest.store)
  }

  /** A sequence of requests adds accounts only under the emails it names,
      hence at most one account per request. */
  lemma {:induction false} ServeAddsOnlyNamed(s: Store, reqs: seq<Request>, hash: Secret -> Digest)
    ensures Serve(s, reqs, hash).store.Keys <= s.Keys + AllNamed(reqs)
    decreases |reqs|
  {
    if reqs != [] {
      var first := Handle(s, reqs[0], hash);
      HandleAddsOnlyNamed(s, reqs[0], hash);
      ServeAddsOnlyNamed(first.store, reqs[1..], hash);
    }
  }

  /** `n` get-or-create requests for the same parameters with `existOk`, each
      given its own fresh id. */
  function Retries(p: UserCreate, ids: seq<UserId>): (reqs: seq<Request>)
    ensures |reqs| == |ids|
    ensures forall i :: 0 <= i < |ids| ==> reqs[i] == GetOrCreate(p, true, ids[i])
  {
    if ids == [] then [] else [GetOrCreate(p, true, ids[0])] + Retries(p, ids[1..])
  }

  /** Once an account exists for `p.email`, any number of further
      get-or-create requests with `existOk` return that very account and
      leave the store untouched. */
  lemma {:induction false} RetriesAreStable(s: Store, p: UserCreate, ids: seq<UserId>, hash: Secret -> Digest)
    requires p.email in s
    ensures Serve(s, Retries(p, ids), hash).store == s
    ensures forall i :: 0 <= i < |ids| ==> Serve(s, Retries(p, ids), hash).results[i] == Ok(s[p.email])
    decreases |ids|
  {
    if ids != [] {
      var reqs := Retries(p, ids);
      assert reqs[1..] == Retries(p, ids[1..]);
      RetriesAreStable(s, p, ids[1..], hash);
    }
  }

  /** Get-or-create is idempotent over any number of calls: the first call
      decides the account, every later call returns it, and the store ends
      with exactly the first call's store. */
  lemma {:induction false} GetOrCreateRepeated(s: Store, p: UserCreate, id: UserId, ids: seq<UserId>,
                                               hash: Secret -> Digest)
    ensures
      var first := GetOrCreateUser(s, p, true, id, hash);
      var later := Serve(first.store, Retries(p, ids), hash);
      && first.result.Ok?
      && later.store == first.store
      && forall i :: 0 <= i < |ids| ==> later.results[i] == first.result
  {
    var first := GetOrCreateUser(s, p, true, id, hash);
    assert p.email in first.store && first.store[p.email] == first.result.value;
    RetriesAreStable(first.store, p, ids, hash);
  }
}

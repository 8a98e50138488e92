/**
 Revocation over whole runs of auth-svc: logins stamp a token with the account's current session
 version, revocations advance the version, and a token is refused as soon as it lags behind.
 */
module Sessions {
  import opened Options
  import opened Runs
  import opened Tokens

  function Incremented(redis: map<string, int>, key: string): map<string, int> {
    redis[key := (if key in redis then redis[key] else 0) + 1]
  }

  // ---------- Runs ----------

  datatype Op =
    | AdminLogin(id: int, role: string, exp: int)
    | CustomerLogin(id: int, exp: int)
    | Register(id: int, exp: int)
    | Impersonate(id: int, exp: int)
    | RevokeAdmin(id: int)
    | DeactivateAdmin(id: int)
    | ResetPassword(id: int)

  function Step(redis: map<string, int>, op: Op): map<string, int> {
    match op
    case RevokeAdmin(id) => Incremented(redis, CounterKey(AdminSpace, id))
    case DeactivateAdmin(id) => Incremented(redis, CounterKey(AdminSpace, id))
    case ResetPassword(id) => Incremented(redis, CounterKey(CustomerSpace, id))
    case _ => redis
  }

  function After(run: Run<Op>): map<string, int> {
    match run
    case Start => map[]
    case Then(past, op) => Step(After(past), op)
  }

  /** The claims an operation signs; registration and impersonation carry no version. */
  function Issued(redis: map<string, int>, op: Op): Option<Claims> {
    match op
    case AdminLogin(id, role, exp) =>
      Some(Claims(Some(id), role, Some(exp), Some(Version(redis, AdminSpace, id)), map[]))
    case CustomerLogin(id, exp) =>
      Some(Claims(Some(id), "customer", Some(exp), Some(Version(redis, CustomerSpace, id)), map[]))
    case Register(id, exp) => Some(Claims(Some(id), "customer", Some(exp), None, map[]))
    case Impersonate(id, exp) =>
      Some(Claims(Some(id), "customer", Some(exp), None, map["impersonated_by_admin" := "true"]))
    case _ => None
  }

  /** How often this admin was revoked by hand or deactivated. */
  function AdminRevocations(run: Run<Op>, id: int): nat {
    match run
    case Start => 0
    case Then(past, op) =>
      AdminRevocations(past, id) + if op == RevokeAdmin(id) || op == DeactivateAdmin(id) then 1 else 0
  }

  /** How often this customer's password was reset. */
  function PasswordResets(run: Run<Op>, id: int): nat {
    match run
    case Start => 0
    case Then(past, op) => PasswordResets(past, id) + if op == ResetPassword(id) then 1 else 0
  }

  function Revocations(run: Run<Op>, space: Space, id: int): nat {
    if space.AdminSpace? then AdminRevocations(run, id) else PasswordResets(run, id)
  }

  /** Whether an account was revoked during a run. */
  predicate RevokedIn(run: Run<Op>, space: Space, id: int) {
    Revocations(run, space, id) > 0
  }

  /** Adding one to a counter leaves every other account's alone. */
  lemma IncrementedVersion(redis: map<string, int>, to: Space, who: int, space: Space, id: int)
    ensures Version(Incremented(redis, CounterKey(to, who)), space, id) ==
            Version(redis, space, id) + if to == space && who == id then 1 else 0
  {
    hide CounterKey;
    if CounterKey(to, who) == CounterKey(space, id) { CounterKeysSeparate(to, who, space, id); }
  }

  /** In every run an admin's counter is the number of times that admin was revoked or deactivated, and a customer's
      the number of times that customer's password was reset. */
  lemma {:induction false} CounterCounts(run: Run<Op>, space: Space, id: int)
    ensures Version(After(run), space, id) ==
            if space.AdminSpace? then AdminRevocations(run, id) else PasswordResets(run, id)
  {
    hide CounterKey, Version, Incremented;
    if run.Then? {
      CounterCounts(run.past, space, id);
      match run.last
      case RevokeAdmin(who) => IncrementedVersion(After(run.past), AdminSpace, who, space, id);
      case DeactivateAdmin(who) => IncrementedVersion(After(run.past), AdminSpace, who, space, id);
      case ResetPassword(who) => IncrementedVersion(After(run.past), CustomerSpace, who, space, id);
      case _ =>
    } else {
      NoCounters(space, id);
    }
  }

  lemma NoCounters(space: Space, id: int)
    ensures Version(map[], space, id) == 0
  {
  }

  // ---------- The service ----------

  class AuthServer {
    const env: Env
    var redis: map<string, int>
    ghost var history: Run<Op>

    /** The counters are those of the run so far. */
    ghost predicate Valid()
      reads this
    {
      redis == After(history)
    }

    constructor (env: Env)
      ensures Valid() && this.env == env && history == Start
    {
      this.env := env;
      redis, history := map[], Start;
    }

    /** The version read for an account is the number of times it has been revoked. */
    method SessionVersion(space: Space, id: int) returns (v: int)
      requires Valid()
      ensures v == Version(redis, space, id) == Revocations(history, space, id)
    {
      var key := CounterKey(space, id);
      v := if key in redis then redis[key] else 0;
      CounterCounts(history, space, id);
    }

    method Incr(key: string) returns (value: int)
      modifies this`redis
      ensures redis == Incremented(old(redis), key) && value == redis[key]
    {
      value := (if key in redis then redis[key] else 0) + 1;
      redis := redis[key := value];
    }

    /** A reset password revokes the customer's sessions. */
    method RevokeCustomerSessions(id: int)
      requires Valid()
      modifies this
      ensures Valid() && history == Then(old(history), ResetPassword(id))
    {
      var value := Incr(CounterKey(CustomerSpace, id));
      history := Then(history, ResetPassword(id));
    }

    /** Answers how many times the admin has now been revoked. */
    method RevokeAdminSessions(id: int) returns (version: int)
      requires Valid()
      modifies this
      ensures Valid() && history == Then(old(history), RevokeAdmin(id))
      ensures version == Revocations(history, AdminSpace, id)
    {
      version := Incr(CounterKey(AdminSpace, id));
      history := Then(history, RevokeAdmin(id));
      CounterCounts(history, AdminSpace, id);
    }

    /** Deactivating an admin also revokes; reactivating does not. */
    method SetAdminActive(id: int, active: bool)
      requires Valid()
      modifies this
      ensures Valid() && history == if active then old(history) else Then(old(history), DeactivateAdmin(id))
      ensures active ==> redis == old(redis)
      ensures !active ==> Version(redis, AdminSpace, id) == Version(old(redis), AdminSpace, id) + 1
    {
      if !active {
        IncrementedVersion(redis, AdminSpace, id, AdminSpace, id);
        var value := Incr(CounterKey(AdminSpace, id));
        history := Then(history, DeactivateAdmin(id));
      }
    }

    method AdminLogin(id: int, role: string, exp: int) returns (token: string)
      requires Valid()
      modifies this`history
      ensures Valid() && history == Then(old(history), Op.AdminLogin(id, role, exp))
      ensures token == SignJwt(env, Issued(After(old(history)), Op.AdminLogin(id, role, exp)).value)
    {
      var sv := SessionVersion(AdminSpace, id);
      token := SignJwt(env, Claims(Some(id), role, Some(exp), Some(sv), map[]));
      history := Then(history, Op.AdminLogin(id, role, exp));
    }

    method CustomerLogin(id: int, exp: int) returns (token: string)
      requires Valid()
      modifies this`history
      ensures Valid() && history == Then(old(history), Op.CustomerLogin(id, exp))
      ensures token == SignJwt(env, Issued(After(old(history)), Op.CustomerLogin(id, exp)).value)
    {
      var sv := SessionVersion(CustomerSpace, id);
      token := SignJwt(env, Claims(Some(id), "customer", Some(exp), Some(sv), map[]));
      history := Then(history, Op.CustomerLogin(id, exp));
    }

    /** A new account's first token, and the one an admin gets to act as a customer, carry no version. */
    method IssueUnversioned(op: Op) returns (token: string)
      requires Valid() && (op.Register? || op.Impersonate?)
      modifies this`history
      ensures Valid() && history == Then(old(history), op)
      ensures token == SignJwt(env, Issued(After(old(history)), op).value)
    {
      token := SignJwt(env, Claims(Some(op.id), "customer", Some(op.exp), None,
                                   if op.Impersonate? then map["impersonated_by_admin" := "true"] else map[]));
      history := Then(history, op);
    }

    method ClaimsFromRequest(token: string, now: int) returns (v: Verdict)
      requires Valid()
      ensures v == AuthVerify(env, After(history), token, now)
    {
      hide GoParse;
      v := GoParse(env, token);
      if v.Rejected? {
        return;
      }
      var c := v.claims;
      if GoExpired(c, now) {
        return Rejected(Expired);
      }
      if c.sv.Some? {
        var current := SessionVersion(AdminSpace, Subject(c));
        if c.role == "customer" {
          current := SessionVersion(CustomerSpace, Subject(c));
        }
        if c.sv.value < current {
          return Rejected(Revoked);
        }
      }
    }
  }

  // ---------- Revocation over runs ----------

  lemma {:induction false} RevocationsAppend(a: Run<Op>, b: Run<Op>, space: Space, id: int)
    ensures Revocations(Append(a, b), space, id) == Revocations(a, space, id) + Revocations(b, space, id)
  {
    if b.Then? { RevocationsAppend(a, b.past, space, id); }
  }

  /**
   A versioned token speaks for the account that logged in, and is accepted at any later point of any run, before
   its expiry, exactly when no revocation of its own account in its own key space came in between.
   */
  lemma {:induction false} AcceptedUnlessRevoked(env: Env, past: Run<Op>, login: Op, later: Run<Op>, now: int)
    requires JsonFaithful(env)
    requires login.CustomerLogin? || (login.AdminLogin? && login.role != "customer")
    requires now <= login.exp
    ensures var c := Issued(After(past), login).value;
            && AuthVerify(env, After(Append(Then(past, login), later)), SignJwt(env, c), now)
               == (if RevokedIn(later, SpaceOf(c), login.id) then Rejected(Revoked) else Accepted(c))
            && SpaceOf(c) == (if login.CustomerLogin? then CustomerSpace else AdminSpace)
            && c.sub == Some(login.id) && c.exp == Some(login.exp)
            && c.role == (if login.CustomerLogin? then "customer" else login.role)
  {
    hide AuthVerify, SignJwt, CounterKey;
    var c := Issued(After(past), login).value;
    var whole := Append(Then(past, login), later);
    AuthRoundTrip(env, c, After(whole), now);
    CounterCounts(past, SpaceOf(c), login.id);
    CounterCounts(whole, SpaceOf(c), login.id);
    RevocationsAppend(Then(past, login), later, SpaceOf(c), login.id);
  }

  /** Revoking or deactivating an admin, or resetting a customer's password, ends every token that account got by
      logging in before, at every later point of every run. */
  lemma {:induction false} RevokingEndsTokens(env: Env, past: Run<Op>, login: Op, between: Run<Op>, step: Op,
                                              later: Run<Op>, now: int)
    requires JsonFaithful(env)
    requires || (login.CustomerLogin? && step == ResetPassword(login.id))
             || (login.AdminLogin? && login.role != "customer" &&
                 (step == RevokeAdmin(login.id) || step == DeactivateAdmin(login.id)))
    requires now <= login.exp
    ensures var token := SignJwt(env, Issued(After(past), login).value);
            var whole := Append(Then(Append(Then(past, login), between), step), later);
            AuthVerify(env, After(whole), token, now) == Rejected(Revoked)
  {
    hide AuthVerify, SignJwt, Issued;
    AppendAssociates(Then(past, login), Then(between, step), later);
    var rest := Append(Then(between, step), later);
    var space := if login.CustomerLogin? then CustomerSpace else AdminSpace;
    RevocationsAppend(Then(between, step), later, space, login.id);
    AcceptedUnlessRevoked(env, past, login, rest, now);
  }

  lemma {:induction false} AppendAssociates(a: Run<Op>, b: Run<Op>, c: Run<Op>)
    ensures Append(Append(a, b), c) == Append(a, Append(b, c))
  {
    if c.Then? { AppendAssociates(a, b, c.past); }
  }

  /** admin-svc reaches the same verdict on every admin login. */
  lemma {:induction false} AdminSvcAgrees(env: Env, past: Run<Op>, login: Op, later: Run<Op>, now: int)
    requires JsonFaithful(env) && login.AdminLogin? && login.role != "customer" && now <= login.exp
    ensures var c := Issued(After(past), login).value;
            AdminVerify(env, After(Append(Then(past, login), later)), SignJwt(env, c), now)
            == if RevokedIn(later, AdminSpace, login.id) then Rejected(Revoked) else Accepted(c)
  {
    var c := Issued(After(past), login).value;
    AcceptedUnlessRevoked(env, past, login, later, now);
    CounterCounts(past, AdminSpace, login.id);
    SignedTokenParses(env, c);
    SameVerdictOutsideCustomers(env, After(Append(Then(past, login), later)), SignJwt(env, c), now);
  }

  /**
   The other two ways to obtain a token escape revocation altogether: no run of operations makes auth-svc refuse one
   before it expires, nor its check of the forwarded header. The token speaks for the customer, and says so when an
   admin acts in its place.
   */
  lemma {:induction false} UnversionedTokensOutliveRevocation(env: Env, past: Run<Op>, issue: Op, later: Run<Op>,
                                                              now: int)
    requires JsonFaithful(env) && (issue.Register? || issue.Impersonate?) && now <= issue.exp
    ensures var c := Issued(After(past), issue).value;
            var redis := After(Append(Then(past, issue), later));
            && AuthVerify(env, redis, SignJwt(env, c), now) == Accepted(c)
            && CheckCustomerHeader(env, redis, SignJwt(env, c)) == None
            && c.sub == Some(issue.id) && c.role == "customer" && c.exp == Some(issue.exp) && c.sv == None
            && c.rest == if issue.Impersonate? then map["impersonated_by_admin" := "true"] else map[]
  {
    var c := Issued(After(past), issue).value;
    AuthRoundTrip(env, c, After(Append(Then(past, issue), later)), now);
    SignedTokenParses(env, c);
    hide SignJwt, AuthVerify;
  }

  /** At admin-svc a customer's token answers to the admin of the same number instead. */
  lemma {:induction false} CustomerTokenAtAdminSvc(env: Env, past: Run<Op>, login: Op, later: Run<Op>, now: int)
    requires JsonFaithful(env) && login.CustomerLogin? && now <= login.exp
    ensures var c := Issued(After(past), login).value;
            var whole := Append(Then(past, login), later);
            AdminVerify(env, After(whole), SignJwt(env, c), now)
            == if PasswordResets(past, login.id) < AdminRevocations(whole, login.id)
               then Rejected(Revoked) else Accepted(c)
  {
    hide SignJwt, CounterKey;
    var c := Issued(After(past), login).value;
    var whole := Append(Then(past, login), later);
    SignedTokenParses(env, c);
    CounterCounts(past, CustomerSpace, login.id);
    CounterCounts(whole, AdminSpace, login.id);
  }
}

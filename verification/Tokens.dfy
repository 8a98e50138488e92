/**
 Session tokens: the compact printer (section 7.1 of RFC 7515) and its three readers, two in Go
 and one in the browser's edge runtime. HMAC and JSON are parameters.
 */
module Tokens {
  import opened Options
  import opened Base64Url
  import opened Texts

  /** The claims the readers look at; everything else rides along unread. */
  datatype Claims = Claims(sub: Option<int>, role: string, exp: Option<int>, sv: Option<int>,
                           rest: map<string, string>)

  /** The signing key with its MAC, and the JSON codec of claims. */
  datatype Env = Env(key: seq<Byte>, mac: (seq<Byte>, string) -> seq<Byte>,
                     marshal: Claims -> seq<Byte>, unmarshal: seq<Byte> -> Option<Claims>)

  ghost predicate JsonFaithful(env: Env) {
    forall c :: env.unmarshal(env.marshal(c)) == Some(c)
  }

  // ---------- Printing ----------

  /** The bytes of {"alg":"HS256","typ":"JWT"}. */
  const HEADER: seq<Byte> := [123, 34, 97, 108, 103, 34, 58, 34, 72, 83, 50, 53, 54, 34, 44,
                              34, 116, 121, 112, 34, 58, 34, 74, 87, 84, 34, 125]

  lemma HeaderIsJson()
    ensures var text := "{\"alg\":\"HS256\",\"typ\":\"JWT\"}";
            |HEADER| == |text| && forall i :: 0 <= i < |text| ==> HEADER[i] == text[i] as int
  {
  }

  function SigningInput(env: Env, c: Claims): string {
    Encode(HEADER) + "." + Encode(env.marshal(c))
  }

  function SignJwt(env: Env, c: Claims): string {
    SigningInput(env, c) + "." + Encode(env.mac(env.key, SigningInput(env, c)))
  }

  /** Every printed token is exactly three dot-free segments: header, payload, signature. */
  lemma {:induction false} SignedTokenHasThreeSegments(env: Env, c: Claims)
    ensures Split(SignJwt(env, c), '.')
         == [Encode(HEADER), Encode(env.marshal(c)), Encode(env.mac(env.key, SigningInput(env, c)))]
  {
    EncodedIsSafe(HEADER);
    EncodedIsSafe(env.marshal(c));
    EncodedIsSafe(env.mac(env.key, SigningInput(env, c)));
    SplitThree(Encode(HEADER), Encode(env.marshal(c)), Encode(env.mac(env.key, SigningInput(env, c))), '.');
    assert SignJwt(env, c) == Encode(HEADER) + ['.'] + Encode(env.marshal(c)) + ['.']
                              + Encode(env.mac(env.key, SigningInput(env, c)));
  }

  // ---------- The Go readers ----------

  datatype Reject = Malformed | BadSignature | BadPayload | BadJson | Expired | Revoked

  datatype Verdict = Accepted(claims: Claims) | Rejected(reason: Reject)

  /** The part both Go services and the customer-header check share. */
  function GoParse(env: Env, token: string): Verdict {
    var parts := Split(token, '.');
    if |parts| != 3 then Rejected(Malformed)
    else if GoDecode(parts[2]) != Some(env.mac(env.key, parts[0] + "." + parts[1])) then Rejected(BadSignature)
    else
      match GoDecode(parts[1])
      case None => Rejected(BadPayload)
      case Some(payload) =>
        match env.unmarshal(payload)
        case None => Rejected(BadJson)
        case Some(claims) => Accepted(claims)
  }

  /** Seconds against seconds: the token still passes at the very second of its expiry. */
  predicate GoExpired(c: Claims, nowSeconds: int) {
    c.exp.Some? && nowSeconds > c.exp.value
  }

  datatype Space = AdminSpace | CustomerSpace

  /** The name of an account's session counter. */
  function CounterKey(space: Space, id: int): string {
    (if space.AdminSpace? then "admin_sv:" else "customer_sv:") + Decimal(id)
  }

  /** The two key spaces never meet, and within one every account has its own counter. */
  lemma CounterKeysSeparate(s: Space, i: int, t: Space, j: int)
    requires CounterKey(s, i) == CounterKey(t, j)
    ensures s == t && i == j
  {
    assert "admin_sv:"[0] == 'a' && "customer_sv:"[0] == 'c';
    assert CounterKey(s, i)[0] == (if s.AdminSpace? then 'a' else 'c');
    assert CounterKey(t, j)[0] == (if t.AdminSpace? then 'a' else 'c');
    var n := if s.AdminSpace? then 9 else 12;
    assert CounterKey(s, i)[n..] == Decimal(i);
    assert CounterKey(t, j)[n..] == Decimal(j);
    DecimalInjective(i, j);
  }

  /** A counter that does not exist is version 0. */
  function Version(redis: map<string, int>, space: Space, id: int): int {
    if CounterKey(space, id) in redis then redis[CounterKey(space, id)] else 0
  }

  function SpaceOf(c: Claims): Space {
    if c.role == "customer" then CustomerSpace else AdminSpace
  }

  function Subject(c: Claims): int {
    if c.sub.Some? then c.sub.value else 0
  }

  /** auth-svc: the counter consulted depends on the role. */
  function AuthVerify(env: Env, redis: map<string, int>, token: string, nowSeconds: int): Verdict {
    match GoParse(env, token)
    case Rejected(reason) => Rejected(reason)
    case Accepted(c) =>
      if GoExpired(c, nowSeconds) then Rejected(Expired)
      else if c.sv.Some? && c.sv.value < Version(redis, SpaceOf(c), Subject(c)) then Rejected(Revoked)
      else Accepted(c)
  }

  /** admin-svc: always the admin counter, and no check at all when that counter does not exist. */
  function AdminVerify(env: Env, redis: map<string, int>, token: string, nowSeconds: int): Verdict {
    match GoParse(env, token)
    case Rejected(reason) => Rejected(reason)
    case Accepted(c) =>
      var key := CounterKey(AdminSpace, Subject(c));
      if GoExpired(c, nowSeconds) then Rejected(Expired)
      else if c.sv.Some? && key in redis && c.sv.value < redis[key] then Rejected(Revoked)
      else Accepted(c)
  }

  /** The customer's own token forwarded beside an internal call; absent means nobody to check. */
  function CheckCustomerHeader(env: Env, redis: map<string, int>, token: string): Option<Reject> {
    if token == "" then None
    else
      match GoParse(env, token)
      case Rejected(reason) => Some(reason)
      case Accepted(c) =>
        if c.sv.Some? && c.sv.value < Version(redis, CustomerSpace, Subject(c)) then Some(Revoked) else None
  }

  // ---------- The edge reader ----------

  /** Milliseconds against seconds, and no revocation check; every failure is the same null. */
  function TsVerify(env: Env, token: string, nowMillis: int): Option<Claims> {
    var parts := Split(token, '.');
    if |parts| != 3 then None
    else
      match (TsDecode(parts[2]), TsDecode(parts[1]))
      case (Some(sig), Some(payload)) =>
        if sig != env.mac(env.key, parts[0] + "." + parts[1]) then None
        else
          (match env.unmarshal(payload)
           case None => None
           case Some(c) => if c.exp.Some? && nowMillis > c.exp.value * 1000 then None else Some(c))
      case _ => None
  }

  // ---------- Round trips ----------

  /** What was signed is what every Go reader parses. */
  lemma {:induction false} SignedTokenParses(env: Env, c: Claims)
    requires JsonFaithful(env)
    ensures GoParse(env, SignJwt(env, c)) == Accepted(c)
  {
    hide Encode, GoDecode, Split;
    SignedTokenHasThreeSegments(env, c);
    GoRoundTrip(env.marshal(c));
    GoRoundTrip(env.mac(env.key, SigningInput(env, c)));
  }

  /** auth-svc hands back exactly the signed claims, unless they expired or were revoked. */
  lemma {:induction false} AuthRoundTrip(env: Env, c: Claims, redis: map<string, int>, now: int)
    requires JsonFaithful(env)
    ensures AuthVerify(env, redis, SignJwt(env, c), now)
         == if c.exp.Some? && now > c.exp.value then Rejected(Expired)
            else
              var space := if c.role == "customer" then CustomerSpace else AdminSpace;
              var id := if c.sub.Some? then c.sub.value else 0;
              if c.sv.Some? && c.sv.value < Version(redis, space, id) then Rejected(Revoked) else Accepted(c)
  {
    SignedTokenParses(env, c);
  }

  /** So does the edge reader, which knows expiry but not revocation. */
  lemma {:induction false} TsRoundTripToken(env: Env, c: Claims, nowMillis: int)
    requires JsonFaithful(env)
    ensures TsVerify(env, SignJwt(env, c), nowMillis)
         == if c.exp.Some? && nowMillis > c.exp.value * 1000 then None else Some(c)
  {
    hide Encode, TsDecode, Split;
    SignedTokenHasThreeSegments(env, c);
    TsRoundTrip(env.marshal(c));
    TsRoundTrip(env.mac(env.key, SigningInput(env, c)));
  }

  /**
   The clocks: an unrevoked token is judged alike by auth-svc and by the edge, except during the
   second after its expiry, which Go rounds away and the edge does not.
   */
  lemma {:induction false} ExpiryDiffersOnlyWithinOneSecond(env: Env, c: Claims, redis: map<string, int>,
                                                            nowMillis: nat)
    requires JsonFaithful(env)
    requires c.sv.Some? ==> c.sv.value >= Version(redis, SpaceOf(c), Subject(c))
    ensures (AuthVerify(env, redis, SignJwt(env, c), nowMillis / 1000).Accepted?
             <==> TsVerify(env, SignJwt(env, c), nowMillis).Some?)
       <==> !(c.exp.Some? && c.exp.value * 1000 < nowMillis < (c.exp.value + 1) * 1000)
  {
    hide SignJwt, AuthVerify, TsVerify, Version;
    AuthRoundTrip(env, c, redis, nowMillis / 1000);
    TsRoundTripToken(env, c, nowMillis);
  }

  /** Whether the edge pads a segment that Go accepts to the length it needs. */
  predicate Fits(segment: string) {
    LineBreaks(segment) % 4 == 0 || |segment| % 4 == 0
  }

  /**
   On any text the Go readers accept, the edge reader recovers the same claims exactly when the payload and the
   signature fit, which they do without line breaks; otherwise it refuses the token.
   */
  lemma {:induction false} EdgeReadsWhatGoReads(env: Env, token: string, nowMillis: int)
    requires GoParse(env, token).Accepted?
    ensures var c, parts := GoParse(env, token).claims, Split(token, '.');
            && TsVerify(env, token, nowMillis) ==
               (if !Fits(parts[1]) || !Fits(parts[2]) || (c.exp.Some? && nowMillis > c.exp.value * 1000) then None
                else Some(c))
            && ('\r' !in token && '\n' !in token ==> Fits(parts[1]) && Fits(parts[2]))
  {
    hide TsDecode, GoDecode, LineBreaks;
    var parts := Split(token, '.');
    if '\r' !in token && '\n' !in token {
      SplitPieces(token, '.', '\r');
      SplitPieces(token, '.', '\n');
      NoLineBreaks(parts[1]);
      NoLineBreaks(parts[2]);
    }
    hide Split;
    LineBreaksPartTheReaders(parts[1]);
    LineBreaksPartTheReaders(parts[2]);
  }

  /** On any text the edge reader accepts, the Go readers recover the same claims exactly when the payload and the
      signature are written in the URL-safe alphabet, line breaks aside; otherwise they refuse the token. */
  lemma {:induction false} GoReadsWhatEdgeReads(env: Env, token: string, nowMillis: int)
    ensures match TsVerify(env, token, nowMillis)
            case None => true
            case Some(c) =>
              var parts := Split(token, '.');
              && |parts| == 3
              && (if GoText(parts[1]) && GoText(parts[2]) then GoParse(env, token) == Accepted(c)
                  else GoParse(env, token).Rejected?)
  {
    hide TsDecode, GoDecode, GoText, Split;
    if TsVerify(env, token, nowMillis).Some? {
      var parts := Split(token, '.');
      BrowserTextGoReads(parts[1]);
      BrowserTextGoReads(parts[2]);
    }
  }

  // ---------- The verdicts compared ----------

  /**
   auth-svc and admin-svc judge every text alike, signed by the service or not, unless it
   carries a version the two counters judge differently: a customer's token, which admin-svc
   looks up among the admins, or a negative version against a counter never created.
   */
  lemma SameVerdictExactly(env: Env, redis: map<string, int>, token: string, now: int)
    ensures AuthVerify(env, redis, token, now) == AdminVerify(env, redis, token, now) <==>
            !(match GoParse(env, token)
              case Rejected(_) => false
              case Accepted(c) =>
                !GoExpired(c, now) && c.sv.Some? &&
                (var key := CounterKey(AdminSpace, Subject(c));
                 (c.sv.value < Version(redis, SpaceOf(c), Subject(c))) != (key in redis && c.sv.value < redis[key])))
  {
  }

  /**
   On a token whose role is not customer they agree, unless it is live and carries a negative version while no
   counter exists, which auth-svc reads as version 0 and admin-svc does not check.
   */
  lemma SameVerdictOutsideCustomers(env: Env, redis: map<string, int>, token: string, now: int)
    requires GoParse(env, token).Accepted? ==> GoParse(env, token).claims.role != "customer"
    ensures AuthVerify(env, redis, token, now) == AdminVerify(env, redis, token, now) <==>
            !(GoParse(env, token).Accepted? &&
              var c := GoParse(env, token).claims;
              !GoExpired(c, now) && c.sv.Some? && c.sv.value < 0 && CounterKey(AdminSpace, Subject(c)) !in redis)
  {
    SameVerdictExactly(env, redis, token, now);
  }

  /** The header check is auth-svc's own verdict on a customer's token, expiry aside; an absent header passes. */
  lemma HeaderCheckAgrees(env: Env, redis: map<string, int>, token: string, now: int)
    requires AuthVerify(env, redis, token, now) != Rejected(Expired)
    requires GoParse(env, token).Accepted? ==> GoParse(env, token).claims.role == "customer"
    ensures CheckCustomerHeader(env, redis, token)
         == if token == "" then None
            else match AuthVerify(env, redis, token, now)
                 case Accepted(_) => None
                 case Rejected(reason) => Some(reason)
  {
  }
}

/**
 From requests to refusals: which of the shipped rules a finished request feeds, and what follows from enough of
 them within a rule's window.
 */
module GuardTraffic {
  import opened Runs
  import opened SlidingWindow
  import opened Guards
  import GuardBlocks
  import Blocklist

  // ---------- What one request feeds ----------

  predicate Feeds(rule: Rule, req: Request) {
    rule.http.Some? && MatchesHttp(rule.http.value, req)
  }

  /** A finished request adds one unfailed hit under its ip to every rule it feeds, and nothing anywhere else. */
  lemma {:induction false} RequestHits(ops: Run<GuardOp>, rules: seq<Rule>, req: Request, ip: string, now: int, r: nat,
                                       key: string)
    ensures Project(AfterHttp(ops, rules, req, ip, now), r, key) ==
            if r < |rules| && key == ip && Feeds(rules[r], req) then Then(Project(ops, r, key), HitTick(now, false))
            else Project(ops, r, key)
  {
    hide MatchesHttp;
    if rules != [] {
      var n := |rules| - 1;
      RequestHits(ops, rules[..n], req, ip, now, r, key);
      assert r < n ==> rules[..n][r] == rules[r];
    }
  }

  /** A matcher asks for each of its five criteria and nothing else; an empty one is met by every request. */
  lemma MatcherCriteria(m: HttpMatch, req: Request)
    ensures MatchesHttp(HttpMatch({}, "", "", 0, false), req)
    ensures MatchesHttp(m, req) <==>
            && MatchesHttp(HttpMatch(m.methods, "", "", 0, false), req)
            && MatchesHttp(HttpMatch({}, m.pathExact, "", 0, false), req)
            && MatchesHttp(HttpMatch({}, "", m.pathPrefix, 0, false), req)
            && MatchesHttp(HttpMatch({}, "", "", m.minStatus, false), req)
            && MatchesHttp(HttpMatch({}, "", "", 0, m.only404), req)
    ensures MatchesHttp(HttpMatch(m.methods, "", "", 0, false), req) <==> m.methods == {} || req.verb in m.methods
    ensures MatchesHttp(HttpMatch({}, m.pathExact, "", 0, false), req) <==> m.pathExact == "" || req.path == m.pathExact
    ensures MatchesHttp(HttpMatch({}, "", m.pathPrefix, 0, false), req) <==> m.pathPrefix <= req.path
    ensures MatchesHttp(HttpMatch({}, "", "", m.minStatus, false), req) <==>
              m.minStatus <= 0 || req.status >= m.minStatus
    ensures MatchesHttp(HttpMatch({}, "", "", 0, m.only404), req) <==> (m.only404 ==> req.status == 404)
  {
  }

  /** What the shipped rules are documented to watch, by name. */
  predicate Watches(name: string, req: Request) {
    || (name == "order_id_scan" && req.verb == "GET" && "/orders/" <= req.path && req.status == 404)
    || (name == "coupon_bruteforce" && req.verb == "POST" && "/coupons/validate" <= req.path)
    || (name == "catalog_scrape" && req.verb == "GET" && "/products" <= req.path)
    || (name == "error_flood" && req.status >= 400)
    || (name == "card_testing" && req.verb == "POST" && "/payments/init" <= req.path)
  }

  /** Every request feeds exactly the shipped rules that watch it, once each and under its ip; the rules for logins,
      codes, new addresses and payouts are never fed by traffic. */
  lemma ShippedRulesWatch(ops: Run<GuardOp>, req: Request, ip: string, now: int, r: nat, key: string)
    requires r < |DEFAULT_RULES|
    ensures Project(AfterHttp(ops, DEFAULT_RULES, req, ip, now), r, key) ==
            if key == ip && Watches(DEFAULT_RULES[r].name, req) then Then(Project(ops, r, key), HitTick(now, false))
            else Project(ops, r, key)
  {
    RequestHits(ops, DEFAULT_RULES, req, ip, now, r, key);
    ShippedRuleFeeds(r, req);
    hide *;
  }

  lemma ShippedRuleFeeds(r: nat, req: Request)
    requires r < |DEFAULT_RULES|
    ensures Feeds(DEFAULT_RULES[r], req) <==> Watches(DEFAULT_RULES[r].name, req)
  {
    DefaultTags(r);
    NameIs(r);
  }

  /** The rule at each place, by name. */
  lemma NameIs(r: nat)
    requires r < |DEFAULT_RULES|
    ensures DEFAULT_RULES[r].name == "order_id_scan" <==> r == 0
    ensures DEFAULT_RULES[r].name == "coupon_bruteforce" <==> r == 1
    ensures DEFAULT_RULES[r].name == "catalog_scrape" <==> r == 2
    ensures DEFAULT_RULES[r].name == "error_flood" <==> r == 3
    ensures DEFAULT_RULES[r].name == "card_testing" <==> r == 6
  {
    DefaultTags(r);
    DefaultTags(0);
    DefaultTags(1);
    DefaultTags(2);
    DefaultTags(3);
    DefaultTags(6);
  }

  // ---------- Requests among the events ----------

  /** A finished request at the guard followed, or any other event. */
  datatype Moment = Visit(req: Request, ip: string, now: int) | Other(event: GuardBlocks.Event)

  /** The events followed by one hit per rule the request feeds, in rule order. */
  function WithRequest(events: Run<GuardBlocks.Event>, rules: seq<Rule>, req: Request, ip: string, now: int)
    : Run<GuardBlocks.Event>
  {
    if rules == [] then events
    else
      var n := |rules| - 1;
      var earlier := WithRequest(events, rules[..n], req, ip, now);
      if Feeds(rules[n], req) then Then(earlier, GuardBlocks.HitEvent(n, ip, ip, false, now)) else earlier
  }

  function EventsOf(rules: seq<Rule>, moments: Run<Moment>): Run<GuardBlocks.Event> {
    match moments
    case Start => Start
    case Then(past, Visit(req, ip, now)) => WithRequest(EventsOf(rules, past), rules, req, ip, now)
    case Then(past, Other(e)) => Then(EventsOf(rules, past), e)
  }

  /** To the counters a request is what evaluating it does. */
  lemma {:induction false} RequestCounts(events: Run<GuardBlocks.Event>, rules: seq<Rule>, req: Request, ip: string,
                                         now: int)
    ensures GuardBlocks.CounterRun(WithRequest(events, rules, req, ip, now)) ==
            AfterHttp(GuardBlocks.CounterRun(events), rules, req, ip, now)
  {
    hide MatchesHttp;
    if rules != [] { RequestCounts(events, rules[..|rules| - 1], req, ip, now); }
  }

  function At(m: Moment): int {
    if m.Visit? then m.now else GuardBlocks.At(m.event)
  }

  predicate NoneEarlier(moments: Run<Moment>, from: int) {
    moments.Then? ==> NoneEarlier(moments.past, from) && At(moments.last) >= from
  }

  /** How many requests from the ip feed the rule. */
  function Requests(rule: Rule, moments: Run<Moment>, ip: string): nat {
    match moments
    case Start => 0
    case Then(past, m) =>
      Requests(rule, past, ip) + if m.Visit? && m.ip == ip && Feeds(rule, m.req) then 1 else 0
  }

  /** Nobody else feeds the rule under this ip, and nobody blocks or unblocks the ip by hand. */
  predicate Undisturbed(moments: Run<Moment>, r: nat, ip: string) {
    moments.Then? ==>
      && Undisturbed(moments.past, r, ip)
      && (moments.last.Other? ==>
            match moments.last.event
            case HitEvent(rule, from, key, _, _) => rule == r && key == ip ==> from == ip
            case SweepEvent(_) => true
            case ListEvent(op) => op.UnblockOp? || op.ManualOp? ==> op.ip != ip)
  }

  /** Every hit of the rule under this key comes from the ip of that name. */
  predicate OwnHits(events: Run<GuardBlocks.Event>, r: nat, ip: string) {
    events.Then? ==>
      && OwnHits(events.past, r, ip)
      && (events.last.HitEvent? && events.last.rule == r && events.last.key == ip ==> events.last.ip == ip)
  }

  lemma {:induction false} RequestKeeps(events: Run<GuardBlocks.Event>, rules: seq<Rule>, req: Request, ip: string,
                                        now: int, r: nat, from: int, watched: string)
    ensures var all := WithRequest(events, rules, req, ip, now);
            && (OwnHits(events, r, watched) ==> OwnHits(all, r, watched))
            && (GuardBlocks.NoneEarlier(events, from) && now >= from ==> GuardBlocks.NoneEarlier(all, from))
            && (GuardBlocks.HandsOff(events, watched) ==> GuardBlocks.HandsOff(all, watched))
  {
    hide Feeds;
    if rules != [] { RequestKeeps(events, rules[..|rules| - 1], req, ip, now, r, from, watched); }
  }

  /** What a run of moments is among the events: its hits of the rule number at least its requests. */
  lemma {:induction false} MomentsAsEvents(rules: seq<Rule>, moments: Run<Moment>, r: nat, ip: string, from: int)
    requires r < |rules| && !rules[r].failOnly
    requires NoneEarlier(moments, from) && Undisturbed(moments, r, ip)
    ensures var events := EventsOf(rules, moments);
            && OwnHits(events, r, ip)
            && GuardBlocks.NoneEarlier(events, from)
            && GuardBlocks.HandsOff(events, ip)
            && CountHits(rules[r], Project(GuardBlocks.CounterRun(events), r, ip)) >= Requests(rules[r], moments, ip)
  {
    hide Feeds, WithRequest;
    if moments.Then? {
      MomentsAsEvents(rules, moments.past, r, ip, from);
      var m, past := moments.last, EventsOf(rules, moments.past);
      if m.Visit? {
        RequestKeeps(past, rules, m.req, m.ip, m.now, r, from, ip);
        RequestCounts(past, rules, m.req, m.ip, m.now);
        RequestHits(GuardBlocks.CounterRun(past), rules, m.req, m.ip, m.now, r, ip);
      }
    }
  }

  /** The hits of one request, up to and including that of rule `r`, and the rest. */
  lemma {:induction false} SplitRequest(events: Run<GuardBlocks.Event>, rules: seq<Rule>, req: Request, ip: string,
                                        now: int, r: nat)
    returns (tail: Run<GuardBlocks.Event>)
    requires r < |rules| && Feeds(rules[r], req)
    ensures WithRequest(events, rules, req, ip, now) ==
            Append(Then(WithRequest(events, rules[..r], req, ip, now), GuardBlocks.HitEvent(r, ip, ip, false, now)),
                   tail)
    ensures CounterFree(tail, r)
  {
    hide Feeds;
    var n := |rules| - 1;
    if r == n {
      tail := Start;
    } else {
      assert rules[..n][..r] == rules[..r];
      tail := SplitRequest(events, rules[..n], req, ip, now, r);
      if Feeds(rules[n], req) { tail := Then(tail, GuardBlocks.HitEvent(n, ip, ip, false, now)); }
    }
  }

  /** Nothing but hits of other rules. */
  predicate CounterFree(events: Run<GuardBlocks.Event>, r: nat) {
    events.Then? ==> CounterFree(events.past, r) && events.last.HitEvent? && events.last.rule != r
  }

  lemma {:induction false} FreeTail(a: Run<GuardBlocks.Event>, tail: Run<GuardBlocks.Event>, r: nat, ip: string,
                                    from: int)
    requires CounterFree(tail, r)
    ensures var all := Append(a, tail);
            && Project(GuardBlocks.CounterRun(all), r, ip) == Project(GuardBlocks.CounterRun(a), r, ip)
            && (OwnHits(all, r, ip) ==> OwnHits(a, r, ip))
            && (GuardBlocks.NoneEarlier(all, from) ==> GuardBlocks.NoneEarlier(a, from))
            && (GuardBlocks.HandsOff(all, ip) ==> GuardBlocks.HandsOff(a, ip) && GuardBlocks.HandsOff(tail, ip))
  {
    if tail.Then? { FreeTail(a, tail.past, r, ip, from); }
  }

  lemma {:induction false} HandsOffParts(a: Run<GuardBlocks.Event>, b: Run<GuardBlocks.Event>, ip: string)
    ensures GuardBlocks.HandsOff(Append(a, b), ip) <==> GuardBlocks.HandsOff(a, ip) && GuardBlocks.HandsOff(b, ip)
  {
    if b.Then? { HandsOffParts(a, b.past, ip); }
  }

  lemma {:induction false} OwnHitIn(front: Run<GuardBlocks.Event>, hit: GuardBlocks.Event,
                                    rest: Run<GuardBlocks.Event>, r: nat, ip: string)
    requires OwnHits(Append(Then(front, hit), rest), r, ip) && hit.HitEvent? && hit.rule == r && hit.key == ip
    ensures hit.ip == ip
  {
    if rest.Then? { OwnHitIn(front, hit, rest.past, r, ip); }
  }

  // ---------- Enough requests are refused ----------

  /**
   As many requests from one ip that feed a blocking rule as its threshold, within its window, and the guard refuses
   that ip until the block expires, whatever happened before, and whatever else happens meanwhile and afterwards, here
   or at other guards, short of somebody handling the ip by hand.
   */
  lemma {:induction false} TrafficIsRefused(rules: seq<Rule>, remotes: seq<bool>, g: nat, past: Run<GuardBlocks.Event>,
                                            burst: Run<Moment>, later: Run<GuardBlocks.Event>, r: nat, ip: string,
                                            from: int, now: int)
    requires WellConfigured(rules, Blocklist.REFRESH) && g < |remotes| && ip != ""
    requires r < |rules| && rules[r].action.Block? && !rules[r].failOnly
    requires var events := Append(Append(past, EventsOf(rules, burst)), later);
             && GuardBlocks.WellFormed(rules, |remotes|, g, events)
             && GuardBlocks.InOrder(events) && GuardBlocks.Clock(events) <= now
    requires burst.Then? && burst.last.Visit? && burst.last.ip == ip && Feeds(rules[r], burst.last.req)
    requires NoneEarlier(burst, from) && from >= burst.last.now - rules[r].window
    requires Requests(rules[r], burst, ip) >= rules[r].threshold
    requires Undisturbed(burst, r, ip) && GuardBlocks.HandsOff(later, ip)
    requires now < Blocklist.Visible(remotes[g], from + rules[r].blockFor)
    ensures var events := Append(Append(past, EventsOf(rules, burst)), later);
            && Blocklist.ValidOps(|remotes|, GuardBlocks.ListRun(rules, |remotes|, g, events))
            && var w := Blocklist.After(remotes, GuardBlocks.ListRun(rules, |remotes|, g, events));
               Blocklist.Answer(w.store, w.caches[g], ip, now).Some?
  {
    hide *;
    var m, before := burst.last, EventsOf(rules, burst.past);
    var tail := SplitRequest(before, rules, m.req, ip, m.now, r);
    var core := Then(WithRequest(before, rules[..r], m.req, ip, m.now),
                     GuardBlocks.HitEvent(r, ip, ip, false, m.now));
    LastRequest(rules, burst);
    MomentsAsEvents(rules, burst, r, ip, from);
    FreeTail(core, tail, r, ip, from);
    Reassociate(past, core, tail, later);
    var rests := Append(tail, later);
    var front, hit, rest := GuardBlocks.BurstIsRefused(rules, remotes, g, past, core, rests, r, ip, from, now);
    OwnHitIn(front, hit, rest, r, ip);
    HandsOffParts(tail, later, ip);
    HandsOffParts(Then(front, hit), rest, ip);
    HandsOffParts(rest, rests, ip);
    Blocklist.VisibleMonotone(remotes[g], from + rules[r].blockFor, hit.now + rules[r].blockFor);
  }

  lemma LastRequest(rules: seq<Rule>, burst: Run<Moment>)
    requires burst.Then? && burst.last.Visit?
    ensures EventsOf(rules, burst) ==
            WithRequest(EventsOf(rules, burst.past), rules, burst.last.req, burst.last.ip, burst.last.now)
  {
  }

  lemma Reassociate(past: Run<GuardBlocks.Event>, core: Run<GuardBlocks.Event>, tail: Run<GuardBlocks.Event>,
                    later: Run<GuardBlocks.Event>)
    ensures Append(Append(past, Append(core, tail)), later) == Append(Append(past, core), Append(tail, later))
  {
    GuardBlocks.AppendAssociates(past, core, tail);
    GuardBlocks.AppendAssociates(Append(past, core), tail, later);
  }

  // ---------- The shipped rules in numbers ----------

  function Minutes(n: int): int {
    n * 60_000_000_000
  }

  /** How many requests from an ip within which time get it blocked for how long, by name of the rule. */
  predicate Promised(name: string, requests: nat, within: int, block: int) {
    || (name == "order_id_scan" && requests == 20 && within == Minutes(1) && block == Minutes(15))
    || (name == "coupon_bruteforce" && requests == 30 && within == Minutes(5) && block == Minutes(20))
    || (name == "error_flood" && requests == 100 && within == Minutes(2) && block == Minutes(10))
    || (name == "card_testing" && requests == 8 && within == Minutes(10) && block == Minutes(60))
  }

  /** How many requests from the ip the rule of that name watches. */
  function WatchedRequests(name: string, moments: Run<Moment>, ip: string): nat {
    match moments
    case Start => 0
    case Then(past, m) =>
      WatchedRequests(name, past, ip) + if m.Visit? && m.ip == ip && Watches(name, m.req) then 1 else 0
  }

  lemma {:induction false} WatchedAreRequests(r: nat, moments: Run<Moment>, ip: string)
    requires r < |DEFAULT_RULES|
    ensures WatchedRequests(DEFAULT_RULES[r].name, moments, ip) == Requests(DEFAULT_RULES[r], moments, ip)
  {
    hide Watches, Feeds;
    if moments.Then? {
      WatchedAreRequests(r, moments.past, ip);
      if moments.last.Visit? { ShippedRuleFeeds(r, moments.last.req); }
    }
  }

  lemma PromisesAreShipped(r: nat, requests: nat, within: int, block: int)
    requires r < |DEFAULT_RULES| && Promised(DEFAULT_RULES[r].name, requests, within, block)
    ensures DEFAULT_RULES[r].action.Block? && !DEFAULT_RULES[r].failOnly
    ensures DEFAULT_RULES[r].threshold == requests && DEFAULT_RULES[r].window == within
    ensures DEFAULT_RULES[r].blockFor == block
  {
    NameIs(r);
  }

  lemma ShippedAreWellConfigured()
    ensures WellConfigured(DEFAULT_RULES, Blocklist.REFRESH)
  {
    DefaultRulesWellConfigured();
    hide WellConfigured;
  }

  lemma FailureRules(r: nat)
    requires r == 4 || r == 5
    ensures r < |DEFAULT_RULES| && DEFAULT_RULES[r].action.Block? && DEFAULT_RULES[r].failOnly
    ensures DEFAULT_RULES[r].name == if r == 4 then "login_bruteforce" else "otp_enumeration"
    ensures DEFAULT_RULES[r].threshold == if r == 4 then 10 else 5
    ensures DEFAULT_RULES[r].window == if r == 4 then Minutes(5) else Minutes(10)
    ensures DEFAULT_RULES[r].blockFor == if r == 4 then Minutes(30) else Minutes(60)
  {
  }

  /**
   With the shipped rules: 20 requests for orders within a minute that find none, 30 tries of a coupon in five
   minutes, 100 errors in two or 8 payments begun in ten, all from one ip, and it is refused for the promised time.
   */
  lemma {:induction false} ShippedTrafficIsRefused(remotes: seq<bool>, g: nat, past: Run<GuardBlocks.Event>,
                                                   burst: Run<Moment>, later: Run<GuardBlocks.Event>, r: nat,
                                                   ip: string, from: int, now: int, requests: nat, within: int,
                                                   block: int)
    requires g < |remotes| && ip != "" && r < |DEFAULT_RULES|
    requires Promised(DEFAULT_RULES[r].name, requests, within, block)
    requires var events := Append(Append(past, EventsOf(DEFAULT_RULES, burst)), later);
             && GuardBlocks.WellFormed(DEFAULT_RULES, |remotes|, g, events)
             && GuardBlocks.InOrder(events) && GuardBlocks.Clock(events) <= now
    requires burst.Then? && burst.last.Visit? && burst.last.ip == ip && Watches(DEFAULT_RULES[r].name, burst.last.req)
    requires NoneEarlier(burst, from) && from >= burst.last.now - within
    requires WatchedRequests(DEFAULT_RULES[r].name, burst, ip) >= requests
    requires Undisturbed(burst, r, ip) && GuardBlocks.HandsOff(later, ip)
    requires now < Blocklist.Visible(remotes[g], from + block)
    ensures var events := Append(Append(past, EventsOf(DEFAULT_RULES, burst)), later);
            && Blocklist.ValidOps(|remotes|, GuardBlocks.ListRun(DEFAULT_RULES, |remotes|, g, events))
            && var w := Blocklist.After(remotes, GuardBlocks.ListRun(DEFAULT_RULES, |remotes|, g, events));
               Blocklist.Answer(w.store, w.caches[g], ip, now).Some?
  {
    hide *;
    ShippedAreWellConfigured();
    PromisesAreShipped(r, requests, within, block);
    WatchedAreRequests(r, burst, ip);
    ShippedRuleFeeds(r, burst.last.req);
    TrafficIsRefused(DEFAULT_RULES, remotes, g, past, burst, later, r, ip, from, now);
  }

  /** How many failures the handlers noted for rule `r` under a key. */
  function Failures(events: Run<GuardBlocks.Event>, r: nat, key: string): nat {
    match events
    case Start => 0
    case Then(past, e) =>
      Failures(past, r, key) + if e.HitEvent? && e.rule == r && e.key == key && e.failed then 1 else 0
  }

  lemma {:induction false} FailuresCount(rule: Rule, events: Run<GuardBlocks.Event>, r: nat, key: string)
    requires rule.failOnly
    ensures CountHits(rule, Project(GuardBlocks.CounterRun(events), r, key)) == Failures(events, r, key)
  {
    if events.Then? { FailuresCount(rule, events.past, r, key); }
  }

  /**
   10 failed logins within five minutes on one account or from one ip, or 5 wrong codes in ten minutes for one number:
   one of them triggers, and its ip is refused for half an hour, or an hour. Successes in between change nothing.
   */
  lemma {:induction false} ShippedFailuresAreRefused(remotes: seq<bool>, g: nat, past: Run<GuardBlocks.Event>,
                                                     burst: Run<GuardBlocks.Event>, later: Run<GuardBlocks.Event>,
                                                     r: nat, key: string, from: int, now: int)
    returns (front: Run<GuardBlocks.Event>, hit: GuardBlocks.Event, rest: Run<GuardBlocks.Event>)
    requires g < |remotes| && (r == 4 || r == 5)
    requires var events := Append(Append(past, burst), later);
             && GuardBlocks.WellFormed(DEFAULT_RULES, |remotes|, g, events)
             && GuardBlocks.InOrder(events) && GuardBlocks.Clock(events) <= now
    requires burst.Then? && burst.last.HitEvent? && burst.last.rule == r && burst.last.key == key && burst.last.failed
    requires GuardBlocks.NoneEarlier(burst, from)
    requires from >= burst.last.now - if r == 4 then Minutes(5) else Minutes(10)
    requires Failures(burst, r, key) >= if r == 4 then 10 else 5
    ensures DEFAULT_RULES[r].name == if r == 4 then "login_bruteforce" else "otp_enumeration"
    ensures burst == Append(Then(front, hit), rest)
    ensures hit.HitEvent? && hit.rule == r && hit.key == key && hit.now >= from
    ensures var events := Append(Append(past, burst), later);
            && Blocklist.ValidOps(|remotes|, GuardBlocks.ListRun(DEFAULT_RULES, |remotes|, g, events))
            && var w := Blocklist.After(remotes, GuardBlocks.ListRun(DEFAULT_RULES, |remotes|, g, events));
               (hit.ip != "" && GuardBlocks.HandsOff(Append(rest, later), hit.ip) &&
                now < Blocklist.Visible(remotes[g], hit.now + if r == 4 then Minutes(30) else Minutes(60)) ==>
                  Blocklist.Answer(w.store, w.caches[g], hit.ip, now).Some?)
  {
    hide *;
    ShippedAreWellConfigured();
    FailureRules(r);
    FailuresCount(DEFAULT_RULES[r], burst, r, key);
    front, hit, rest := GuardBlocks.BurstIsRefused(DEFAULT_RULES, remotes, g, past, burst, later, r, key, from, now);
  }

  /** The other rules, which do not block: 300 catalogue requests in five minutes throttle, and an admin's first visit
      from a new address or 5 payouts in ten minutes alert. */
  lemma OtherRulesTrigger(earlier: Run<Tick>, burst: Run<Tick>, r: nat, hits: nat, within: int)
    requires || (r == 2 && hits == 300 && within == Minutes(5))
             || (r == 7 && hits == 1 && within == Minutes(60))
             || (r == 8 && hits == 5 && within == Minutes(10))
    requires burst.Then? && burst.last.HitTick? && Monotone(Append(earlier, burst))
    requires NoneBefore(burst, burst.last.now - within) && CountHits(DEFAULT_RULES[r], burst) >= hits
    ensures TriggersWithin(DEFAULT_RULES[r], MaxWindow(DEFAULT_RULES), earlier, burst)
    ensures DEFAULT_RULES[r].action == (if r == 2 then Throttle else Alert) && !DEFAULT_RULES[r].failOnly
    ensures DEFAULT_RULES[r].name ==
            if r == 2 then "catalog_scrape" else if r == 7 then "admin_new_ip" else "payout_burst"
  {
    OtherRules(r);
    hide *;
    MaxWindowCovers(DEFAULT_RULES, r);
    AnyHitCounts(DEFAULT_RULES[r], burst.last);
    BurstTriggers(DEFAULT_RULES[r], MaxWindow(DEFAULT_RULES), earlier, burst);
  }

  lemma AnyHitCounts(rule: Rule, t: Tick)
    ensures !rule.failOnly && t.HitTick? ==> CountsFor(rule, t)
  {
  }

  lemma OtherRules(r: nat)
    requires r == 2 || r == 7 || r == 8
    ensures r < |DEFAULT_RULES| && !DEFAULT_RULES[r].failOnly
    ensures DEFAULT_RULES[r].action == if r == 2 then Throttle else Alert
    ensures DEFAULT_RULES[r].threshold == if r == 2 then 300 else if r == 7 then 1 else 5
    ensures DEFAULT_RULES[r].window == if r == 2 then Minutes(5) else if r == 7 then Minutes(60) else Minutes(10)
    ensures DEFAULT_RULES[r].name ==
            if r == 2 then "catalog_scrape" else if r == 7 then "admin_new_ip" else "payout_burst"
  {
  }
}

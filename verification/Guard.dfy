/**
 The abuse guard of one process: every rule's buckets in one map, fed by handlers and by HTTP
 traffic and swept by the janitor. Each method refines a step on values; the lemmas say what
 whole runs decide.
 */
module Guards {
  import opened Options
  import opened Runs
  import opened SlidingWindow

  const SECOND: int := 1_000_000_000
  const MINUTE: int := 60 * SECOND
  const HOUR: int := 60 * MINUTE

  function BucketKey(name: string, key: string): string {
    name + "|" + key
  }

  datatype GuardOp =
    | HitOp(rule: nat, key: string, failed: bool, now: int)
    | JanitorOp(now: int)

  function Lookup(buckets: map<string, Bucket>, bkey: string): Bucket {
    if bkey in buckets then buckets[bkey] else EMPTY_BUCKET
  }

  /** The janitor's cutoff uses the widest window of all, never a negative one. */
  function MaxWindow(rules: seq<Rule>): int {
    if rules == [] then 0
    else
      var rest, last := MaxWindow(rules[..|rules| - 1]), rules[|rules| - 1].window;
      if last > rest then last else rest
  }

  /** Every bucket pruned, and the ones left empty deleted. */
  function Swept(buckets: map<string, Bucket>, cutoff: int): map<string, Bucket> {
    map k | k in buckets && Sweep(buckets[k], cutoff) != EMPTY_BUCKET :: Sweep(buckets[k], cutoff)
  }

  predicate ValidOp(rules: seq<Rule>, op: GuardOp) {
    op.HitOp? ==> op.rule < |rules|
  }

  predicate ValidOps(rules: seq<Rule>, ops: Run<GuardOp>) {
    ops.Then? ==> ValidOp(rules, ops.last) && ValidOps(rules, ops.past)
  }

  function StepBuckets(rules: seq<Rule>, buckets: map<string, Bucket>, op: GuardOp): map<string, Bucket>
    requires ValidOp(rules, op)
  {
    match op
    case HitOp(r, key, failed, now) =>
      var bkey := BucketKey(rules[r].name, key);
      buckets[bkey := Hit(rules[r], Lookup(buckets, bkey), now, failed).bucket]
    case JanitorOp(now) => Swept(buckets, now - MaxWindow(rules))
  }

  function BucketsAfter(rules: seq<Rule>, ops: Run<GuardOp>): map<string, Bucket>
    requires ValidOps(rules, ops)
  {
    match ops
    case Start => map[]
    case Then(past, op) => StepBuckets(rules, BucketsAfter(rules, past), op)
  }

  /** The decision a hit gets after a run. */
  predicate Decides(rules: seq<Rule>, ops: Run<GuardOp>, hit: GuardOp)
    requires ValidOps(rules, ops) && ValidOp(rules, hit) && hit.HitOp?
  {
    var rule := rules[hit.rule];
    Hit(rule, Lookup(BucketsAfter(rules, ops), BucketKey(rule.name, hit.key)), hit.now, hit.failed).triggered
  }

  // ---------- Bucket names ----------

  /** No rule's bucket prefix is a prefix of another rule's. */
  ghost predicate PrefixFree(rules: seq<Rule>) {
    forall i, j :: 0 <= i < |rules| && 0 <= j < |rules| && i != j ==>
      !Covers(rules[i].name, rules[j].name)
  }

  /** No other rule's bucket prefix meets that of rule `r`. */
  ghost predicate Apart(rules: seq<Rule>, r: nat)
    requires r < |rules|
  {
    forall i :: 0 <= i < |rules| && i != r ==>
      !Covers(rules[i].name, rules[r].name) && !Covers(rules[r].name, rules[i].name)
  }

  predicate Covers(a: string, b: string) {
    a + "|" <= b + "|"
  }

  ghost predicate CanShareBucket(a: string, b: string) {
    exists k, k' :: BucketKey(a, k) == BucketKey(b, k')
  }

  /** Exactly when two rules can ever meet in one bucket. */
  lemma SharingIsCovering(a: string, b: string)
    ensures CanShareBucket(a, b) <==> Covers(a, b) || Covers(b, a)
  {
    var a', b' := a + "|", b + "|";
    if CanShareBucket(a, b) {
      var k, k' :| BucketKey(a, k) == BucketKey(b, k');
      assert a' + k == b' + k';
      if |a'| <= |b'| {
        assert a' == (a' + k)[..|a'|] == (b' + k')[..|a'|] == b'[..|a'|];
      } else {
        assert b' == (b' + k')[..|b'|] == (a' + k)[..|b'|] == a'[..|b'|];
      }
    }
    if Covers(a, b) {
      assert BucketKey(a, b'[|a'|..]) == BucketKey(b, "");
    }
    if Covers(b, a) {
      assert BucketKey(a, "") == BucketKey(b, a'[|b'|..]);
    }
  }

  lemma PrefixFreeIsApart(rules: seq<Rule>)
    ensures PrefixFree(rules) <==> forall r :: 0 <= r < |rules| ==> Apart(rules, r)
  {
    if forall r :: 0 <= r < |rules| ==> Apart(rules, r) {
      forall i, j | 0 <= i < |rules| && 0 <= j < |rules| && i != j ensures !Covers(rules[i].name, rules[j].name) {
        assert Apart(rules, j);
      }
    }
  }

  lemma BucketKeySeparates(rules: seq<Rule>, i: nat, j: nat, k: string, k': string)
    requires i < |rules| && j < |rules| && Apart(rules, j)
    requires BucketKey(rules[i].name, k) == BucketKey(rules[j].name, k')
    ensures i == j && k == k'
  {
    SharingIsCovering(rules[i].name, rules[j].name);
    var prefix := rules[i].name + "|";
    assert k == (prefix + k)[|prefix|..];
    assert k' == (rules[j].name + "|" + k')[|rules[j].name| + 1..];
  }

  // ---------- A run seen by one rule and key ----------

  /** What one (rule, key) pair sees of a run: its own hits, and every sweep. */
  function Project(ops: Run<GuardOp>, r: nat, key: string): Run<Tick> {
    match ops
    case Start => Start
    case Then(past, HitOp(r', key', failed, now)) =>
      if r' == r && key' == key then Then(Project(past, r, key), HitTick(now, failed)) else Project(past, r, key)
    case Then(past, JanitorOp(now)) => Then(Project(past, r, key), SweepTick(now))
  }

  predicate InOrder(ops: Run<GuardOp>) {
    ops.Then? ==> InOrder(ops.past) && (ops.past.Then? ==> ops.past.last.now <= ops.last.now)
  }

  lemma {:induction false} ProjectInOrder(ops: Run<GuardOp>, r: nat, key: string)
    requires InOrder(ops)
    ensures var run := Project(ops, r, key);
            Monotone(run) && (run.Then? ==> ops.Then? && run.last.now <= ops.last.now)
  {
    if ops.Then? { ProjectInOrder(ops.past, r, key); }
  }

  /** What one operation makes of the bucket of one (rule, key) pair. */
  function StepAlone(rules: seq<Rule>, b: Bucket, op: GuardOp, r: nat, key: string): Bucket
    requires r < |rules|
  {
    match op
    case HitOp(r', key', failed, now) =>
      if r' == r && key' == key then Hit(rules[r], b, now, failed).bucket else b
    case JanitorOp(now) => Sweep(b, now - MaxWindow(rules))
  }

  /** A deleted bucket and an empty one sweep alike. */
  lemma SweptLookup(buckets: map<string, Bucket>, cutoff: int, bkey: string)
    ensures Lookup(Swept(buckets, cutoff), bkey) == Sweep(Lookup(buckets, bkey), cutoff)
  {
    assert PruneBefore([], cutoff) == [];
    hide PruneBefore;
  }

  lemma StepIsLocal(rules: seq<Rule>, buckets: map<string, Bucket>, op: GuardOp, r: nat, key: string)
    requires ValidOp(rules, op) && r < |rules| && Apart(rules, r)
    ensures Lookup(StepBuckets(rules, buckets, op), BucketKey(rules[r].name, key))
         == StepAlone(rules, Lookup(buckets, BucketKey(rules[r].name, key)), op, r, key)
  {
    hide Hit, Sweep, Swept;
    if op.JanitorOp? {
      SweptLookup(buckets, op.now - MaxWindow(rules), BucketKey(rules[r].name, key));
    } else if BucketKey(rules[op.rule].name, op.key) == BucketKey(rules[r].name, key) {
      BucketKeySeparates(rules, op.rule, r, op.key, key);
    }
  }

  /** The shared map holds, for every key of a rule kept apart, the bucket that pair alone would have. */
  lemma {:induction false} BucketsAreIndependent(rules: seq<Rule>, ops: Run<GuardOp>, r: nat, key: string)
    requires ValidOps(rules, ops) && r < |rules| && Apart(rules, r)
    ensures Lookup(BucketsAfter(rules, ops), BucketKey(rules[r].name, key))
         == BucketAfter(rules[r], MaxWindow(rules), Project(ops, r, key))
  {
    hide Hit, Sweep, Apart, BucketKey;
    if ops.Then? {
      BucketsAreIndependent(rules, ops.past, r, key);
      StepIsLocal(rules, BucketsAfter(rules, ops.past), ops.last, r, key);
    }
  }

  lemma {:induction false} MaxWindowCovers(rules: seq<Rule>, r: nat)
    requires r < |rules|
    ensures 0 <= MaxWindow(rules) && rules[r].window <= MaxWindow(rules)
  {
    if r < |rules| - 1 {
      MaxWindowCovers(rules[..|rules| - 1], r);
    } else if r > 0 {
      MaxWindowCovers(rules[..|rules| - 1], r - 1);
    }
  }

  /**
   Every decision of every run on a rule kept apart is the one a full, never pruned log of that rule and key
   would take: at least `threshold` counted hits since its last trigger, no older than the window.
   */
  lemma {:induction false} DecisionIsTheFullLogs(rules: seq<Rule>, ops: Run<GuardOp>, hit: GuardOp)
    requires ValidOps(rules, ops) && ValidOp(rules, hit) && hit.HitOp? && Apart(rules, hit.rule)
    requires InOrder(Then(ops, hit)) && rules[hit.rule].window >= 0
    ensures Decides(rules, ops, hit) <==>
            NaiveFires(rules[hit.rule], Then(Project(ops, hit.rule, hit.key), HitTick(hit.now, hit.failed)))
  {
    hide Hit, PruneBefore, NaiveFires, Apart;
    ProjectInOrder(Then(ops, hit), hit.rule, hit.key);
    BucketsAreIndependent(rules, ops, hit.rule, hit.key);
    MaxWindowCovers(rules, hit.rule);
    DecidesLikeTheFullLog(rules[hit.rule], MaxWindow(rules),
                          Then(Project(ops, hit.rule, hit.key), HitTick(hit.now, hit.failed)));
  }

  // ---------- The janitor is invisible ----------

  function WithoutJanitor(ops: Run<GuardOp>): Run<GuardOp> {
    match ops
    case Start => Start
    case Then(past, op) => if op.HitOp? then Then(WithoutJanitor(past), op) else WithoutJanitor(past)
  }

  lemma {:induction false} WithoutJanitorKeeps(rules: seq<Rule>, ops: Run<GuardOp>, r: nat, key: string)
    requires ValidOps(rules, ops) && InOrder(ops)
    ensures var kept := WithoutJanitor(ops);
            && ValidOps(rules, kept) && InOrder(kept)
            && (kept.Then? ==> ops.Then? && kept.last.now <= ops.last.now)
            && Project(kept, r, key) == HitsOnly(Project(ops, r, key))
  {
    if ops.Then? { WithoutJanitorKeeps(rules, ops.past, r, key); }
  }

  /** Sweeping and deleting buckets, however often, changes no decision. */
  lemma {:induction false} JanitorIsInvisible(rules: seq<Rule>, ops: Run<GuardOp>, hit: GuardOp)
    requires ValidOps(rules, ops) && ValidOp(rules, hit) && hit.HitOp? && Apart(rules, hit.rule)
    requires InOrder(Then(ops, hit)) && rules[hit.rule].window >= 0
    ensures ValidOps(rules, WithoutJanitor(ops))
    ensures Decides(rules, ops, hit) <==> Decides(rules, WithoutJanitor(ops), hit)
  {
    hide Decides, NaiveFires, Apart;
    WithoutJanitorKeeps(rules, ops, hit.rule, hit.key);
    DecisionIsTheFullLogs(rules, ops, hit);
    DecisionIsTheFullLogs(rules, WithoutJanitor(ops), hit);
    NaiveIgnoresSweeps(rules[hit.rule], Then(Project(ops, hit.rule, hit.key), HitTick(hit.now, hit.failed)));
  }

  // ---------- HTTP traffic ----------

  datatype Request = Request(verb: string, path: string, status: int)

  predicate MatchesHttp(m: HttpMatch, req: Request) {
    && (m.methods != {} ==> req.verb in m.methods)
    && (m.pathExact != "" ==> req.path == m.pathExact)
    && (m.pathPrefix != "" ==> m.pathPrefix <= req.path)
    && (m.only404 ==> req.status == 404)
    && (m.minStatus > 0 ==> req.status >= m.minStatus)
  }

  /** A run extended by one hit per matching rule, in rule order, for a finished request. */
  function AfterHttp(ops: Run<GuardOp>, rules: seq<Rule>, req: Request, ip: string, now: int): Run<GuardOp> {
    if rules == [] then ops
    else
      var n := |rules| - 1;
      var earlier := AfterHttp(ops, rules[..n], req, ip, now);
      if rules[n].http.Some? && MatchesHttp(rules[n].http.value, req)
      then Then(earlier, HitOp(n, ip, false, now)) else earlier
  }

  ghost predicate FirstNamed(rules: seq<Rule>, i: int, name: string) {
    0 <= i < |rules| && rules[i].name == name && forall k :: 0 <= k < i ==> rules[k].name != name
  }

  // ---------- The guard itself ----------

  method PruneInPlace(ts: seq<int>, cutoff: int) returns (r: seq<int>)
    ensures r == PruneBefore(ts, cutoff)
  {
    var i := 0;
    while i < |ts| && ts[i] < cutoff
      invariant 0 <= i <= |ts|
      invariant forall k :: 0 <= k < i ==> ts[k] < cutoff
    {
      i := i + 1;
    }
    PruneIsFirstKept(ts, cutoff, i);
    r := ts[i..];
  }

  /** One hit on one bucket: prune, append, compare, and reset when the rule fires. */
  method CountHit(rule: Rule, b: Bucket, now: int, failed: bool) returns (outcome: Outcome)
    ensures outcome == Hit(rule, b, now, failed)
  {
    var cutoff := now - rule.window;
    var hits := PruneInPlace(b.hits, cutoff);
    hits := hits + [now];
    var fails := PruneInPlace(b.fails, cutoff);
    if failed {
      fails := fails + [now];
    }
    var count := if rule.failOnly then |fails| else |hits|;
    var triggered := count >= rule.threshold;
    if triggered {
      hits, fails := [], [];
    }
    outcome := Outcome(Bucket(hits, fails), triggered, count);
  }

  /** One sweep over all the buckets, in whatever order the map yields them. */
  method SweepAll(buckets: map<string, Bucket>, cutoff: int) returns (swept: map<string, Bucket>)
    ensures swept == Swept(buckets, cutoff)
  {
    swept := buckets;
    var todo := buckets.Keys;
    while todo != {}
      invariant todo <= buckets.Keys
      invariant forall k :: k in todo ==> k in swept && swept[k] == buckets[k]
      invariant forall k :: k in swept ==> k in buckets
      invariant forall k :: k in buckets && k !in todo ==>
                  (k in swept <==> Sweep(buckets[k], cutoff) != EMPTY_BUCKET)
      invariant forall k :: k in swept && k !in todo ==> swept[k] == Sweep(buckets[k], cutoff)
      decreases |todo|
    {
      var k :| k in todo;
      var hits := PruneInPlace(swept[k].hits, cutoff);
      var fails := PruneInPlace(swept[k].fails, cutoff);
      if hits == [] && fails == [] {
        swept := swept - {k};
      } else {
        swept := swept[k := Bucket(hits, fails)];
      }
      todo := todo - {k};
    }
  }

  class Guard {
    const rules: seq<Rule>
    var buckets: map<string, Bucket>
    ghost var history: Run<GuardOp>

    ghost predicate Valid()
      reads this
    {
      ValidOps(rules, history) && buckets == BucketsAfter(rules, history)
    }

    constructor (rules: seq<Rule>)
      ensures Valid() && this.rules == rules && history == Start
    {
      this.rules := rules;
      buckets := map[];
      history := Start;
    }

    /** Records one occurrence and says whether the rule fired, and at what count. */
    method HitKey(r: nat, countKey: string, failed: bool, now: int) returns (triggered: bool, count: nat)
      requires Valid() && r < |rules|
      modifies this
      ensures Valid() && history == Then(old(history), HitOp(r, countKey, failed, now))
      ensures triggered == Decides(rules, old(history), HitOp(r, countKey, failed, now))
      ensures count == Hit(rules[r], Lookup(old(buckets), BucketKey(rules[r].name, countKey)), now, failed).count
    {
      hide Hit;
      var rule := rules[r];
      var bkey := BucketKey(rule.name, countKey);
      var b := if bkey in buckets then buckets[bkey] else EMPTY_BUCKET;
      var outcome := CountHit(rule, b, now, failed);
      buckets := buckets[bkey := outcome.bucket];
      history := Then(history, HitOp(r, countKey, failed, now));
      triggered, count := outcome.triggered, outcome.count;
    }

    /** A handler's note: feeds the first rule of that name, keyed by the client's ip when no key is given. */
    method Note(ruleName: string, key: string, ip: string, failed: bool, now: int) returns (triggered: bool)
      requires Valid()
      modifies this
      ensures Valid()
      ensures (forall i :: 0 <= i < |rules| ==> rules[i].name != ruleName) ==>
                history == old(history) && !triggered
      ensures forall i :: FirstNamed(rules, i, ruleName) ==>
                var hit := HitOp(i, if key == "" then ip else key, failed, now);
                history == Then(old(history), hit) && triggered == Decides(rules, old(history), hit)
    {
      hide Decides, BucketsAfter;
      triggered := false;
      for i := 0 to |rules|
        invariant Valid() && history == old(history) && !triggered
        invariant forall k :: 0 <= k < i ==> rules[k].name != ruleName
      {
        if rules[i].name == ruleName {
          var count;
          triggered, count := HitKey(i, if key == "" then ip else key, failed, now);
          return;
        }
      }
    }

    /** After a response: one hit, keyed by ip, for every HTTP rule the request matches. */
    method EvalHttp(req: Request, ip: string, now: int)
      requires Valid()
      modifies this
      ensures Valid() && history == AfterHttp(old(history), rules, req, ip, now)
    {
      hide Decides, BucketsAfter, MatchesHttp;
      for i := 0 to |rules|
        invariant Valid() && history == AfterHttp(old(history), rules[..i], req, ip, now)
      {
        assert rules[..i + 1][..i] == rules[..i];
        if rules[i].http.Some? && MatchesHttp(rules[i].http.value, req) {
          var triggered, count := HitKey(i, ip, false, now);
        }
      }
      assert rules[..|rules|] == rules;
    }

    /** The periodic sweep. */
    method Janitor(now: int)
      requires Valid()
      modifies this
      ensures Valid() && history == Then(old(history), JanitorOp(now))
    {
      hide Swept;
      var maxWindow := 0;
      for i := 0 to |rules|
        invariant maxWindow == MaxWindow(rules[..i])
      {
        assert rules[..i + 1][..i] == rules[..i];
        if rules[i].window > maxWindow {
          maxWindow := rules[i].window;
        }
      }
      assert rules[..|rules|] == rules;
      buckets := SweepAll(buckets, now - maxWindow);
      history := Then(history, JanitorOp(now));
    }
  }

  // ---------- The shipped rules ----------

  const GET := "GET"
  const POST := "POST"

  const DEFAULT_RULES: seq<Rule> := [
    Rule("order_id_scan", Block, 20, MINUTE, 15 * MINUTE, false,
         Some(HttpMatch({GET}, "", "/orders/", 0, true))),
    Rule("coupon_bruteforce", Block, 30, 5 * MINUTE, 20 * MINUTE, false,
         Some(HttpMatch({POST}, "", "/coupons/validate", 0, false))),
    Rule("catalog_scrape", Throttle, 300, 5 * MINUTE, 0, false,
         Some(HttpMatch({GET}, "", "/products", 0, false))),
    Rule("error_flood", Block, 100, 2 * MINUTE, 10 * MINUTE, false,
         Some(HttpMatch({}, "", "", 400, false))),
    Rule("login_bruteforce", Block, 10, 5 * MINUTE, 30 * MINUTE, true, None),
    Rule("otp_enumeration", Block, 5, 10 * MINUTE, HOUR, true, None),
    Rule("card_testing", Block, 8, 10 * MINUTE, HOUR, false,
         Some(HttpMatch({POST}, "", "/payments/init", 0, false))),
    Rule("admin_new_ip", Alert, 1, HOUR, 0, false, None),
    Rule("payout_burst", Alert, 5, 10 * MINUTE, 0, false, None)
  ]

  /** What the run theorems assume of a configuration. */
  ghost predicate WellConfigured(rules: seq<Rule>, refresh: int) {
    PrefixFree(rules) &&
    forall rule <- rules :: rule.threshold >= 1 && rule.window >= 0 && (rule.action.Block? ==> rule.blockFor >= refresh)
  }

  function Tag(name: string): int
    requires |name| >= 3
  {
    (name[0] as int) * 65536 + (name[1] as int) * 256 + (name[2] as int)
  }

  lemma CoveredTagsAgree(a: string, b: string)
    requires |a| >= 3 && |b| >= 3 && Covers(a, b)
    ensures Tag(a) == Tag(b)
  {
    var a', b' := a + "|", b + "|";
    assert a'[0] == b'[0] && a'[1] == b'[1] && a'[2] == b'[2];
  }

  const DEFAULT_TAGS: seq<int> :=
    [7303780, 6516597, 6513012, 6648434, 7106407, 7304304, 6513010, 6382701, 7364985]

  lemma DefaultTags(i: nat)
    requires i < |DEFAULT_RULES|
    ensures |DEFAULT_RULES[i].name| >= 3 && i < |DEFAULT_TAGS|
    ensures Tag(DEFAULT_RULES[i].name) == DEFAULT_TAGS[i]
  {
  }

  lemma DefaultNamesPrefixFree()
    ensures PrefixFree(DEFAULT_RULES)
  {
    forall i, j | 0 <= i < |DEFAULT_RULES| && 0 <= j < |DEFAULT_RULES| && i != j
      ensures !Covers(DEFAULT_RULES[i].name, DEFAULT_RULES[j].name)
    {
      DefaultTags(i);
      DefaultTags(j);
      if Covers(DEFAULT_RULES[i].name, DEFAULT_RULES[j].name) {
        CoveredTagsAgree(DEFAULT_RULES[i].name, DEFAULT_RULES[j].name);
      }
    }
  }

  /** The shipped rules never share a bucket, and never block for less than a cache refresh. */
  lemma DefaultRulesWellConfigured()
    ensures WellConfigured(DEFAULT_RULES, 30 * SECOND)
  {
    DefaultNamesPrefixFree();
  }
}

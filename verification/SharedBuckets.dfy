/**
 Rules that can meet in one bucket of the abuse guard: exactly when that changes a decision.
 */
module SharedBuckets {
  import opened Options
  import opened Runs
  import opened SlidingWindow
  import opened Guards

  /** Whether every decision of every run is that of the full log of its own rule and key. */
  ghost predicate DecidesByFullLogs(rules: seq<Rule>) {
    forall ops: Run<GuardOp>, hit: GuardOp ::
      ValidOps(rules, ops) && ValidOp(rules, hit) && hit.HitOp? && InOrder(Then(ops, hit)) ==>
        (Decides(rules, ops, hit) <==> FullLogFires(rules, ops, hit))
  }

  predicate FullLogFires(rules: seq<Rule>, ops: Run<GuardOp>, hit: GuardOp)
    requires ValidOp(rules, hit) && hit.HitOp?
  {
    NaiveFires(rules[hit.rule], Then(Project(ops, hit.rule, hit.key), HitTick(hit.now, hit.failed)))
  }

  /** Rules that can meet in a bucket all fire at a single counted hit. */
  ghost predicate Harmless(rules: seq<Rule>) {
    forall i, j :: 0 <= i < |rules| && 0 <= j < |rules| && i != j && Covers(rules[i].name, rules[j].name) ==>
      rules[i].threshold <= 1 && rules[j].threshold <= 1
  }

  // ---------- Rules that fire at a single hit ----------

  /** Everything that can write to this bucket fires at a single counted hit. */
  ghost predicate OneHit(rules: seq<Rule>, bkey: string) {
    forall i, key :: 0 <= i < |rules| && BucketKey(rules[i].name, key) == bkey ==> rules[i].threshold <= 1
  }

  lemma HarmlessIsOneHit(rules: seq<Rule>, r: nat, key: string)
    requires Harmless(rules) && r < |rules| && rules[r].threshold <= 1
    ensures OneHit(rules, BucketKey(rules[r].name, key))
  {
    forall i, k | 0 <= i < |rules| && BucketKey(rules[i].name, k) == BucketKey(rules[r].name, key)
      ensures rules[i].threshold <= 1
    {
      SharingIsCovering(rules[i].name, rules[r].name);
    }
  }

  /** Such a bucket never keeps a failure: each one fires and empties it. */
  lemma {:induction false} NoFailureKept(rules: seq<Rule>, ops: Run<GuardOp>, bkey: string)
    requires ValidOps(rules, ops) && OneHit(rules, bkey)
    ensures Lookup(BucketsAfter(rules, ops), bkey).fails == []
  {
    hide OneHit, Swept, BucketKey, Hit, Sweep;
    if ops.Then? {
      NoFailureKept(rules, ops.past, bkey);
      var buckets, op := BucketsAfter(rules, ops.past), ops.last;
      if op.JanitorOp? {
        SweptLookup(buckets, op.now - MaxWindow(rules), bkey);
        NoFailureSwept(Lookup(buckets, bkey), op.now - MaxWindow(rules));
      } else if BucketKey(rules[op.rule].name, op.key) == bkey {
        NoFailureHit(rules, op.rule, op.key, Lookup(buckets, bkey), op.now, op.failed);
      }
    }
  }

  lemma NoFailureSwept(b: Bucket, cutoff: int)
    requires b.fails == []
    ensures Sweep(b, cutoff).fails == []
  {
  }

  lemma NoFailureHit(rules: seq<Rule>, r: nat, key: string, b: Bucket, now: int, failed: bool)
    requires r < |rules| && OneHit(rules, BucketKey(rules[r].name, key)) && b.fails == []
    ensures Hit(rules[r], b, now, failed).bucket.fails == []
  {
    assert rules[r].threshold <= 1;
  }

  /** The full log of such a rule keeps nothing that counts. */
  lemma {:induction false} NothingLogged(rule: Rule, run: Run<Tick>, cutoff: int)
    requires rule.threshold == 1 && rule.window >= 0
    ensures NaiveCount(rule, SinceTrigger(rule, run), cutoff) == 0
  {
    if run.Then? { NothingLogged(rule, run.past, cutoff); }
  }

  /** With no failure kept, such a rule fires at every hit that counts, and at no other unless it needs none. */
  lemma OneHitFires(rule: Rule, b: Bucket, now: int, failed: bool)
    requires rule.threshold <= 1 && rule.window >= 0 && b.fails == []
    ensures Hit(rule, b, now, failed).triggered <==> rule.threshold <= 0 || CountsFor(rule, HitTick(now, failed))
  {
  }

  lemma OneHitFullLog(rule: Rule, run: Run<Tick>, now: int, failed: bool)
    requires rule.threshold <= 1 && rule.window >= 0
    ensures NaiveFires(rule, Then(run, HitTick(now, failed))) <==>
            rule.threshold <= 0 || CountsFor(rule, HitTick(now, failed))
  {
    if rule.threshold == 1 { NothingLogged(rule, run, now - rule.window); }
    hide SinceTrigger;
  }

  lemma OneHitDecides(rules: seq<Rule>, ops: Run<GuardOp>, hit: GuardOp)
    requires ValidOps(rules, ops) && ValidOp(rules, hit) && hit.HitOp?
    requires rules[hit.rule].window >= 0 && OneHit(rules, BucketKey(rules[hit.rule].name, hit.key))
    ensures Decides(rules, ops, hit) <==> FullLogFires(rules, ops, hit)
  {
    var rule := rules[hit.rule];
    var bkey := BucketKey(rule.name, hit.key);
    assert rule.threshold <= 1;
    hide BucketsAfter, Project, BucketKey, Hit, NaiveFires, OneHit;
    NoFailureKept(rules, ops, bkey);
    OneHitFires(rule, Lookup(BucketsAfter(rules, ops), bkey), hit.now, hit.failed);
    OneHitFullLog(rule, Project(ops, hit.rule, hit.key), hit.now, hit.failed);
  }

  // ---------- A run that tells them apart ----------

  function Zeros(n: nat): seq<int> {
    seq(n, _ => 0)
  }

  lemma {:induction false} ZerosStay(n: nat, cutoff: int)
    requires cutoff <= 0
    ensures PruneBefore(Zeros(n), cutoff) == Zeros(n)
  {
    if n > 0 {
      ZerosStay(n - 1, cutoff);
      assert Zeros(n)[..n - 1] == Zeros(n - 1);
    }
  }

  /** A failed hit at moment 0 on a bucket of `n` such hits. */
  lemma HitAtZero(rule: Rule, n: nat)
    requires rule.window >= 0
    ensures Hit(rule, Bucket(Zeros(n), Zeros(n)), 0, true)
         == Outcome(if n + 1 >= rule.threshold then EMPTY_BUCKET else Bucket(Zeros(n + 1), Zeros(n + 1)),
                    n + 1 >= rule.threshold, n + 1)
  {
    ZerosStay(n, 0 - rule.window);
    assert Zeros(n) + [0] == Zeros(n + 1);
  }

  function FailAt(r: nat, key: string): GuardOp {
    HitOp(r, key, true, 0)
  }

  /** The run followed by `n` failed hits at moment 0. */
  function Fails(ops: Run<GuardOp>, r: nat, key: string, n: nat): Run<GuardOp> {
    if n == 0 then ops else Then(Fails(ops, r, key, n - 1), FailAt(r, key))
  }

  function FailTicks(n: nat): Run<Tick> {
    if n == 0 then Start else Then(FailTicks(n - 1), HitTick(0, true))
  }

  lemma {:induction false} FailsFill(rules: seq<Rule>, ops: Run<GuardOp>, r: nat, key: string, m: nat, n: nat)
    requires ValidOps(rules, ops) && r < |rules| && rules[r].window >= 0 && m + n < rules[r].threshold
    requires Lookup(BucketsAfter(rules, ops), BucketKey(rules[r].name, key)) == Bucket(Zeros(m), Zeros(m))
    requires InOrder(ops) && (ops.Then? ==> ops.last.now == 0)
    ensures var all := Fails(ops, r, key, n);
            && ValidOps(rules, all) && InOrder(all) && (all.Then? ==> all.last.now == 0)
            && Lookup(BucketsAfter(rules, all), BucketKey(rules[r].name, key)) == Bucket(Zeros(m + n), Zeros(m + n))
  {
    hide Hit, Zeros, BucketKey;
    if n > 0 {
      FailsFill(rules, ops, r, key, m, n - 1);
      HitAtZero(rules[r], m + n - 1);
    }
  }

  lemma {:induction false} FailsProject(ops: Run<GuardOp>, r: nat, key: string, n: nat)
    requires Project(ops, r, key) == Start
    ensures Project(Fails(ops, r, key, n), r, key) == FailTicks(n)
  {
    if n > 0 { FailsProject(ops, r, key, n - 1); }
  }

  /** The full log fires at the threshold and not before. */
  lemma {:induction false} FailTicksFire(rule: Rule, n: nat)
    requires 0 < n <= rule.threshold && rule.window >= 0
    ensures NaiveFires(rule, FailTicks(n)) <==> n == rule.threshold
    ensures n < rule.threshold ==> SinceTrigger(rule, FailTicks(n)) == FailTicks(n)
  {
    if n > 1 { FailTicksFire(rule, n - 1); }
    FailTicksCount(rule, n, 0 - rule.window);
  }

  lemma {:induction false} FailTicksCount(rule: Rule, n: nat, cutoff: int)
    requires cutoff <= 0
    ensures NaiveCount(rule, FailTicks(n), cutoff) == n
  {
    if n > 0 { FailTicksCount(rule, n - 1, cutoff); }
  }

  /** The other rule's hit first, then the rule's own, one short of its threshold: it fires too early. */
  lemma {:induction false} FiresTooEarly(rules: seq<Rule>, i: nat, j: nat, k: string, key: string)
    returns (ops: Run<GuardOp>)
    requires i < |rules| && j < |rules| && i != j && BucketKey(rules[i].name, k) == BucketKey(rules[j].name, key)
    requires rules[i].window >= 0 && rules[j].window >= 0 && rules[i].threshold >= 2 && rules[j].threshold >= 2
    ensures ValidOps(rules, ops) && InOrder(Then(ops, FailAt(j, key)))
    ensures Decides(rules, ops, FailAt(j, key)) && !FullLogFires(rules, ops, FailAt(j, key))
  {
    hide Hit, BucketKey, NaiveFires, Zeros;
    var none: Run<GuardOp> := Start;
    var one := Then(none, FailAt(i, k));
    var t := rules[j].threshold;
    assert BucketsAfter(rules, none) == map[];
    EmptyIsZeros();
    HitAtZero(rules[i], 0);
    FailsFill(rules, one, j, key, 1, t - 2);
    HitAtZero(rules[j], t - 1);
    ops := Fails(one, j, key, t - 2);
    FailsProject(one, j, key, t - 2);
    FailTicksFire(rules[j], t - 1);
  }

  lemma EmptyIsZeros()
    ensures EMPTY_BUCKET == Bucket(Zeros(0), Zeros(0))
  {
  }

  /** A hit of the other rule that fires and empties the bucket: the rule fires too late. */
  lemma {:induction false} FiresTooLate(rules: seq<Rule>, i: nat, j: nat, k: string, key: string)
    returns (ops: Run<GuardOp>)
    requires i < |rules| && j < |rules| && i != j && BucketKey(rules[i].name, k) == BucketKey(rules[j].name, key)
    requires rules[i].window >= 0 && rules[j].window >= 0 && rules[i].threshold <= 1 && rules[j].threshold >= 2
    ensures ValidOps(rules, ops) && InOrder(Then(ops, FailAt(j, key)))
    ensures !Decides(rules, ops, FailAt(j, key)) && FullLogFires(rules, ops, FailAt(j, key))
  {
    hide Hit, BucketKey, NaiveFires, Zeros;
    var none: Run<GuardOp> := Start;
    var t := rules[j].threshold;
    assert BucketsAfter(rules, none) == map[];
    EmptyIsZeros();
    FailsFill(rules, none, j, key, 0, t - 1);
    HitAtZero(rules[i], t - 1);
    HitAtZero(rules[j], 0);
    ops := Then(Fails(none, j, key, t - 1), FailAt(i, k));
    FailsProject(none, j, key, t - 1);
    FailTicksFire(rules[j], t);
  }

  /** Two rules that can meet, one of them with a threshold above 1, get a decision unlike the full log's. */
  lemma SharingShows(rules: seq<Rule>, i: nat, j: nat)
    requires i < |rules| && j < |rules| && i != j && CanShareBucket(rules[i].name, rules[j].name)
    requires rules[i].window >= 0 && rules[j].window >= 0 && rules[j].threshold >= 2
    ensures !DecidesByFullLogs(rules)
  {
    hide Decides, FullLogFires, InOrder;
    var k, key :| BucketKey(rules[i].name, k) == BucketKey(rules[j].name, key);
    var ops;
    if rules[i].threshold >= 2 {
      ops := FiresTooEarly(rules, i, j, k, key);
    } else {
      ops := FiresTooLate(rules, i, j, k, key);
    }
    assert ValidOp(rules, FailAt(j, key));
  }

  /**
   Every decision of every run is its own full log's exactly when rules that can meet in a bucket all fire at a
   single hit; in particular when none can meet.
   */
  lemma SharingIsHarmlessExactly(rules: seq<Rule>)
    requires forall rule <- rules :: rule.window >= 0
    ensures DecidesByFullLogs(rules) <==> Harmless(rules)
    ensures PrefixFree(rules) ==> Harmless(rules)
  {
    hide Decides, FullLogFires, InOrder, CanShareBucket, Covers;
    if !Harmless(rules) {
      var i, j :| 0 <= i < |rules| && 0 <= j < |rules| && i != j && Covers(rules[i].name, rules[j].name) &&
                  !(rules[i].threshold <= 1 && rules[j].threshold <= 1);
      SharingIsCovering(rules[i].name, rules[j].name);
      SharingIsCovering(rules[j].name, rules[i].name);
      assert rules[i] in rules && rules[j] in rules;
      if rules[j].threshold >= 2 { SharingShows(rules, i, j); } else { SharingShows(rules, j, i); }
    } else {
      forall ops: Run<GuardOp>, hit: GuardOp |
        ValidOps(rules, ops) && ValidOp(rules, hit) && hit.HitOp? && InOrder(Then(ops, hit))
        ensures Decides(rules, ops, hit) <==> FullLogFires(rules, ops, hit)
      {
        HarmlessDecides(rules, ops, hit);
      }
    }
  }

  lemma {:induction false} HarmlessDecides(rules: seq<Rule>, ops: Run<GuardOp>, hit: GuardOp)
    requires Harmless(rules) && forall rule <- rules :: rule.window >= 0
    requires ValidOps(rules, ops) && ValidOp(rules, hit) && hit.HitOp? && InOrder(Then(ops, hit))
    ensures Decides(rules, ops, hit) <==> FullLogFires(rules, ops, hit)
  {
    hide Decides, InOrder, NaiveFires, Covers, OneHit;
    assert rules[hit.rule] in rules;
    if rules[hit.rule].threshold <= 1 {
      HarmlessIsOneHit(rules, hit.rule, hit.key);
      OneHitDecides(rules, ops, hit);
    } else {
      DecisionIsTheFullLogs(rules, ops, hit);
    }
  }
}

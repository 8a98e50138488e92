/**
 The sliding-window counter of one (rule, key) pair: what one bucket holds, what one
 recorded hit or one janitor sweep does to it, and the proof that it decides exactly as
 a full event log would. Times are nanoseconds.
 */
module SlidingWindow {
  import opened Options
  import opened Runs

  datatype Action = Alert | Throttle | Block

  /** Which HTTP traffic feeds a rule; an empty method set, path or status means no restriction. */
  datatype HttpMatch = HttpMatch(methods: set<string>, pathExact: string, pathPrefix: string,
                                 minStatus: int, only404: bool)

  /** A rule without a matcher is fed only by explicit notes from a handler. */
  datatype Rule = Rule(name: string, action: Action, threshold: int, window: int,
                       blockFor: int, failOnly: bool, http: Option<HttpMatch>)

  /** Timestamps still held: every occurrence, and the ones marked as failures. */
  datatype Bucket = Bucket(hits: seq<int>, fails: seq<int>)

  const EMPTY_BUCKET := Bucket([], [])

  datatype Outcome = Outcome(bucket: Bucket, triggered: bool, count: nat)

  // ---------- The counter ----------

  /** Drops the leading timestamps strictly before the cutoff, and nothing after the first one kept. */
  function PruneBefore(ts: seq<int>, cutoff: int): seq<int> {
    if ts == [] then []
    else
      var kept, last := PruneBefore(ts[..|ts| - 1], cutoff), ts[|ts| - 1];
      if kept == [] && last < cutoff then [] else kept + [last]
  }

  function Counted(rule: Rule, b: Bucket): seq<int> {
    if rule.failOnly then b.fails else b.hits
  }

  /** The bucket of a hit before the threshold test. */
  function Recorded(rule: Rule, b: Bucket, now: int, failed: bool): Bucket {
    var cutoff := now - rule.window;
    var fails := PruneBefore(b.fails, cutoff);
    Bucket(PruneBefore(b.hits, cutoff) + [now], if failed then fails + [now] else fails)
  }

  function Hit(rule: Rule, b: Bucket, now: int, failed: bool): Outcome {
    var recorded := Recorded(rule, b, now, failed);
    var count := |Counted(rule, recorded)|;
    var triggered := count >= rule.threshold;
    Outcome(if triggered then EMPTY_BUCKET else recorded, triggered, count)
  }

  function Sweep(b: Bucket, cutoff: int): Bucket {
    Bucket(PruneBefore(b.hits, cutoff), PruneBefore(b.fails, cutoff))
  }

  /** Scanning for the first entry to keep, as the code does, is the same pruning. */
  lemma {:induction false} PruneIsFirstKept(ts: seq<int>, cutoff: int, i: nat)
    requires i <= |ts|
    requires forall k :: 0 <= k < i ==> ts[k] < cutoff
    requires i < |ts| ==> ts[i] >= cutoff
    ensures PruneBefore(ts, cutoff) == ts[i..]
  {
    if ts != [] {
      var front := ts[..|ts| - 1];
      PruneIsFirstKept(front, cutoff, if i == |ts| then i - 1 else i);
    }
  }

  // ---------- Runs of one counter ----------

  datatype Tick =
    | HitTick(now: int, failed: bool)
    | SweepTick(now: int)

  /** Time never goes back. */
  predicate Monotone(run: Run<Tick>) {
    run.Then? ==> Monotone(run.past) && (run.past.Then? ==> run.past.last.now <= run.last.now)
  }

  predicate Before(run: Run<Tick>, clock: int) {
    run.Then? ==> run.last.now <= clock
  }

  /** One tick; the janitor's cutoff uses `maxWindow`, not the rule's window. */
  function Step(rule: Rule, maxWindow: int, b: Bucket, t: Tick): Bucket {
    match t
    case HitTick(now, failed) => Hit(rule, b, now, failed).bucket
    case SweepTick(now) => Sweep(b, now - maxWindow)
  }

  function BucketAfter(rule: Rule, maxWindow: int, run: Run<Tick>): Bucket {
    match run
    case Start => EMPTY_BUCKET
    case Then(past, t) => Step(rule, maxWindow, BucketAfter(rule, maxWindow, past), t)
  }

  /** Whether the last tick of a run was a hit that triggered. */
  predicate Fires(rule: Rule, maxWindow: int, run: Run<Tick>) {
    run.Then? && run.last.HitTick? &&
    Hit(rule, BucketAfter(rule, maxWindow, run.past), run.last.now, run.last.failed).triggered
  }

  // ---------- The naive specification: a full log, never pruned ----------

  predicate CountsFor(rule: Rule, t: Tick) {
    t.HitTick? && (rule.failOnly ==> t.failed)
  }

  /** How many logged ticks count for the rule at or after the cutoff. */
  function NaiveCount(rule: Rule, log: Run<Tick>, cutoff: int): nat {
    match log
    case Start => 0
    case Then(past, t) => NaiveCount(rule, past, cutoff) + (if CountsFor(rule, t) && t.now >= cutoff then 1 else 0)
  }

  predicate NaiveFires(rule: Rule, run: Run<Tick>)
    decreases run, 0
  {
    run.Then? && run.last.HitTick? &&
    NaiveCount(rule, Then(SinceTrigger(rule, run.past), run.last), run.last.now - rule.window) >= rule.threshold
  }

  /** Every tick since the last time the full log itself reached the threshold. */
  function SinceTrigger(rule: Rule, run: Run<Tick>): Run<Tick>
    decreases run, 1
  {
    if run.Start? || NaiveFires(rule, run) then Start
    else Then(SinceTrigger(rule, run.past), run.last)
  }

  // ---------- Pruning ----------

  predicate Sorted(ts: seq<int>) {
    |ts| > 1 ==> ts[|ts| - 2] <= ts[|ts| - 1] && Sorted(ts[..|ts| - 1])
  }

  function AtLeast(ts: seq<int>, cutoff: int): nat {
    if ts == [] then 0 else AtLeast(ts[..|ts| - 1], cutoff) + (if ts[|ts| - 1] >= cutoff then 1 else 0)
  }

  lemma PruneAppend(ts: seq<int>, now: int, cutoff: int)
    ensures PruneBefore(ts + [now], cutoff)
         == if PruneBefore(ts, cutoff) == [] && now < cutoff then [] else PruneBefore(ts, cutoff) + [now]
  {
    assert (ts + [now])[..|ts|] == ts;
  }

  /** An earlier, smaller cutoff makes no difference to a later prune. */
  lemma {:induction false} PruneTwice(ts: seq<int>, early: int, late: int)
    requires early <= late
    ensures PruneBefore(PruneBefore(ts, early), late) == PruneBefore(ts, late)
  {
    if ts != [] {
      PruneTwice(ts[..|ts| - 1], early, late);
      PruneAppend(PruneBefore(ts[..|ts| - 1], early), ts[|ts| - 1], late);
    }
  }

  lemma {:induction false} PruneShrinks(ts: seq<int>, cutoff: int)
    ensures |PruneBefore(ts, cutoff)| <= |ts|
  {
    if ts != [] { PruneShrinks(ts[..|ts| - 1], cutoff); }
  }

  /** On a sorted list, dropping the old prefix keeps exactly the recent entries. */
  lemma {:induction false} PruneCounts(ts: seq<int>, cutoff: int)
    requires Sorted(ts)
    ensures |PruneBefore(ts, cutoff)| == AtLeast(ts, cutoff)
    ensures ts != [] && ts[|ts| - 1] < cutoff ==> PruneBefore(ts, cutoff) == []
  {
    if ts != [] { PruneCounts(ts[..|ts| - 1], cutoff); }
  }

  // ---------- The log seen as two lists of times ----------

  predicate Selects(failsOnly: bool, t: Tick) {
    t.HitTick? && (failsOnly ==> t.failed)
  }

  function Times(log: Run<Tick>, failsOnly: bool): seq<int> {
    match log
    case Start => []
    case Then(past, t) => if Selects(failsOnly, t) then Times(past, failsOnly) + [t.now] else Times(past, failsOnly)
  }

  lemma {:induction false} TimesSorted(log: Run<Tick>, failsOnly: bool)
    requires Monotone(log)
    ensures var ts := Times(log, failsOnly); Sorted(ts) && (ts != [] ==> log.Then? && ts[|ts| - 1] <= log.last.now)
  {
    if log.Then? {
      TimesSorted(log.past, failsOnly);
      var ts := Times(log.past, failsOnly);
      assert (ts + [log.last.now])[..|ts|] == ts;
    }
  }

  lemma {:induction false} NaiveCountIsAtLeast(rule: Rule, log: Run<Tick>, cutoff: int)
    ensures NaiveCount(rule, log, cutoff) == AtLeast(Times(log, rule.failOnly), cutoff)
  {
    if log.Then? {
      NaiveCountIsAtLeast(rule, log.past, cutoff);
      var ts := Times(log.past, rule.failOnly);
      assert (ts + [log.last.now])[..|ts|] == ts;
    }
  }

  lemma {:induction false} LogMonotone(rule: Rule, run: Run<Tick>)
    requires Monotone(run)
    ensures var log := SinceTrigger(rule, run); Monotone(log) && (log.Then? ==> run.Then? && log.last == run.last)
  {
    if run.Then? { LogMonotone(rule, run.past); }
  }

  // ---------- Refinement ----------

  /** The two lists agree on everything at or after the bound. */
  predicate Agree(ts: seq<int>, full: seq<int>, bound: int) {
    PruneBefore(ts, bound) == PruneBefore(full, bound)
  }

  lemma AgreeLater(ts: seq<int>, full: seq<int>, bound: int, later: int)
    requires Agree(ts, full, bound) && bound <= later
    ensures Agree(ts, full, later)
  {
    PruneTwice(ts, bound, later);
    PruneTwice(full, bound, later);
  }

  lemma AgreePruned(ts: seq<int>, full: seq<int>, cutoff: int, bound: int)
    requires Agree(ts, full, bound) && cutoff <= bound
    ensures Agree(PruneBefore(ts, cutoff), full, bound)
  {
    PruneTwice(ts, cutoff, bound);
  }

  lemma AgreeAppend(ts: seq<int>, full: seq<int>, now: int, cutoff: int)
    requires Agree(ts, full, cutoff)
    ensures Agree(ts + [now], full + [now], cutoff)
  {
    PruneAppend(ts, now, cutoff);
    PruneAppend(full, now, cutoff);
  }

  /** The bucket is the log since the last trigger, up to entries already out of the window. */
  predicate Matches(rule: Rule, b: Bucket, log: Run<Tick>, clock: int) {
    && Agree(b.hits, Times(log, false), clock - rule.window)
    && Agree(b.fails, Times(log, true), clock - rule.window)
  }

  lemma MatchesLater(rule: Rule, b: Bucket, log: Run<Tick>, clock: int, later: int)
    requires Matches(rule, b, log, clock) && clock <= later
    ensures Matches(rule, b, log, later)
  {
    AgreeLater(b.hits, Times(log, false), clock - rule.window, later - rule.window);
    AgreeLater(b.fails, Times(log, true), clock - rule.window, later - rule.window);
  }

  lemma {:induction false} HitMatches(rule: Rule, b: Bucket, log: Run<Tick>, t: Tick)
    requires t.HitTick? && Matches(rule, b, log, t.now)
    ensures Matches(rule, Recorded(rule, b, t.now, t.failed), Then(log, t), t.now)
  {
    hide PruneBefore;
    var cutoff := t.now - rule.window;
    AgreePruned(b.hits, Times(log, false), cutoff, cutoff);
    AgreePruned(b.fails, Times(log, true), cutoff, cutoff);
    AgreeAppend(PruneBefore(b.hits, cutoff), Times(log, false), t.now, cutoff);
    AgreeAppend(PruneBefore(b.fails, cutoff), Times(log, true), t.now, cutoff);
  }

  lemma {:induction false} SweepMatches(rule: Rule, b: Bucket, log: Run<Tick>, t: Tick, maxWindow: int)
    requires rule.window <= maxWindow && t.SweepTick? && Matches(rule, b, log, t.now)
    ensures Matches(rule, Sweep(b, t.now - maxWindow), Then(log, t), t.now)
  {
    hide PruneBefore;
    AgreePruned(b.hits, Times(log, false), t.now - maxWindow, t.now - rule.window);
    AgreePruned(b.fails, Times(log, true), t.now - maxWindow, t.now - rule.window);
  }

  /** Just after a hit nothing in either list is too old, so agreeing means having one length. */
  lemma RecordedIsPruned(ts: seq<int>, now: int, cutoff: int)
    requires cutoff <= now
    ensures PruneBefore(PruneBefore(ts, cutoff), cutoff) == PruneBefore(ts, cutoff)
    ensures PruneBefore(PruneBefore(ts, cutoff) + [now], cutoff) == PruneBefore(ts, cutoff) + [now]
  {
    PruneTwice(ts, cutoff, cutoff);
    PruneAppend(PruneBefore(ts, cutoff), now, cutoff);
  }

  lemma LogCount(rule: Rule, log: Run<Tick>, cutoff: int)
    requires Monotone(log)
    ensures NaiveCount(rule, log, cutoff) == |PruneBefore(Times(log, rule.failOnly), cutoff)|
  {
    TimesSorted(log, rule.failOnly);
    PruneCounts(Times(log, rule.failOnly), cutoff);
    NaiveCountIsAtLeast(rule, log, cutoff);
  }

  /** The count the guard compares with the threshold is the full log's count. */
  lemma HitCount(rule: Rule, b: Bucket, log: Run<Tick>, t: Tick)
    requires rule.window >= 0 && t.HitTick? && Matches(rule, b, log, t.now)
    requires Monotone(Then(log, t))
    ensures |Counted(rule, Recorded(rule, b, t.now, t.failed))| == NaiveCount(rule, Then(log, t), t.now - rule.window)
  {
    hide PruneBefore;
    HitMatches(rule, b, log, t);
    RecordedIsPruned(b.hits, t.now, t.now - rule.window);
    RecordedIsPruned(b.fails, t.now, t.now - rule.window);
    LogCount(rule, Then(log, t), t.now - rule.window);
  }

  lemma EmptyMatches(rule: Rule, clock: int)
    ensures Matches(rule, EMPTY_BUCKET, Start, clock)
  {
  }

  lemma {:induction false} StepMatches(rule: Rule, maxWindow: int, run: Run<Tick>, clock: int)
    requires 0 <= rule.window <= maxWindow && Monotone(run) && run.Then? && run.last.now <= clock
    requires Matches(rule, BucketAfter(rule, maxWindow, run.past), SinceTrigger(rule, run.past), run.last.now)
    ensures Matches(rule, BucketAfter(rule, maxWindow, run), SinceTrigger(rule, run), clock)
    ensures Fires(rule, maxWindow, run) <==> NaiveFires(rule, run)
  {
    hide PruneBefore, NaiveCount, Times;
    var b, log, t := BucketAfter(rule, maxWindow, run.past), SinceTrigger(rule, run.past), run.last;
    LogMonotone(rule, run.past);
    EmptyMatches(rule, t.now);
    if t.HitTick? {
      HitCount(rule, b, log, t);
      HitMatches(rule, b, log, t);
      assert SinceTrigger(rule, run) == if NaiveFires(rule, run) then Start else Then(log, t);
      assert BucketAfter(rule, maxWindow, run)
          == if NaiveFires(rule, run) then EMPTY_BUCKET else Recorded(rule, b, t.now, t.failed);
    } else {
      SweepMatches(rule, b, log, t, maxWindow);
      assert SinceTrigger(rule, run) == Then(log, t);
      assert BucketAfter(rule, maxWindow, run) == Sweep(b, t.now - maxWindow);
    }
    MatchesLater(rule, BucketAfter(rule, maxWindow, run), SinceTrigger(rule, run), t.now, clock);
  }

  /**
   The invariant of every run: the bucket holds the log since the last trigger of the log
   itself, less what has left the window, whatever sweeps came in between.
   */
  lemma {:induction false} RunMatches(rule: Rule, maxWindow: int, run: Run<Tick>, clock: int)
    requires 0 <= rule.window <= maxWindow && Monotone(run) && Before(run, clock)
    ensures Matches(rule, BucketAfter(rule, maxWindow, run), SinceTrigger(rule, run), clock)
    decreases run
  {
    if run.Then? {
      RunMatches(rule, maxWindow, run.past, run.last.now);
      StepMatches(rule, maxWindow, run, clock);
    }
  }

  /** Pruning, resets and janitor sweeps never change a decision: it is the full log's. */
  lemma DecidesLikeTheFullLog(rule: Rule, maxWindow: int, run: Run<Tick>)
    requires 0 <= rule.window <= maxWindow && Monotone(run)
    ensures Fires(rule, maxWindow, run) <==> NaiveFires(rule, run)
  {
    if run.Then? {
      RunMatches(rule, maxWindow, run.past, run.last.now);
      StepMatches(rule, maxWindow, run, run.last.now);
    }
  }

  // ---------- Sweeps are invisible ----------

  function HitsOnly(run: Run<Tick>): Run<Tick> {
    match run
    case Start => Start
    case Then(past, t) => if t.HitTick? then Then(HitsOnly(past), t) else HitsOnly(past)
  }

  lemma {:induction false} NaiveCountIgnoresSweeps(rule: Rule, log: Run<Tick>, cutoff: int)
    ensures NaiveCount(rule, HitsOnly(log), cutoff) == NaiveCount(rule, log, cutoff)
  {
    if log.Then? { NaiveCountIgnoresSweeps(rule, log.past, cutoff); }
  }

  /** The naive log takes the same decisions with the sweeps left out of the run. */
  lemma {:induction false} NaiveIgnoresSweeps(rule: Rule, run: Run<Tick>)
    ensures HitsOnly(SinceTrigger(rule, run)) == SinceTrigger(rule, HitsOnly(run))
    ensures run.Then? && run.last.HitTick? ==> (NaiveFires(rule, run) <==> NaiveFires(rule, HitsOnly(run)))
  {
    if run.Then? {
      NaiveIgnoresSweeps(rule, run.past);
      if run.last.HitTick? {
        NaiveCountIgnoresSweeps(rule, Then(SinceTrigger(rule, run.past), run.last), run.last.now - rule.window);
      }
    }
  }

  // ---------- Completeness of triggering ----------

  function CountHits(rule: Rule, run: Run<Tick>): nat {
    match run
    case Start => 0
    case Then(past, t) => CountHits(rule, past) + (if CountsFor(rule, t) then 1 else 0)
  }

  predicate NoneBefore(run: Run<Tick>, cutoff: int) {
    run.Then? ==> run.last.now >= cutoff && NoneBefore(run.past, cutoff)
  }

  /** Some hit of `recent`, played after `earlier`, triggers. */
  predicate TriggersWithin(rule: Rule, maxWindow: int, earlier: Run<Tick>, recent: Run<Tick>) {
    recent.Then? &&
    (Fires(rule, maxWindow, Append(earlier, recent)) || TriggersWithin(rule, maxWindow, earlier, recent.past))
  }

  lemma {:induction false} RecentCounts(rule: Rule, log: Run<Tick>, recent: Run<Tick>, cutoff: int)
    requires NoneBefore(recent, cutoff)
    ensures NaiveCount(rule, Append(log, recent), cutoff) == NaiveCount(rule, log, cutoff) + CountHits(rule, recent)
  {
    if recent.Then? { RecentCounts(rule, log, recent.past, cutoff); }
  }

  /** While nothing triggers, the log only grows. */
  lemma {:induction false} QuietLogGrows(rule: Rule, maxWindow: int, earlier: Run<Tick>, recent: Run<Tick>)
    requires 0 <= rule.window <= maxWindow && Monotone(Append(earlier, recent))
    requires !TriggersWithin(rule, maxWindow, earlier, recent)
    ensures SinceTrigger(rule, Append(earlier, recent)) == Append(SinceTrigger(rule, earlier), recent)
  {
    if recent.Then? {
      QuietLogGrows(rule, maxWindow, earlier, recent.past);
      DecidesLikeTheFullLog(rule, maxWindow, Append(earlier, recent));
    }
  }

  /**
   Threshold counted hits within one window cannot pass without a trigger among them:
   `burst` is any stretch of a run, no longer than the window, that ends on a counted hit.
   */
  lemma BurstTriggers(rule: Rule, maxWindow: int, earlier: Run<Tick>, burst: Run<Tick>)
    requires 0 <= rule.window <= maxWindow && Monotone(Append(earlier, burst))
    requires burst.Then? && CountsFor(rule, burst.last)
    requires NoneBefore(burst, burst.last.now - rule.window)
    requires CountHits(rule, burst) >= rule.threshold
    ensures TriggersWithin(rule, maxWindow, earlier, burst)
  {
    hide BucketAfter;
    var run := Append(earlier, burst);
    if !TriggersWithin(rule, maxWindow, earlier, burst) {
      QuietLogGrows(rule, maxWindow, earlier, burst);
      RecentCounts(rule, SinceTrigger(rule, earlier), burst, burst.last.now - rule.window);
      DecidesLikeTheFullLog(rule, maxWindow, run);
    }
  }

  // ---------- Accounting ----------

  /** What one run did: counted hits recorded, triggers fired, counted entries pruned away. */
  datatype Tally = Tally(counted: nat, triggers: nat, pruned: nat)

  /** How many counted entries one tick prunes. */
  function PrunedBy(rule: Rule, maxWindow: int, b: Bucket, t: Tick): nat {
    var cutoff := t.now - (if t.HitTick? then rule.window else maxWindow);
    PruneShrinks(Counted(rule, b), cutoff);
    |Counted(rule, b)| - |PruneBefore(Counted(rule, b), cutoff)|
  }

  function TallyOf(rule: Rule, maxWindow: int, run: Run<Tick>): Tally {
    match run
    case Start => Tally(0, 0, 0)
    case Then(past, t) =>
      var tally := TallyOf(rule, maxWindow, past);
      Tally(tally.counted + (if CountsFor(rule, t) then 1 else 0),
            tally.triggers + (if Fires(rule, maxWindow, run) then 1 else 0),
            tally.pruned + PrunedBy(rule, maxWindow, BucketAfter(rule, maxWindow, past), t))
  }

  function Live(rule: Rule, maxWindow: int, run: Run<Tick>): nat {
    |Counted(rule, BucketAfter(rule, maxWindow, run))|
  }

  lemma RecordedSize(rule: Rule, maxWindow: int, b: Bucket, t: Tick)
    requires t.HitTick?
    ensures |Counted(rule, Recorded(rule, b, t.now, t.failed))|
         == |Counted(rule, b)| - PrunedBy(rule, maxWindow, b, t) + (if CountsFor(rule, t) then 1 else 0)
  {
  }

  /** Between calls the live count stays below the threshold. */
  lemma {:induction false} LiveBelowThreshold(rule: Rule, maxWindow: int, run: Run<Tick>)
    requires rule.threshold >= 1
    ensures Live(rule, maxWindow, run) < rule.threshold
  {
    if run.Then? && run.last.SweepTick? {
      LiveBelowThreshold(rule, maxWindow, run.past);
      PruneShrinks(Counted(rule, BucketAfter(rule, maxWindow, run.past)), run.last.now - maxWindow);
    }
  }

  /** A trigger is reported with a count of exactly the threshold, never more. */
  lemma TriggersAtThreshold(rule: Rule, maxWindow: int, run: Run<Tick>)
    requires rule.threshold >= 1 && Fires(rule, maxWindow, run)
    ensures CountsFor(rule, run.last)
    ensures Hit(rule, BucketAfter(rule, maxWindow, run.past), run.last.now, run.last.failed).count == rule.threshold
  {
    LiveBelowThreshold(rule, maxWindow, run.past);
    RecordedSize(rule, maxWindow, BucketAfter(rule, maxWindow, run.past), run.last);
  }

  lemma {:induction false} LiveStep(rule: Rule, maxWindow: int, run: Run<Tick>)
    requires rule.threshold >= 1 && run.Then?
    ensures Live(rule, maxWindow, run.past) + (if CountsFor(rule, run.last) then 1 else 0)
         == Live(rule, maxWindow, run) + PrunedBy(rule, maxWindow, BucketAfter(rule, maxWindow, run.past), run.last)
            + (if Fires(rule, maxWindow, run) then rule.threshold else 0)
  {
    hide PruneBefore;
    if run.last.HitTick? {
      RecordedSize(rule, maxWindow, BucketAfter(rule, maxWindow, run.past), run.last);
    }
    if Fires(rule, maxWindow, run) { TriggersAtThreshold(rule, maxWindow, run); }
  }

  lemma OneMore(n: int, k: int)
    ensures n * (k + 1) == n * k + n
  {
  }

  /** Nothing counted is lost: it was consumed by a trigger, pruned, or is still live. */
  lemma {:induction false} CountedHitsAccountedFor(rule: Rule, maxWindow: int, run: Run<Tick>)
    requires rule.threshold >= 1
    ensures var tally := TallyOf(rule, maxWindow, run);
            tally.counted == rule.threshold * tally.triggers + tally.pruned + Live(rule, maxWindow, run)
  {
    if run.Then? {
      CountedHitsAccountedFor(rule, maxWindow, run.past);
      LiveStep(rule, maxWindow, run);
      OneMore(rule.threshold, TallyOf(rule, maxWindow, run.past).triggers);
    }
  }

  // ---------- Failures are occurrences ----------

  predicate Subsequence(a: seq<int>, b: seq<int>)
    decreases |b|
  {
    if a == [] then true
    else if b == [] then false
    else if a[|a| - 1] == b[|b| - 1] then Subsequence(a[..|a| - 1], b[..|b| - 1])
    else Subsequence(a, b[..|b| - 1])
  }

  lemma {:induction false} SubsequenceFront(a: seq<int>, b: seq<int>)
    requires a != [] && Subsequence(a, b)
    ensures Subsequence(a[..|a| - 1], b)
    decreases |b|
  {
    var a', b' := a[..|a| - 1], b[..|b| - 1];
    if a[|a| - 1] == b[|b| - 1] {
      if a' != [] {
        if a'[|a'| - 1] == b[|b| - 1] { SubsequenceFront(a', b'); }
      }
    } else {
      SubsequenceFront(a, b');
      if a' != [] && a'[|a'| - 1] == b[|b| - 1] { SubsequenceFront(a', b'); }
    }
  }

  lemma SubsequenceAppend(a: seq<int>, b: seq<int>, now: int)
    requires Subsequence(a, b)
    ensures Subsequence(a, b + [now]) && Subsequence(a + [now], b + [now])
  {
    assert (a + [now])[..|a|] == a && (b + [now])[..|b|] == b;
    if a != [] && a[|a| - 1] == now { SubsequenceFront(a, b); }
  }

  lemma {:induction false} SubsequencePruned(a: seq<int>, b: seq<int>, cutoff: int)
    requires Subsequence(a, b)
    ensures Subsequence(PruneBefore(a, cutoff), PruneBefore(b, cutoff))
    decreases |b|
  {
    if a != [] {
      var a', b' := a[..|a| - 1], b[..|b| - 1];
      if a[|a| - 1] == b[|b| - 1] {
        SubsequencePruned(a', b', cutoff);
        SubsequenceAppend(PruneBefore(a', cutoff), PruneBefore(b', cutoff), a[|a| - 1]);
      } else {
        SubsequencePruned(a, b', cutoff);
        SubsequenceAppend(PruneBefore(a, cutoff), PruneBefore(b', cutoff), b[|b| - 1]);
      }
    }
  }

  lemma NothingIsSubsequence(b: seq<int>)
    ensures Subsequence([], b)
  {
  }

  lemma FailsStayWithinHits(rule: Rule, maxWindow: int, b: Bucket, t: Tick)
    requires Subsequence(b.fails, b.hits)
    ensures var b' := Step(rule, maxWindow, b, t); Subsequence(b'.fails, b'.hits)
  {
    hide PruneBefore, Subsequence;
    var cutoff := t.now - (if t.HitTick? then rule.window else maxWindow);
    SubsequencePruned(b.fails, b.hits, cutoff);
    SubsequenceAppend(PruneBefore(b.fails, cutoff), PruneBefore(b.hits, cutoff), t.now);
    NothingIsSubsequence([]);
  }

  /** In every run, whatever its times, the failures a bucket holds are among its occurrences. */
  lemma {:induction false} FailsWithinHits(rule: Rule, maxWindow: int, run: Run<Tick>)
    ensures var b := BucketAfter(rule, maxWindow, run); Subsequence(b.fails, b.hits)
  {
    if run.Then? {
      FailsWithinHits(rule, maxWindow, run.past);
      FailsStayWithinHits(rule, maxWindow, BucketAfter(rule, maxWindow, run.past), run.last);
    }
  }
}

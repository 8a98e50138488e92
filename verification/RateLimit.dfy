/**
 The edge rate limiter: one counter per key that restarts with the first call after its window
 has run out, and a clean-up of expired counters every 500 calls. Times are milliseconds.
 */
module RateLimit {
  import opened Options
  import opened Runs

  const CLEANUP_EVERY := 500

  datatype Entry = Entry(count: int, resetAt: int)

  datatype Result = Result(allowed: bool, remaining: int, resetAt: int)

  datatype Call = Call(key: string, limit: int, windowMs: int, now: int)

  // ---------- One counter ----------

  predicate Expired(e: Option<Entry>, now: int) {
    e.None? || now > e.value.resetAt
  }

  function NextEntry(e: Option<Entry>, limit: int, windowMs: int, now: int): Entry {
    if Expired(e, now) then Entry(1, now + windowMs)
    else if e.value.count >= limit then e.value
    else e.value.(count := e.value.count + 1)
  }

  function Answer(e: Option<Entry>, limit: int, windowMs: int, now: int): Result {
    if Expired(e, now) then Result(true, limit - 1, now + windowMs)
    else if e.value.count >= limit then Result(false, 0, e.value.resetAt)
    else Result(true, limit - (e.value.count + 1), e.value.resetAt)
  }

  function Lookup(store: map<string, Entry>, key: string): Option<Entry> {
    if key in store then Some(store[key]) else None
  }

  function Cleaned(store: map<string, Entry>, now: int): map<string, Entry> {
    map k | k in store && now <= store[k].resetAt :: store[k]
  }

  datatype State = State(store: map<string, Entry>, ops: nat)

  function AfterCleanup(s: State, now: int): State {
    if s.ops + 1 < CLEANUP_EVERY then State(s.store, s.ops + 1) else State(Cleaned(s.store, now), 0)
  }

  function Step(s: State, c: Call): State {
    var t := AfterCleanup(s, c.now);
    t.(store := t.store[c.key := NextEntry(Lookup(t.store, c.key), c.limit, c.windowMs, c.now)])
  }

  function Reply(s: State, c: Call): Result {
    Answer(Lookup(AfterCleanup(s, c.now).store, c.key), c.limit, c.windowMs, c.now)
  }

  class Limiter {
    var store: map<string, Entry>
    var opsSinceCleanup: nat

    function View(): State
      reads this
    {
      State(store, opsSinceCleanup)
    }

    constructor ()
      ensures View() == State(map[], 0)
    {
      store, opsSinceCleanup := map[], 0;
    }

    method MaybeCleanup(now: int)
      modifies this
      ensures View() == AfterCleanup(old(View()), now)
    {
      opsSinceCleanup := opsSinceCleanup + 1;
      if opsSinceCleanup < CLEANUP_EVERY {
        return;
      }
      opsSinceCleanup := 0;
      ghost var was := store;
      var todo := store.Keys;
      while todo != {}
        invariant opsSinceCleanup == 0 && todo <= was.Keys && store.Keys <= was.Keys
        invariant forall k :: k in todo ==> k in store
        invariant forall k :: k in store ==> store[k] == was[k]
        invariant forall k :: k in was && k !in todo ==> (k in store <==> now <= was[k].resetAt)
        decreases |todo|
      {
        var k :| k in todo;
        if now > store[k].resetAt {
          store := store - {k};
        }
        todo := todo - {k};
      }
      assert store == Cleaned(was, now);
    }

    method RateLimit(key: string, limit: int, windowMs: int, now: int) returns (r: Result)
      modifies this
      ensures View() == Step(old(View()), Call(key, limit, windowMs, now))
      ensures r == Reply(old(View()), Call(key, limit, windowMs, now))
    {
      MaybeCleanup(now);
      if key !in store || now > store[key].resetAt {
        store := store[key := Entry(1, now + windowMs)];
        return Result(true, limit - 1, now + windowMs);
      }
      var entry := store[key];
      if entry.count >= limit {
        store := store[key := entry];
        return Result(false, 0, entry.resetAt);
      }
      entry := entry.(count := entry.count + 1);
      store := store[key := entry];
      return Result(true, limit - entry.count, entry.resetAt);
    }
  }

  // ---------- Clean-up is invisible ----------

  function After(run: Run<Call>): State {
    match run
    case Start => State(map[], 0)
    case Then(past, c) => Step(After(past), c)
  }

  predicate InOrder(run: Run<Call>) {
    run.Then? ==> InOrder(run.past) && (run.past.Then? ==> run.past.last.now <= run.last.now)
  }

  /** The counter a key would have if nothing were ever cleaned up. */
  function Uncleaned(run: Run<Call>, key: string): Option<Entry> {
    match run
    case Start => None
    case Then(past, c) =>
      var e := Uncleaned(past, key);
      if c.key == key then Some(NextEntry(e, c.limit, c.windowMs, c.now)) else e
  }

  /** The stored counter is the uncleaned one, or is gone because that one had expired. */
  predicate Alike(e: Option<Entry>, uncleaned: Option<Entry>, clock: int) {
    e == uncleaned || (e.None? && Expired(uncleaned, clock))
  }

  lemma {:induction false} StoreIsUncleaned(run: Run<Call>, key: string, now: int)
    requires InOrder(run) && (run.Then? ==> run.last.now <= now)
    ensures Alike(Lookup(After(run).store, key), Uncleaned(run, key), now)
  {
    if run.Then? {
      StoreIsUncleaned(run.past, key, run.last.now);
      var s, t := After(run.past), AfterCleanup(After(run.past), run.last.now);
      assert Alike(Lookup(t.store, key), Uncleaned(run.past, key), run.last.now);
    }
  }

  /** Every reply of every run is the one given if nothing were ever cleaned up. */
  lemma {:induction false} CleanupIsInvisible(run: Run<Call>, c: Call)
    requires InOrder(Then(run, c))
    ensures Reply(After(run), c) == Answer(Uncleaned(run, c.key), c.limit, c.windowMs, c.now)
  {
    StoreIsUncleaned(run, c.key, c.now);
  }

  // ---------- Epochs, from the times alone ----------

  /** When the epoch of the last call began: at it, if it came after the previous epoch's window. */
  function EpochStart(windowMs: int, times: Run<int>): int
    requires times.Then?
  {
    if times.past.Start? || times.last > EpochStart(windowMs, times.past) + windowMs then times.last
    else EpochStart(windowMs, times.past)
  }

  /** How many calls the epoch of the last call has seen, that call included. */
  function EpochCalls(windowMs: int, times: Run<int>): nat
    requires times.Then?
  {
    if times.past.Start? || times.last > EpochStart(windowMs, times.past) + windowMs then 1
    else EpochCalls(windowMs, times.past) + 1
  }

  function AtLeastOne(limit: int): nat {
    if limit < 1 then 1 else limit
  }

  /** The last call is let through exactly when its epoch is not yet used up. */
  predicate AllowedInEpoch(limit: int, windowMs: int, times: Run<int>)
    requires times.Then?
  {
    EpochCalls(windowMs, times) <= AtLeastOne(limit)
  }

  /** How many calls of the current epoch were let through. */
  function AllowedThisEpoch(limit: int, windowMs: int, times: Run<int>): nat
    requires times.Then?
  {
    var now := if AllowedInEpoch(limit, windowMs, times) then 1 else 0;
    if times.past.Start? || times.last > EpochStart(windowMs, times.past) + windowMs then now
    else AllowedThisEpoch(limit, windowMs, times.past) + now
  }

  /** Each epoch lets through exactly min(calls, limit), a limit below 1 counting as 1. */
  lemma {:induction false} EpochAllowsUpToLimit(limit: int, windowMs: int, times: Run<int>)
    requires times.Then?
    ensures AllowedThisEpoch(limit, windowMs, times)
         == if EpochCalls(windowMs, times) <= AtLeastOne(limit) then EpochCalls(windowMs, times) else AtLeastOne(limit)
  {
    if times.past.Then? { EpochAllowsUpToLimit(limit, windowMs, times.past); }
  }

  // ---------- The clean-up ----------

  /** Every 500th call of a run, and no other, deletes counters: exactly those past their reset. */
  lemma {:induction false} CleansEvery500Calls(run: Run<Call>, c: Call, key: string)
    requires key != c.key
    ensures After(run).ops == Length(run) % 500
    ensures var was, now := After(run).store, After(Then(run, c)).store;
            key in now <==> key in was && (Length(Then(run, c)) % 500 == 0 ==> c.now <= was[key].resetAt)
  {
    OpsCountCalls(run);
    hide Length, After;
    assert After(Then(run, c)) == Step(After(run), c) by { OneMoreCall(run, c); }
    assert Length(Then(run, c)) == Length(run) + 1 by { OneMoreCall(run, c); }
  }

  lemma OneMoreCall(run: Run<Call>, c: Call)
    ensures After(Then(run, c)) == Step(After(run), c) && Length(Then(run, c)) == Length(run) + 1
  {
  }

  lemma {:induction false} OpsCountCalls(run: Run<Call>)
    ensures After(run).ops == Length(run) % 500
  {
    hide Cleaned;
    if run.Then? { OpsCountCalls(run.past); }
  }

  // ---------- The limiter counts epochs ----------

  /** The times of one key's calls in a run. */
  function TimesOf(run: Run<Call>, key: string): Run<int> {
    match run
    case Start => Start
    case Then(past, c) => if c.key == key then Then(TimesOf(past, key), c.now) else TimesOf(past, key)
  }

  /** The key is always used with one limit and one window. */
  predicate Fixed(run: Run<Call>, key: string, limit: int, windowMs: int) {
    run.Then? ==> Fixed(run.past, key, limit, windowMs) &&
                  (run.last.key == key ==> run.last.limit == limit && run.last.windowMs == windowMs)
  }

  lemma {:induction false} CounterIsEpoch(run: Run<Call>, key: string, limit: int, windowMs: int)
    requires Fixed(run, key, limit, windowMs)
    ensures var times := TimesOf(run, key);
            Uncleaned(run, key) == if times.Start? then None
                                   else Some(Entry(AllowedThisEpoch(limit, windowMs, times),
                                                   EpochStart(windowMs, times) + windowMs))
  {
    if run.Then? {
      CounterIsEpoch(run.past, key, limit, windowMs);
      if run.last.key == key {
        var times := TimesOf(run.past, key);
        if times.Then? { EpochAllowsUpToLimit(limit, windowMs, times); }
        EpochAllowsUpToLimit(limit, windowMs, Then(times, run.last.now));
      }
    }
  }

  /** Whatever other keys do and whenever clean-ups run, a call is judged by its key's epoch alone. */
  lemma {:induction false} RepliesCountEpochs(run: Run<Call>, c: Call)
    requires InOrder(Then(run, c)) && Fixed(Then(run, c), c.key, c.limit, c.windowMs)
    ensures var times := Then(TimesOf(run, c.key), c.now);
            var allowed := AllowedInEpoch(c.limit, c.windowMs, times);
            Reply(After(run), c) == Result(allowed, if allowed then c.limit - EpochCalls(c.windowMs, times) else 0,
                                           EpochStart(c.windowMs, times) + c.windowMs)
  {
    CleanupIsInvisible(run, c);
    CounterIsEpoch(run, c.key, c.limit, c.windowMs);
    var times := TimesOf(run, c.key);
    if times.Then? { EpochAllowsUpToLimit(c.limit, c.windowMs, times); }
  }

  // ---------- The bound over any window ----------

  predicate Ordered(times: Run<int>) {
    times.Then? ==> Ordered(times.past) && (times.past.Then? ==> times.past.last <= times.last)
  }

  /** How many calls were let through between the two moments, both included. */
  function AllowedBetween(limit: int, windowMs: int, times: Run<int>, from: int, to: int): nat {
    match times
    case Start => 0
    case Then(past, t) =>
      AllowedBetween(limit, windowMs, past, from, to) +
      (if from <= t <= to && AllowedInEpoch(limit, windowMs, times) then 1 else 0)
  }

  lemma {:induction false} EpochStartBounds(windowMs: int, times: Run<int>)
    requires times.Then? && Ordered(times) && windowMs >= 0
    ensures times.last - windowMs <= EpochStart(windowMs, times) <= times.last
  {
    if times.past.Then? { EpochStartBounds(windowMs, times.past); }
  }

  /** After its first call, an epoch can add at most the rest of its limit. */
  lemma {:induction false} RestOfEpoch(limit: int, windowMs: int, times: Run<int>, from: int, to: int)
    requires times.Then? && Ordered(times) && windowMs >= 0 && from > EpochStart(windowMs, times)
    ensures AllowedBetween(limit, windowMs, times, from, to) <= AllowedThisEpoch(limit, windowMs, times) - 1
  {
    if times.past.Then? {
      EpochStartBounds(windowMs, times.past);
      if times.last > EpochStart(windowMs, times.past) + windowMs {
        NothingAfter(limit, windowMs, times.past, from, to);
      } else {
        RestOfEpoch(limit, windowMs, times.past, from, to);
      }
    }
  }

  lemma {:induction false} NothingAfter(limit: int, windowMs: int, times: Run<int>, from: int, to: int)
    requires Ordered(times) && (times.Then? ==> times.last < from)
    ensures AllowedBetween(limit, windowMs, times, from, to) == 0
  {
    if times.Then? { NothingAfter(limit, windowMs, times.past, from, to); }
  }

  /** Up to the last call, a window holds at most one epoch's rest and the current epoch. */
  lemma {:induction false} AtMostTwoEpochs(limit: int, windowMs: int, times: Run<int>, from: int)
    requires times.Then? && Ordered(times) && windowMs >= 0 && times.last <= from + windowMs
    ensures AllowedBetween(limit, windowMs, times, from, from + windowMs)
         <= AtLeastOne(limit) - 1 + AllowedThisEpoch(limit, windowMs, times)
  {
    if times.past.Then? {
      if times.last > EpochStart(windowMs, times.past) + windowMs {
        RestOfEpoch(limit, windowMs, times.past, from, from + windowMs);
        EpochAllowsUpToLimit(limit, windowMs, times.past);
      } else {
        AtMostTwoEpochs(limit, windowMs, times.past, from);
      }
    }
  }

  /** Counted in epochs, no interval of one window's length lets through more than 2 x limit - 1 calls. */
  lemma {:induction false} EpochsBound(limit: int, windowMs: int, times: Run<int>, from: int)
    requires Ordered(times) && windowMs >= 0
    ensures AllowedBetween(limit, windowMs, times, from, from + windowMs) <= 2 * AtLeastOne(limit) - 1
  {
    if times.Then? {
      if times.last <= from + windowMs {
        AtMostTwoEpochs(limit, windowMs, times, from);
        EpochAllowsUpToLimit(limit, windowMs, times);
      } else {
        EpochsBound(limit, windowMs, times.past, from);
      }
    }
  }

  // ---------- The bound is reached ----------

  function Repeated(times: Run<int>, t: int, n: nat): Run<int> {
    if n == 0 then times else Then(Repeated(times, t, n - 1), t)
  }

  lemma {:induction false} RepeatedInEpoch(limit: nat, windowMs: nat, times: Run<int>, t: int, n: nat, from: int,
                                           to: int)
    requires times.Then? && Ordered(times) && times.last <= t <= EpochStart(windowMs, times) + windowMs
    requires EpochCalls(windowMs, times) + n <= AtLeastOne(limit) && from <= t <= to
    ensures var r := Repeated(times, t, n);
            && r.Then? && Ordered(r) && r.last <= t
            && EpochStart(windowMs, r) == EpochStart(windowMs, times)
            && EpochCalls(windowMs, r) == EpochCalls(windowMs, times) + n
            && AllowedBetween(limit, windowMs, r, from, to) == AllowedBetween(limit, windowMs, times, from, to) + n
  {
    if n > 0 { RepeatedInEpoch(limit, windowMs, times, t, n - 1, from, to); }
  }

  lemma EpochsBoundIsTight(limit: nat, windowMs: nat)
    requires limit >= 1 && windowMs >= 1
    ensures exists times: Run<int> :: Ordered(times) &&
              AllowedBetween(limit, windowMs, times, 1, 1 + windowMs) == 2 * limit - 1
  {
    var none: Run<int> := Start;
    var first := Then(none, 0);
    RepeatedInEpoch(limit, windowMs, first, windowMs, limit - 1, 1, 1 + windowMs);
    var epoch := Repeated(first, windowMs, limit - 1);
    assert AllowedBetween(limit, windowMs, first, 1, 1 + windowMs) == 0;
    var second := Then(epoch, windowMs + 1);
    RepeatedInEpoch(limit, windowMs, second, windowMs + 1, limit - 1, 1, 1 + windowMs);
    var all := Repeated(second, windowMs + 1, limit - 1);
    assert AllowedBetween(limit, windowMs, all, 1, 1 + windowMs) == 2 * limit - 1;
  }

  // ---------- The replies of the limiter ----------

  /** How many calls of one key in the interval were answered with `allowed`. */
  function AllowedReplies(run: Run<Call>, key: string, from: int, to: int): nat {
    match run
    case Start => 0
    case Then(past, c) =>
      AllowedReplies(past, key, from, to) +
      (if c.key == key && from <= c.now <= to && Reply(After(past), c).allowed then 1 else 0)
  }

  lemma {:induction false} RepliesAreEpochs(run: Run<Call>, key: string, limit: int, windowMs: int, from: int, to: int)
    requires InOrder(run) && Fixed(run, key, limit, windowMs)
    ensures AllowedReplies(run, key, from, to) == AllowedBetween(limit, windowMs, TimesOf(run, key), from, to)
  {
    hide Reply, After, AllowedInEpoch;
    if run.Then? {
      RepliesAreEpochs(run.past, key, limit, windowMs, from, to);
      if run.last.key == key { RepliesCountEpochs(run.past, run.last); }
    }
  }

  lemma {:induction false} TimesInOrder(run: Run<Call>, key: string)
    requires InOrder(run)
    ensures var times := TimesOf(run, key);
            Ordered(times) && (times.Then? ==> run.Then? && times.last <= run.last.now)
  {
    if run.Then? { TimesInOrder(run.past, key); }
  }

  /**
   Over every run, with whatever other keys and clean-ups in between, no interval of one window's length holds more
   than 2 x limit - 1 allowed replies for a key. The limiter is a fixed window, not the sliding one its comment
   announces, which would give `limit`.
   */
  lemma WindowBound(run: Run<Call>, key: string, limit: int, windowMs: int, from: int)
    requires InOrder(run) && Fixed(run, key, limit, windowMs) && windowMs >= 0
    ensures AllowedReplies(run, key, from, from + windowMs) <= 2 * AtLeastOne(limit) - 1
  {
    RepliesAreEpochs(run, key, limit, windowMs, from, from + windowMs);
    TimesInOrder(run, key);
    EpochsBound(limit, windowMs, TimesOf(run, key), from);
  }

  /** Calls of one key, one limit and one window at the given times. */
  function CallsAt(key: string, limit: int, windowMs: int, times: Run<int>): Run<Call> {
    match times
    case Start => Start
    case Then(past, t) => Then(CallsAt(key, limit, windowMs, past), Call(key, limit, windowMs, t))
  }

  lemma {:induction false} CallsAtTimes(key: string, limit: int, windowMs: int, times: Run<int>)
    requires Ordered(times)
    ensures var run := CallsAt(key, limit, windowMs, times);
            && InOrder(run) && Fixed(run, key, limit, windowMs) && TimesOf(run, key) == times
            && (run.Then? <==> times.Then?) && (run.Then? ==> run.last.now == times.last)
  {
    if times.Then? { CallsAtTimes(key, limit, windowMs, times.past); }
  }

  /** For every key, limit and window some run of the limiter reaches that number. */
  lemma WindowBoundIsTight(key: string, limit: nat, windowMs: nat)
    requires limit >= 1 && windowMs >= 1
    ensures exists run: Run<Call> :: InOrder(run) && Fixed(run, key, limit, windowMs) &&
              AllowedReplies(run, key, 1, 1 + windowMs) == 2 * limit - 1
  {
    EpochsBoundIsTight(limit, windowMs);
    var times: Run<int> :| Ordered(times) && AllowedBetween(limit, windowMs, times, 1, 1 + windowMs) == 2 * limit - 1;
    CallsAtTimes(key, limit, windowMs, times);
    var run := CallsAt(key, limit, windowMs, times);
    RepliesAreEpochs(run, key, limit, windowMs, 1, 1 + windowMs);
    assert AllowedReplies(run, key, 1, 1 + windowMs) == 2 * limit - 1;
  }

  // ---------- When the sliding bound holds ----------

  /** What a sliding window would give: in no run does any interval of one window's length see more than the limit. */
  ghost predicate KeepsToLimit(key: string, limit: int, windowMs: int) {
    forall run: Run<Call>, from: int, to: int ::
      InOrder(run) && Fixed(run, key, limit, windowMs) && to == from + windowMs ==>
        AllowedReplies(run, key, from, to) <= AtLeastOne(limit)
  }

  /** Calls at one and the same moment belong to one epoch when the window is empty. */
  lemma {:induction false} MomentBound(limit: int, times: Run<int>, t: int)
    requires Ordered(times)
    ensures AllowedBetween(limit, 0, times, t, t) <=
            if times.Then? && times.last == t then AllowedThisEpoch(limit, 0, times) else AtLeastOne(limit)
    ensures times.Then? && times.last < t ==> AllowedBetween(limit, 0, times, t, t) == 0
    ensures AllowedBetween(limit, 0, times, t, t) <= AtLeastOne(limit)
  {
    if times.Then? {
      EpochAllowsUpToLimit(limit, 0, times);
      MomentBound(limit, times.past, t);
      if times.past.Then? { EpochStartBounds(0, times.past); }
    }
  }

  /** The limiter keeps the promise of its comment exactly for limits of one call and for empty windows. */
  lemma KeepsToLimitExactly(key: string, limit: int, windowMs: nat)
    ensures KeepsToLimit(key, limit, windowMs) <==> limit <= 1 || windowMs == 0
  {
    hide AllowedReplies, InOrder, Fixed;
    if limit <= 1 || windowMs == 0 {
      forall run: Run<Call>, from: int, to: int |
        InOrder(run) && Fixed(run, key, limit, windowMs) && to == from + windowMs
        ensures AllowedReplies(run, key, from, to) <= AtLeastOne(limit)
      {
        if windowMs == 0 {
          RepliesAreEpochs(run, key, limit, windowMs, from, to);
          TimesInOrder(run, key);
          MomentBound(limit, TimesOf(run, key), from);
        } else {
          WindowBound(run, key, limit, windowMs, from);
        }
      }
    } else {
      WindowBoundIsTight(key, limit, windowMs);
      var run: Run<Call> :| InOrder(run) && Fixed(run, key, limit, windowMs) &&
                            AllowedReplies(run, key, 1, 1 + windowMs) == 2 * limit - 1;
      assert AllowedReplies(run, key, 1, 1 + windowMs) > AtLeastOne(limit);
    }
  }
}

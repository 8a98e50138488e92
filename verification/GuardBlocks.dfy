/**
 From counting to refusing: a rule that triggers pushes a block, and the guard that pushed it refuses the address
 until the block expires. One guard is followed hit by hit; all the others appear through what they do to the list.
 */
module GuardBlocks {
  import opened Runs
  import opened SlidingWindow
  import Blocklist
  import Guards

  /** What happens at the guard followed, or to the list: a question, or whatever the other guards do. */
  datatype Event =
    | HitEvent(rule: nat, ip: string, key: string, failed: bool, now: int)
    | SweepEvent(now: int)
    | ListEvent(op: Blocklist.Op)

  function At(e: Event): int {
    if e.ListEvent? then e.op.now else e.now
  }

  function Clock(events: Run<Event>): int {
    if events.Start? then 0 else At(events.last)
  }

  /** The guard's counters see the hits and the sweeps. */
  function CounterRun(events: Run<Event>): Run<Guards.GuardOp> {
    match events
    case Start => Start
    case Then(past, HitEvent(rule, _, key, failed, now)) => Then(CounterRun(past), Guards.HitOp(rule, key, failed, now))
    case Then(past, SweepEvent(now)) => Then(CounterRun(past), Guards.JanitorOp(now))
    case Then(past, ListEvent(_)) => CounterRun(past)
  }

  /** Hits name rules there are, and only triggers push blocks for the guard followed. */
  predicate WellFormed(rules: seq<Rule>, guards: nat, g: nat, events: Run<Event>) {
    events.Then? ==>
      && WellFormed(rules, guards, g, events.past)
      && (events.last.HitEvent? ==> events.last.rule < |rules|)
      && (events.last.ListEvent? ==> events.last.op.g < guards && (events.last.op.BlockOp? ==> events.last.op.g != g))
  }

  predicate InOrder(events: Run<Event>) {
    events.Then? ==>
      && InOrder(events.past)
      && 0 <= At(events.last)
      && (events.past.Then? ==> At(events.past.last) <= At(events.last))
  }

  /** Nobody blocks or unblocks the ip by hand. */
  predicate HandsOff(events: Run<Event>, ip: string) {
    events.Then? ==>
      && HandsOff(events.past, ip)
      && (events.last.ListEvent? && (events.last.op.UnblockOp? || events.last.op.ManualOp?) ==> events.last.op.ip != ip)
  }

  lemma {:induction false} CounterRunIsValid(rules: seq<Rule>, guards: nat, g: nat, events: Run<Event>)
    requires WellFormed(rules, guards, g, events)
    ensures Guards.ValidOps(rules, CounterRun(events))
    ensures InOrder(events) ==> Guards.InOrder(CounterRun(events))
    ensures InOrder(events) && CounterRun(events).Then? ==> CounterRun(events).last.now <= Clock(events)
  {
    if events.Then? { CounterRunIsValid(rules, guards, g, events.past); }
  }

  /** Whether a hit after `past` triggers a rule that blocks. */
  predicate Pushes(rules: seq<Rule>, past: Run<Event>, e: Event)
    requires Guards.ValidOps(rules, CounterRun(past))
  {
    && e.HitEvent? && e.rule < |rules| && rules[e.rule].action.Block? && e.ip != ""
    && Guards.Decides(rules, CounterRun(past), Guards.HitOp(e.rule, e.key, e.failed, e.now))
  }

  /** What the events do to the list: a trigger pushes a block, and a sweep makes the cache stale. */
  function ListRun(rules: seq<Rule>, guards: nat, g: nat, events: Run<Event>): Run<Blocklist.Op>
    requires WellFormed(rules, guards, g, events)
  {
    match events
    case Start => Start
    case Then(past, e) =>
      CounterRunIsValid(rules, guards, g, past);
      var earlier := ListRun(rules, guards, g, past);
      match e
      case HitEvent(rule, ip, _, _, now) =>
        if Pushes(rules, past, e) then Then(earlier, Blocklist.BlockOp(g, ip, rules[rule].blockFor, now)) else earlier
      case SweepEvent(now) => Then(earlier, Blocklist.ForgetOp(g, now))
      case ListEvent(op) => Then(earlier, op)
  }

  /** One hit at the guard, and what its trigger does to the list. */
  method RecordHit(guard: Guards.Guard, cache: Blocklist.BlockCache, r: nat, ip: string, key: string, failed: bool,
                   now: int)
    returns (triggered: bool, count: nat)
    requires guard.Valid() && r < |guard.rules|
    modifies guard, cache, cache.table
    ensures guard.Valid() && guard.history == Then(old(guard.history), Guards.HitOp(r, key, failed, now))
    ensures triggered == Guards.Decides(guard.rules, old(guard.history), Guards.HitOp(r, key, failed, now))
    ensures var rule := guard.rules[r];
            var push := Blocklist.BlockOp(0, ip, rule.blockFor, now);
            if triggered && rule.action.Block? && ip != "" then
              && cache.table.expires == Blocklist.StepStore(old(cache.table.expires), cache.remote, push)
              && cache.View() == Blocklist.StepCache(old(cache.table.expires), old(cache.View()), push)
            else cache.table.expires == old(cache.table.expires) && cache.View() == old(cache.View())
  {
    hide Guards.Decides, Guards.BucketsAfter, Hit;
    triggered, count := guard.HitKey(r, key, failed, now);
    if triggered {
      cache.HandleTrigger(guard.rules[r], ip, now);
    }
  }

  lemma {:induction false} ListRunIsValid(rules: seq<Rule>, guards: nat, g: nat, events: Run<Event>)
    requires WellFormed(rules, guards, g, events) && InOrder(events) && g < guards
    ensures var ops := ListRun(rules, guards, g, events);
            Blocklist.ValidOps(guards, ops) && Blocklist.InOrder(ops) && Blocklist.Clock(ops) <= Clock(events)
  {
    hide Guards.Decides;
    if events.Then? {
      ListRunIsValid(rules, guards, g, events.past);
      CounterRunIsValid(rules, guards, g, events.past);
    }
  }

  // ---------- A push holds ----------

  /** While nobody handles the ip by hand, the guard knows of its push however the run goes on. */
  lemma {:induction false} PushIsKnown(rules: seq<Rule>, remotes: seq<bool>, g: nat, past: Run<Event>, hit: Event,
                                       later: Run<Event>, now: int)
    requires Guards.WellConfigured(rules, Blocklist.REFRESH)
    requires g < |remotes| && WellFormed(rules, |remotes|, g, Append(Then(past, hit), later))
    requires Guards.ValidOps(rules, CounterRun(past)) && Pushes(rules, past, hit) && HandsOff(later, hit.ip)
    requires Blocklist.ValidOps(|remotes|, ListRun(rules, |remotes|, g, Append(Then(past, hit), later)))
    ensures var ops := ListRun(rules, |remotes|, g, Append(Then(past, hit), later));
            Blocklist.KnownUntil(remotes, ops, g, hit.ip, now) >=
            Blocklist.Visible(remotes[g], hit.now + rules[hit.rule].blockFor)
  {
    hide Guards.Decides, Blocklist.Visible;
    if later.Then? {
      PushIsKnown(rules, remotes, g, past, hit, later.past, now);
      if later.last.HitEvent? { assert rules[later.last.rule] in rules; }
    } else {
      var expiry := hit.now + rules[hit.rule].blockFor;
      Blocklist.VisibleMonotone(remotes[g], expiry, expiry);
      assert rules[hit.rule] in rules;
    }
  }

  /** A trigger of a blocking rule makes its guard refuse the ip until the block expires, whatever came before, and
      whatever comes after but a block or an unblock of that ip by hand. */
  lemma {:induction false} TriggerIsRefused(rules: seq<Rule>, remotes: seq<bool>, g: nat, past: Run<Event>, hit: Event,
                                            later: Run<Event>, now: int)
    requires Guards.WellConfigured(rules, Blocklist.REFRESH) && g < |remotes|
    requires var events := Append(Then(past, hit), later);
             WellFormed(rules, |remotes|, g, events) && InOrder(events) && Clock(events) <= now
    requires Guards.ValidOps(rules, CounterRun(past)) && Pushes(rules, past, hit) && HandsOff(later, hit.ip)
    requires now < Blocklist.Visible(remotes[g], hit.now + rules[hit.rule].blockFor)
    ensures Blocklist.ValidOps(|remotes|, ListRun(rules, |remotes|, g, Append(Then(past, hit), later)))
    ensures var w := Blocklist.After(remotes, ListRun(rules, |remotes|, g, Append(Then(past, hit), later)));
            Blocklist.Answer(w.store, w.caches[g], hit.ip, now).Some?
  {
    hide Guards.Decides, Blocklist.Visible, Blocklist.After, Blocklist.KnownUntil;
    hide ListRun, InOrder, Guards.WellConfigured;
    var events := Append(Then(past, hit), later);
    ListRunIsValid(rules, |remotes|, g, events);
    PushIsKnown(rules, remotes, g, past, hit, later, now);
    Blocklist.NoGapBeforeKnown(remotes, ListRun(rules, |remotes|, g, events), g, hit.ip, now);
  }

  // ---------- A burst triggers ----------

  lemma {:induction false} CounterRunAppend(a: Run<Event>, b: Run<Event>, r: nat, key: string)
    ensures CounterRun(Append(a, b)) == Append(CounterRun(a), CounterRun(b))
    ensures Guards.Project(CounterRun(Append(a, b)), r, key) ==
            Append(Guards.Project(CounterRun(a), r, key), Guards.Project(CounterRun(b), r, key))
  {
    if b.Then? { CounterRunAppend(a, b.past, r, key); }
  }

  predicate NoneEarlier(events: Run<Event>, from: int) {
    events.Then? ==> NoneEarlier(events.past, from) && At(events.last) >= from
  }

  lemma {:induction false} ProjectionNoneEarlier(events: Run<Event>, from: int, r: nat, key: string)
    requires NoneEarlier(events, from)
    ensures NoneBefore(Guards.Project(CounterRun(events), r, key), from)
  {
    if events.Then? { ProjectionNoneEarlier(events.past, from, r, key); }
  }

  /** A trigger among the projected ticks is a trigger among the events. */
  lemma {:induction false} FindTrigger(rules: seq<Rule>, guards: nat, g: nat, past: Run<Event>, burst: Run<Event>,
                                       r: nat, key: string, from: int)
    returns (front: Run<Event>, hit: Event, rest: Run<Event>)
    requires Guards.PrefixFree(rules) && r < |rules|
    requires WellFormed(rules, guards, g, Append(past, burst)) && NoneEarlier(burst, from)
    requires TriggersWithin(rules[r], Guards.MaxWindow(rules), Guards.Project(CounterRun(past), r, key),
                            Guards.Project(CounterRun(burst), r, key))
    ensures burst == Append(Then(front, hit), rest)
    ensures hit.HitEvent? && hit.rule == r && hit.key == key && hit.now >= from
    ensures Guards.ValidOps(rules, CounterRun(Append(past, front)))
    ensures Guards.Decides(rules, CounterRun(Append(past, front)), Guards.HitOp(r, key, hit.failed, hit.now))
  {
    hide Guards.PrefixFree, Fires, Guards.BucketsAfter, Guards.Decides;
    var e, before := burst.last, burst.past;
    CounterRunIsValid(rules, guards, g, Append(past, before));
    CounterRunAppend(past, before, r, key);
    CounterRunAppend(past, burst, r, key);
    var run := Guards.Project(CounterRun(Append(past, burst)), r, key);
    var mine := e.HitEvent? && e.rule == r && e.key == key;
    if mine && Fires(rules[r], Guards.MaxWindow(rules), run) {
      FiringIsDeciding(rules, guards, g, Append(past, before), e, r, key);
      front, hit, rest := before, e, Start;
    } else {
      SweepsDoNotFire(rules, run);
      front, hit, rest := FindTrigger(rules, guards, g, past, before, r, key, from);
      rest := Then(rest, e);
    }
  }

  lemma SweepsDoNotFire(rules: seq<Rule>, run: Run<Tick>)
    ensures run.Then? && run.last.SweepTick? ==> forall rule, w :: !Fires(rule, w, run)
  {
  }

  lemma {:induction false} FiringIsDeciding(rules: seq<Rule>, guards: nat, g: nat, past: Run<Event>, e: Event, r: nat,
                                            key: string)
    requires Guards.PrefixFree(rules) && r < |rules| && e.HitEvent? && e.rule == r && e.key == key
    requires WellFormed(rules, guards, g, past) && Guards.ValidOps(rules, CounterRun(past))
    requires Fires(rules[r], Guards.MaxWindow(rules), Guards.Project(CounterRun(Then(past, e)), r, key))
    ensures Guards.Decides(rules, CounterRun(past), Guards.HitOp(r, key, e.failed, e.now))
  {
    hide Hit, Guards.PrefixFree, Guards.Apart, Guards.BucketsAfter, BucketAfter;
    Guards.PrefixFreeIsApart(rules);
    Guards.BucketsAreIndependent(rules, CounterRun(past), r, key);
  }

  /**
   From end to end: a burst of hits under one key of a blocking rule, no longer than the rule's window and holding its
   threshold of counted hits, contains a trigger, whatever ips the hits came from; and the guard refuses the ip of
   that trigger, when it has one, at every moment before its block expires, whatever happens afterwards here or at
   other guards, as long as nobody then handles the ip by hand.
   */
  lemma {:induction false} BurstIsRefused(rules: seq<Rule>, remotes: seq<bool>, g: nat, past: Run<Event>,
                                          burst: Run<Event>, later: Run<Event>, r: nat, key: string, from: int,
                                          now: int)
    returns (front: Run<Event>, hit: Event, rest: Run<Event>)
    requires Guards.WellConfigured(rules, Blocklist.REFRESH) && g < |remotes|
    requires r < |rules| && rules[r].action.Block?
    requires var events := Append(Append(past, burst), later);
             WellFormed(rules, |remotes|, g, events) && InOrder(events) && Clock(events) <= now
    requires burst.Then? && burst.last.HitEvent? && burst.last.rule == r && burst.last.key == key
    requires rules[r].failOnly ==> burst.last.failed
    requires NoneEarlier(burst, from) && from >= burst.last.now - rules[r].window
    requires CountHits(rules[r], Guards.Project(CounterRun(burst), r, key)) >= rules[r].threshold
    ensures burst == Append(Then(front, hit), rest)
    ensures hit.HitEvent? && hit.rule == r && hit.key == key && hit.now >= from
    ensures Blocklist.ValidOps(|remotes|, ListRun(rules, |remotes|, g, Append(Append(past, burst), later)))
    ensures var w := Blocklist.After(remotes, ListRun(rules, |remotes|, g, Append(Append(past, burst), later)));
            hit.ip != "" && HandsOff(Append(rest, later), hit.ip) &&
            now < Blocklist.Visible(remotes[g], hit.now + rules[r].blockFor) ==>
              Blocklist.Answer(w.store, w.caches[g], hit.ip, now).Some?
  {
    hide Guards.Decides, Blocklist.Visible, Blocklist.After, ListRun, Guards.PrefixFree, TriggersWithin, BucketAfter;
    var events := Append(Append(past, burst), later);
    PrefixIsWellFormed(rules, |remotes|, g, Append(past, burst), later);
    assert rules[r] in rules;
    var run := CounterRun(Append(past, burst));
    CounterRunIsValid(rules, |remotes|, g, Append(past, burst));
    CounterRunAppend(past, burst, r, key);
    Guards.ProjectInOrder(run, r, key);
    ProjectionNoneEarlier(burst, from, r, key);
    NoneBeforeLater(Guards.Project(CounterRun(burst), r, key), burst.last.now - rules[r].window, from);
    Guards.MaxWindowCovers(rules, r);
    BurstTriggers(rules[r], Guards.MaxWindow(rules), Guards.Project(CounterRun(past), r, key),
                  Guards.Project(CounterRun(burst), r, key));
    front, hit, rest := FindTrigger(rules, |remotes|, g, past, burst, r, key, from);
    Regroup(past, front, hit, rest, later);
    ListRunIsValid(rules, |remotes|, g, events);
    if hit.ip != "" && HandsOff(Append(rest, later), hit.ip) &&
       now < Blocklist.Visible(remotes[g], hit.now + rules[r].blockFor) {
      TriggerIsRefused(rules, remotes, g, Append(past, front), hit, Append(rest, later), now);
    }
  }

  lemma {:induction false} NoneBeforeLater(run: Run<Tick>, cutoff: int, from: int)
    requires NoneBefore(run, from) && cutoff <= from
    ensures NoneBefore(run, cutoff)
  {
    if run.Then? { NoneBeforeLater(run.past, cutoff, from); }
  }

  lemma {:induction false} PrefixIsWellFormed(rules: seq<Rule>, guards: nat, g: nat, a: Run<Event>, b: Run<Event>)
    requires WellFormed(rules, guards, g, Append(a, b)) && InOrder(Append(a, b))
    ensures WellFormed(rules, guards, g, a) && InOrder(a)
  {
    if b.Then? { PrefixIsWellFormed(rules, guards, g, a, b.past); }
  }

  lemma {:induction false} AppendAssociates(a: Run<Event>, b: Run<Event>, c: Run<Event>)
    ensures Append(Append(a, b), c) == Append(a, Append(b, c))
  {
    if c.Then? { AppendAssociates(a, b, c.past); }
  }

  lemma Regroup(past: Run<Event>, front: Run<Event>, hit: Event, rest: Run<Event>, later: Run<Event>)
    ensures Append(Append(past, Append(Then(front, hit), rest)), later) ==
            Append(Then(Append(past, front), hit), Append(rest, later))
  {
    AppendAssociates(past, Then(front, hit), rest);
    AppendAssociates(Then(Append(past, front), hit), rest, later);
  }
}

/**
 The shared blocklist: one table of expiries that only grow, and in every guard a cache of it
 refreshed at most every 30 seconds. Remote guards talk to the table over HTTP, where times are
 printed with whole seconds. Times are nanoseconds since the epoch.
 */
module Blocklist {
  import opened Options
  import opened Runs
  import opened SlidingWindow
  import Guards

  const SECOND := Guards.SECOND
  const REFRESH := 30 * SECOND

  /** One guard's cache; `freshUntil` is when its content must be read again. */
  datatype Cache = Cache(blocked: map<string, int>, freshUntil: int, remote: bool)

  /** An expiry as a guard sees it: a remote one reads and writes whole seconds only. */
  function Visible(remote: bool, expiry: int): int {
    if remote then expiry - expiry % SECOND else expiry
  }

  /** The upsert keeps the later of the stored and the pushed expiry. */
  function Pushed(store: map<string, int>, ip: string, expiry: int): map<string, int> {
    store[ip := if ip in store && store[ip] > expiry then store[ip] else expiry]
  }

  function Refreshed(store: map<string, int>, c: Cache, now: int): Cache {
    c.(blocked := map ip | ip in store && store[ip] > now :: Visible(c.remote, store[ip]),
       freshUntil := now + REFRESH)
  }

  /** A cached entry that has not expired yet. */
  function Cached(c: Cache, ip: string, now: int): Option<int> {
    if ip in c.blocked && now < c.blocked[ip] then Some(c.blocked[ip]) else None
  }

  /** Whether a question about the ip makes the guard read the table again. */
  predicate Rereads(c: Cache, ip: string, now: int) {
    ip != "" && Cached(c, ip, now).None? && c.freshUntil <= now
  }

  function AfterAsk(store: map<string, int>, c: Cache, ip: string, now: int): Cache {
    if Rereads(c, ip, now) then Refreshed(store, c, now) else c
  }

  /** The answer: the expiry of the block, or nothing when the ip may pass. */
  function Answer(store: map<string, int>, c: Cache, ip: string, now: int): Option<int> {
    if ip == "" then None else Cached(AfterAsk(store, c, ip, now), ip, now)
  }

  // ---------- Objects ----------

  /** The shared table. */
  class Table {
    var expires: map<string, int>

    constructor ()
      ensures expires == map[]
    {
      expires := map[];
    }

    method Upsert(ip: string, expiry: int)
      modifies this
      ensures expires == Pushed(old(expires), ip, expiry)
    {
      if ip !in expires || expires[ip] <= expiry {
        expires := expires[ip := expiry];
      } else {
        expires := expires[ip := expires[ip]];
      }
    }
  }

  class BlockCache {
    const table: Table
    const remote: bool
    var blocked: map<string, int>
    var blockedExp: int

    function View(): Cache
      reads this
    {
      Cache(blocked, blockedExp, remote)
    }

    constructor (table: Table, remote: bool)
      ensures this.table == table && View() == Cache(map[], 0, remote)
    {
      this.table := table;
      this.remote := remote;
      blocked := map[];
      blockedExp := 0;
    }

    /** What a triggered rule does to the blocklist. */
    method HandleTrigger(rule: Rule, ip: string, now: int)
      modifies this, table
      ensures rule.action.Block? && ip != "" ==>
                table.expires == Pushed(old(table.expires), ip, Visible(remote, now + rule.blockFor)) &&
                View() == old(View()).(blocked := old(blocked)[ip := now + rule.blockFor])
      ensures !(rule.action.Block? && ip != "") ==> table.expires == old(table.expires) && View() == old(View())
    {
      if rule.action.Block? && ip != "" {
        BlockIp(ip, rule.blockFor, now);
      }
    }

    method BlockIp(ip: string, blockFor: int, now: int)
      modifies this, table
      ensures table.expires == Pushed(old(table.expires), ip, Visible(remote, now + blockFor))
      ensures View() == old(View()).(blocked := old(blocked)[ip := now + blockFor])
    {
      var expires := now + blockFor;
      table.Upsert(ip, Visible(remote, expires));
      blocked := blocked[ip := expires];
    }

    method IsBlocked(ip: string, now: int) returns (until: Option<int>)
      modifies this
      ensures until == Answer(table.expires, old(View()), ip, now)
      ensures View() == AfterAsk(table.expires, old(View()), ip, now)
      ensures ip == "" ==> until == None && View() == old(View())
    {
      if ip == "" {
        return None;
      }
      if ip in blocked && now < blocked[ip] {
        return Some(blocked[ip]);
      }
      if now < blockedExp {
        return None;
      }
      RefreshBlocked(now);
      if ip in blocked && now < blocked[ip] {
        return Some(blocked[ip]);
      }
      return None;
    }

    method RefreshBlocked(now: int)
      modifies this
      ensures View() == Refreshed(table.expires, old(View()), now)
      ensures forall ip :: ip in blocked <==> ip in table.expires && table.expires[ip] > now
      ensures forall ip :: ip in blocked ==> blocked[ip] == Visible(remote, table.expires[ip])
      ensures blockedExp == now + 30 * SECOND
    {
      var next := map ip | ip in table.expires && table.expires[ip] > now :: Visible(remote, table.expires[ip]);
      blocked := next;
      blockedExp := now + REFRESH;
    }

    /** The janitor forces the next question to read the table again. */
    method Forget()
      modifies this
      ensures View() == old(View()).(freshUntil := 0)
    {
      blockedExp := 0;
    }

    method Unblock(ip: string)
      modifies this, table
      ensures table.expires == old(table.expires) - {ip}
      ensures View() == old(View()).(blocked := old(blocked) - {ip})
    {
      table.expires := table.expires - {ip};
      blocked := blocked - {ip};
    }

    /** An administrator's block replaces the stored expiry, earlier or later. */
    method BlockManual(ip: string, duration: int, now: int)
      modifies this, table
      ensures table.expires == old(table.expires)[ip := now + duration]
      ensures View() == old(View()).(blocked := old(blocked)[ip := now + duration])
    {
      var expires := now + duration;
      table.expires := table.expires[ip := expires];
      blocked := blocked[ip := expires];
    }
  }

  // ---------- Runs of several guards over one table ----------

  datatype World = World(store: map<string, int>, caches: seq<Cache>)

  datatype Op =
    | BlockOp(g: nat, ip: string, blockFor: int, now: int)
    | AskOp(g: nat, ip: string, now: int)
    | ForgetOp(g: nat, now: int)
    | UnblockOp(g: nat, ip: string, now: int)
    | ManualOp(g: nat, ip: string, duration: int, now: int)

  function StepCache(store: map<string, int>, c: Cache, op: Op): Cache {
    match op
    case BlockOp(_, ip, blockFor, now) => c.(blocked := c.blocked[ip := now + blockFor])
    case AskOp(_, ip, now) => AfterAsk(store, c, ip, now)
    case ForgetOp(_, _) => c.(freshUntil := 0)
    case UnblockOp(_, ip, _) => c.(blocked := c.blocked - {ip})
    case ManualOp(_, ip, duration, now) => c.(blocked := c.blocked[ip := now + duration])
  }

  function StepStore(store: map<string, int>, remote: bool, op: Op): map<string, int> {
    match op
    case BlockOp(_, ip, blockFor, now) => Pushed(store, ip, Visible(remote, now + blockFor))
    case AskOp(_, _, _) => store
    case ForgetOp(_, _) => store
    case UnblockOp(_, ip, _) => store - {ip}
    case ManualOp(_, ip, duration, now) => store[ip := now + duration]
  }

  function Step(w: World, op: Op): World
    requires op.g < |w.caches|
  {
    World(StepStore(w.store, w.caches[op.g].remote, op),
          w.caches[op.g := StepCache(w.store, w.caches[op.g], op)])
  }

  predicate ValidOps(n: nat, ops: Run<Op>) {
    ops.Then? ==> ops.last.g < n && ValidOps(n, ops.past)
  }

  /** Every guard starts with an empty cache that is already stale. */
  function After(remotes: seq<bool>, ops: Run<Op>): (w: World)
    requires ValidOps(|remotes|, ops)
    ensures |w.caches| == |remotes| && forall i :: 0 <= i < |remotes| ==> w.caches[i].remote == remotes[i]
  {
    match ops
    case Start => World(map[], seq(|remotes|, i requires 0 <= i < |remotes| => Cache(map[], 0, remotes[i])))
    case Then(past, op) => Step(After(remotes, past), op)
  }

  function Clock(ops: Run<Op>): int {
    if ops.Start? then 0 else ops.last.now
  }

  predicate InOrder(ops: Run<Op>) {
    ops.Then? ==> InOrder(ops.past) && Clock(ops.past) <= ops.last.now
  }

  /** Nobody handles the ip by hand, and guard `g` never blocks it for less than one refresh period. */
  predicate Trusted(ops: Run<Op>, g: nat, ip: string) {
    ops.Then? ==>
      && Trusted(ops.past, g, ip)
      && (ops.last.BlockOp? && ops.last.g == g && ops.last.ip == ip ==> ops.last.blockFor >= REFRESH)
      && !ByHand(ops.last, ip)
  }

  predicate ByHand(op: Op, ip: string) {
    (op.UnblockOp? || op.ManualOp?) && op.ip == ip
  }

  predicate Blocks(op: Op, ip: string) {
    op.BlockOp? && op.ip == ip
  }

  // ---------- What a guard must know ----------

  function Max(a: int, b: int): int {
    if a >= b then a else b
  }

  /** What one step makes of the expiry a guard must know of by `now`, as it sees it. */
  function KnownNext(remote: bool, own: bool, writer: bool, op: Op, ip: string, known: int, now: int): int {
    var due := own || op.now + REFRESH <= now;
    if Blocks(op, ip) && due then
      var expiry := Visible(remote, Visible(writer, op.now + op.blockFor));
      if own && op.blockFor < REFRESH then expiry else Max(known, expiry)
    else if ByHand(op, ip) then
      if op.ManualOp? && due then Visible(remote, op.now + op.duration) else 0
    else known
  }

  /**
   The latest expiry that guard `g` must know of by `now`: every block it pushed itself, however recent, and every
   block another guard pushed at least one refresh period ago. It starts anew when somebody handles the ip by hand,
   or when the guard itself blocks it for less than one refresh period. Zero when there is none.
   */
  function KnownUntil(remotes: seq<bool>, ops: Run<Op>, g: nat, ip: string, now: int): int
    requires ValidOps(|remotes|, ops) && g < |remotes|
  {
    match ops
    case Start => 0
    case Then(past, op) =>
      KnownNext(remotes[g], op.g == g, remotes[op.g], op, ip, KnownUntil(remotes, past, g, ip, now), now)
  }

  /** The table holds at least `known`, and the cache will show it by `now`. */
  predicate Knows(store: map<string, int>, c: Cache, ip: string, known: int, clock: int, now: int) {
    || known <= clock
    || (ip in store && Visible(c.remote, store[ip]) >= known &&
        (c.freshUntil <= now || (ip in c.blocked && (c.blocked[ip] >= known || c.freshUntil <= c.blocked[ip]))))
  }

  /** A cache is read again at most one refresh period from now. */
  predicate Timely(c: Cache, clock: int) {
    0 <= clock && c.freshUntil <= clock + REFRESH
  }

  /** How far a cached expiry may exceed the stored one. */
  function Slack(remote: bool): nat {
    if remote then SECOND - 1 else 0
  }

  lemma VisibleBounds(remote: bool, t: int)
    ensures t - Slack(remote) <= Visible(remote, t) <= t
    ensures t >= 0 ==> Visible(remote, t) >= 0
    ensures remote ==> Visible(remote, t) % 1_000_000_000 == 0
  {
  }

  lemma VisibleMonotone(remote: bool, a: int, b: int)
    requires a <= b
    ensures Visible(remote, a) <= Visible(remote, b)
    ensures Visible(remote, Visible(remote, a)) == Visible(remote, a)
  {
  }

  lemma OwnStepKnows(store: map<string, int>, c: Cache, op: Op, ip: string, known: int, clock: int, now: int)
    requires Knows(store, c, ip, known, clock, now) && Timely(c, clock) && clock <= op.now <= now
    ensures Timely(StepCache(store, c, op), op.now)
    ensures Knows(StepStore(store, c.remote, op), StepCache(store, c, op), ip,
                  KnownNext(c.remote, true, c.remote, op, ip, known, now), op.now, now)
  {
    if Blocks(op, ip) {
      OwnBlockKnows(store, c, op, ip, known, clock, now);
    } else if ByHand(op, ip) {
      if op.ManualOp? { VisibleBounds(c.remote, op.now + op.duration); }
    } else if op.AskOp? {
      ReadingKnows(store, c, op, ip, known, clock, now);
    }
    hide Visible;
  }

  lemma ReadingKnows(store: map<string, int>, c: Cache, op: Op, ip: string, known: int, clock: int, now: int)
    requires Knows(store, c, ip, known, clock, now) && clock <= op.now <= now && op.AskOp?
    ensures Knows(store, AfterAsk(store, c, op.ip, op.now), ip, known, op.now, now)
  {
    if ip in store { VisibleBounds(c.remote, store[ip]); }
    hide Visible, Rereads;
  }

  lemma {:induction false} OwnBlockKnows(store: map<string, int>, c: Cache, op: Op, ip: string, known: int, clock: int,
                                         now: int)
    requires Knows(store, c, ip, known, clock, now) && Timely(c, clock) && clock <= op.now <= now && Blocks(op, ip)
    ensures Knows(StepStore(store, c.remote, op), StepCache(store, c, op), ip,
                  KnownNext(c.remote, true, c.remote, op, ip, known, now), op.now, now)
  {
    var expiry := op.now + op.blockFor;
    VisibleBounds(c.remote, expiry);
    VisibleMonotone(c.remote, expiry, expiry);
    PushedShows(store, c.remote, ip, Visible(c.remote, expiry));
    hide Visible;
  }

  /** The upsert shows every guard at least what was there and what was pushed. */
  lemma {:induction false} PushedShows(store: map<string, int>, remote: bool, ip: string, pushed: int)
    ensures var next := Pushed(store, ip, pushed);
            && Visible(remote, next[ip]) >= Visible(remote, pushed)
            && (ip in store ==> Visible(remote, next[ip]) >= Visible(remote, store[ip]))
  {
    if ip in store {
      if store[ip] > pushed { VisibleMonotone(remote, pushed, store[ip]); }
      else { VisibleMonotone(remote, store[ip], pushed); }
    }
  }

  lemma {:induction false} ForeignStepKnows(store: map<string, int>, writer: bool, c: Cache, op: Op, ip: string,
                                            known: int, clock: int, now: int)
    requires Knows(store, c, ip, known, clock, now) && Timely(c, clock) && clock <= op.now <= now
    ensures Knows(StepStore(store, writer, op), c, ip, KnownNext(c.remote, false, writer, op, ip, known, now), op.now,
                  now)
  {
    if Blocks(op, ip) { PushedShows(store, c.remote, ip, Visible(writer, op.now + op.blockFor)); }
    hide Visible;
  }

  lemma {:induction false} RunKnows(remotes: seq<bool>, ops: Run<Op>, g: nat, ip: string, now: int)
    requires ValidOps(|remotes|, ops) && InOrder(ops) && g < |remotes| && Clock(ops) <= now
    ensures var c := After(remotes, ops).caches[g];
            && Timely(c, Clock(ops))
            && Knows(After(remotes, ops).store, c, ip, KnownUntil(remotes, ops, g, ip, now), Clock(ops), now)
  {
    hide Knows, Visible, StepStore, StepCache;
    if ops.Then? {
      RunKnows(remotes, ops.past, g, ip, now);
      var w, op := After(remotes, ops.past), ops.last;
      var known := KnownUntil(remotes, ops.past, g, ip, now);
      if op.g == g {
        OwnStepKnows(w.store, w.caches[g], op, ip, known, Clock(ops.past), now);
      } else {
        ForeignStepKnows(w.store, w.caches[op.g].remote, w.caches[g], op, ip, known, Clock(ops.past), now);
      }
    } else {
      NothingKnown(remotes[g], ip, now);
    }
  }

  lemma {:induction false} NothingKnown(remote: bool, ip: string, now: int)
    ensures Knows(map[], Cache(map[], 0, remote), ip, 0, 0, now)
  {
  }

  // ---------- What the runs guarantee ----------

  /**
   No gap: in every run whatsoever a guard refuses an ip at every moment before any expiry it pushed itself,
   whoever else pushes in the meantime, and before any expiry another guard pushed at least one refresh period ago,
   reckoned from the last time somebody handled the ip by hand.
   */
  lemma {:induction false} NoGapBeforeKnown(remotes: seq<bool>, ops: Run<Op>, g: nat, ip: string, now: int)
    requires ValidOps(|remotes|, ops) && InOrder(ops) && g < |remotes| && ip != "" && Clock(ops) <= now
    ensures var w := After(remotes, ops);
            now < KnownUntil(remotes, ops, g, ip, now) ==> Answer(w.store, w.caches[g], ip, now).Some?
  {
    hide After, ValidOps, InOrder, KnownUntil;
    RunKnows(remotes, ops, g, ip, now);
    var w := After(remotes, ops);
    if ip in w.store { VisibleBounds(remotes[g], w.store[ip]); }
    hide Visible;
  }

  /**
   The block a guard pushes at any point of a run holds from then on, at that guard, until it expires, as long as
   nobody handles the ip by hand afterwards and the guard does not itself shorten it.
   */
  lemma {:induction false} OwnBlockHolds(remotes: seq<bool>, past: Run<Op>, push: Op, later: Run<Op>,
                                         ip: string, now: int)
    requires push.BlockOp? && push.ip == ip != "" && push.g < |remotes|
    requires var ops := Append(Then(past, push), later);
             ValidOps(|remotes|, ops) && InOrder(ops) && Clock(ops) <= now
    requires Trusted(later, push.g, ip)
    requires now < Visible(remotes[push.g], push.now + push.blockFor)
    ensures var w := After(remotes, Append(Then(past, push), later));
            Answer(w.store, w.caches[push.g], ip, now).Some?
  {
    hide After, Trusted, InOrder, Answer, Append, KnownUntil;
    KnownSincePush(remotes, past, push, later, push.g, now);
    VisibleMonotone(remotes[push.g], push.now + push.blockFor, push.now + push.blockFor);
    NoGapBeforeKnown(remotes, Append(Then(past, push), later), push.g, ip, now);
  }

  /** A push that a guard must know of stays below what it knows while nobody interferes. */
  lemma {:induction false} KnownSincePush(remotes: seq<bool>, past: Run<Op>, push: Op, later: Run<Op>, g: nat, now: int)
    requires g < |remotes| && push.BlockOp? && ValidOps(|remotes|, Append(Then(past, push), later))
    requires push.g == g || push.now + REFRESH <= now
    requires Trusted(later, g, push.ip)
    ensures push.g < |remotes|
    ensures KnownUntil(remotes, Append(Then(past, push), later), g, push.ip, now) >=
            Visible(remotes[g], Visible(remotes[push.g], push.now + push.blockFor))
  {
    hide Visible;
    if later.Then? { KnownSincePush(remotes, past, push, later.past, g, now); }
  }

  /** The entry of an ip over a run: the latest push since somebody last handled it by hand. */
  function Pushes(remotes: seq<bool>, ops: Run<Op>, ip: string): Option<int>
    requires ValidOps(|remotes|, ops)
  {
    match ops
    case Start => None
    case Then(past, op) =>
      var latest := Pushes(remotes, past, ip);
      if Blocks(op, ip) then
        var expiry := Visible(remotes[op.g], op.now + op.blockFor);
        Some(if latest.Some? then Max(latest.value, expiry) else expiry)
      else if ByHand(op, ip) then if op.ManualOp? then Some(op.now + op.duration) else None
      else latest
  }

  lemma {:induction false} TableHoldsTheLatestPush(remotes: seq<bool>, ops: Run<Op>, ip: string)
    requires ValidOps(|remotes|, ops)
    ensures var store := After(remotes, ops).store;
            Pushes(remotes, ops, ip) == if ip in store then Some(store[ip]) else None
  {
    hide Visible, StepCache;
    if ops.Then? { TableHoldsTheLatestPush(remotes, ops.past, ip); }
  }

  /** Since somebody last handled the ip by hand, whatever others wrote is a refresh period old, and the guard's own
      blocks last that long. */
  predicate Settled(ops: Run<Op>, g: nat, ip: string, now: int) {
    match ops
    case Start => true
    case Then(past, op) =>
      var due := op.g == g || op.now + REFRESH <= now;
      if Blocks(op, ip) then due && (op.g == g ==> op.blockFor >= REFRESH) && Settled(past, g, ip, now)
      else if ByHand(op, ip) then op.ManualOp? ==> due
      else Settled(past, g, ip, now)
  }

  lemma {:induction false} AllIsKnown(remotes: seq<bool>, ops: Run<Op>, g: nat, ip: string, now: int)
    requires ValidOps(|remotes|, ops) && g < |remotes| && Settled(ops, g, ip, now)
    ensures Pushes(remotes, ops, ip).Some? ==>
              Visible(remotes[g], Pushes(remotes, ops, ip).value) <= KnownUntil(remotes, ops, g, ip, now)
  {
    hide Visible;
    if ops.Then? && !ByHand(ops.last, ip) { AllIsKnown(remotes, ops.past, g, ip, now); }
  }

  /**
   In particular a guard refuses an ip at every moment before the expiry the table shows it, unless another guard
   wrote that expiry less than one refresh period ago, or the guard itself blocked the ip for less than one.
   */
  lemma {:induction false} NoGapInBlocking(remotes: seq<bool>, ops: Run<Op>, g: nat, ip: string, now: int)
    requires ValidOps(|remotes|, ops) && InOrder(ops) && g < |remotes| && ip != "" && Clock(ops) <= now
    requires Settled(ops, g, ip, now)
    ensures var w := After(remotes, ops);
            ip in w.store && now < Visible(remotes[g], w.store[ip]) ==>
              Answer(w.store, w.caches[g], ip, now).Some?
  {
    hide Visible, Answer, KnownUntil, Pushes;
    TableHoldsTheLatestPush(remotes, ops, ip);
    AllIsKnown(remotes, ops, g, ip, now);
    NoGapBeforeKnown(remotes, ops, g, ip, now);
  }
}

/**
 How far the caches of the blocklist can be trusted: what a refusal rests on, when a blocked ip passes, and how long
 an unblock takes to reach the other guards.
 */
module BlockLimits {
  import opened Options
  import opened Runs
  import opened Blocklist
  import Guards

  // ---------- Refusals are founded ----------

  /** Somebody handled the ip by hand at another guard, and this one has neither read the table again since nor
      been told itself. */
  predicate Misled(remotes: seq<bool>, ops: Run<Op>, g: nat, ip: string)
    requires ValidOps(|remotes|, ops) && g < |remotes|
  {
    match ops
    case Start => false
    case Then(past, op) =>
      if ByHand(op, ip) then op.g != g
      else if op.g == g && op.AskOp? && Rereads(After(remotes, past).caches[g], op.ip, op.now) then false
      else Misled(remotes, past, g, ip)
  }

  /** Handling the ip by hand misleads exactly the other guards, and reading the table puts that right. */
  lemma MisledUntilRead(remotes: seq<bool>, ops: Run<Op>, g: nat, ip: string, op: Op)
    requires ValidOps(|remotes|, ops) && g < |remotes| && op.g < |remotes|
    ensures ByHand(op, ip) ==> (Misled(remotes, Then(ops, op), g, ip) <==> op.g != g)
    ensures op.AskOp? && op.g == g && Rereads(After(remotes, ops).caches[g], op.ip, op.now) ==>
              !Misled(remotes, Then(ops, op), g, ip)
  {
  }

  predicate Founded(store: map<string, int>, c: Cache, ip: string) {
    ip in c.blocked ==> ip in store && c.blocked[ip] <= store[ip] + Slack(c.remote)
  }

  lemma {:induction false} RunFounded(remotes: seq<bool>, ops: Run<Op>, g: nat, ip: string)
    requires ValidOps(|remotes|, ops) && g < |remotes|
    ensures var w := After(remotes, ops); !Misled(remotes, ops, g, ip) ==> Founded(w.store, w.caches[g], ip)
  {
    if ops.Then? {
      var w, op := After(remotes, ops.past), ops.last;
      RunFounded(remotes, ops.past, g, ip);
      if ip in w.store { VisibleBounds(remotes[g], w.store[ip]); }
      if op.BlockOp? { VisibleBounds(remotes[g], op.now + op.blockFor); }
      hide Visible, ValidOps;
    }
  }

  /** A refusal is founded in the table, up to the seconds lost in printing, unless the guard has yet to notice what
      was done by hand elsewhere. */
  lemma {:induction false} RefusalIsFounded(remotes: seq<bool>, ops: Run<Op>, g: nat, ip: string, now: int)
    requires ValidOps(|remotes|, ops) && g < |remotes|
    ensures var w := After(remotes, ops);
            !Misled(remotes, ops, g, ip) && Answer(w.store, w.caches[g], ip, now).Some? ==>
              ip in w.store && now < w.store[ip] + Slack(remotes[g])
  {
    RunFounded(remotes, ops, g, ip);
    var w := After(remotes, ops);
    hide After, ValidOps, Misled;
    if ip in w.store { VisibleBounds(remotes[g], w.store[ip]); }
    hide Visible;
  }

  /**
   The guard holding the table itself refuses an ip at least until the latest expiry it must know of, and, unless it
   is misled, only while the table blocks it; with nothing written elsewhere in the last refresh period, exactly while
   the table does.
   */
  lemma {:induction false} LocalGuardFollowsTheTable(remotes: seq<bool>, ops: Run<Op>, g: nat, ip: string, now: int)
    requires ValidOps(|remotes|, ops) && InOrder(ops) && g < |remotes| && !remotes[g]
    requires ip != "" && Clock(ops) <= now
    ensures var w := After(remotes, ops);
            var refused := Answer(w.store, w.caches[g], ip, now).Some?;
            && (now < KnownUntil(remotes, ops, g, ip, now) ==> refused)
            && (!Misled(remotes, ops, g, ip) && refused ==> ip in w.store && now < w.store[ip])
            && (!Misled(remotes, ops, g, ip) && Settled(ops, g, ip, now) ==>
                  (refused <==> ip in w.store && now < w.store[ip]))
  {
    hide Misled, Settled, After, KnownUntil, Answer;
    var w := After(remotes, ops);
    NoGapBeforeKnown(remotes, ops, g, ip, now);
    if Settled(ops, g, ip, now) { NoGapInBlocking(remotes, ops, g, ip, now); }
    RefusalIsFounded(remotes, ops, g, ip, now);
  }

  // ---------- Where the guarantee ends ----------

  /**
   With no bound on foreign blocks the guarantee fails exactly here: the cache is still fresh
   and its own entry is missing or expired, so the table is not read.
   */
  lemma {:induction false} GapExactly(remotes: seq<bool>, ops: Run<Op>, g: nat, ip: string, now: int)
    requires ValidOps(|remotes|, ops) && g < |remotes| && ip != ""
    ensures var w := After(remotes, ops);
            ip in w.store && now < Visible(remotes[g], w.store[ip]) ==>
              (Answer(w.store, w.caches[g], ip, now).None? <==>
                 now < w.caches[g].freshUntil && Cached(w.caches[g], ip, now).None?)
  {
    var w := After(remotes, ops);
    if ip in w.store { VisibleBounds(remotes[g], w.store[ip]); }
    hide Visible;
  }

  /**
   Such a run with two guards that read the table over HTTP: guard 0 reads it at 100 s on another question, guard 1
   blocks the ip for 15 minutes at 101 s, and at 102 s guard 0 lets the ip pass.
   */
  lemma TwoGuardsLeaveAGap()
    ensures var ops := Then(Then(Start, AskOp(0, "b", 100 * SECOND)),
                            BlockOp(1, "a", 15 * Guards.MINUTE, 101 * SECOND));
            && InOrder(ops) && Trusted(ops, 0, "a") && Trusted(ops, 1, "a") && ValidOps(2, ops)
            && (var w := After([true, true], ops);
                && w.store == map["a" := 101 * SECOND + 15 * Guards.MINUTE]
                && Answer(w.store, w.caches[0], "a", 102 * SECOND).None?)
  {
    var remotes := [true, true];
    var none: Run<Op> := Start;
    var one := Then(none, AskOp(0, "b", 100 * SECOND));
    assert Clock(none) == 0 && InOrder(none) && InOrder(one) && ValidOps(2, one);
    assert Trusted(none, 0, "a") && Trusted(none, 1, "a") && Trusted(one, 0, "a") && Trusted(one, 1, "a");
    assert After(remotes, one).store == map[];
    assert After(remotes, one).caches[0] == Cache(map[], 130 * SECOND, true);
    assert Visible(true, 101 * SECOND + 15 * Guards.MINUTE) == 101 * SECOND + 15 * Guards.MINUTE;
  }

  /** After a janitor's sweep the next question about an ip without a live entry is answered by the table. */
  lemma ForgetRereads(remotes: seq<bool>, ops: Run<Op>, g: nat, ip: string, swept: int, now: int)
    requires ValidOps(|remotes|, ops) && g < |remotes| && ip != "" && now >= 0
    ensures var was := After(remotes, ops).caches[g];
            var w := After(remotes, Then(ops, ForgetOp(g, swept)));
            Answer(w.store, w.caches[g], ip, now) ==
              if Cached(was, ip, now).Some? then Cached(was, ip, now)
              else if ip in w.store && now < w.store[ip] && now < Visible(remotes[g], w.store[ip])
              then Some(Visible(remotes[g], w.store[ip])) else None
  {
    hide Visible;
  }

  /** Once 30 seconds have passed since the last event, a guard whose own rules block for that long is settled about
      every ip. */
  lemma {:induction false} QuietIsSettled(ops: Run<Op>, g: nat, ip: string, now: int)
    requires InOrder(ops) && Clock(ops) + REFRESH <= now && LongBlocks(ops, g)
    ensures Settled(ops, g, ip, now)
  {
    if ops.Then? { QuietIsSettled(ops.past, g, ip, now); }
  }

  predicate LongBlocks(ops: Run<Op>, g: nat) {
    ops.Then? ==>
      LongBlocks(ops.past, g) && (ops.last.BlockOp? && ops.last.g == g ==> ops.last.blockFor >= REFRESH)
  }

  // ---------- After an unblock ----------

  /** Nobody blocks the ip again, by a rule or by hand. */
  predicate LeftAlone(ops: Run<Op>, ip: string) {
    ops.Then? ==> LeftAlone(ops.past, ip) && (ops.last.BlockOp? || ops.last.ManualOp? ==> ops.last.ip != ip)
  }

  /** Whether the guard read the table again, or was itself told to unblock the ip, during `later`. */
  predicate Noticed(remotes: seq<bool>, before: Run<Op>, later: Run<Op>, g: nat, ip: string)
    requires ValidOps(|remotes|, Append(before, later)) && g < |remotes|
  {
    later.Then? &&
    (Noticed(remotes, before, later.past, g, ip) ||
     (later.last.g == g &&
      match later.last
      case AskOp(_, x, t) => Rereads(After(remotes, Append(before, later.past)).caches[g], x, t)
      case UnblockOp(_, x, _) => x == ip
      case _ => false))
  }

  lemma {:induction false} UnblockedEntry(remotes: seq<bool>, before: Run<Op>, later: Run<Op>, g: nat, ip: string)
    requires ValidOps(|remotes|, Append(before, later)) && ValidOps(|remotes|, before) && g < |remotes|
    requires ip !in After(remotes, before).store && LeftAlone(later, ip)
    ensures var c, d := After(remotes, before).caches[g], After(remotes, Append(before, later)).caches[g];
            && ip !in After(remotes, Append(before, later)).store
            && (ip in d.blocked <==> ip in c.blocked && !Noticed(remotes, before, later, g, ip))
            && (ip in d.blocked ==> d.blocked[ip] == c.blocked[ip])
  {
    hide Visible;
    if later.Then? { UnblockedEntry(remotes, before, later.past, g, ip); }
  }

  /**
   After an unblock at one guard, and while nobody blocks the ip again, another guard goes on refusing it exactly
   until its own cached entry expires or it reads the table again for whatever reason.
   */
  lemma {:induction false} UnblockReachesOthersExactly(remotes: seq<bool>, past: Run<Op>, unblock: Op, later: Run<Op>,
                                                       g: nat, ip: string, now: int)
    requires unblock.UnblockOp? && unblock.ip == ip != "" && g < |remotes| && unblock.g != g
    requires ValidOps(|remotes|, Append(Then(past, unblock), later)) && ValidOps(|remotes|, Then(past, unblock))
    requires LeftAlone(later, ip)
    ensures var before := Then(past, unblock);
            var c := After(remotes, past).caches[g];
            var w := After(remotes, Append(before, later));
            Answer(w.store, w.caches[g], ip, now).Some? <==>
              Cached(c, ip, now).Some? && !Noticed(remotes, before, later, g, ip)
  {
    hide Visible, Noticed, LeftAlone;
    UnblockedEntry(remotes, Then(past, unblock), later, g, ip);
  }
}

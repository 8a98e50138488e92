/**
 The cart as two replicas: after every change the client sends one absolute PUT per line and one
 DELETE per key that vanished since the last round, without waiting for answers. The network may
 reorder and repeat them.
 */
module CartSync {
  import opened Options
  import opened Cart

  /** The server's rows, by line; a product without variation is its own row. */
  type Table = map<Line, int>

  datatype Msg =
    | Put(line: Line, quantity: int)
    | Delete(line: Line)

  /** A PUT replaces the quantity and refuses a non-positive one; a DELETE of nothing is fine. */
  function Handle(server: Table, m: Msg): Table {
    match m
    case Put(line, quantity) => if quantity <= 0 then server else server[line := quantity]
    case Delete(line) => server - {line}
  }

  function HandleAll(server: Table, ms: seq<Msg>): Table {
    if ms == [] then server else Handle(HandleAll(server, ms[..|ms| - 1]), ms[|ms| - 1])
  }

  class CartTable {
    var rows: Table

    method UpsertCartItem(line: Line, quantity: int) returns (ok: bool)
      modifies this
      ensures ok == (quantity > 0) && rows == Handle(old(rows), Put(line, quantity))
    {
      if quantity <= 0 {
        return false;
      }
      rows := rows[line := quantity];
      return true;
    }

    method RemoveCartItem(line: Line)
      modifies this
      ensures rows == Handle(old(rows), Delete(line))
    {
      rows := rows - {line};
    }

    /** One statement that does what deleting each of the lines would, in any order and any number of times. */
    method ClearCart()
      modifies this
      ensures rows == map[]
      ensures forall ms :: Sent(ms) == (set line | line in old(rows) :: Delete(line)) ==>
                HandleAll(old(rows), ms) == rows
    {
      ghost var before := rows;
      forall ms | Sent(ms) == set line | line in before :: Delete(line) ensures HandleAll(before, ms) == map[] {
        ClearingIsDeletingEveryLine(before, ms);
      }
      rows := map[];
    }
  }

  // ---------- The client's side of one round ----------

  function Keys(cart: seq<Item>): set<string> {
    set i | 0 <= i < |cart| :: Key(cart[i].line)
  }

  function Lines(cart: seq<Item>): set<Line> {
    set i | 0 <= i < |cart| :: cart[i].line
  }

  /** Everything one round sends, as a set: the order of sending does not matter. */
  function Round(prevKeys: set<string>, cart: seq<Item>): set<Msg> {
    (set i | 0 <= i < |cart| :: Put(cart[i].line, cart[i].quantity)) +
    (set k | k in prevKeys && k !in Keys(cart) :: Delete(UnKey(k)))
  }

  function Sent(ms: seq<Msg>): set<Msg> {
    set i | 0 <= i < |ms| :: ms[i]
  }

  class SyncEffect {
    var synced: bool
    var prevKeys: set<string>

    constructor ()
      ensures !synced && prevKeys == {}
    {
      synced, prevKeys := false, {};
    }

    /** The effect that runs on every change of the cart or of the login state. */
    method Run(loggedIn: bool, cart: seq<Item>) returns (ms: seq<Msg>)
      modifies this
      ensures !loggedIn ==> ms == [] && synced == old(synced) && prevKeys == old(prevKeys)
      ensures loggedIn ==> synced
      ensures loggedIn && !old(synced) ==> ms == [] && prevKeys == old(prevKeys)
      ensures loggedIn && old(synced) ==> Sent(ms) == Round(old(prevKeys), cart) && prevKeys == Keys(cart)
    {
      ms := [];
      if !loggedIn {
        return;
      }
      if !synced {
        synced := true;
        return;
      }
      var currentIds: set<string> := {};
      for i := 0 to |cart|
        invariant synced && prevKeys == old(prevKeys)
        invariant currentIds == Keys(cart[..i])
        invariant Sent(ms) == set j | 0 <= j < i :: Put(cart[j].line, cart[j].quantity)
      {
        KeysGrow(cart, i);
        SentGrows(ms, Put(cart[i].line, cart[i].quantity));
        currentIds := currentIds + {Key(cart[i].line)};
        ms := ms + [Put(cart[i].line, cart[i].quantity)];
      }
      assert cart[..|cart|] == cart;
      ghost var puts := Sent(ms);
      var todo := prevKeys;
      while todo != {}
        invariant synced && prevKeys == old(prevKeys) && todo <= prevKeys
        invariant Sent(ms) == puts + set k | k in prevKeys && k !in todo && k !in currentIds :: Delete(UnKey(k))
        decreases |todo|
      {
        var k :| k in todo;
        ghost var before := set p | p in prevKeys && p !in todo && p !in currentIds :: Delete(UnKey(p));
        ghost var after := set p | p in prevKeys && p !in todo - {k} && p !in currentIds :: Delete(UnKey(p));
        if k !in currentIds {
          SentGrows(ms, Delete(UnKey(k)));
          ms := ms + [Delete(UnKey(k))];
          assert after == before + {Delete(UnKey(k))};
        } else {
          assert after == before;
        }
        todo := todo - {k};
      }
      prevKeys := currentIds;
    }
  }

  lemma KeysGrow(cart: seq<Item>, i: nat)
    requires i < |cart|
    ensures Keys(cart[..i + 1]) == Keys(cart[..i]) + {Key(cart[i].line)}
  {
    var a, b := cart[..i], cart[..i + 1];
    forall k | k in Keys(a) ensures k in Keys(b) {
      var j :| 0 <= j < |a| && Key(a[j].line) == k;
      assert b[j] == a[j];
    }
    forall k | k in Keys(b) ensures k in Keys(a) || k == Key(cart[i].line) {
      var j :| 0 <= j < |b| && Key(b[j].line) == k;
      if j < i { assert a[j] == b[j]; }
    }
    assert b[i] == cart[i];
  }

  lemma SentGrows(ms: seq<Msg>, m: Msg)
    ensures Sent(ms + [m]) == Sent(ms) + {m}
  {
    forall x | x in Sent(ms) ensures x in Sent(ms + [m]) {
      var j :| 0 <= j < |ms| && ms[j] == x;
      assert (ms + [m])[j] == x;
    }
    assert (ms + [m])[|ms|] == m;
  }

  // ---------- The last delivered word wins ----------

  /** The last delivered message about a line, refused ones aside. */
  function LastAbout(ms: seq<Msg>, line: Line): Option<Msg> {
    if ms == [] then None
    else
      var m := ms[|ms| - 1];
      if m.line == line && (m.Put? ==> m.quantity > 0) then Some(m) else LastAbout(ms[..|ms| - 1], line)
  }

  function Row(server: Table, line: Line): Option<int> {
    if line in server then Some(server[line]) else None
  }

  /** Whatever the order of delivery, each row is what the last message about it says. */
  lemma {:induction false} LastMessageWins(server: Table, ms: seq<Msg>, line: Line)
    ensures Row(HandleAll(server, ms), line)
         == match LastAbout(ms, line)
            case None => Row(server, line)
            case Some(Put(_, quantity)) => Some(quantity)
            case Some(Delete(_)) => None
  {
    if ms != [] { LastMessageWins(server, ms[..|ms| - 1], line); }
  }

  lemma {:induction false} LastAboutIsSent(ms: seq<Msg>, line: Line)
    ensures match LastAbout(ms, line)
            case Some(m) => m in Sent(ms) && m.line == line && (m.Put? ==> m.quantity > 0)
            case None => forall m <- Sent(ms) :: m.line == line ==> m.Put? && m.quantity <= 0
  {
    if ms != [] {
      var front, m := ms[..|ms| - 1], ms[|ms| - 1];
      LastAboutIsSent(front, line);
      assert ms == front + [m];
      SentGrows(front, m);
    }
  }

  // ---------- One round ----------

  function Wanted(cart: seq<Item>, line: Line): Option<int> {
    Get(cart, Key(line))
  }

  /** The server holds exactly the lines of the cart, with their quantities. */
  ghost predicate Equals(server: Table, cart: seq<Item>) {
    forall line :: Row(server, line) == if line in Lines(cart) then Wanted(cart, line) else None
  }

  /** Keys a browser cart can hold: no dash inside an id, each key once, positive quantities. */
  ghost predicate Sound(cart: seq<Item>) {
    && (forall i :: 0 <= i < |cart| ==> DashFree(cart[i].line) && cart[i].quantity >= 1)
    && (forall i, j :: 0 <= i < j < |cart| ==> Key(cart[i].line) != Key(cart[j].line))
  }

  ghost predicate SoundKeys(keys: set<string>) {
    forall k <- keys :: DashFree(UnKey(k)) && Key(UnKey(k)) == k
  }

  lemma {:induction false} GetAt(cart: seq<Item>, i: nat)
    requires i < |cart| && forall j, k :: 0 <= j < k < |cart| ==> Key(cart[j].line) != Key(cart[k].line)
    ensures Get(cart, Key(cart[i].line)) == Some(cart[i].quantity)
  {
    if i > 0 { GetAt(cart[1..], i - 1); }
  }

  lemma SoundCartKeys(cart: seq<Item>)
    requires Sound(cart)
    ensures SoundKeys(Keys(cart))
  {
    forall k | k in Keys(cart) ensures DashFree(UnKey(k)) && Key(UnKey(k)) == k {
      var i :| 0 <= i < |cart| && Key(cart[i].line) == k;
      UnKeyOfKey(cart[i].line);
    }
  }

  lemma DeletedKeyIsGone(prevKeys: set<string>, cart: seq<Item>, m: Msg)
    requires SoundKeys(prevKeys) && m.Delete? && m in Round(prevKeys, cart)
    ensures Key(m.line) in prevKeys && Key(m.line) !in Keys(cart)
  {
    var k :| k in prevKeys && k !in Keys(cart) && m == Delete(UnKey(k));
  }

  lemma HeldKeyIsHeldLine(cart: seq<Item>, line: Line)
    requires Sound(cart) && DashFree(line)
    ensures line in Lines(cart) <==> Key(line) in Keys(cart)
  {
    if Key(line) in Keys(cart) {
      var i :| 0 <= i < |cart| && Key(cart[i].line) == Key(line);
      KeyInjective(cart[i].line, line);
    }
  }

  /** A line of the cart is only ever PUT, at its own quantity. */
  lemma RoundAboutHeldLine(prevKeys: set<string>, cart: seq<Item>, i: nat)
    requires SoundKeys(prevKeys) && Sound(cart) && i < |cart|
    ensures Put(cart[i].line, cart[i].quantity) in Round(prevKeys, cart)
    ensures forall m <- Round(prevKeys, cart) :: m.line == cart[i].line ==> m == Put(cart[i].line, cart[i].quantity)
  {
    assert Key(cart[i].line) in Keys(cart);
    forall m | m in Round(prevKeys, cart) && m.line == cart[i].line ensures m == Put(cart[i].line, cart[i].quantity) {
      if m.Delete? {
        DeletedKeyIsGone(prevKeys, cart, m);
      } else {
        var j :| 0 <= j < |cart| && m == Put(cart[j].line, cart[j].quantity);
        assert j == i;
      }
    }
  }

  /** A line that left the cart is only ever DELETEd; one in neither is not mentioned. */
  lemma RoundAboutGoneLine(prevKeys: set<string>, cart: seq<Item>, line: Line)
    requires SoundKeys(prevKeys) && Sound(cart) && line !in Lines(cart)
    ensures forall m <- Round(prevKeys, cart) :: m.line == line ==> m == Delete(line)
    ensures DashFree(line) && Key(line) in prevKeys ==> Delete(line) in Round(prevKeys, cart)
  {
    if DashFree(line) && Key(line) in prevKeys {
      UnKeyOfKey(line);
      HeldKeyIsHeldLine(cart, line);
      assert Delete(UnKey(Key(line))) in Round(prevKeys, cart);
    }
  }

  /** The rows the server may hold before a round: lines of the previous or of the current cart. */
  ghost predicate Expected(server: Table, prevKeys: set<string>, cart: seq<Item>) {
    forall line <- server.Keys :: DashFree(line) && (Key(line) in prevKeys || line in Lines(cart))
  }

  /**
   One round converges under any delivery: `ms` is any sequence holding exactly the round's
   messages, in any order and each at least once.
   */
  lemma {:induction false} RoundConverges(server: Table, prevKeys: set<string>, cart: seq<Item>, ms: seq<Msg>)
    requires SoundKeys(prevKeys) && Sound(cart) && Expected(server, prevKeys, cart)
    requires Sent(ms) == Round(prevKeys, cart)
    ensures Equals(HandleAll(server, ms), cart)
    ensures Expected(HandleAll(server, ms), Keys(cart), cart) && SoundKeys(Keys(cart))
  {
    var after := HandleAll(server, ms);
    forall line ensures Row(after, line) == if line in Lines(cart) then Wanted(cart, line) else None {
      RowAfterRound(server, prevKeys, cart, ms, line);
    }
    forall line | line in after.Keys ensures DashFree(line) && (Key(line) in Keys(cart) || line in Lines(cart)) {
      assert Row(after, line).Some?;
      var i :| 0 <= i < |cart| && cart[i].line == line;
    }
    SoundCartKeys(cart);
  }

  lemma RowAfterRound(server: Table, prevKeys: set<string>, cart: seq<Item>, ms: seq<Msg>, line: Line)
    requires SoundKeys(prevKeys) && Sound(cart) && Expected(server, prevKeys, cart)
    requires Sent(ms) == Round(prevKeys, cart)
    ensures Row(HandleAll(server, ms), line) == if line in Lines(cart) then Wanted(cart, line) else None
  {
    LastMessageWins(server, ms, line);
    LastAboutIsSent(ms, line);
    if line in Lines(cart) {
      var i :| 0 <= i < |cart| && cart[i].line == line;
      RoundAboutHeldLine(prevKeys, cart, i);
      GetAt(cart, i);
    } else {
      RoundAboutGoneLine(prevKeys, cart, line);
      if line in server { assert Key(line) in prevKeys; }
    }
  }

  /** Round after round, each fully delivered before the next, the server follows the cart. */
  lemma {:induction false} RoundsConverge(server: Table, prevKeys: set<string>, carts: seq<seq<Item>>,
                                          deliveries: seq<seq<Msg>>)
    requires |carts| == |deliveries| && |carts| > 0
    requires SoundKeys(prevKeys) && (forall i :: 0 <= i < |carts| ==> Sound(carts[i]))
    requires Expected(server, prevKeys, carts[0])
    requires Sent(deliveries[0]) == Round(prevKeys, carts[0])
    requires forall i :: 0 < i < |carts| ==> Sent(deliveries[i]) == Round(Keys(carts[i - 1]), carts[i])
    ensures Equals(HandleRounds(server, deliveries), carts[|carts| - 1])
    ensures Expected(HandleRounds(server, deliveries), Keys(carts[|carts| - 1]), [])
  {
    var n := |carts| - 1;
    if n == 0 {
      assert deliveries[..0] == [];
      RoundConverges(server, prevKeys, carts[0], deliveries[0]);
      SettledExpected(HandleAll(server, deliveries[0]), carts[0], []);
    } else {
      RoundsConverge(server, prevKeys, carts[..n], deliveries[..n]);
      SoundCartKeys(carts[n - 1]);
      var before := HandleRounds(server, deliveries[..n]);
      assert Expected(before, Keys(carts[n - 1]), carts[n]);
      RoundConverges(before, Keys(carts[n - 1]), carts[n], deliveries[n]);
      SettledExpected(HandleRounds(server, deliveries), carts[n], []);
    }
  }

  function HandleRounds(server: Table, deliveries: seq<seq<Msg>>): Table {
    if deliveries == [] then server
    else HandleAll(HandleRounds(server, deliveries[..|deliveries| - 1]), deliveries[|deliveries| - 1])
  }

  lemma SettledExpected(server: Table, cart: seq<Item>, next: seq<Item>)
    requires Equals(server, cart) && Sound(cart)
    ensures Expected(server, Keys(cart), next)
  {
    forall line | line in server.Keys ensures DashFree(line) && Key(line) in Keys(cart) {
      assert Row(server, line).Some?;
      var i :| 0 <= i < |cart| && cart[i].line == line;
    }
  }

  // ---------- Rounds overtaking one another ----------

  /** What a last message leaves behind on its row. */
  function Effect(m: Option<Msg>, old_: Option<int>): Option<int> {
    match m
    case None => old_
    case Some(Put(_, quantity)) => Some(quantity)
    case Some(Delete(_)) => None
  }

  lemma RowsAreEffects(server: Table, ms: seq<Msg>, line: Line)
    ensures Row(HandleAll(server, ms), line) == Effect(LastAbout(ms, line), Row(server, line))
  {
    LastMessageWins(server, ms, line);
  }

  /** The keys remembered when round `i` is sent. */
  function Remembered(prevKeys: set<string>, carts: seq<seq<Item>>, i: nat): set<string>
    requires i <= |carts|
  {
    if i == 0 then prevKeys else Keys(carts[i - 1])
  }

  function RoundAt(prevKeys: set<string>, carts: seq<seq<Item>>, i: nat): set<Msg>
    requires i < |carts|
  {
    Round(Remembered(prevKeys, carts, i), carts[i])
  }

  /** All that the first `n` rounds send. */
  function AllRounds(prevKeys: set<string>, carts: seq<seq<Item>>, n: nat): set<Msg>
    requires n <= |carts|
  {
    if n == 0 then {} else AllRounds(prevKeys, carts, n - 1) + RoundAt(prevKeys, carts, n - 1)
  }

  /** What round `i` says about a line, if anything. */
  function Said(prevKeys: set<string>, carts: seq<seq<Item>>, i: nat, line: Line): Option<Msg>
    requires i < |carts|
  {
    if line in Lines(carts[i]) then Some(Put(line, OrZero(Wanted(carts[i], line))))
    else if DashFree(line) && Key(line) in Remembered(prevKeys, carts, i) then Some(Delete(line))
    else None
  }

  /** What the last of the first `n` rounds that mentions a line says about it. */
  function LastSaid(prevKeys: set<string>, carts: seq<seq<Item>>, n: nat, line: Line): Option<Msg>
    requires n <= |carts|
  {
    if n == 0 then None
    else if Said(prevKeys, carts, n - 1, line).Some? then Said(prevKeys, carts, n - 1, line)
    else LastSaid(prevKeys, carts, n - 1, line)
  }

  ghost predicate AllSound(prevKeys: set<string>, carts: seq<seq<Item>>) {
    SoundKeys(prevKeys) && forall i :: 0 <= i < |carts| ==> Sound(carts[i])
  }

  lemma RememberedIsSound(prevKeys: set<string>, carts: seq<seq<Item>>, i: nat)
    requires AllSound(prevKeys, carts) && i <= |carts|
    ensures SoundKeys(Remembered(prevKeys, carts, i))
  {
    if i > 0 { SoundCartKeys(carts[i - 1]); }
  }

  /** A round holds exactly one message about each line it mentions. */
  lemma SaidIsTheMessage(prevKeys: set<string>, carts: seq<seq<Item>>, i: nat, line: Line)
    requires AllSound(prevKeys, carts) && i < |carts|
    ensures var said := Said(prevKeys, carts, i, line);
            && (said.Some? ==> said.value in RoundAt(prevKeys, carts, i) && said.value.line == line)
            && (said.Some? && said.value.Put? ==> said.value.quantity > 0)
            && (forall m <- RoundAt(prevKeys, carts, i) :: m.line == line ==> said == Some(m))
  {
    RememberedIsSound(prevKeys, carts, i);
    var prev, cart := Remembered(prevKeys, carts, i), carts[i];
    if line in Lines(cart) {
      var j :| 0 <= j < |cart| && cart[j].line == line;
      RoundAboutHeldLine(prev, cart, j);
      GetAt(cart, j);
    } else {
      RoundAboutGoneLine(prev, cart, line);
      forall m | m in Round(prev, cart) && m.line == line ensures DashFree(line) && Key(line) in prev {
        DeletedKeyIsGone(prev, cart, m);
        var k :| k in prev && m == Delete(UnKey(k));
      }
    }
  }

  /** The last round to mention a line says what the last cart says. */
  lemma {:induction false} LastSaidIsWanted(prevKeys: set<string>, carts: seq<seq<Item>>, n: nat, line: Line)
    requires AllSound(prevKeys, carts) && 0 < n <= |carts|
    ensures var said, cart := LastSaid(prevKeys, carts, n, line), carts[n - 1];
            && (line in Lines(cart) ==> said == Some(Put(line, OrZero(Wanted(cart, line)))))
            && (line !in Lines(cart) && said.Some? ==> said == Some(Delete(line)))
            && (said.None? ==> Said(prevKeys, carts, 0, line).None?)
  {
    hide Wanted;
    if n > 1 {
      LastSaidIsWanted(prevKeys, carts, n - 1, line);
      var before := carts[n - 2];
      if line in Lines(before) {
        var j :| 0 <= j < |before| && before[j].line == line;
        HeldKeyIsHeldLine(before, line);
      }
    }
  }

  lemma {:induction false} LastSaidIsSent(prevKeys: set<string>, carts: seq<seq<Item>>, n: nat, line: Line)
    requires AllSound(prevKeys, carts) && n <= |carts|
    ensures var said := LastSaid(prevKeys, carts, n, line);
            && (said.Some? ==> said.value in AllRounds(prevKeys, carts, n) && said.value.line == line)
            && (said.Some? && said.value.Put? ==> said.value.quantity > 0)
            && (said.None? ==> forall m <- AllRounds(prevKeys, carts, n) :: m.line != line)
  {
    hide Said, RoundAt;
    if n > 0 {
      LastSaidIsSent(prevKeys, carts, n - 1, line);
      SaidIsTheMessage(prevKeys, carts, n - 1, line);
    }
  }

  lemma OvertakenLine(server: Table, prevKeys: set<string>, carts: seq<seq<Item>>, ms: seq<Msg>, line: Line)
    requires |carts| > 0 && AllSound(prevKeys, carts) && Expected(server, prevKeys, carts[0])
    requires Sent(ms) == AllRounds(prevKeys, carts, |carts|)
    ensures var cart, said := carts[|carts| - 1], LastSaid(prevKeys, carts, |carts|, line);
            && (Row(HandleAll(server, ms), line) == (if line in Lines(cart) then Wanted(cart, line) else None) <==>
                  (said.Some? ==> LastAbout(ms, line) == said))
            && (said.Some? ==> LastAbout(ms, line).Some?)
  {
    var cart, said := carts[|carts| - 1], LastSaid(prevKeys, carts, |carts|, line);
    RowsAreEffects(server, ms, line);
    LastAboutIsSent(ms, line);
    LastSaidIsSent(prevKeys, carts, |carts|, line);
    LastSaidIsWanted(prevKeys, carts, |carts|, line);
    if line in Lines(cart) {
      var j :| 0 <= j < |cart| && cart[j].line == line;
      GetAt(cart, j);
    }
    hide AllRounds, LastSaid, LastAbout, HandleAll;
  }

  /** The message delivered last about a line is that of the last round that mentions it. */
  ghost predicate LastWordsComeLast(prevKeys: set<string>, carts: seq<seq<Item>>, ms: seq<Msg>) {
    forall line :: LastSaid(prevKeys, carts, |carts|, line).Some? ==>
                     LastAbout(ms, line) == LastSaid(prevKeys, carts, |carts|, line)
  }

  /**
   With any number of rounds in flight at once, delivered in any order with any repeats, the replicas agree exactly
   when the message delivered last about each line is that of the last round that mentions the line.
   */
  lemma OvertakingConvergesExactly(server: Table, prevKeys: set<string>, carts: seq<seq<Item>>, ms: seq<Msg>)
    requires |carts| > 0 && AllSound(prevKeys, carts) && Expected(server, prevKeys, carts[0])
    requires Sent(ms) == AllRounds(prevKeys, carts, |carts|)
    ensures Equals(HandleAll(server, ms), carts[|carts| - 1]) <==> LastWordsComeLast(prevKeys, carts, ms)
  {
    hide HandleAll, LastAbout, LastSaid, AllRounds, AllSound, Expected, Wanted;
    var after, cart := HandleAll(server, ms), carts[|carts| - 1];
    if Equals(after, cart) {
      forall line | LastSaid(prevKeys, carts, |carts|, line).Some?
        ensures LastAbout(ms, line) == LastSaid(prevKeys, carts, |carts|, line)
      {
        OvertakenLine(server, prevKeys, carts, ms, line);
        assert Row(after, line) == if line in Lines(cart) then Wanted(cart, line) else None;
      }
    }
    if LastWordsComeLast(prevKeys, carts, ms) {
      forall line ensures Row(after, line) == if line in Lines(cart) then Wanted(cart, line) else None {
        OvertakenLine(server, prevKeys, carts, ms, line);
      }
    }
  }

  /** A delivery whose `i`-th message comes from round `from[i]`: every message arrives, and about any one line
      no message of an earlier round comes after one of a later round. */
  ghost predicate InOrderPerLine(prevKeys: set<string>, carts: seq<seq<Item>>, ms: seq<Msg>, from: seq<nat>) {
    && |from| == |ms|
    && (forall i :: 0 <= i < |ms| ==> from[i] < |carts| && ms[i] in RoundAt(prevKeys, carts, from[i]))
    && (forall r: nat, m :: r < |carts| && m in RoundAt(prevKeys, carts, r) ==>
          exists i :: 0 <= i < |ms| && from[i] == r && ms[i] == m)
    && (forall i, j :: 0 <= i < j < |ms| && ms[i].line == ms[j].line ==> from[i] <= from[j])
  }

  lemma {:induction false} InAllRounds(prevKeys: set<string>, carts: seq<seq<Item>>, n: nat, m: Msg)
    requires n <= |carts|
    ensures m in AllRounds(prevKeys, carts, n) <==> exists r: nat :: r < n && m in RoundAt(prevKeys, carts, r)
  {
    hide RoundAt;
    if n > 0 { InAllRounds(prevKeys, carts, n - 1, m); }
  }

  lemma {:induction false} LastAboutAt(ms: seq<Msg>, line: Line) returns (i: nat)
    requires LastAbout(ms, line).Some?
    ensures i < |ms| && ms[i].line == line && LastAbout(ms, line) == Some(ms[i])
    ensures forall j :: i < j < |ms| ==> ms[j].line == line ==> ms[j].Put? && ms[j].quantity <= 0
  {
    var n := |ms| - 1;
    var m := ms[n];
    if m.line == line && (m.Put? ==> m.quantity > 0) {
      i := n;
    } else {
      i := LastAboutAt(ms[..n], line);
    }
  }

  lemma {:induction false} LastSaidAt(prevKeys: set<string>, carts: seq<seq<Item>>, n: nat, line: Line) returns (r: nat)
    requires n <= |carts| && LastSaid(prevKeys, carts, n, line).Some?
    ensures r < n && Said(prevKeys, carts, r, line) == LastSaid(prevKeys, carts, n, line)
    ensures forall q :: r < q < n ==> Said(prevKeys, carts, q, line).None?
  {
    hide Said;
    if Said(prevKeys, carts, n - 1, line).Some? {
      r := n - 1;
    } else {
      r := LastSaidAt(prevKeys, carts, n - 1, line);
    }
  }

  lemma InOrderLine(prevKeys: set<string>, carts: seq<seq<Item>>, ms: seq<Msg>, from: seq<nat>, line: Line)
    requires AllSound(prevKeys, carts) && InOrderPerLine(prevKeys, carts, ms, from)
    requires LastAbout(ms, line).Some? && LastSaid(prevKeys, carts, |carts|, line).Some?
    ensures LastAbout(ms, line) == LastSaid(prevKeys, carts, |carts|, line)
  {
    hide RoundAt, Said, LastSaid, LastAbout;
    var i := LastAboutAt(ms, line);
    var r := LastSaidAt(prevKeys, carts, |carts|, line);
    SaidIsTheMessage(prevKeys, carts, r, line);
    SaidIsTheMessage(prevKeys, carts, from[i], line);
    var i0 :| 0 <= i0 < |ms| && from[i0] == r && Some(ms[i0]) == Said(prevKeys, carts, r, line);
    assert i0 <= i;
    assert from[i] == r;
  }

  /** So rounds may overtake one another freely as long as no line sees its own messages out of order. */
  lemma InOrderPerLineConverges(server: Table, prevKeys: set<string>, carts: seq<seq<Item>>, ms: seq<Msg>,
                                from: seq<nat>)
    requires |carts| > 0 && AllSound(prevKeys, carts) && Expected(server, prevKeys, carts[0])
    requires InOrderPerLine(prevKeys, carts, ms, from)
    ensures Equals(HandleAll(server, ms), carts[|carts| - 1])
  {
    hide AllSound, Expected, Equals, HandleAll, LastAbout, LastSaid, RoundAt, AllRounds;
    forall m ensures m in Sent(ms) <==> m in AllRounds(prevKeys, carts, |carts|) {
      InAllRounds(prevKeys, carts, |carts|, m);
      if m in AllRounds(prevKeys, carts, |carts|) {
        var r: nat :| r < |carts| && m in RoundAt(prevKeys, carts, r);
        var i :| 0 <= i < |ms| && from[i] == r && ms[i] == m;
      }
    }
    forall line | LastSaid(prevKeys, carts, |carts|, line).Some?
      ensures LastAbout(ms, line) == LastSaid(prevKeys, carts, |carts|, line)
    {
      OvertakenLine(server, prevKeys, carts, ms, line);
      InOrderLine(prevKeys, carts, ms, from, line);
    }
    OvertakingConvergesExactly(server, prevKeys, carts, ms);
  }

  /** An add and a removal, each one round: the PUT arriving after the DELETE revives the line. */
  lemma OvertakenDeleteRevivesLine(line: Line)
    requires DashFree(line)
    ensures var added := [Item(line, 1)];
            && Put(line, 1) in Round({}, added) && Delete(line) in Round(Keys(added), [])
            && HandleAll(map[], [Delete(line), Put(line, 1)]) == map[line := 1]
            && !Equals(HandleAll(map[], [Delete(line), Put(line, 1)]), [])
  {
    var added := [Item(line, 1)];
    assert added[0].line == line && added[0].quantity == 1;
    UnKeyOfKey(line);
    assert Key(line) in Keys(added);
    assert Delete(UnKey(Key(line))) in Round(Keys(added), []);
    var ms := [Delete(line), Put(line, 1)];
    assert ms[..1] == [Delete(line)] && [Delete(line)][..0] == [];
    assert HandleAll(map[], ms[..1]) == map[];
    assert Row(HandleAll(map[], ms), line) == Some(1);
  }

  // ---------- Logging in again ----------

  /**
   Logging out empties the cart but not the remembered keys. Whatever the cart holds when the first round after
   logging in again is sent, and in whatever order its messages arrive, the server then has the quantities of that
   cart, has lost every other line remembered from before, and keeps the lines never remembered.
   */
  lemma ReloginDeletesRememberedLines(server: Table, prevKeys: set<string>, cart: seq<Item>, ms: seq<Msg>, line: Line)
    requires SoundKeys(prevKeys) && Sound(cart) && DashFree(line) && Sent(ms) == Round(prevKeys, cart)
    ensures Row(HandleAll(server, ms), line) ==
            if line in Lines(cart) then Wanted(cart, line)
            else if Key(line) in prevKeys then None
            else Row(server, line)
  {
    LastMessageWins(server, ms, line);
    LastAboutIsSent(ms, line);
    if line in Lines(cart) {
      var i :| 0 <= i < |cart| && cart[i].line == line;
      RoundAboutHeldLine(prevKeys, cart, i);
      GetAt(cart, i);
    } else {
      RoundAboutGoneLine(prevKeys, cart, line);
      if Key(line) !in prevKeys {
        forall m | m in Round(prevKeys, cart) ensures m.line != line {
          if m.Delete? { DeletedKeyIsGone(prevKeys, cart, m); }
        }
      }
    }
  }

  // ---------- Clearing ----------

  /** Deleting each line, in any order and any number of times, empties the table. */
  lemma ClearingIsDeletingEveryLine(server: Table, ms: seq<Msg>)
    requires Sent(ms) == set line | line in server :: Delete(line)
    ensures HandleAll(server, ms) == map[]
  {
    forall line ensures line !in HandleAll(server, ms) {
      LastMessageWins(server, ms, line);
      LastAboutIsSent(ms, line);
      assert line in server ==> Delete(line) in Sent(ms);
      assert Row(HandleAll(server, ms), line) == None;
    }
  }

  // ---------- Logging in ----------

  /** The quantity a cart holds for a line, if it is one of its lines. */
  function Held(cart: seq<Item>, line: Line): Option<int> {
    if line in Lines(cart) then Wanted(cart, line) else None
  }

  lemma {:induction false} GetIsKey(cart: seq<Item>, k: string)
    ensures Get(cart, k).Some? <==> k in Keys(cart)
  {
    if cart != [] {
      GetIsKey(cart[1..], k);
      if k in Keys(cart) {
        var i :| 0 <= i < |cart| && Key(cart[i].line) == k;
        if i > 0 { assert cart[1..][i - 1] == cart[i]; }
      }
      if k in Keys(cart[1..]) {
        var i :| 0 <= i < |cart[1..]| && Key(cart[1..][i].line) == k;
        assert cart[i + 1] == cart[1..][i];
      }
      assert Key(cart[0].line) in Keys(cart);
    }
  }

  lemma {:induction false} SoundIsGood(cart: seq<Item>)
    requires Sound(cart)
    ensures Good(cart) && AllDashFree(cart)
  {
    if cart != [] {
      SoundIsGood(cart[1..]);
      GetIsKey(cart[1..], Key(cart[0].line));
    }
  }

  lemma {:induction false} GoodIsSound(cart: seq<Item>)
    requires Good(cart) && AllDashFree(cart)
    ensures Sound(cart)
  {
    if cart != [] {
      var rest := cart[1..];
      GoodIsSound(rest);
      GetIsKey(rest, Key(cart[0].line));
      assert forall i :: 0 < i < |cart| ==> cart[i] == rest[i - 1];
      assert forall i :: 0 <= i < |rest| ==> Key(rest[i].line) in Keys(rest);
    }
  }

  lemma {:induction false} MergeKeepsDashFree(cart: seq<Item>, server: seq<Item>)
    requires AllDashFree(cart) && AllDashFree(server)
    ensures AllDashFree(Merge(cart, server))
    decreases |server|
  {
    if server != [] {
      MergeOneKeepsDashFree(cart, server[0]);
      MergeKeepsDashFree(MergeOne(cart, server[0]), server[1..]);
    }
  }

  lemma {:induction false} MergeOneKeepsDashFree(cart: seq<Item>, it: Item)
    requires AllDashFree(cart) && DashFree(it.line)
    ensures AllDashFree(MergeOne(cart, it))
  {
    hide DashFree;
    if cart == [] {
      assert [it][1..] == [];
    } else if Key(cart[0].line) == Key(it.line) {
      assert MergeOne(cart, it)[1..] == cart[1..];
    } else {
      MergeOneKeepsDashFree(cart[1..], it);
      assert MergeOne(cart, it)[1..] == MergeOne(cart[1..], it);
    }
  }

  lemma {:induction false} ServerMaxIsGet(server: seq<Item>, k: string)
    requires Unique(server)
    ensures ServerMax(server, k) == Get(server, k)
  {
    if server != [] { ServerMaxIsGet(server[1..], k); }
  }

  /** The merged cart of a login, line by line. */
  lemma {:induction false} MergedHolds(local: seq<Item>, listed: seq<Item>, line: Line)
    requires Sound(local) && Sound(listed)
    ensures Sound(Merge(local, listed))
    ensures Held(Merge(local, listed), line) == Join(Held(local, line), Held(listed, line))
  {
    hide Merge, Get, ServerMax, DashFree, Key, AllDashFree, Unique, Positive;
    SoundIsGood(local);
    SoundIsGood(listed);
    MergeKeeps(local, listed);
    MergeKeepsDashFree(local, listed);
    var merged := Merge(local, listed);
    GoodIsSound(merged);
    if DashFree(line) {
      HeldIsGet(local, line);
      HeldIsGet(listed, line);
      HeldIsGet(merged, line);
      MergeIsPointwiseMax(local, listed, Key(line));
      ServerMaxIsGet(listed, Key(line));
    }
  }

  lemma HeldIsGet(cart: seq<Item>, line: Line)
    requires Sound(cart) && DashFree(line)
    ensures Held(cart, line) == Get(cart, Key(line))
  {
    HeldKeyIsHeldLine(cart, line);
    GetIsKey(cart, Key(line));
  }

  /**
   From a login with `local` in the browser and `listed` on the server, the merge and the round that carries it leave
   both replicas equal to the pointwise maximum of the two carts, however the round is delivered and whatever keys are
   still remembered from before.
   */
  lemma {:induction false} LoginConverges(server: Table, listed: seq<Item>, local: seq<Item>, prevKeys: set<string>,
                                          ms: seq<Msg>)
    requires Sound(local) && Sound(listed) && Equals(server, listed) && SoundKeys(prevKeys)
    requires Sent(ms) == Round(prevKeys, Merge(local, listed))
    ensures var after := HandleAll(server, ms);
            && Equals(after, Merge(local, listed))
            && (forall line :: Row(after, line) == Join(Held(local, line), Row(server, line)))
  {
    hide Merge, Get, DashFree, Key;
    var merged := Merge(local, listed);
    forall line ensures Held(merged, line) == Join(Held(local, line), Row(server, line)) {
      MergedHolds(local, listed, line);
    }
    MergedHolds(local, listed, Line("", None));
    forall line | line in server.Keys ensures DashFree(line) && line in Lines(merged) {
      assert Row(server, line) == Held(listed, line);
      assert Held(merged, line).Some?;
      var i :| 0 <= i < |listed| && listed[i].line == line;
    }
    RoundConverges(server, prevKeys, merged, ms);
  }
}

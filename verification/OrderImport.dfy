/**
 The WooCommerce order importer: every order is split by shop, each part is upserted under the key
 (WooCommerce order, shop), and one group row per order gathers the parts. The shops are visited in
 whatever order the map iterates.
 */
module OrderImport {
  import opened Options
  import opened Texts

  datatype Item = Item(product: int, variation: int, wcVendor: int, name: string, quantity: int, total: real)

  datatype Order = Order(id: int, customer: int, status: string, items: seq<Item>, shipping: real, createdAt: int)

  /** What earlier imports resolved: WooCommerce ids to our own. */
  datatype Catalog = Catalog(vendors: map<int, int>, products: map<int, int>)

  datatype Line = Line(product: int, variation: int, vendor: int, name: string, quantity: int, unitPrice: real)

  datatype Reference = GroupRef(order: int) | SubRef(order: int, number: int)

  datatype Row = Row(id: nat, reference: Reference, customer: int, status: string, payment: string, stage: string,
                     lines: seq<Line>, subtotal: real, shipping: real, total: real,
                     parent: Option<nat>, createdAt: int, updatedAt: int)

  datatype Key = Key(order: int, vendor: int)

  /** The imported rows of the orders table, by its unique index, and its id sequence. */
  datatype Db = Db(rows: map<Key, Row>, nextId: nat)

  function PaymentStatus(status: string): string {
    if status == "failed" then "failed"
    else if status == "processing" || status == "completed" then "paid"
    else if status == "refunded" then "refunded"
    else "pending"
  }

  function FulfillmentStage(status: string): string {
    if status == "failed" || status == "cancelled" || status == "refunded" then "cancelled"
    else if status == "processing" then "preparing"
    else if status == "completed" then "delivered"
    else "pending"
  }

  function LegacyStatus(status: string): string {
    if status == "failed" then "payment_expired"
    else if status == "processing" then "processing"
    else if status == "completed" then "delivered"
    else if status == "cancelled" then "cancelled"
    else if status == "refunded" then "refunded"
    else "pending_payment"
  }

  function PrintReference(r: Reference): string {
    match r
    case GroupRef(order) => "WC-" + Decimal(order)
    case SubRef(order, number) => "WC-" + Decimal(order) + "-" + Decimal(number)
  }

  // ---------- Splitting one order ----------

  /** The items of one shop, in their order. */
  function ItemsOf(items: seq<Item>, v: int): seq<Item> {
    if items == [] then []
    else
      var last := items[|items| - 1];
      ItemsOf(items[..|items| - 1], v) + if last.wcVendor == v then [last] else []
  }

  function Shops(items: seq<Item>): set<int> {
    set i | 0 <= i < |items| :: items[i].wcVendor
  }

  function Resolved(m: map<int, int>, id: int): int {
    if id in m then m[id] else 0
  }

  /** The vendor a shop resolves to; 0 when it was never imported. */
  function Target(c: Catalog, v: int): int {
    Resolved(c.vendors, v)
  }

  function ToLine(c: Catalog, li: Item): Line {
    Line(Resolved(c.products, li.product), Resolved(c.products, li.variation), Target(c, li.wcVendor),
         li.name, li.quantity, if li.quantity > 0 then li.total / (li.quantity as real) else 0.0)
  }

  function ToLines(c: Catalog, items: seq<Item>): (r: seq<Line>)
    ensures |r| == |items|
  {
    if items == [] then []
    else ToLines(c, items[..|items| - 1]) + [ToLine(c, items[|items| - 1])]
  }

  /** One line per item, in order: what earlier imports know of its product, variation and shop, or 0, and the price
      of one piece, or 0 when there is none. */
  lemma {:induction false} LinesExactly(c: Catalog, items: seq<Item>, i: nat)
    requires i < |items|
    ensures var line, li := ToLines(c, items)[i], items[i];
            && line.product == (if li.product in c.products then c.products[li.product] else 0)
            && line.variation == (if li.variation in c.products then c.products[li.variation] else 0)
            && line.vendor == (if li.wcVendor in c.vendors then c.vendors[li.wcVendor] else 0)
            && line.name == li.name && line.quantity == li.quantity
            && (li.quantity > 0 ==> line.unitPrice * (li.quantity as real) == li.total)
            && (li.quantity <= 0 ==> line.unitPrice == 0.0)
  {
    if i < |items| - 1 { LinesExactly(c, items[..|items| - 1], i); }
  }

  function Subtotal(items: seq<Item>): real {
    if items == [] then 0.0
    else Subtotal(items[..|items| - 1]) + items[|items| - 1].total
  }

  method SplitByVendor(items: seq<Item>) returns (byVendor: map<int, seq<Item>>)
    ensures byVendor.Keys == Shops(items)
    ensures forall v :: v in byVendor ==> byVendor[v] == ItemsOf(items, v) != []
  {
    byVendor := map[];
    for i := 0 to |items|
      invariant byVendor.Keys == Shops(items[..i])
      invariant forall v :: v in byVendor ==> byVendor[v] == ItemsOf(items[..i], v) != []
    {
      var li := items[i];
      var v := li.wcVendor;
      assert items[..i + 1][..i] == items[..i];
      ShopsGrow(items, i);
      if v !in byVendor { NoItems(items[..i], v); }
      byVendor := byVendor[v := (if v in byVendor then byVendor[v] else []) + [li]];
    }
    assert items[..|items|] == items;
  }

  lemma ShopsGrow(items: seq<Item>, i: nat)
    requires i < |items|
    ensures Shops(items[..i + 1]) == Shops(items[..i]) + {items[i].wcVendor}
  {
    var was, now := Shops(items[..i]), Shops(items[..i + 1]);
    forall v | v in now ensures v in was + {items[i].wcVendor} {
      var j :| 0 <= j < i + 1 && items[..i + 1][j].wcVendor == v;
      if j < i { assert items[..i][j].wcVendor == v; }
    }
    forall v | v in was ensures v in now {
      var j :| 0 <= j < i && items[..i][j].wcVendor == v;
      assert items[..i + 1][j].wcVendor == v;
    }
    assert items[..i + 1][i].wcVendor in now;
  }

  lemma {:induction false} NoItems(items: seq<Item>, v: int)
    ensures ItemsOf(items, v) == [] <==> v !in Shops(items)
  {
    if items != [] {
      var i := |items| - 1;
      NoItems(items[..i], v);
      ShopsGrow(items, i);
      assert items[..i + 1] == items;
    }
  }

  method PriceItems(c: Catalog, items: seq<Item>) returns (subtotal: real, lines: seq<Line>)
    ensures subtotal == Subtotal(items) && lines == ToLines(c, items)
  {
    subtotal, lines := 0.0, [];
    for i := 0 to |items|
      invariant subtotal == Subtotal(items[..i]) && lines == ToLines(c, items[..i])
    {
      assert items[..i + 1][..i] == items[..i];
      subtotal, lines := subtotal + items[i].total, lines + [ToLine(c, items[i])];
    }
    assert items[..|items|] == items;
  }

  // ---------- The split loses nothing ----------

  predicate Distinct(vs: seq<int>) {
    forall i, j :: 0 <= i < j < |vs| ==> vs[i] != vs[j]
  }

  function Elements(vs: seq<int>): set<int> {
    set i | 0 <= i < |vs| :: vs[i]
  }

  /** A possible iteration over the shops of the order. */
  predicate Visits(vs: seq<int>, items: seq<Item>) {
    && Distinct(vs)
    && Elements(vs) == Shops(items)
  }

  /** The parts one after the other, as visited. */
  function Parts(items: seq<Item>, vs: seq<int>): seq<Item> {
    if vs == [] then [] else Parts(items, vs[..|vs| - 1]) + ItemsOf(items, vs[|vs| - 1])
  }

  function SubtotalsOf(items: seq<Item>, vs: seq<int>): real {
    if vs == [] then 0.0
    else SubtotalsOf(items, vs[..|vs| - 1]) + Subtotal(ItemsOf(items, vs[|vs| - 1]))
  }

  lemma ItemsGain(items: seq<Item>, li: Item, v: int)
    ensures ItemsOf(items + [li], v) == if li.wcVendor == v then ItemsOf(items, v) + [li] else ItemsOf(items, v)
  {
    assert (items + [li])[..|items|] == items;
    assert ItemsOf(items, v) + [] == ItemsOf(items, v);
  }

  lemma SubtotalGain(items: seq<Item>, li: Item)
    ensures Subtotal(items + [li]) == Subtotal(items) + li.total
  {
    assert (items + [li])[..|items|] == items;
  }

  /** One more item goes to exactly one of the parts. */
  lemma {:induction false} PartsGain(items: seq<Item>, li: Item, vs: seq<int>, at: nat)
    requires at < |vs| && vs[at] == li.wcVendor
    requires forall i :: 0 <= i < |vs| && i != at ==> vs[i] != li.wcVendor
    ensures multiset(Parts(items + [li], vs)) == multiset(Parts(items, vs) + [li])
  {
    hide ItemsOf;
    var n := |vs| - 1;
    var before, part := Parts(items, vs[..n]), ItemsOf(items, vs[n]);
    ItemsGain(items, li, vs[n]);
    if at == n {
      PartsKeep(items, li, vs[..n]);
      assert before + (part + [li]) == (before + part) + [li];
    } else {
      PartsGain(items, li, vs[..n], at);
      Exchange(Parts(items + [li], vs[..n]), before, part, li);
    }
  }

  lemma {:induction false} SubtotalsGain(items: seq<Item>, li: Item, vs: seq<int>, at: nat)
    requires at < |vs| && vs[at] == li.wcVendor
    requires forall i :: 0 <= i < |vs| && i != at ==> vs[i] != li.wcVendor
    ensures SubtotalsOf(items + [li], vs) == SubtotalsOf(items, vs) + li.total
  {
    hide ItemsOf, Subtotal;
    var n := |vs| - 1;
    ItemsGain(items, li, vs[n]);
    if at == n {
      PartsKeep(items, li, vs[..n]);
      SubtotalGain(ItemsOf(items, vs[n]), li);
    } else {
      SubtotalsGain(items, li, vs[..n], at);
    }
  }

  lemma Exchange(a: seq<Item>, b: seq<Item>, part: seq<Item>, li: Item)
    requires multiset(a) == multiset(b + [li])
    ensures multiset(a + part) == multiset(b + part + [li])
  {
  }

  lemma {:induction false} PartsKeep(items: seq<Item>, li: Item, vs: seq<int>)
    requires forall i :: 0 <= i < |vs| ==> vs[i] != li.wcVendor
    ensures Parts(items + [li], vs) == Parts(items, vs)
    ensures SubtotalsOf(items + [li], vs) == SubtotalsOf(items, vs)
  {
    hide ItemsOf, Subtotal;
    if vs != [] {
      PartsKeep(items, li, vs[..|vs| - 1]);
      ItemsGain(items, li, vs[|vs| - 1]);
    }
  }

  lemma {:induction false} NoParts(vs: seq<int>)
    ensures Parts([], vs) == [] && SubtotalsOf([], vs) == 0.0
  {
    if vs != [] { NoParts(vs[..|vs| - 1]); }
  }

  lemma {:induction false} SplitLosesNothingOver(items: seq<Item>, vs: seq<int>)
    requires Distinct(vs) && Shops(items) <= Elements(vs)
    ensures multiset(Parts(items, vs)) == multiset(items)
    ensures SubtotalsOf(items, vs) == Subtotal(items)
  {
    hide Parts, SubtotalsOf;
    if items == [] {
      NoParts(vs);
    } else {
      var n := |items| - 1;
      assert items == items[..n] + [items[n]];
      ShopsGrow(items, n);
      SplitLosesNothingOver(items[..n], vs);
      assert items[n].wcVendor in Elements(vs);
      var at :| 0 <= at < |vs| && vs[at] == items[n].wcVendor;
      PartsGain(items[..n], items[n], vs, at);
      SubtotalsGain(items[..n], items[n], vs, at);
    }
  }

  /** Every item lands in exactly one part and the subtotals add up, in every iteration order. */
  lemma SplitLosesNothing(items: seq<Item>, vs: seq<int>)
    requires Visits(vs, items)
    ensures multiset(Parts(items, vs)) == multiset(items)
    ensures SubtotalsOf(items, vs) == Subtotal(items)
    ensures forall i, j :: 0 <= i < |vs| && 0 <= j < |ItemsOf(items, vs[i])| ==>
              ItemsOf(items, vs[i])[j].wcVendor == vs[i]
  {
    SplitLosesNothingOver(items, vs);
    forall i, j | 0 <= i < |vs| && 0 <= j < |ItemsOf(items, vs[i])|
      ensures ItemsOf(items, vs[i])[j].wcVendor == vs[i]
    {
      ItemsAreOfTheShop(items, vs[i]);
    }
  }

  lemma {:induction false} ItemsAreOfTheShop(items: seq<Item>, v: int)
    ensures forall j :: 0 <= j < |ItemsOf(items, v)| ==> ItemsOf(items, v)[j].wcVendor == v
  {
    if items != [] { ItemsAreOfTheShop(items[..|items| - 1], v); }
  }

  // ---------- Writing the rows ----------

  predicate Taken(rows: map<Key, Row>, r: Reference) {
    exists k :: k in rows && rows[k].reference == r
  }

  /** What a conflicting insert refreshes, and nothing else. */
  function Refreshed(row: Row, o: Order, lines: seq<Line>, now: int): Row {
    row.(status := LegacyStatus(o.status), payment := PaymentStatus(o.status), stage := FulfillmentStage(o.status),
         lines := lines, updatedAt := now)
  }

  function SubRow(id: nat, o: Order, seqNo: int, lines: seq<Line>, subtotal: real): Row {
    Row(id, SubRef(o.id, seqNo), o.customer, LegacyStatus(o.status), PaymentStatus(o.status),
        FulfillmentStage(o.status), lines, subtotal, o.shipping, subtotal + o.shipping, None, o.createdAt, o.createdAt)
  }

  /** An insert takes an id from the sequence even when it conflicts; a taken reference refuses it. */
  function PutSub(db: Db, o: Order, vendor: int, seqNo: int, lines: seq<Line>, subtotal: real, now: int): Db {
    var k := Key(o.id, vendor);
    if k in db.rows then Db(db.rows[k := Refreshed(db.rows[k], o, lines, now)], db.nextId + 1)
    else if Taken(db.rows, SubRef(o.id, seqNo)) then Db(db.rows, db.nextId + 1)
    else Db(db.rows[k := SubRow(db.nextId, o, seqNo, lines, subtotal)], db.nextId + 1)
  }

  function GroupRow(id: nat, o: Order): Row {
    Row(id, GroupRef(o.id), o.customer, "group", "pending", "pending", [], 0.0, 0.0, 0.0, None, o.createdAt,
        o.createdAt)
  }

  function PutGroup(db: Db, o: Order, now: int): Db {
    var k := Key(o.id, 0);
    if k in db.rows then Db(db.rows[k := db.rows[k].(updatedAt := now)], db.nextId + 1)
    else if Taken(db.rows, GroupRef(o.id)) then Db(db.rows, db.nextId + 1)
    else Db(db.rows[k := GroupRow(db.nextId, o)], db.nextId + 1)
  }

  function Link(db: Db, k: Key, parent: nat): Db {
    if k in db.rows then db.(rows := db.rows[k := db.rows[k].(parent := Some(parent))]) else db
  }

  /** Where the loop over the shops of one order stands. */
  datatype Progress = Progress(db: Db, seqNo: int, parent: Option<nat>, created: nat)

  function Visit(p: Progress, c: Catalog, o: Order, v: int, now: int): Progress {
    var vendor := Target(c, v);
    var items := ItemsOf(o.items, v);
    var k := Key(o.id, vendor);
    var db := PutSub(p.db, o, vendor, p.seqNo, ToLines(c, items), Subtotal(items), now);
    if k !in db.rows then Progress(db, p.seqNo + 1, p.parent, p.created)
    else if p.parent.Some? then Progress(Link(db, k, p.parent.value), p.seqNo + 1, p.parent, p.created + 1)
    else
      var grouped := PutGroup(db, o, now);
      if Key(o.id, 0) !in grouped.rows then Progress(grouped, p.seqNo + 1, None, p.created + 1)
      else
        var parent := grouped.rows[Key(o.id, 0)].id;
        Progress(Link(grouped, k, parent), p.seqNo + 1, Some(parent), p.created + 1)
  }

  function VisitAll(db: Db, c: Catalog, o: Order, vs: seq<int>, now: int): Progress {
    if vs == [] then Progress(db, 1, None, 0)
    else Visit(VisitAll(db, c, o, vs[..|vs| - 1], now), c, o, vs[|vs| - 1], now)
  }

  class OrdersTable {
    var db: Db

    constructor ()
      ensures db == Db(map[], 1)
    {
      db := Db(map[], 1);
    }

    method UpsertSubOrder(o: Order, vendor: int, seqNo: int, lines: seq<Line>, subtotal: real, now: int)
      returns (id: Option<nat>)
      modifies this
      ensures db == PutSub(old(db), o, vendor, seqNo, lines, subtotal, now)
      ensures id == if Key(o.id, vendor) in db.rows then Some(db.rows[Key(o.id, vendor)].id) else None
    {
      var k := Key(o.id, vendor);
      var rows := db.rows;
      if k in rows {
        rows := rows[k := Refreshed(rows[k], o, lines, now)];
      } else if !Taken(rows, SubRef(o.id, seqNo)) {
        rows := rows[k := SubRow(db.nextId, o, seqNo, lines, subtotal)];
      }
      db := Db(rows, db.nextId + 1);
      id := if k in rows then Some(rows[k].id) else None;
    }

    method UpsertGroup(o: Order, now: int) returns (id: Option<nat>)
      modifies this
      ensures db == PutGroup(old(db), o, now)
      ensures id == if Key(o.id, 0) in db.rows then Some(db.rows[Key(o.id, 0)].id) else None
    {
      var k := Key(o.id, 0);
      var rows := db.rows;
      if k in rows {
        rows := rows[k := rows[k].(updatedAt := now)];
      } else if !Taken(rows, GroupRef(o.id)) {
        rows := rows[k := GroupRow(db.nextId, o)];
      }
      db := Db(rows, db.nextId + 1);
      id := if k in rows then Some(rows[k].id) else None;
    }

    method SetParent(k: Key, parent: nat)
      modifies this
      ensures db == Link(old(db), k, parent)
    {
      if k in db.rows {
        db := db.(rows := db.rows[k := db.rows[k].(parent := Some(parent))]);
      }
    }

    /** Imports one order; `visited` records the order in which the map was iterated. */
    method ImportOrder(c: Catalog, o: Order, now: int) returns (created: nat, unresolved: nat, ghost visited: seq<int>)
      modifies this
      ensures Visits(visited, o.items)
      ensures db == VisitAll(old(db), c, o, visited, now).db && created == VisitAll(old(db), c, o, visited, now).created
      ensures unresolved == |UnresolvedItems(c, o.items, visited)| == UnknownItems(c, o.items)
    {
      hide Visit, ItemsOf;
      visited, created, unresolved := [], 0, 0;
      var byVendor := SplitByVendor(o.items);
      var todo := byVendor.Keys;
      var seqNo := 1;
      var parent: Option<nat> := None;
      while todo != {}
        invariant todo <= byVendor.Keys
        invariant Distinct(visited) && Elements(visited) == byVendor.Keys - todo
        invariant Progress(db, seqNo, parent, created) == VisitAll(old(db), c, o, visited, now)
        invariant unresolved == |UnresolvedItems(c, o.items, visited)|
        decreases |todo|
      {
        var v :| v in todo;
        ghost var before := visited;
        VisitedGrows(before, v, byVendor.Keys, todo);
        todo, visited := todo - {v}, visited + [v];
        assert visited[..|visited| - 1] == before;
        if v !in c.vendors {
          unresolved := unresolved + |byVendor[v]|;
        }
        seqNo, parent, created := VisitShop(c, o, v, byVendor[v], seqNo, parent, created, now);
      }
      UnresolvedUpTo(c, o.items, visited);
    }

    /** Imports every order; `visits` records how each order's map was iterated. */
    method ImportOrders(c: Catalog, orders: seq<Order>, now: int)
      returns (processed: nat, created: nat, unresolved: nat, ghost visits: seq<seq<int>>)
      modifies this
      ensures processed == |orders| && AllVisits(visits, orders)
      ensures db == ImportAll(old(db), c, orders, visits, now)
      ensures created == CreatedInAll(old(db), c, orders, visits, now) && unresolved == UnknownInAll(c, orders)
    {
      hide VisitAll, Visits, AllVisits, ImportAll, CreatedInAll, UnknownInAll, UnknownItems;
      processed, created, unresolved, visits := 0, 0, 0, [];
      NothingImported(db, c, orders, now);
      for i := 0 to |orders|
        invariant processed == i && AllVisits(visits, orders[..i]) && |visits| == i
        invariant db == ImportAll(old(db), c, orders[..i], visits, now)
        invariant created == CreatedInAll(old(db), c, orders[..i], visits, now)
        invariant unresolved == UnknownInAll(c, orders[..i])
      {
        processed := processed + 1;
        ghost var visited: seq<int> := [];
        if orders[i].items != [] {
          var more, missing;
          more, missing, visited := ImportOrder(c, orders[i], now);
          created, unresolved := created + more, unresolved + missing;
        } else {
          NothingToVisit(db, c, orders[i], now);
        }
        OneMoreOrder(old(db), c, orders, i, visits, visited, now);
        visits := visits + [visited];
      }
      assert orders[..|orders|] == orders;
    }

    /** One turn of the loop over the shops. */
    method VisitShop(c: Catalog, o: Order, v: int, items: seq<Item>, seqNo: int, parent: Option<nat>, created: nat,
                     now: int)
      returns (nextSeqNo: int, nextParent: Option<nat>, nextCreated: nat)
      requires items == ItemsOf(o.items, v)
      modifies this
      ensures Progress(db, nextSeqNo, nextParent, nextCreated) ==
              Visit(Progress(old(db), seqNo, parent, created), c, o, v, now)
    {
      nextSeqNo, nextParent, nextCreated := seqNo + 1, parent, created;
      var vendor := Target(c, v);
      var subtotal, lines := PriceItems(c, items);
      var id := UpsertSubOrder(o, vendor, seqNo, lines, subtotal, now);
      if id == None {
        return;
      }
      if parent == None {
        nextParent := UpsertGroup(o, now);
      }
      if nextParent.Some? {
        SetParent(Key(o.id, vendor), nextParent.value);
      }
      nextCreated := created + 1;
    }
  }

  function UnresolvedItems(c: Catalog, items: seq<Item>, vs: seq<int>): seq<Item> {
    if vs == [] then []
    else
      var v := vs[|vs| - 1];
      UnresolvedItems(c, items, vs[..|vs| - 1]) + if v in c.vendors then [] else ItemsOf(items, v)
  }

  lemma VisitedGrows(vs: seq<int>, v: int, all: set<int>, todo: set<int>)
    requires v in todo && todo <= all && Distinct(vs) && Elements(vs) == all - todo
    ensures Distinct(vs + [v]) && Elements(vs + [v]) == all - (todo - {v})
  {
    var was, us := Elements(vs), vs + [v];
    var now := Elements(us);
    forall x | x in was ensures x in now {
      var j :| 0 <= j < |vs| && vs[j] == x;
      assert us[j] == x;
    }
    assert us[|vs|] in now;
    assert now == was + {v};
    assert v !in was;
    forall i, j | 0 <= i < j < |us| ensures us[i] != us[j] {
      if j == |vs| { assert vs[i] in was; }
    }
  }

  // ---------- One turn of the loop ----------

  predicate SameButTime(a: Row, b: Row) {
    a.(updatedAt := b.updatedAt) == b
  }

  /** The row a turn writes for its part, before it is linked. */
  function Written(p: Progress, c: Catalog, o: Order, v: int, now: int): Row {
    var k, items := Key(o.id, Target(c, v)), ItemsOf(o.items, v);
    if k in p.db.rows then Refreshed(p.db.rows[k], o, ToLines(c, items), now)
    else SubRow(p.db.nextId, o, p.seqNo, ToLines(c, items), Subtotal(items))
  }

  /** A turn that is not refused: its part, then the group row if there is no parent yet, then the link. */
  ghost predicate Turned(p: Progress, q: Progress, c: Catalog, o: Order, v: int, now: int) {
    var k, g := Key(o.id, Target(c, v)), Key(o.id, 0);
    && (forall x :: x in q.db.rows <==> x in p.db.rows || x == k || x == g)
    && q.seqNo == p.seqNo + 1
    && q.parent == (if p.parent.Some? then p.parent else Some(q.db.rows[g].id))
    && (forall x :: x in p.db.rows && x != k && x != g ==> q.db.rows[x] == p.db.rows[x])
    && (forall x :: x in p.db.rows ==>
          q.db.rows[x].id == p.db.rows[x].id && q.db.rows[x].reference == p.db.rows[x].reference)
    && SameButTime(q.db.rows[k], Written(p, c, o, v, now).(parent := q.parent))
    && (k != g && g in p.db.rows ==> SameButTime(q.db.rows[g], p.db.rows[g]))
    && (k != g && g !in p.db.rows ==> q.db.rows[g] == GroupRow(p.db.nextId + 1, o))
    && q.db.nextId == p.db.nextId + if p.parent.Some? then 1 else 2
  }

  /** The rows after a turn, case by case. */
  function RowsAfter(p: Progress, c: Catalog, o: Order, v: int, now: int): map<Key, Row> {
    var rows, k, g := p.db.rows, Key(o.id, Target(c, v)), Key(o.id, 0);
    var w := Written(p, c, o, v, now);
    if p.parent.Some? then rows[k := w.(parent := p.parent)]
    else if k == g then rows[k := w.(updatedAt := now).(parent := Some(w.id))]
    else if g in rows then rows[g := rows[g].(updatedAt := now)][k := w.(parent := Some(rows[g].id))]
    else rows[g := GroupRow(p.db.nextId + 1, o)][k := w.(parent := Some(p.db.nextId + 1))]
  }

  lemma {:induction false} TurnWrites(p: Progress, c: Catalog, o: Order, v: int, now: int)
    requires Key(o.id, Target(c, v)) !in p.db.rows ==> !Taken(p.db.rows, SubRef(o.id, p.seqNo))
    requires p.parent.None? && Key(o.id, 0) !in p.db.rows ==> !Taken(p.db.rows, GroupRef(o.id))
    requires p.parent.Some? ==> Key(o.id, 0) in p.db.rows
    ensures Turned(p, Visit(p, c, o, v, now), c, o, v, now)
  {
    hide *;
    VisitWrites(p, c, o, v, now);
    RowsAfterTurn(p, Visit(p, c, o, v, now), c, o, v, now);
  }

  lemma RowsAfterTurn(p: Progress, q: Progress, c: Catalog, o: Order, v: int, now: int)
    requires p.parent.Some? ==> Key(o.id, 0) in p.db.rows
    requires q.db == Db(RowsAfter(p, c, o, v, now), p.db.nextId + if p.parent.Some? then 1 else 2)
    requires q.seqNo == p.seqNo + 1
    requires p.parent.Some? ==> q.parent == p.parent
    requires p.parent.None? ==> Key(o.id, 0) in q.db.rows && q.parent == Some(q.db.rows[Key(o.id, 0)].id)
    ensures Turned(p, q, c, o, v, now)
  {
    hide Turned, Written, Target, SameButTime;
    var rows, k, g, w := p.db.rows, Key(o.id, Target(c, v)), Key(o.id, 0), Written(p, c, o, v, now);
    if p.parent.Some? {
      LinkedTurn(p, q, c, o, v, now);
    } else if k == g {
      GroupTurn(p, q, c, o, v, now);
    } else {
      var group := if g in rows then rows[g].(updatedAt := now) else GroupRow(p.db.nextId + 1, o);
      FirstTurnWithGroup(p, q, c, o, v, now, group);
    }
  }

  lemma LinkedTurn(p: Progress, q: Progress, c: Catalog, o: Order, v: int, now: int)
    requires p.parent.Some? && Key(o.id, 0) in p.db.rows && q.seqNo == p.seqNo + 1 && q.parent == p.parent
    requires q.db == Db(p.db.rows[Key(o.id, Target(c, v)) := Written(p, c, o, v, now).(parent := p.parent)],
                        p.db.nextId + 1)
    ensures Turned(p, q, c, o, v, now)
  {
    WrittenKeeps(p, c, o, v, now);
    hide Written, Target;
  }

  lemma GroupTurn(p: Progress, q: Progress, c: Catalog, o: Order, v: int, now: int)
    requires p.parent.None? && Target(c, v) == 0 && q.seqNo == p.seqNo + 1
    requires q.parent == Some(Written(p, c, o, v, now).id)
    requires q.db == Db(p.db.rows[Key(o.id, 0) := Written(p, c, o, v, now).(updatedAt := now).(parent := q.parent)],
                        p.db.nextId + 2)
    ensures Turned(p, q, c, o, v, now)
  {
    WrittenKeeps(p, c, o, v, now);
    Touched(Written(p, c, o, v, now), now, q.parent);
    hide Written, Target, SameButTime;
  }

  lemma FirstTurnWithGroup(p: Progress, q: Progress, c: Catalog, o: Order, v: int, now: int, group: Row)
    requires p.parent.None? && Target(c, v) != 0 && q.seqNo == p.seqNo + 1 && q.parent == Some(group.id)
    requires if Key(o.id, 0) in p.db.rows then group == p.db.rows[Key(o.id, 0)].(updatedAt := now)
             else group == GroupRow(p.db.nextId + 1, o)
    requires q.db == Db(p.db.rows[Key(o.id, 0) := group]
                               [Key(o.id, Target(c, v)) := Written(p, c, o, v, now).(parent := q.parent)],
                        p.db.nextId + 2)
    ensures Turned(p, q, c, o, v, now)
  {
    var k, g, w := Key(o.id, Target(c, v)), Key(o.id, 0), Written(p, c, o, v, now).(parent := q.parent);
    WrittenKeeps(p, c, o, v, now);
    Touched(Written(p, c, o, v, now), now, q.parent);
    assert g in p.db.rows ==> SameButTime(group, p.db.rows[g]);
    hide Written, Target, SameButTime, GroupRow;
    TwoWrites(p.db.rows, q.db.rows, g, group, k, w);
  }

  lemma TwoWrites(a: map<Key, Row>, b: map<Key, Row>, g: Key, group: Row, k: Key, w: Row)
    requires g != k && b == a[g := group][k := w]
    requires g in a ==> group.id == a[g].id && group.reference == a[g].reference
    requires k in a ==> w.id == a[k].id && w.reference == a[k].reference
    ensures b[g] == group && b[k] == w
    ensures forall x :: x in b <==> x in a || x == k || x == g
    ensures forall x :: x in a && x != k && x != g ==> b[x] == a[x]
    ensures forall x :: x in a ==> b[x].id == a[x].id && b[x].reference == a[x].reference
  {
  }

  lemma WrittenKeeps(p: Progress, c: Catalog, o: Order, v: int, now: int)
    ensures var k, w := Key(o.id, Target(c, v)), Written(p, c, o, v, now);
            if k in p.db.rows then w.id == p.db.rows[k].id && w.reference == p.db.rows[k].reference
            else w.id == p.db.nextId && w.reference == SubRef(o.id, p.seqNo)
  {
  }

  lemma Touched(row: Row, now: int, parent: Option<nat>)
    ensures SameButTime(row, row) && SameButTime(row.(updatedAt := now), row)
    ensures SameButTime(row.(parent := parent), row.(parent := parent))
    ensures SameButTime(row.(updatedAt := now).(parent := parent), row.(parent := parent))
  {
  }

  lemma VisitWrites(p: Progress, c: Catalog, o: Order, v: int, now: int)
    requires Key(o.id, Target(c, v)) !in p.db.rows ==> !Taken(p.db.rows, SubRef(o.id, p.seqNo))
    requires p.parent.None? && Key(o.id, 0) !in p.db.rows ==> !Taken(p.db.rows, GroupRef(o.id))
    ensures var q := Visit(p, c, o, v, now);
            && q.db == Db(RowsAfter(p, c, o, v, now), p.db.nextId + if p.parent.Some? then 1 else 2)
            && q.seqNo == p.seqNo + 1
            && (p.parent.Some? ==> q.parent == p.parent)
            && (p.parent.None? ==> Key(o.id, 0) in q.db.rows && q.parent == Some(q.db.rows[Key(o.id, 0)].id))
  {
    hide ItemsOf, ToLines, Subtotal, Written, Refreshed, SubRow, Target, Taken, PutSub;
    var k, g := Key(o.id, Target(c, v)), Key(o.id, 0);
    WrittenKeeps(p, c, o, v, now);
    PartWrites(p, c, o, v, now);
    if p.parent.None? && g !in p.db.rows && k != g {
      FreeAfter(p.db.rows, k, Written(p, c, o, v, now), GroupRef(o.id));
    }
    if p.parent.Some? {
    } else if k == g {
    } else if g in p.db.rows {
    } else {
    }
  }

  lemma PartWrites(p: Progress, c: Catalog, o: Order, v: int, now: int)
    requires Key(o.id, Target(c, v)) !in p.db.rows ==> !Taken(p.db.rows, SubRef(o.id, p.seqNo))
    ensures var items := ItemsOf(o.items, v);
            PutSub(p.db, o, Target(c, v), p.seqNo, ToLines(c, items), Subtotal(items), now) ==
            Db(p.db.rows[Key(o.id, Target(c, v)) := Written(p, c, o, v, now)], p.db.nextId + 1)
  {
    hide ItemsOf, ToLines, Subtotal, SubRow, Refreshed, Target;
  }

  lemma FreeAfter(rows: map<Key, Row>, k: Key, row: Row, r: Reference)
    requires !Taken(rows, r) && (row.reference == r ==> k in rows && rows[k].reference == r)
    ensures !Taken(rows[k := row], r)
  {
  }

  // ---------- A first import ----------

  /** Nothing of this order is stored, and no row has taken one of its references. */
  predicate Fresh(rows: map<Key, Row>, order: int) {
    forall k :: k in rows ==> k.order != order && rows[k].reference.order != order
  }

  function Targets(c: Catalog, vs: seq<int>): set<int> {
    set i | 0 <= i < |vs| :: Target(c, vs[i])
  }

  /** Different shops of the order resolve to different vendors. */
  predicate KeptApart(c: Catalog, vs: seq<int>) {
    forall i, j :: 0 <= i < j < |vs| ==> Target(c, vs[i]) != Target(c, vs[j])
  }

  predicate Untouched(start: map<Key, Row>, rows: map<Key, Row>, order: int) {
    && (forall k :: k in start && k.order != order ==> k in rows && rows[k] == start[k])
    && (forall k :: k in rows && k.order != order ==> k in start)
  }

  /** The references the first `turns` turns may have used for key `k`. */
  predicate GivenOut(r: Reference, k: Key, turns: nat) {
    && r.order == k.order
    && match r
       case GroupRef(_) => k.vendor == 0
       case SubRef(_, number) => 1 <= number <= turns
  }

  /** Which rows of the order its first turns have written, and who their parent is. */
  predicate Placed(start: map<Key, Row>, p: Progress, c: Catalog, o: Order, vs: seq<int>) {
    var rows := p.db.rows;
    && p.seqNo == |vs| + 1
    && Untouched(start, rows, o.id)
    && (forall k :: k in rows && k.order == o.id ==> vs != [] && (k.vendor == 0 || k.vendor in Targets(c, vs)))
    && (forall t :: t in Targets(c, vs) ==> Key(o.id, t) in rows)
    && (vs == [] ==> p.parent == None)
    && (vs != [] ==> Key(o.id, 0) in rows && p.parent == Some(rows[Key(o.id, 0)].id))
  }

  predicate Referenced(p: Progress, o: Order) {
    && p.seqNo >= 1
    && forall k :: k in p.db.rows && k.order == o.id ==> GivenOut(p.db.rows[k].reference, k, p.seqNo - 1)
  }

  lemma {:induction false} FirstTurn(start: map<Key, Row>, p: Progress, c: Catalog, o: Order, vs: seq<int>, v: int,
                                     now: int)
    requires Fresh(start, o.id) && Placed(start, p, c, o, vs) && Referenced(p, o)
    ensures Turned(p, Visit(p, c, o, v, now), c, o, v, now)
  {
    var rows := p.db.rows;
    assert !Taken(rows, SubRef(o.id, p.seqNo));
    assert Key(o.id, 0) !in rows ==> !Taken(rows, GroupRef(o.id));
    hide *;
    TurnWrites(p, c, o, v, now);
  }

  lemma {:induction false} PlacedTurns(start: map<Key, Row>, p: Progress, q: Progress, c: Catalog, o: Order,
                                       vs: seq<int>, v: int, now: int)
    requires Placed(start, p, c, o, vs) && Turned(p, q, c, o, v, now)
    ensures Placed(start, q, c, o, vs + [v])
  {
    hide Written, Target, Targets;
    TargetsGrow(c, vs, v);
    var k, g := Key(o.id, Target(c, v)), Key(o.id, 0);
    assert forall x :: x in q.db.rows ==> x in p.db.rows || x == k || x == g;
    assert k in q.db.rows && g in q.db.rows;
  }

  lemma ReferencedTurns(p: Progress, q: Progress, c: Catalog, o: Order, v: int, now: int)
    requires Referenced(p, o) && Turned(p, q, c, o, v, now)
    ensures Referenced(q, o)
  {
    hide ItemsOf, ToLines, Subtotal;
    var k, g := Key(o.id, Target(c, v)), Key(o.id, 0);
    forall x | x in q.db.rows && x.order == o.id ensures GivenOut(q.db.rows[x].reference, x, q.seqNo - 1) {
      assert x in p.db.rows || x == k || x == g;
    }
  }

  lemma TargetsGrow(c: Catalog, vs: seq<int>, v: int)
    ensures Targets(c, vs + [v]) == Targets(c, vs) + {Target(c, v)}
  {
    var us := vs + [v];
    forall t | t in Targets(c, vs) ensures t in Targets(c, us) {
      var i :| 0 <= i < |vs| && Target(c, vs[i]) == t;
      assert us[i] == vs[i];
    }
    assert us[|vs|] == v;
  }

  lemma {:induction false} FirstImportPlaces(db: Db, c: Catalog, o: Order, vs: seq<int>, now: int)
    requires Fresh(db.rows, o.id)
    ensures Placed(db.rows, VisitAll(db, c, o, vs, now), c, o, vs) && Referenced(VisitAll(db, c, o, vs, now), o)
    ensures vs != [] ==>
              Turned(VisitAll(db, c, o, vs[..|vs| - 1], now), VisitAll(db, c, o, vs, now), c, o, vs[|vs| - 1], now)
  {
    hide Visit, Turned;
    if vs != [] {
      hide Placed, Referenced;
      var n := |vs| - 1;
      var p, q := VisitAll(db, c, o, vs[..n], now), VisitAll(db, c, o, vs, now);
      FirstImportPlaces(db, c, o, vs[..n], now);
      FirstTurn(db.rows, p, c, o, vs[..n], vs[n], now);
      PlacedTurns(db.rows, p, q, c, o, vs[..n], vs[n], now);
      ReferencedTurns(p, q, c, o, vs[n], now);
      assert vs == vs[..n] + [vs[n]];
    }
  }

  /** The place at which a vendor is first written to. */
  function FirstPlace(c: Catalog, vs: seq<int>, vendor: int): (place: Option<nat>)
    ensures place.Some? ==> place.value < |vs| && Target(c, vs[place.value]) == vendor
  {
    if vs == [] then None
    else
      var n := |vs| - 1;
      var past := FirstPlace(c, vs[..n], vendor);
      if past.Some? then past else if Target(c, vs[n]) == vendor then Some(n) else None
  }

  /** The shop that writes to a vendor last. */
  function WriterOf(c: Catalog, vs: seq<int>, vendor: int): Option<int> {
    if vs == [] then None
    else if Target(c, vs[|vs| - 1]) == vendor then Some(vs[|vs| - 1])
    else WriterOf(c, vs[..|vs| - 1], vendor)
  }

  lemma {:induction false} WrittenVendors(c: Catalog, vs: seq<int>, vendor: int)
    ensures FirstPlace(c, vs, vendor).Some? <==> vendor in Targets(c, vs)
    ensures WriterOf(c, vs, vendor).Some? <==> vendor in Targets(c, vs)
  {
    hide Target;
    if vs != [] {
      var n := |vs| - 1;
      assert vs == vs[..n] + [vs[n]];
      TargetsGrow(c, vs[..n], vs[n]);
      WrittenVendors(c, vs[..n], vendor);
    }
  }

  lemma WritersGrow(c: Catalog, vs: seq<int>, v: int, vendor: int)
    ensures WriterOf(c, vs + [v], vendor) == if Target(c, v) == vendor then Some(v) else WriterOf(c, vs, vendor)
    ensures FirstPlace(c, vs + [v], vendor) ==
            if FirstPlace(c, vs, vendor).Some? then FirstPlace(c, vs, vendor)
            else if Target(c, v) == vendor then Some(|vs|) else None
  {
    assert (vs + [v])[..|vs|] == vs;
  }

  predicate HasStages(row: Row, o: Order) {
    && row.status == LegacyStatus(o.status)
    && row.payment == PaymentStatus(o.status)
    && row.stage == FulfillmentStage(o.status)
  }

  /** What a first import makes of a vendor's row: the lines are those of the last shop that writes to it, the
      reference and the amounts those of the first, unless the group row was there before. */
  predicate HoldsRow(row: Row, c: Catalog, o: Order, vs: seq<int>, vendor: int, parent: Option<nat>) {
    var first, last := FirstPlace(c, vs, vendor), WriterOf(c, vs, vendor);
    && first.Some? && last.Some?
    && row.lines == ToLines(c, ItemsOf(o.items, last.value))
    && HasStages(row, o)
    && row.customer == o.customer
    && row.createdAt == o.createdAt
    && row.parent == parent
    && if first.value == 0 || vendor != 0 then
         var amount := Subtotal(ItemsOf(o.items, vs[first.value]));
         && row.reference == SubRef(o.id, first.value + 1)
         && row.subtotal == amount
         && row.shipping == o.shipping
         && row.total == amount + o.shipping
       else
         && row.reference == GroupRef(o.id)
         && row.subtotal == row.shipping == row.total == 0.0
  }

  /** The row that gathers the parts of an order: no lines, no amounts, no parent. */
  predicate IsGroup(row: Row, o: Order) {
    && row.reference == GroupRef(o.id)
    && row.customer == o.customer
    && row.status == "group" && row.payment == row.stage == "pending"
    && row.lines == []
    && row.subtotal == row.shipping == row.total == 0.0
    && row.parent == None
    && row.createdAt == o.createdAt
  }

  predicate Filled(p: Progress, c: Catalog, o: Order, vs: seq<int>) {
    var rows := p.db.rows;
    && (forall t :: t in Targets(c, vs) ==> Key(o.id, t) in rows && HoldsRow(rows[Key(o.id, t)], c, o, vs, t, p.parent))
    && (vs != [] && 0 !in Targets(c, vs) ==> Key(o.id, 0) in rows && IsGroup(rows[Key(o.id, 0)], o))
  }

  lemma FilledTurns(start: map<Key, Row>, p: Progress, q: Progress, c: Catalog, o: Order, vs: seq<int>, v: int,
                    now: int)
    requires Fresh(start, o.id) && Placed(start, p, c, o, vs) && Filled(p, c, o, vs) && Turned(p, q, c, o, v, now)
    ensures Filled(q, c, o, vs + [v])
  {
    hide ItemsOf, ToLines, Subtotal, Target, Targets, HasStages, FirstPlace, WriterOf, Turned, Placed, Filled, Written;
    TargetsGrow(c, vs, v);
    forall t | t in Targets(c, vs + [v])
      ensures Key(o.id, t) in q.db.rows && HoldsRow(q.db.rows[Key(o.id, t)], c, o, vs + [v], t, q.parent)
    {
      if t == Target(c, v) {
        OwnRowTurns(start, p, q, c, o, vs, v, now);
      } else {
        OtherRowTurns(start, p, q, c, o, vs, v, now, t);
      }
    }
    if 0 !in Targets(c, vs + [v]) { GroupRowTurns(start, p, q, c, o, vs, v, now); }
    FilledAgain(q, c, o, vs + [v]);
  }

  lemma FilledAgain(q: Progress, c: Catalog, o: Order, us: seq<int>)
    requires forall t :: t in Targets(c, us) ==>
               Key(o.id, t) in q.db.rows && HoldsRow(q.db.rows[Key(o.id, t)], c, o, us, t, q.parent)
    requires 0 !in Targets(c, us) ==> Key(o.id, 0) in q.db.rows && IsGroup(q.db.rows[Key(o.id, 0)], o)
    ensures Filled(q, c, o, us)
  {
  }

  lemma OtherRowTurns(start: map<Key, Row>, p: Progress, q: Progress, c: Catalog, o: Order, vs: seq<int>, v: int,
                      now: int, t: int)
    requires Placed(start, p, c, o, vs) && Filled(p, c, o, vs) && Turned(p, q, c, o, v, now)
    requires t in Targets(c, vs) && t != Target(c, v)
    ensures Key(o.id, t) in q.db.rows && HoldsRow(q.db.rows[Key(o.id, t)], c, o, vs + [v], t, q.parent)
  {
    hide ItemsOf, ToLines, Subtotal, Target, Targets, FirstPlace, WriterOf, Written;
    WritersGrow(c, vs, v, t);
    var k := Key(o.id, t);
    assert vs != [] by { NotEmpty(c, vs, t); }
    assert HoldsRow(p.db.rows[k], c, o, vs, t, p.parent);
    assert SameButTime(q.db.rows[k], p.db.rows[k]);
  }

  lemma NotEmpty(c: Catalog, vs: seq<int>, t: int)
    requires t in Targets(c, vs)
    ensures vs != []
  {
  }

  lemma {:induction false} OwnRowTurns(start: map<Key, Row>, p: Progress, q: Progress, c: Catalog, o: Order,
                                       vs: seq<int>, v: int, now: int)
    requires Fresh(start, o.id) && Placed(start, p, c, o, vs) && Filled(p, c, o, vs) && Turned(p, q, c, o, v, now)
    ensures var t := Target(c, v);
            Key(o.id, t) in q.db.rows && HoldsRow(q.db.rows[Key(o.id, t)], c, o, vs + [v], t, q.parent)
  {
    hide ItemsOf, ToLines, Subtotal, Target, Targets, FirstPlace, WriterOf, LegacyStatus, PaymentStatus,
      FulfillmentStage;
    var t := Target(c, v);
    var k := Key(o.id, t);
    WritersGrow(c, vs, v, t);
    WrittenVendors(c, vs, t);
    if t in Targets(c, vs) {
      assert HoldsRow(p.db.rows[k], c, o, vs, t, p.parent);
    } else if k in p.db.rows {
      assert t == 0 && IsGroup(p.db.rows[k], o);
    } else {
      assert t != 0 || vs == [];
    }
  }

  lemma GroupRowTurns(start: map<Key, Row>, p: Progress, q: Progress, c: Catalog, o: Order, vs: seq<int>, v: int,
                      now: int)
    requires Fresh(start, o.id) && Placed(start, p, c, o, vs) && Filled(p, c, o, vs) && Turned(p, q, c, o, v, now)
    requires 0 !in Targets(c, vs + [v])
    ensures Key(o.id, 0) in q.db.rows && IsGroup(q.db.rows[Key(o.id, 0)], o)
  {
    hide ItemsOf, ToLines, Subtotal, Target, Targets, Written;
    TargetsGrow(c, vs, v);
  }

  /** Whatever the shops resolve to, a first import leaves these rows. */
  lemma {:induction false} FirstImportFills(db: Db, c: Catalog, o: Order, vs: seq<int>, now: int)
    requires Fresh(db.rows, o.id)
    ensures Filled(VisitAll(db, c, o, vs, now), c, o, vs)
  {
    hide Visit, Turned, Placed, Referenced, Filled, Targets;
    if vs == [] {
      NothingFilled(VisitAll(db, c, o, vs, now), c, o);
    } else {
      var n := |vs| - 1;
      var p, q := VisitAll(db, c, o, vs[..n], now), VisitAll(db, c, o, vs, now);
      FirstImportFills(db, c, o, vs[..n], now);
      FirstImportPlaces(db, c, o, vs[..n], now);
      FirstImportPlaces(db, c, o, vs, now);
      FilledTurns(db.rows, p, q, c, o, vs[..n], vs[n], now);
      assert vs == vs[..n] + [vs[n]];
    }
  }

  lemma NothingFilled(p: Progress, c: Catalog, o: Order)
    ensures Filled(p, c, o, [])
  {
  }

  // ---------- Shops with a vendor of their own ----------

  /** No other shop of the order resolves to the same vendor as the `i`-th. */
  predicate Alone(c: Catalog, vs: seq<int>, i: nat)
    requires i < |vs|
  {
    forall j :: 0 <= j < |vs| && j != i ==> Target(c, vs[j]) != Target(c, vs[i])
  }

  lemma {:induction false} AloneWrites(c: Catalog, vs: seq<int>, i: nat)
    requires i < |vs| && Alone(c, vs, i)
    ensures FirstPlace(c, vs, Target(c, vs[i])) == Some(i) && WriterOf(c, vs, Target(c, vs[i])) == Some(vs[i])
  {
    var n := |vs| - 1;
    var t := Target(c, vs[i]);
    if i == n {
      NotWritten(c, vs[..n], t);
    } else {
      assert forall j :: 0 <= j < n ==> vs[..n][j] == vs[j];
      AloneWrites(c, vs[..n], i);
    }
  }

  lemma {:induction false} NotWritten(c: Catalog, vs: seq<int>, vendor: int)
    requires forall j :: 0 <= j < |vs| ==> Target(c, vs[j]) != vendor
    ensures FirstPlace(c, vs, vendor) == None && WriterOf(c, vs, vendor) == None
  {
    if vs != [] { NotWritten(c, vs[..|vs| - 1], vendor); }
  }

  /** The row of the `i`-th shop visited, when no other shop shares its vendor. */
  predicate HoldsPart(row: Row, c: Catalog, o: Order, v: int, i: nat, parent: Option<nat>) {
    var items := ItemsOf(o.items, v);
    && row.lines == ToLines(c, items)
    && HasStages(row, o)
    && row.customer == o.customer
    && row.parent == parent
    && if i == 0 || Target(c, v) != 0 then
         && row.reference == SubRef(o.id, i + 1)
         && row.subtotal == Subtotal(items)
         && row.shipping == o.shipping
         && row.total == Subtotal(items) + o.shipping
       else
         && row.reference == GroupRef(o.id)
         && row.subtotal == row.shipping == row.total == 0.0
  }

  /** A shop with a vendor of its own gets a row of its own. */
  lemma {:induction false} AloneHoldsPart(db: Db, c: Catalog, o: Order, vs: seq<int>, now: int, i: nat)
    requires Fresh(db.rows, o.id) && i < |vs| && Alone(c, vs, i)
    ensures var p, k := VisitAll(db, c, o, vs, now), Key(o.id, Target(c, vs[i]));
            k in p.db.rows && HoldsPart(p.db.rows[k], c, o, vs[i], i, p.parent)
  {
    hide VisitAll, Fresh, ItemsOf, Subtotal, ToLines, Target, HasStages;
    FirstImportFills(db, c, o, vs, now);
    AloneWrites(c, vs, i);
    var p := VisitAll(db, c, o, vs, now);
    assert Target(c, vs[i]) in Targets(c, vs);
    assert HoldsRow(p.db.rows[Key(o.id, Target(c, vs[i]))], c, o, vs, Target(c, vs[i]), p.parent);
  }

  /** The subtotals stored for the parts, in the order of the visits. */
  function StoredSubtotals(rows: map<Key, Row>, c: Catalog, o: Order, vs: seq<int>): real {
    if vs == [] then 0.0
    else
      var k := Key(o.id, Target(c, vs[|vs| - 1]));
      StoredSubtotals(rows, c, o, vs[..|vs| - 1]) + if k in rows then rows[k].subtotal else 0.0
  }

  lemma {:induction false} StoredSubtotalsAre(rows: map<Key, Row>, c: Catalog, o: Order, vs: seq<int>)
    requires forall i :: 0 <= i < |vs| ==>
               Key(o.id, Target(c, vs[i])) in rows &&
               rows[Key(o.id, Target(c, vs[i]))].subtotal == Subtotal(ItemsOf(o.items, vs[i]))
    ensures StoredSubtotals(rows, c, o, vs) == SubtotalsOf(o.items, vs)
  {
    hide Subtotal, ItemsOf, Target;
    if vs != [] {
      var n := |vs| - 1;
      forall i | 0 <= i < n
        ensures Key(o.id, Target(c, vs[..n][i])) in rows
        ensures rows[Key(o.id, Target(c, vs[..n][i]))].subtotal == Subtotal(ItemsOf(o.items, vs[..n][i]))
      {
        assert vs[..n][i] == vs[i];
      }
      StoredSubtotalsAre(rows, c, o, vs[..n]);
    }
  }

  /** When the shops resolve to distinct vendors other than 0, the import stores exactly the order, in every
      iteration order: one linked row per shop with that shop's lines, one group row, the order's total. */
  lemma FirstImportStoresTheOrder(db: Db, c: Catalog, o: Order, vs: seq<int>, now: int)
    requires Fresh(db.rows, o.id) && Visits(vs, o.items) && vs != [] && KeptApart(c, vs) && 0 !in Targets(c, vs)
    ensures var rows := VisitAll(db, c, o, vs, now).db.rows;
            && Untouched(db.rows, rows, o.id)
            && (forall k: Key :: k.order == o.id ==> (k in rows <==> k.vendor in Targets(c, vs) + {0}))
            && IsGroup(rows[Key(o.id, 0)], o)
            && (forall i :: 0 <= i < |vs| ==>
                  HoldsPart(rows[Key(o.id, Target(c, vs[i]))], c, o, vs[i], i, Some(rows[Key(o.id, 0)].id)))
            && StoredSubtotals(rows, c, o, vs) == Subtotal(o.items)
  {
    hide VisitAll, Fresh, ItemsOf, Subtotal, ToLines, Target, HasStages, HoldsRow;
    FirstImportPlaces(db, c, o, vs, now);
    FirstImportFills(db, c, o, vs, now);
    SplitLosesNothing(o.items, vs);
    var p := VisitAll(db, c, o, vs, now);
    forall i | 0 <= i < |vs|
      ensures Key(o.id, Target(c, vs[i])) in p.db.rows
      ensures HoldsPart(p.db.rows[Key(o.id, Target(c, vs[i]))], c, o, vs[i], i, p.parent)
      ensures p.db.rows[Key(o.id, Target(c, vs[i]))].subtotal == Subtotal(ItemsOf(o.items, vs[i]))
    {
      assert Target(c, vs[i]) in Targets(c, vs);
      AloneHoldsPart(db, c, o, vs, now, i);
    }
    StoredSubtotalsAre(p.db.rows, c, o, vs);
  }

  // ---------- What the import reports ----------

  /** How many items are of a shop that was never imported. */
  function UnknownItems(c: Catalog, items: seq<Item>): nat {
    if items == [] then 0
    else
      UnknownItems(c, items[..|items| - 1]) + if items[|items| - 1].wcVendor in c.vendors then 0 else 1
  }

  lemma {:induction false} UnresolvedGain(c: Catalog, items: seq<Item>, li: Item, vs: seq<int>)
    requires Distinct(vs)
    ensures |UnresolvedItems(c, items + [li], vs)| == |UnresolvedItems(c, items, vs)| +
            if li.wcVendor in Elements(vs) && li.wcVendor !in c.vendors then 1 else 0
  {
    hide ItemsOf;
    if vs != [] {
      var n := |vs| - 1;
      UnresolvedGain(c, items, li, vs[..n]);
      ItemsGain(items, li, vs[n]);
      assert vs == vs[..n] + [vs[n]];
      ElementsGrow(vs[..n], vs[n]);
      assert forall i :: 0 <= i < n ==> vs[..n][i] != vs[n];
    }
  }

  lemma {:induction false} NothingUnresolved(c: Catalog, vs: seq<int>)
    ensures UnresolvedItems(c, [], vs) == []
  {
    if vs != [] { NothingUnresolved(c, vs[..|vs| - 1]); }
  }

  lemma {:induction false} UnresolvedUpTo(c: Catalog, items: seq<Item>, vs: seq<int>)
    requires Distinct(vs) && Shops(items) <= Elements(vs)
    ensures |UnresolvedItems(c, items, vs)| == UnknownItems(c, items)
  {
    hide UnresolvedItems;
    if items == [] {
      NothingUnresolved(c, vs);
    } else {
      var n := |items| - 1;
      ShopsGrow(items, n);
      assert items == items[..n] + [items[n]];
      UnresolvedUpTo(c, items[..n], vs);
      UnresolvedGain(c, items[..n], items[n], vs);
    }
  }

  /** A first import reports as created one row per shop, and as unresolved the items of unknown shops. */
  lemma ReportIsExact(db: Db, c: Catalog, o: Order, vs: seq<int>, now: int)
    requires Visits(vs, o.items)
    ensures |UnresolvedItems(c, o.items, vs)| == UnknownItems(c, o.items)
    ensures Fresh(db.rows, o.id) ==> VisitAll(db, c, o, vs, now).created == |vs|
  {
    UnresolvedUpTo(c, o.items, vs);
    if Fresh(db.rows, o.id) { CreatedUpTo(db, c, o, vs, now); }
  }

  lemma {:induction false} CreatedUpTo(db: Db, c: Catalog, o: Order, vs: seq<int>, now: int)
    requires Fresh(db.rows, o.id)
    ensures VisitAll(db, c, o, vs, now).created == |vs|
  {
    hide Visit, Fresh, Placed, Referenced;
    if vs != [] {
      var n := |vs| - 1;
      var p := VisitAll(db, c, o, vs[..n], now);
      CreatedUpTo(db, c, o, vs[..n], now);
      FirstImportPlaces(db, c, o, vs[..n], now);
      FreeReference(db.rows, p, c, o, vs[..n]);
      CreatedOne(p, c, o, vs[n], now);
    }
  }

  lemma FreeReference(start: map<Key, Row>, p: Progress, c: Catalog, o: Order, vs: seq<int>)
    requires Fresh(start, o.id) && Placed(start, p, c, o, vs) && Referenced(p, o)
    ensures !Taken(p.db.rows, SubRef(o.id, p.seqNo))
  {
  }

  lemma CreatedOne(p: Progress, c: Catalog, o: Order, v: int, now: int)
    requires !Taken(p.db.rows, SubRef(o.id, p.seqNo))
    ensures Visit(p, c, o, v, now).created == p.created + 1
  {
    PartWrites(p, c, o, v, now);
    hide PutSub, PutGroup, Link, Taken, Target, Written, ItemsOf, ToLines, Subtotal;
  }

  // ---------- When the resolution falls short ----------

  /** Unresolved shops take the group row's place, and only then is there none. */
  lemma {:induction false} GroupRowExactly(db: Db, c: Catalog, o: Order, vs: seq<int>, now: int)
    requires Fresh(db.rows, o.id) && vs != []
    ensures var rows := VisitAll(db, c, o, vs, now).db.rows;
            && Key(o.id, 0) in rows
            && (IsGroup(rows[Key(o.id, 0)], o) <==> 0 !in Targets(c, vs))
            && (rows[Key(o.id, 0)].parent == Some(rows[Key(o.id, 0)].id) <==> 0 in Targets(c, vs))
  {
    hide VisitAll, Fresh, ItemsOf, Subtotal, ToLines, Target, FirstPlace, WriterOf;
    FirstImportPlaces(db, c, o, vs, now);
    FirstImportFills(db, c, o, vs, now);
    var p := VisitAll(db, c, o, vs, now);
    if 0 in Targets(c, vs) {
      assert HoldsRow(p.db.rows[Key(o.id, 0)], c, o, vs, 0, p.parent);
    }
  }

  /** What the status of the order becomes on every row written for it. */
  lemma StatusesStored(db: Db, c: Catalog, o: Order, vs: seq<int>, now: int, t: int)
    requires Fresh(db.rows, o.id) && t in Targets(c, vs)
    ensures Key(o.id, t) in VisitAll(db, c, o, vs, now).db.rows
    ensures var row := VisitAll(db, c, o, vs, now).db.rows[Key(o.id, t)];
            && (row.payment == "paid" <==> o.status == "processing" || o.status == "completed")
            && (row.payment == "failed" <==> o.status == "failed")
            && (row.payment == "refunded" <==> o.status == "refunded")
            && row.payment in {"paid", "failed", "refunded", "pending"}
            && (row.stage == "delivered" <==> o.status == "completed")
            && (row.stage == "preparing" <==> o.status == "processing")
            && (row.stage == "cancelled" <==> o.status == "failed" || o.status == "cancelled" || o.status == "refunded")
            && row.stage in {"delivered", "preparing", "cancelled", "pending"}
            && (row.status == "delivered" <==> o.status == "completed")
            && (row.status == "processing" <==> o.status == "processing")
            && (row.status == "cancelled" <==> o.status == "cancelled")
            && (row.status == "refunded" <==> o.status == "refunded")
            && (row.status == "payment_expired" <==> o.status == "failed")
            && row.status in {"delivered", "processing", "cancelled", "refunded", "payment_expired", "pending_payment"}
  {
    FirstImportFills(db, c, o, vs, now);
    var p := VisitAll(db, c, o, vs, now);
    assert HoldsRow(p.db.rows[Key(o.id, t)], c, o, vs, t, p.parent);
    assert HasStages(p.db.rows[Key(o.id, t)], o);
    hide VisitAll, Filled, HoldsRow, Fresh, Targets;
    StatusesAre(o.status);
    hide PaymentStatus, FulfillmentStage, LegacyStatus;
  }

  lemma StatusesAre(status: string)
    ensures var payment, stage, legacy := PaymentStatus(status), FulfillmentStage(status), LegacyStatus(status);
            && (payment == "paid" <==> status == "processing" || status == "completed")
            && (payment == "failed" <==> status == "failed")
            && (payment == "refunded" <==> status == "refunded")
            && payment in {"paid", "failed", "refunded", "pending"}
            && (stage == "delivered" <==> status == "completed")
            && (stage == "preparing" <==> status == "processing")
            && (stage == "cancelled" <==> status == "failed" || status == "cancelled" || status == "refunded")
            && stage in {"delivered", "preparing", "cancelled", "pending"}
            && (legacy == "delivered" <==> status == "completed")
            && (legacy == "processing" <==> status == "processing")
            && (legacy == "cancelled" <==> status == "cancelled")
            && (legacy == "refunded" <==> status == "refunded")
            && (legacy == "payment_expired" <==> status == "failed")
            && legacy in {"delivered", "processing", "cancelled", "refunded", "payment_expired", "pending_payment"}
  {
  }

  /** The vendors written to, each once, in the order they first appear. */
  function Owners(c: Catalog, vs: seq<int>): seq<int> {
    if vs == [] then []
    else
      var past, t := Owners(c, vs[..|vs| - 1]), Target(c, vs[|vs| - 1]);
      if t in past then past else past + [t]
  }

  function LinesAt(rows: map<Key, Row>, order: int, vendor: int): nat {
    if Key(order, vendor) in rows then |rows[Key(order, vendor)].lines| else 0
  }

  function StoredLines(rows: map<Key, Row>, order: int, vendors: seq<int>): nat {
    if vendors == [] then 0
    else StoredLines(rows, order, vendors[..|vendors| - 1]) + LinesAt(rows, order, vendors[|vendors| - 1])
  }

  lemma {:induction false} StoredLinesSame(a: map<Key, Row>, b: map<Key, Row>, order: int, vendors: seq<int>)
    requires forall i :: 0 <= i < |vendors| ==> LinesAt(a, order, vendors[i]) == LinesAt(b, order, vendors[i])
    ensures StoredLines(a, order, vendors) == StoredLines(b, order, vendors)
  {
    hide LinesAt;
    if vendors != [] {
      var n := |vendors| - 1;
      forall i | 0 <= i < n ensures LinesAt(a, order, vendors[..n][i]) == LinesAt(b, order, vendors[..n][i]) {
        assert vendors[..n][i] == vendors[i];
      }
      StoredLinesSame(a, b, order, vendors[..n]);
    }
  }

  lemma {:induction false} StoredLinesReplaced(a: map<Key, Row>, b: map<Key, Row>, order: int, vendors: seq<int>,
                                               at: nat)
    requires at < |vendors| && Distinct(vendors)
    requires forall i :: 0 <= i < |vendors| && i != at ==>
               LinesAt(a, order, vendors[i]) == LinesAt(b, order, vendors[i])
    ensures StoredLines(b, order, vendors) + LinesAt(a, order, vendors[at]) ==
            StoredLines(a, order, vendors) + LinesAt(b, order, vendors[at])
  {
    hide LinesAt;
    var n := |vendors| - 1;
    forall i | 0 <= i < n && i != at ensures LinesAt(a, order, vendors[..n][i]) == LinesAt(b, order, vendors[..n][i]) {
      assert vendors[..n][i] == vendors[i];
    }
    if at == n {
      StoredLinesSame(a, b, order, vendors[..n]);
    } else {
      StoredLinesReplaced(a, b, order, vendors[..n], at);
    }
  }

  lemma {:induction false} OwnersAre(c: Catalog, vs: seq<int>)
    ensures Distinct(Owners(c, vs)) && Elements(Owners(c, vs)) == Targets(c, vs)
  {
    hide Target;
    if vs != [] {
      var n := |vs| - 1;
      OwnersAre(c, vs[..n]);
      TargetsGrow(c, vs[..n], vs[n]);
      assert vs == vs[..n] + [vs[n]];
      var past, t := Owners(c, vs[..n]), Target(c, vs[n]);
      if t in past {
        assert t in Elements(past);
      } else {
        ElementsGrow(past, t);
      }
    }
  }

  lemma ElementsGrow(s: seq<int>, x: int)
    ensures Elements(s + [x]) == Elements(s) + {x}
  {
    var t := s + [x];
    forall y | y in Elements(s) ensures y in Elements(t) {
      var i :| 0 <= i < |s| && s[i] == y;
      assert t[i] == y;
    }
    assert t[|s|] == x;
  }

  lemma NewTarget(c: Catalog, vs: seq<int>, v: int)
    requires KeptApart(c, vs + [v])
    ensures Target(c, v) !in Targets(c, vs)
  {
    var us := vs + [v];
    forall i | 0 <= i < |vs| ensures Target(c, vs[i]) != Target(c, v) {
      assert us[i] == vs[i] && us[|vs|] == v;
    }
  }

  lemma KeptApartGrows(c: Catalog, vs: seq<int>, v: int)
    ensures KeptApart(c, vs + [v]) <==> KeptApart(c, vs) && Target(c, v) !in Targets(c, vs)
  {
    hide Target;
    var us := vs + [v];
    if KeptApart(c, us) {
      NewTarget(c, vs, v);
      assert us[..|vs|] == vs;
      forall i, j | 0 <= i < j < |vs| ensures Target(c, vs[i]) != Target(c, vs[j]) {
        assert us[i] == vs[i] && us[j] == vs[j];
      }
    } else {
      var i, j :| 0 <= i < j < |us| && Target(c, us[i]) == Target(c, us[j]);
      assert us[i] == vs[i];
      if j == |vs| { assert Target(c, v) in Targets(c, vs); } else { assert us[j] == vs[j]; }
    }
  }

  /** A turn changes the number of lines of its own vendor only, to those of its shop. */
  lemma TurnLines(p: Progress, q: Progress, c: Catalog, o: Order, v: int, now: int)
    requires Turned(p, q, c, o, v, now)
    ensures LinesAt(q.db.rows, o.id, Target(c, v)) == |ItemsOf(o.items, v)|
    ensures forall t :: t != Target(c, v) ==> LinesAt(q.db.rows, o.id, t) == LinesAt(p.db.rows, o.id, t)
  {
    hide ItemsOf, Target, Subtotal;
    assert |Written(p, c, o, v, now).lines| == |ItemsOf(o.items, v)|;
    forall t | t != Target(c, v) ensures LinesAt(q.db.rows, o.id, t) == LinesAt(p.db.rows, o.id, t) {
      var x := Key(o.id, t);
      if x in p.db.rows && t == 0 { assert SameButTime(q.db.rows[x], p.db.rows[x]); }
    }
  }

  lemma {:induction false} StoredLinesUpTo(db: Db, c: Catalog, o: Order, vs: seq<int>, now: int)
    requires Fresh(db.rows, o.id)
    requires forall i :: 0 <= i < |vs| ==> ItemsOf(o.items, vs[i]) != []
    ensures var rows := VisitAll(db, c, o, vs, now).db.rows;
            var stored := StoredLines(rows, o.id, Owners(c, vs));
            && (forall i :: 0 <= i < |Owners(c, vs)| ==> LinesAt(rows, o.id, Owners(c, vs)[i]) > 0)
            && stored <= |Parts(o.items, vs)|
            && (stored == |Parts(o.items, vs)| <==> KeptApart(c, vs))
  {
    hide ItemsOf, Target, Visit, Turned, LinesAt, KeptApart, Fresh;
    if vs == [] {
      NoneKeptApart(c);
    } else {
      var n := |vs| - 1;
      var v, past := vs[n], vs[..n];
      var t, owners := Target(c, v), Owners(c, past);
      var p, q := VisitAll(db, c, o, past, now), VisitAll(db, c, o, vs, now);
      assert |Parts(o.items, vs)| == |Parts(o.items, past)| + |ItemsOf(o.items, v)|;
      assert Owners(c, vs) == if t in owners then owners else owners + [t];
      assert ItemsOf(o.items, v) != [];
      StoredLinesUpTo(db, c, o, past, now);
      hide Parts, Owners, StoredLines, VisitAll;
      FirstImportPlaces(db, c, o, vs, now);
      TurnLines(p, q, c, o, v, now);
      OwnersAre(c, past);
      KeptApartGrows(c, past, v);
      assert vs == past + [v] && (t in Elements(owners) <==> t in Targets(c, past));
      StoredLinesTurn(p.db.rows, q.db.rows, o.id, owners, t, |ItemsOf(o.items, v)|);
    }
  }

  lemma NoneKeptApart(c: Catalog)
    ensures KeptApart(c, [])
  {
  }

  lemma StoredLinesTurn(a: map<Key, Row>, b: map<Key, Row>, order: int, owners: seq<int>, t: int, added: nat)
    requires Distinct(owners) && added > 0 && LinesAt(b, order, t) == added
    requires forall i :: 0 <= i < |owners| ==> LinesAt(a, order, owners[i]) > 0
    requires forall x :: x != t ==> LinesAt(b, order, x) == LinesAt(a, order, x)
    ensures forall i :: 0 <= i < |owners| ==> LinesAt(b, order, owners[i]) > 0
    ensures t in owners <==> t in Elements(owners)
    ensures t in owners ==> StoredLines(b, order, owners) < StoredLines(a, order, owners) + added
    ensures t !in owners ==> StoredLines(b, order, owners + [t]) == StoredLines(a, order, owners) + added
  {
    if t in owners {
      var at :| 0 <= at < |owners| && owners[at] == t;
      StoredLinesReplaced(a, b, order, owners, at);
    } else {
      StoredLinesSame(a, b, order, owners);
      assert (owners + [t])[..|owners|] == owners;
      assert LinesAt(b, order, t) == added;
    }
  }

  /** After a first import, as many lines are stored as the order has exactly when its shops resolve to
      different vendors; otherwise the lines of one shop overwrite those of another. */
  lemma LinesKeptExactly(db: Db, c: Catalog, o: Order, vs: seq<int>, now: int)
    requires Fresh(db.rows, o.id) && Visits(vs, o.items)
    ensures StoredLines(VisitAll(db, c, o, vs, now).db.rows, o.id, Owners(c, vs)) == |o.items| <==> KeptApart(c, vs)
    ensures Elements(Owners(c, vs)) == Targets(c, vs) && Distinct(Owners(c, vs))
  {
    hide VisitAll, Fresh, ItemsOf, KeptApart, StoredLines, Owners, Parts;
    forall i | 0 <= i < |vs| ensures ItemsOf(o.items, vs[i]) != [] {
      assert vs[i] in Elements(vs);
      NoItems(o.items, vs[i]);
    }
    StoredLinesUpTo(db, c, o, vs, now);
    SplitLosesNothing(o.items, vs);
    assert |Parts(o.items, vs)| == |multiset(Parts(o.items, vs))| == |multiset(o.items)|;
    OwnersAre(c, vs);
  }

  // ---------- The whole import ----------

  /** One order after the other, each with its own iteration over its shops. */
  function ImportAll(db: Db, c: Catalog, orders: seq<Order>, visits: seq<seq<int>>, now: int): Db
    requires |visits| == |orders|
  {
    if orders == [] then db
    else
      var n := |orders| - 1;
      VisitAll(ImportAll(db, c, orders[..n], visits[..n], now), c, orders[n], visits[n], now).db
  }

  /** The rows all of them report as created. */
  function CreatedInAll(db: Db, c: Catalog, orders: seq<Order>, visits: seq<seq<int>>, now: int): nat
    requires |visits| == |orders|
  {
    if orders == [] then 0
    else
      var n := |orders| - 1;
      CreatedInAll(db, c, orders[..n], visits[..n], now) +
      VisitAll(ImportAll(db, c, orders[..n], visits[..n], now), c, orders[n], visits[n], now).created
  }

  function UnknownInAll(c: Catalog, orders: seq<Order>): nat {
    if orders == [] then 0
    else UnknownInAll(c, orders[..|orders| - 1]) + UnknownItems(c, orders[|orders| - 1].items)
  }

  predicate AllVisits(visits: seq<seq<int>>, orders: seq<Order>) {
    |visits| == |orders| && forall i :: 0 <= i < |orders| ==> Visits(visits[i], orders[i].items)
  }

  lemma NothingToVisit(db: Db, c: Catalog, o: Order, now: int)
    requires o.items == []
    ensures Visits([], o.items) && VisitAll(db, c, o, [], now).db == db
    ensures VisitAll(db, c, o, [], now).created == 0 == UnknownItems(c, o.items)
  {
  }

  lemma NothingImported(db: Db, c: Catalog, orders: seq<Order>, now: int)
    ensures AllVisits([], orders[..0]) && ImportAll(db, c, orders[..0], [], now) == db
    ensures CreatedInAll(db, c, orders[..0], [], now) == 0 == UnknownInAll(c, orders[..0])
  {
  }

  lemma OneMoreOrder(db: Db, c: Catalog, orders: seq<Order>, i: nat, visits: seq<seq<int>>, visited: seq<int>, now: int)
    requires i < |orders| && |visits| == i && AllVisits(visits, orders[..i]) && Visits(visited, orders[i].items)
    ensures AllVisits(visits + [visited], orders[..i + 1])
    ensures ImportAll(db, c, orders[..i + 1], visits + [visited], now) ==
            VisitAll(ImportAll(db, c, orders[..i], visits, now), c, orders[i], visited, now).db
    ensures CreatedInAll(db, c, orders[..i + 1], visits + [visited], now) ==
            CreatedInAll(db, c, orders[..i], visits, now) +
            VisitAll(ImportAll(db, c, orders[..i], visits, now), c, orders[i], visited, now).created
    ensures UnknownInAll(c, orders[..i + 1]) == UnknownInAll(c, orders[..i]) + UnknownItems(c, orders[i].items)
  {
    hide VisitAll, Visits;
    assert orders[..i + 1][..i] == orders[..i] && (visits + [visited])[..i] == visits;
    forall m | 0 <= m < i + 1 ensures Visits((visits + [visited])[m], orders[..i + 1][m].items) {
      if m < i { assert Visits(visits[m], orders[..i][m].items); }
    }
  }

  // ---------- Printed references ----------

  /** The texts stored as references are as different as the references. */
  lemma PrintReferenceInjective(a: Reference, b: Reference)
    requires a.order >= 0 && b.order >= 0
    requires (a.SubRef? ==> a.number >= 0) && (b.SubRef? ==> b.number >= 0)
    requires PrintReference(a) == PrintReference(b)
    ensures a == b
  {
    ReferenceSplits(a);
    ReferenceSplits(b);
    assert Split(PrintReference(a), '-')[1] == Split(PrintReference(b), '-')[1];
    DecimalInjective(a.order, b.order);
    if a.SubRef? {
      assert |Split(PrintReference(a), '-')| == 3;
      DecimalInjective(a.number, b.number);
    }
  }

  lemma ReferenceSplits(r: Reference)
    requires r.order >= 0 && (r.SubRef? ==> r.number >= 0)
    ensures Split(PrintReference(r), '-') ==
            if r.SubRef? then ["WC", Decimal(r.order), Decimal(r.number)] else ["WC", Decimal(r.order)]
  {
    hide Split, Decimal;
    NoDashInDecimal(r.order);
    var order := Decimal(r.order);
    if r.SubRef? {
      NoDashInDecimal(r.number);
      SplitThree("WC", order, Decimal(r.number), '-');
      assert "WC-" == "WC" + ['-'] && "-" == ['-'];
    } else {
      SplitTwo("WC", order, '-');
      assert "WC-" == "WC" + ['-'];
    }
  }
}

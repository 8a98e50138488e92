/**
 The importer run again: over the same orders, after a shop has been reconciled, and over orders that have
 changed since. A second visit of a shop refreshes the lines and states of its row and leaves its amounts.
 */
module Reimport {
  import opened Options
  import opened OrderImport

  // ---------- Importing one order again ----------

  predicate SameRows(a: map<Key, Row>, b: map<Key, Row>) {
    a.Keys == b.Keys && forall k :: k in a ==> SameButTime(a[k], b[k])
  }

  lemma SameRowsTrans(a: map<Key, Row>, b: map<Key, Row>, d: map<Key, Row>)
    requires SameRows(a, b) && SameRows(b, d)
    ensures SameRows(a, d)
  {
    forall k | k in a ensures SameButTime(a[k], d[k]) {
      assert SameButTime(a[k], b[k]) && SameButTime(b[k], d[k]);
    }
  }

  /** The row of a shop's vendor is there, in the state of the order, and linked to the row of vendor 0. */
  predicate PartLinked(rows: map<Key, Row>, c: Catalog, o: Order, v: int) {
    var k, g := Key(o.id, Target(c, v)), Key(o.id, 0);
    && k in rows
    && g in rows
    && HasStages(rows[k], o)
    && rows[k].parent == Some(rows[g].id)
  }

  predicate Linked(rows: map<Key, Row>, c: Catalog, o: Order) {
    forall v :: v in Shops(o.items) ==> PartLinked(rows, c, o, v)
  }

  /** The lines of the last shop that writes to a vendor. */
  function LinesOf(c: Catalog, o: Order, vs: seq<int>, vendor: int): seq<Line> {
    match WriterOf(c, vs, vendor)
    case Some(v) => ToLines(c, ItemsOf(o.items, v))
    case None => []
  }

  /** The rows with the lines the visits `vs` of the order write. */
  function Relined(rows: map<Key, Row>, c: Catalog, o: Order, vs: seq<int>): (r: map<Key, Row>)
    ensures r.Keys == rows.Keys
  {
    map k | k in rows ::
      if k.order == o.id && WriterOf(c, vs, k.vendor).Some? then rows[k].(lines := LinesOf(c, o, vs, k.vendor))
      else rows[k]
  }

  lemma AgainTurns(p: Progress, c: Catalog, o: Order, v: int, now: int)
    requires PartLinked(p.db.rows, c, o, v)
    requires p.parent.Some? ==> Key(o.id, 0) in p.db.rows && p.parent.value == p.db.rows[Key(o.id, 0)].id
    ensures var k, q := Key(o.id, Target(c, v)), Visit(p, c, o, v, now);
            && k in p.db.rows
            && SameRows(p.db.rows[k := p.db.rows[k].(lines := ToLines(c, ItemsOf(o.items, v)))], q.db.rows)
            && Key(o.id, 0) in q.db.rows
            && q.parent == Some(q.db.rows[Key(o.id, 0)].id)
  {
    hide ItemsOf, ToLines, Subtotal, Target, LegacyStatus, PaymentStatus, FulfillmentStage, Visit;
    TurnWrites(p, c, o, v, now);
    var k, q := Key(o.id, Target(c, v)), Visit(p, c, o, v, now);
    var was := p.db.rows[k := p.db.rows[k].(lines := ToLines(c, ItemsOf(o.items, v)))];
    assert SameButTime(q.db.rows[k], Written(p, c, o, v, now).(parent := q.parent));
    assert SameButTime(was[k], q.db.rows[k]);
    assert forall x :: x in was ==> SameButTime(was[x], q.db.rows[x]);
    assert was.Keys == p.db.rows.Keys;
  }

  /** Equal rows but for their lines and update times. */
  predicate SameFrame(a: map<Key, Row>, b: map<Key, Row>) {
    a.Keys == b.Keys && forall k :: k in a ==> SameButTime(a[k].(lines := b[k].lines), b[k])
  }

  lemma RelinedFrame(a: map<Key, Row>, b: map<Key, Row>, c: Catalog, o: Order, vs: seq<int>)
    requires SameRows(Relined(a, c, o, vs), b)
    ensures SameFrame(a, b)
  {
    hide LinesOf, WriterOf;
    forall k | k in a ensures SameButTime(a[k].(lines := b[k].lines), b[k]) {
      assert SameButTime(Relined(a, c, o, vs)[k], b[k]);
    }
    assert Relined(a, c, o, vs).Keys == a.Keys;
  }

  lemma SameFrameLinked(a: map<Key, Row>, b: map<Key, Row>, c: Catalog, o: Order)
    requires SameFrame(a, b) && Linked(a, c, o)
    ensures Linked(b, c, o)
  {
    hide Target, LegacyStatus, PaymentStatus, FulfillmentStage, Shops;
    forall v | v in Shops(o.items) ensures PartLinked(b, c, o, v) {
      assert PartLinked(a, c, o, v);
    }
  }

  /** One more visit sets the lines of its own vendor. */
  lemma {:induction false} RelinedTurns(start: map<Key, Row>, was: map<Key, Row>, now: map<Key, Row>, c: Catalog,
                                        o: Order, vs: seq<int>, v: int)
    requires var k := Key(o.id, Target(c, v));
             && SameRows(Relined(start, c, o, vs), was)
             && k in was
             && SameRows(was[k := was[k].(lines := ToLines(c, ItemsOf(o.items, v)))], now)
    ensures SameRows(Relined(start, c, o, vs + [v]), now)
  {
    hide WriterOf, Target, ItemsOf, ToLines;
    var k, lines := Key(o.id, Target(c, v)), ToLines(c, ItemsOf(o.items, v));
    var before, after := Relined(start, c, o, vs), Relined(start, c, o, vs + [v]);
    assert before.Keys == start.Keys == after.Keys;
    assert was[k := was[k].(lines := lines)].Keys == was.Keys;
    forall x | x in start ensures SameButTime(after[x], now[x]) {
      RelinedRowTurns(start, c, o, vs, v, x);
      assert SameButTime(before[x], was[x]);
      assert SameButTime(was[k := was[k].(lines := lines)][x], now[x]);
    }
  }

  lemma RelinedRowTurns(start: map<Key, Row>, c: Catalog, o: Order, vs: seq<int>, v: int, x: Key)
    requires x in start
    ensures var before, after := Relined(start, c, o, vs), Relined(start, c, o, vs + [v]);
            && x in before
            && x in after
            && after[x] == if x == Key(o.id, Target(c, v)) then before[x].(lines := ToLines(c, ItemsOf(o.items, v)))
                           else before[x]
  {
    hide WriterOf, Target, ItemsOf, ToLines;
    WritersGrow(c, vs, v, x.vendor);
  }

  /** Importing an order once more leaves every row but for the lines, which are those its visits write. */
  lemma {:induction false} AgainRelines(db: Db, c: Catalog, o: Order, vs: seq<int>, now: int)
    requires Linked(db.rows, c, o) && Elements(vs) <= Shops(o.items)
    ensures var p := VisitAll(db, c, o, vs, now);
            && SameRows(Relined(db.rows, c, o, vs), p.db.rows)
            && (p.parent.Some? ==> Key(o.id, 0) in p.db.rows && p.parent.value == p.db.rows[Key(o.id, 0)].id)
  {
    hide Visit, Linked, Shops, Elements, Relined, SameRows;
    if vs == [] {
      NothingRelined(db.rows, c, o);
    } else {
      var n := |vs| - 1;
      var past, v := vs[..n], vs[n];
      assert vs == past + [v];
      ElementsGrow(past, v);
      var p := VisitAll(db, c, o, past, now);
      AgainRelines(db, c, o, past, now);
      assert VisitAll(db, c, o, vs, now) == Visit(p, c, o, v, now);
      hide VisitAll;
      RelinedOnce(db.rows, p, c, o, past, v, now);
    }
  }

  lemma NothingRelined(rows: map<Key, Row>, c: Catalog, o: Order)
    ensures SameRows(Relined(rows, c, o, []), rows)
  {
    assert forall k :: k in rows ==> SameButTime(rows[k], rows[k]);
    assert Relined(rows, c, o, []).Keys == rows.Keys;
  }

  lemma {:induction false} RelinedOnce(start: map<Key, Row>, p: Progress, c: Catalog, o: Order, vs: seq<int>, v: int,
                                       now: int)
    requires Linked(start, c, o) && SameRows(Relined(start, c, o, vs), p.db.rows) && v in Shops(o.items)
    requires p.parent.Some? ==> Key(o.id, 0) in p.db.rows && p.parent.value == p.db.rows[Key(o.id, 0)].id
    ensures var q := Visit(p, c, o, v, now);
            && SameRows(Relined(start, c, o, vs + [v]), q.db.rows)
            && Key(o.id, 0) in q.db.rows
            && q.parent == Some(q.db.rows[Key(o.id, 0)].id)
  {
    hide Visit, PartLinked, Shops, Relined, SameRows, SameFrame;
    RelinedFrame(start, p.db.rows, c, o, vs);
    SameFrameLinked(start, p.db.rows, c, o);
    AgainTurns(p, c, o, v, now);
    hide Linked;
    RelinedTurns(start, p.db.rows, Visit(p, c, o, v, now).db.rows, c, o, vs, v);
  }

  lemma TurnDates(p: Progress, c: Catalog, o: Order, v: int, now: int, k: Key)
    requires k in p.db.rows
    ensures var rows := Visit(p, c, o, v, now).db.rows;
            && k in rows
            && (k == Key(o.id, Target(c, v)) ==> rows[k].updatedAt == now)
            && (rows[k].updatedAt == now || rows[k].updatedAt == p.db.rows[k].updatedAt)
  {
    hide ItemsOf, ToLines, Subtotal, Target, Taken, LegacyStatus, PaymentStatus, FulfillmentStage;
  }

  /** Every stored row an import writes to again bears its time, and every other keeps its own or, for the group row,
      bears it too. */
  lemma {:induction false} RewrittenRowsAreDated(db: Db, c: Catalog, o: Order, vs: seq<int>, now: int, k: Key)
    requires k in db.rows
    ensures var rows := VisitAll(db, c, o, vs, now).db.rows;
            && k in rows
            && (k.order == o.id && k.vendor in Targets(c, vs) ==> rows[k].updatedAt == now)
            && (rows[k].updatedAt == now || rows[k].updatedAt == db.rows[k].updatedAt)
  {
    hide Visit, Target, Targets;
    if vs != [] {
      var n := |vs| - 1;
      RewrittenRowsAreDated(db, c, o, vs[..n], now, k);
      TurnDates(VisitAll(db, c, o, vs[..n], now), c, o, vs[n], now, k);
      TargetsGrow(c, vs[..n], vs[n]);
      assert vs == vs[..n] + [vs[n]];
    } else {
      assert Targets(c, []) == {} by { NoTargets(c); }
    }
  }

  // ---------- The whole import, twice ----------

  predicate DistinctOrders(orders: seq<Order>) {
    forall i, j :: 0 <= i < j < |orders| ==> orders[i].id != orders[j].id
  }

  predicate AllFresh(rows: map<Key, Row>, orders: seq<Order>) {
    forall i :: 0 <= i < |orders| ==> Fresh(rows, orders[i].id)
  }

  /** The order is stored as the visits `vs` leave it. */
  predicate Stands(rows: map<Key, Row>, c: Catalog, o: Order, vs: seq<int>) {
    && Linked(rows, c, o)
    && (forall t :: t in Targets(c, vs) ==> Key(o.id, t) in rows && rows[Key(o.id, t)].lines == LinesOf(c, o, vs, t))
  }

  lemma {:induction false} FirstImportStands(db: Db, c: Catalog, o: Order, vs: seq<int>, now: int)
    requires Fresh(db.rows, o.id) && Visits(vs, o.items)
    ensures Stands(VisitAll(db, c, o, vs, now).db.rows, c, o, vs)
  {
    hide VisitAll, Fresh, ItemsOf, Subtotal, ToLines, Target, HasStages, FirstPlace, WriterOf;
    FirstImportPlaces(db, c, o, vs, now);
    FirstImportFills(db, c, o, vs, now);
    var p := VisitAll(db, c, o, vs, now);
    forall t | t in Targets(c, vs)
      ensures Key(o.id, t) in p.db.rows && p.db.rows[Key(o.id, t)].lines == LinesOf(c, o, vs, t)
    {
      assert HoldsRow(p.db.rows[Key(o.id, t)], c, o, vs, t, p.parent);
    }
    forall v | v in Shops(o.items) ensures PartLinked(p.db.rows, c, o, v) {
      assert v in Elements(vs);
      var i :| 0 <= i < |vs| && vs[i] == v;
      assert Target(c, v) in Targets(c, vs);
      assert HoldsRow(p.db.rows[Key(o.id, Target(c, v))], c, o, vs, Target(c, v), p.parent);
    }
  }

  lemma {:induction false} OthersStay(db: Db, c: Catalog, o: Order, vs: seq<int>, now: int, other: Order, us: seq<int>)
    requires Fresh(db.rows, o.id) && other.id != o.id
    ensures var rows := VisitAll(db, c, o, vs, now).db.rows;
            && (Fresh(db.rows, other.id) ==> Fresh(rows, other.id))
            && (Stands(db.rows, c, other, us) ==> Stands(rows, c, other, us))
  {
    hide VisitAll, Target, ItemsOf, ToLines, LegacyStatus, PaymentStatus, FulfillmentStage, Shops, LinesOf, Targets;
    FirstImportPlaces(db, c, o, vs, now);
    var rows := VisitAll(db, c, o, vs, now).db.rows;
    if Stands(db.rows, c, other, us) {
      forall v | v in Shops(other.items) ensures PartLinked(rows, c, other, v) {
        assert PartLinked(db.rows, c, other, v);
      }
    }
  }

  lemma {:induction false} FirstPass(db: Db, c: Catalog, orders: seq<Order>, visits: seq<seq<int>>, now: int)
    requires DistinctOrders(orders) && AllVisits(visits, orders) && AllFresh(db.rows, orders)
    ensures forall i :: 0 <= i < |orders| ==>
              Stands(ImportAll(db, c, orders, visits, now).rows, c, orders[i], visits[i])
    ensures forall o: Order ::
              Fresh(db.rows, o.id) && (forall i :: 0 <= i < |orders| ==> orders[i].id != o.id)
              ==> Fresh(ImportAll(db, c, orders, visits, now).rows, o.id)
  {
    hide VisitAll, Visits, Fresh, Stands;
    if orders != [] {
      var n := |orders| - 1;
      var o, vs := orders[n], visits[n];
      assert AllFresh(db.rows, orders[..n]) by {
        forall i | 0 <= i < n ensures Fresh(db.rows, orders[..n][i].id) { assert orders[..n][i] == orders[i]; }
      }
      FirstPass(db, c, orders[..n], visits[..n], now);
      var before := ImportAll(db, c, orders[..n], visits[..n], now);
      assert Fresh(before.rows, o.id);
      FirstImportStands(before, c, o, vs, now);
      forall other: Order | other.id != o.id && Fresh(before.rows, other.id)
        ensures Fresh(VisitAll(before, c, o, vs, now).db.rows, other.id)
      {
        OthersStay(before, c, o, vs, now, other, []);
      }
      forall other: Order, us: seq<int> | other.id != o.id
        ensures Stands(before.rows, c, other, us) ==> Stands(VisitAll(before, c, o, vs, now).db.rows, c, other, us)
      {
        OthersStay(before, c, o, vs, now, other, us);
      }
      forall i | 0 <= i < n ensures Stands(before.rows, c, orders[i], visits[i]) {
        assert orders[..n][i] == orders[i] && visits[..n][i] == visits[i];
      }
    }
  }

  /** How many rows a first import of all the orders reports: one per shop of each. */
  function ShopsVisited(visits: seq<seq<int>>): nat {
    if visits == [] then 0 else ShopsVisited(visits[..|visits| - 1]) + |visits[|visits| - 1]|
  }

  lemma {:induction false} FirstImportReports(db: Db, c: Catalog, orders: seq<Order>, visits: seq<seq<int>>, now: int)
    requires DistinctOrders(orders) && AllVisits(visits, orders) && AllFresh(db.rows, orders)
    ensures CreatedInAll(db, c, orders, visits, now) == ShopsVisited(visits)
  {
    hide VisitAll, Visits, Fresh, Stands;
    if orders != [] {
      var n := |orders| - 1;
      assert AllFresh(db.rows, orders[..n]) by {
        forall i | 0 <= i < n ensures Fresh(db.rows, orders[..n][i].id) { assert orders[..n][i] == orders[i]; }
      }
      FirstImportReports(db, c, orders[..n], visits[..n], now);
      FirstPass(db, c, orders[..n], visits[..n], now);
      var before := ImportAll(db, c, orders[..n], visits[..n], now);
      assert Fresh(before.rows, orders[n].id);
      CreatedUpTo(before, c, orders[n], visits[n], now);
    }
  }

  /** The rows with the lines the visits of all the orders write. */
  function RelinedAll(rows: map<Key, Row>, c: Catalog, orders: seq<Order>, visits: seq<seq<int>>): map<Key, Row>
    requires |visits| == |orders|
  {
    if orders == [] then rows
    else
      var n := |orders| - 1;
      Relined(RelinedAll(rows, c, orders[..n], visits[..n]), c, orders[n], visits[n])
  }

  lemma RelinedSame(a: map<Key, Row>, b: map<Key, Row>, c: Catalog, o: Order, vs: seq<int>)
    requires SameRows(a, b)
    ensures SameRows(Relined(a, c, o, vs), Relined(b, c, o, vs))
  {
    hide LinesOf, WriterOf;
    var d, e := Relined(a, c, o, vs), Relined(b, c, o, vs);
    assert d.Keys == a.Keys == b.Keys == e.Keys;
    forall k | k in d ensures SameButTime(d[k], e[k]) {
      assert SameButTime(a[k], b[k]);
    }
  }

  lemma {:induction false} RelinedAllKeeps(rows: map<Key, Row>, c: Catalog, orders: seq<Order>, visits: seq<seq<int>>)
    requires |visits| == |orders|
    ensures var all := RelinedAll(rows, c, orders, visits);
            all.Keys == rows.Keys && forall k :: k in rows ==> all[k] == rows[k].(lines := all[k].lines)
  {
    hide LinesOf, WriterOf;
    if orders != [] {
      var n := |orders| - 1;
      RelinedAllKeeps(rows, c, orders[..n], visits[..n]);
    }
  }

  lemma RelinedAllFrame(rows: map<Key, Row>, b: map<Key, Row>, c: Catalog, orders: seq<Order>, visits: seq<seq<int>>)
    requires |visits| == |orders| && SameRows(RelinedAll(rows, c, orders, visits), b)
    ensures SameFrame(rows, b)
  {
    RelinedAllKeeps(rows, c, orders, visits);
    var all := RelinedAll(rows, c, orders, visits);
    hide RelinedAll;
    forall k | k in rows ensures SameButTime(rows[k].(lines := b[k].lines), b[k]) {
      assert SameButTime(all[k], b[k]);
    }
  }

  /** A whole second import only writes lines. */
  lemma {:induction false} SecondPass(db: Db, c: Catalog, orders: seq<Order>, visits: seq<seq<int>>, now: int)
    requires AllVisits(visits, orders)
    requires forall i :: 0 <= i < |orders| ==> Linked(db.rows, c, orders[i])
    ensures SameRows(RelinedAll(db.rows, c, orders, visits), ImportAll(db, c, orders, visits, now).rows)
  {
    hide VisitAll, Linked, Shops, SameRows, SameFrame, Relined;
    if orders != [] {
      var n := |orders| - 1;
      var o, vs := orders[n], visits[n];
      var before := ImportAll(db, c, orders[..n], visits[..n], now);
      var past := RelinedAll(db.rows, c, orders[..n], visits[..n]);
      SecondPass(db, c, orders[..n], visits[..n], now);
      RelinedAllFrame(db.rows, before.rows, c, orders[..n], visits[..n]);
      SameFrameLinked(db.rows, before.rows, c, o);
      AgainRelines(before, c, o, vs, now);
      RelinedSame(past, before.rows, c, o, vs);
      SameRowsTrans(Relined(past, c, o, vs), Relined(before.rows, c, o, vs), VisitAll(before, c, o, vs, now).db.rows);
    } else {
      SameAsItself(db.rows);
    }
  }

  lemma SameAsItself(rows: map<Key, Row>)
    ensures SameRows(rows, rows)
  {
    assert forall k :: k in rows ==> SameButTime(rows[k], rows[k]);
  }

  /** Only its own order's visits reach a row. */
  lemma {:induction false} RelinedAllAt(rows: map<Key, Row>, c: Catalog, orders: seq<Order>, visits: seq<seq<int>>,
                                        k: Key)
    requires |visits| == |orders| && DistinctOrders(orders) && k in rows
    ensures var all := RelinedAll(rows, c, orders, visits);
            && k in all
            && ((forall i :: 0 <= i < |orders| ==> orders[i].id != k.order) ==> all[k] == rows[k])
            && (forall i :: 0 <= i < |orders| && orders[i].id == k.order ==>
                  all[k] == Relined(rows, c, orders[i], visits[i])[k])
  {
    hide Relined;
    if orders != [] {
      var n := |orders| - 1;
      var past := RelinedAll(rows, c, orders[..n], visits[..n]);
      RelinedAllAt(rows, c, orders[..n], visits[..n], k);
      RelinedAt(past, c, orders[n], visits[n], k);
      RelinedAt(rows, c, orders[n], visits[n], k);
      forall i | 0 <= i < |orders| && orders[i].id == k.order
        ensures RelinedAll(rows, c, orders, visits)[k] == Relined(rows, c, orders[i], visits[i])[k]
      {
        if i < n {
          assert orders[..n][i] == orders[i] && visits[..n][i] == visits[i];
          RelinedAt(rows, c, orders[i], visits[i], k);
        }
      }
    }
  }

  lemma RelinedAt(rows: map<Key, Row>, c: Catalog, o: Order, vs: seq<int>, k: Key)
    requires k in rows
    ensures k in Relined(rows, c, o, vs)
    ensures Relined(rows, c, o, vs)[k] ==
            if k.order == o.id && WriterOf(c, vs, k.vendor).Some? then rows[k].(lines := LinesOf(c, o, vs, k.vendor))
            else rows[k]
  {
    hide LinesOf, WriterOf;
  }

  /** Every vendor of the order is written last by shops with the same lines. */
  predicate WritersAgree(c: Catalog, o: Order, vs: seq<int>, ws: seq<int>) {
    forall t :: t in Targets(c, vs) ==> LinesOf(c, o, vs, t) == LinesOf(c, o, ws, t)
  }

  lemma SameTargets(c: Catalog, items: seq<Item>, vs: seq<int>, ws: seq<int>)
    requires Visits(vs, items) && Visits(ws, items)
    ensures Targets(c, vs) <= Targets(c, ws)
  {
    hide Target, Shops;
    forall t | t in Targets(c, vs) ensures t in Targets(c, ws) {
      var i :| 0 <= i < |vs| && Target(c, vs[i]) == t;
      assert vs[i] in Elements(vs);
      var j :| 0 <= j < |ws| && ws[j] == vs[i];
    }
  }

  lemma RelinedUnchanged(rows: map<Key, Row>, c: Catalog, orders: seq<Order>, first: seq<seq<int>>,
                         second: seq<seq<int>>, k: Key)
    requires AllVisits(first, orders) && AllVisits(second, orders) && DistinctOrders(orders) && k in rows
    requires forall i :: 0 <= i < |orders| ==> Stands(rows, c, orders[i], first[i])
    requires forall i :: 0 <= i < |orders| ==> WritersAgree(c, orders[i], first[i], second[i])
    ensures k in RelinedAll(rows, c, orders, second) && RelinedAll(rows, c, orders, second)[k] == rows[k]
  {
    hide LinesOf, WriterOf, Visits, RelinedAll, Targets, Linked;
    RelinedAllAt(rows, c, orders, second, k);
    if i :| 0 <= i < |orders| && orders[i].id == k.order {
      var o := orders[i];
      WrittenVendors(c, second[i], k.vendor);
      SameTargets(c, o.items, second[i], first[i]);
      assert Stands(rows, c, o, first[i]) && WritersAgree(c, o, first[i], second[i]);
    }
  }

  lemma {:induction false} RelinedDiffers(rows: map<Key, Row>, c: Catalog, orders: seq<Order>, first: seq<seq<int>>,
                                          second: seq<seq<int>>, i: nat)
    requires AllVisits(first, orders) && AllVisits(second, orders) && DistinctOrders(orders) && i < |orders|
    requires Stands(rows, c, orders[i], first[i]) && SameRows(rows, RelinedAll(rows, c, orders, second))
    ensures WritersAgree(c, orders[i], first[i], second[i])
  {
    hide LinesOf, WriterOf, Visits, RelinedAll, Targets, Linked;
    var o := orders[i];
    SameTargets(c, o.items, first[i], second[i]);
    forall t | t in Targets(c, first[i]) ensures LinesOf(c, o, first[i], t) == LinesOf(c, o, second[i], t) {
      var k := Key(o.id, t);
      WrittenVendors(c, second[i], t);
      RelinedAllAt(rows, c, orders, second, k);
      assert SameButTime(rows[k], RelinedAll(rows, c, orders, second)[k]);
    }
  }

  lemma SameRowsBack(a: map<Key, Row>, b: map<Key, Row>)
    requires SameRows(a, b)
    ensures SameRows(b, a)
  {
    forall k | k in b ensures SameButTime(b[k], a[k]) {
      assert SameButTime(a[k], b[k]);
    }
  }

  predicate AllWritersAgree(c: Catalog, orders: seq<Order>, first: seq<seq<int>>, second: seq<seq<int>>)
    requires |first| == |second| == |orders|
  {
    forall i :: 0 <= i < |orders| ==> WritersAgree(c, orders[i], first[i], second[i])
  }

  lemma RelinedExactly(rows: map<Key, Row>, c: Catalog, orders: seq<Order>, first: seq<seq<int>>, second: seq<seq<int>>)
    requires AllVisits(first, orders) && AllVisits(second, orders) && DistinctOrders(orders)
    requires forall i :: 0 <= i < |orders| ==> Stands(rows, c, orders[i], first[i])
    ensures SameRows(rows, RelinedAll(rows, c, orders, second)) <==> AllWritersAgree(c, orders, first, second)
  {
    hide Stands, WritersAgree, RelinedAll, Visits;
    RelinedAllKeeps(rows, c, orders, second);
    if SameRows(rows, RelinedAll(rows, c, orders, second)) {
      forall i | 0 <= i < |orders| ensures WritersAgree(c, orders[i], first[i], second[i]) {
        RelinedDiffers(rows, c, orders, first, second, i);
      }
    }
    if AllWritersAgree(c, orders, first, second) {
      SameAsItself(rows);
      forall k | k in rows ensures RelinedAll(rows, c, orders, second)[k] == rows[k] {
        RelinedUnchanged(rows, c, orders, first, second, k);
      }
    }
  }

  lemma {:induction false} SecondImport(db: Db, c: Catalog, orders: seq<Order>,
                                        first: seq<seq<int>>, second: seq<seq<int>>, now: int, later: int)
    requires DistinctOrders(orders) && AllVisits(first, orders) && AllVisits(second, orders) &&
             AllFresh(db.rows, orders)
    ensures var once := ImportAll(db, c, orders, first, now);
            && (forall i :: 0 <= i < |orders| ==> Stands(once.rows, c, orders[i], first[i]))
            && SameRows(RelinedAll(once.rows, c, orders, second), ImportAll(once, c, orders, second, later).rows)
  {
    hide ImportAll, RelinedAll, SameRows, Linked, AllFresh, DistinctOrders;
    FirstPass(db, c, orders, first, now);
    SecondPass(ImportAll(db, c, orders, first, now), c, orders, second, later);
  }

  /** Running the whole import again, with any other iteration orders, changes nothing but update times exactly
      when every vendor of every order is written last by shops with the same lines in both imports. */
  lemma {:induction false} ReimportOnlyTouchesTimestampsExactly(db: Db, c: Catalog, orders: seq<Order>,
                                                                first: seq<seq<int>>, second: seq<seq<int>>, now: int,
                                                                later: int)
    requires DistinctOrders(orders) && AllVisits(first, orders) && AllVisits(second, orders) &&
             AllFresh(db.rows, orders)
    ensures var once := ImportAll(db, c, orders, first, now);
            SameRows(once.rows, ImportAll(once, c, orders, second, later).rows)
            <==> AllWritersAgree(c, orders, first, second)
  {
    hide VisitAll, ImportAll, RelinedAll, SameRows, Stands, AllFresh, DistinctOrders, AllWritersAgree;
    SecondImport(db, c, orders, first, second, now, later);
    var once := ImportAll(db, c, orders, first, now);
    var twice, relined := ImportAll(once, c, orders, second, later), RelinedAll(once.rows, c, orders, second);
    if SameRows(once.rows, twice.rows) {
      SameRowsBack(relined, twice.rows);
      SameRowsTrans(once.rows, twice.rows, relined);
      RelinedExactly(once.rows, c, orders, first, second);
    }
    if AllWritersAgree(c, orders, first, second) {
      RelinedExactly(once.rows, c, orders, first, second);
      SameRowsTrans(once.rows, relined, twice.rows);
    }
  }

  lemma {:induction false} WriterIs(c: Catalog, vs: seq<int>, vendor: int)
    ensures WriterOf(c, vs, vendor).Some? ==>
              WriterOf(c, vs, vendor).value in Elements(vs) && Target(c, WriterOf(c, vs, vendor).value) == vendor
  {
    hide Target;
    if vs != [] {
      var n := |vs| - 1;
      WriterIs(c, vs[..n], vendor);
      ElementsGrow(vs[..n], vs[n]);
      assert vs == vs[..n] + [vs[n]];
    }
  }

  predicate AllKeptApart(c: Catalog, visits: seq<seq<int>>) {
    forall i :: 0 <= i < |visits| ==> KeptApart(c, visits[i])
  }

  lemma KeptApartAgrees(c: Catalog, o: Order, vs: seq<int>, ws: seq<int>)
    requires Visits(vs, o.items) && Visits(ws, o.items) && KeptApart(c, vs)
    ensures WritersAgree(c, o, vs, ws)
  {
    hide Target, Targets, Shops, WriterOf, ToLines, ItemsOf;
    SameTargets(c, o.items, vs, ws);
    forall t | t in Targets(c, vs) ensures LinesOf(c, o, vs, t) == LinesOf(c, o, ws, t) {
      WrittenVendors(c, vs, t);
      WrittenVendors(c, ws, t);
      WriterIs(c, vs, t);
      WriterIs(c, ws, t);
      var v, w := WriterOf(c, vs, t).value, WriterOf(c, ws, t).value;
      var i :| 0 <= i < |vs| && vs[i] == v;
      var j :| 0 <= j < |vs| && vs[j] == w;
      assert i == j;
    }
  }

  /** With at most one unresolved shop an order, the import is idempotent whatever the iteration orders. */
  lemma {:induction false} ReimportOnlyTouchesTimestamps(db: Db, c: Catalog, orders: seq<Order>, first: seq<seq<int>>,
                                                         second: seq<seq<int>>, now: int, later: int)
    requires DistinctOrders(orders) && AllVisits(first, orders) && AllVisits(second, orders) &&
             AllFresh(db.rows, orders)
    requires AllKeptApart(c, first)
    ensures var once := ImportAll(db, c, orders, first, now);
            SameRows(once.rows, ImportAll(once, c, orders, second, later).rows)
  {
    hide ImportAll, AllFresh, SameRows, KeptApart, Visits, WritersAgree;
    ReimportOnlyTouchesTimestampsExactly(db, c, orders, first, second, now, later);
    forall i | 0 <= i < |orders| ensures WritersAgree(c, orders[i], first[i], second[i]) {
      KeptApartAgrees(c, orders[i], first[i], second[i]);
    }
  }

  /** Two shops that share a vendor and were visited last overwrite each other's lines in the other order. */
  lemma SharedVendorIsRewritten(db: Db, c: Catalog, o: Order, us: seq<int>, a: int, b: int, now: int, later: int)
    requires Fresh(db.rows, o.id) && Visits(us + [a, b], o.items) && Visits(us + [b, a], o.items)
    requires Target(c, a) == Target(c, b) && ToLines(c, ItemsOf(o.items, a)) != ToLines(c, ItemsOf(o.items, b))
    ensures var once := VisitAll(db, c, o, us + [a, b], now).db;
            !SameRows(once.rows, VisitAll(once, c, o, us + [b, a], later).db.rows)
  {
    hide VisitAll, SameRows, Fresh, Visits, Target, ToLines, ItemsOf;
    var vs, ws := us + [a, b], us + [b, a];
    var once := VisitAll(db, c, o, vs, now).db;
    OneOrder(db, c, o, vs, now);
    OneOrder(once, c, o, ws, later);
    ReimportOnlyTouchesTimestampsExactly(db, c, [o], [vs], [ws], now, later);
    var t := Target(c, b);
    assert LinesOf(c, o, vs, t) != LinesOf(c, o, ws, t);
    assert t in Targets(c, vs) by { assert vs[|us|] == a; }
    assert !WritersAgree(c, [o][0], [vs][0], [ws][0]);
  }

  lemma OneOrder(db: Db, c: Catalog, o: Order, vs: seq<int>, now: int)
    ensures ImportAll(db, c, [o], [vs], now) == VisitAll(db, c, o, vs, now).db
  {
    hide VisitAll;
    assert [o][..0] == [] && [vs][..0] == [];
    assert ImportAll(db, c, [], [], now) == db;
  }

  // ---------- What every import keeps ----------

  /** The row ids are those handed out so far, and neither an id nor a reference is used twice. */
  predicate Indexed(db: Db) {
    && (forall k :: k in db.rows ==> db.rows[k].id < db.nextId)
    && (forall a, b :: a in db.rows && b in db.rows && a != b ==>
          db.rows[a].id != db.rows[b].id && db.rows[a].reference != db.rows[b].reference)
  }

  lemma PutSubIndexed(db: Db, o: Order, vendor: int, seqNo: int, lines: seq<Line>, subtotal: real, now: int)
    requires Indexed(db)
    ensures Indexed(PutSub(db, o, vendor, seqNo, lines, subtotal, now))
    ensures PutSub(db, o, vendor, seqNo, lines, subtotal, now).nextId == db.nextId + 1
  {
    hide LegacyStatus, PaymentStatus, FulfillmentStage;
  }

  lemma PutGroupIndexed(db: Db, o: Order, now: int)
    requires Indexed(db)
    ensures Indexed(PutGroup(db, o, now)) && PutGroup(db, o, now).nextId == db.nextId + 1
  {
  }

  lemma LinkIndexed(db: Db, k: Key, parent: nat)
    requires Indexed(db)
    ensures Indexed(Link(db, k, parent)) && Link(db, k, parent).nextId == db.nextId
  {
  }

  /** An insert that meets a taken reference writes nothing: it uses up an id and its number. */
  lemma RefusedVisit(p: Progress, c: Catalog, o: Order, v: int, now: int)
    requires Key(o.id, Target(c, v)) !in p.db.rows && Taken(p.db.rows, SubRef(o.id, p.seqNo))
    ensures Visit(p, c, o, v, now) == Progress(Db(p.db.rows, p.db.nextId + 1), p.seqNo + 1, p.parent, p.created)
  {
    hide ItemsOf, ToLines, Subtotal, Target, Taken;
  }

  lemma VisitIndexed(p: Progress, c: Catalog, o: Order, v: int, now: int)
    requires Indexed(p.db)
    ensures Indexed(Visit(p, c, o, v, now).db)
  {
    var vendor, items := Target(c, v), ItemsOf(o.items, v);
    var db := PutSub(p.db, o, vendor, p.seqNo, ToLines(c, items), Subtotal(items), now);
    PutSubIndexed(p.db, o, vendor, p.seqNo, ToLines(c, items), Subtotal(items), now);
    PutGroupIndexed(db, o, now);
    if p.parent.Some? { LinkIndexed(db, Key(o.id, vendor), p.parent.value); }
    var grouped := PutGroup(db, o, now);
    if Key(o.id, 0) in grouped.rows { LinkIndexed(grouped, Key(o.id, vendor), grouped.rows[Key(o.id, 0)].id); }
    hide PutSub, PutGroup, Link, Indexed, ItemsOf, ToLines, Subtotal, Target;
  }

  lemma {:induction false} OrderKeepsIndexed(db: Db, c: Catalog, o: Order, vs: seq<int>, now: int)
    requires Indexed(db)
    ensures Indexed(VisitAll(db, c, o, vs, now).db)
  {
    hide Visit, Indexed;
    if vs != [] {
      OrderKeepsIndexed(db, c, o, vs[..|vs| - 1], now);
      VisitIndexed(VisitAll(db, c, o, vs[..|vs| - 1], now), c, o, vs[|vs| - 1], now);
    }
  }

  /** No import, of whatever orders and however often, gives two rows one id or one reference. */
  lemma {:induction false} ImportKeepsIndexed(db: Db, c: Catalog, orders: seq<Order>, visits: seq<seq<int>>, now: int)
    requires |visits| == |orders| && Indexed(db)
    ensures Indexed(ImportAll(db, c, orders, visits, now))
  {
    hide VisitAll, Indexed;
    if orders != [] {
      var n := |orders| - 1;
      ImportKeepsIndexed(db, c, orders[..n], visits[..n], now);
      OrderKeepsIndexed(ImportAll(db, c, orders[..n], visits[..n], now), c, orders[n], visits[n], now);
    }
  }

  // ---------- After a shop is reconciled ----------

  lemma VisitKeys(p: Progress, c: Catalog, o: Order, v: int, now: int)
    ensures var q := Visit(p, c, o, v, now);
            && q.seqNo == p.seqNo + 1
            && p.db.rows.Keys <= q.db.rows.Keys <= p.db.rows.Keys + {Key(o.id, Target(c, v)), Key(o.id, 0)}
  {
    hide ItemsOf, ToLines, Subtotal, Target, Taken;
  }

  lemma {:induction false} DistinctSize(s: seq<int>)
    requires Distinct(s)
    ensures |Elements(s)| == |s|
  {
    if s != [] {
      var n := |s| - 1;
      DistinctSize(s[..n]);
      ElementsGrow(s[..n], s[n]);
      assert s == s[..n] + [s[n]];
      assert s[n] !in Elements(s[..n]);
    }
  }

  /** While the turns only meet parts that are stored, a second import adds no row and frees no reference. */
  lemma {:induction false} AgainAddsNothing(db: Db, c: Catalog, o: Order, vs: seq<int>, now: int)
    requires Key(o.id, 0) in db.rows
    requires forall i :: 0 <= i < |vs| ==> Key(o.id, Target(c, vs[i])) in db.rows
    ensures var p := VisitAll(db, c, o, vs, now);
            && p.seqNo == |vs| + 1
            && p.db.rows.Keys == db.rows.Keys
            && (forall k :: k in db.rows ==> p.db.rows[k].reference == db.rows[k].reference)
  {
    hide Visit, Target;
    if vs != [] {
      var n := |vs| - 1;
      var p := VisitAll(db, c, o, vs[..n], now);
      assert forall i :: 0 <= i < n ==> vs[..n][i] == vs[i];
      AgainAddsNothing(db, c, o, vs[..n], now);
      TurnWrites(p, c, o, vs[n], now);
    }
  }

  lemma {:induction false} OthersAddOnlyTheirs(db: Db, c: Catalog, o: Order, vs: seq<int>, from: nat, k: Key, now: int)
    requires from <= |vs| && k != Key(o.id, 0)
    requires forall i :: from <= i < |vs| ==> k != Key(o.id, Target(c, vs[i]))
    ensures k in VisitAll(db, c, o, vs, now).db.rows <==> k in VisitAll(db, c, o, vs[..from], now).db.rows
    decreases |vs|
  {
    hide Visit, Target;
    if from < |vs| {
      var n := |vs| - 1;
      VisitKeys(VisitAll(db, c, o, vs[..n], now), c, o, vs[n], now);
      OthersAddOnlyTheirs(db, c, o, vs[..n], from, k, now);
      assert vs[..n][..from] == vs[..from];
    } else {
      assert vs[..from] == vs;
    }
  }

  /** Whether the `k`-th visit of a first import keeps the reference it offered: it is the first to write to its
      vendor, and the group row was not there before it. */
  predicate KeepsReference(c: Catalog, vs: seq<int>, k: nat)
    requires k < |vs|
  {
    FirstPlace(c, vs, Target(c, vs[k])) == Some(k) && (k == 0 || Target(c, vs[k]) != 0)
  }

  /** The references in use after a first import. */
  lemma TakenAfterFirst(db: Db, c: Catalog, o: Order, vs: seq<int>, now: int, k: nat)
    requires Fresh(db.rows, o.id) && k < |vs|
    ensures Taken(VisitAll(db, c, o, vs, now).db.rows, SubRef(o.id, k + 1)) <==> KeepsReference(c, vs, k)
  {
    hide VisitAll, Fresh, Target, HoldsRow, KeepsReference, Taken, FirstPlace;
    FirstImportPlaces(db, c, o, vs, now);
    FirstImportFills(db, c, o, vs, now);
    var p := VisitAll(db, c, o, vs, now);
    assert forall x :: x in p.db.rows && x.order != o.id ==> p.db.rows[x].reference.order != o.id by {
      OtherReferences(db.rows, p.db.rows, o.id);
    }
    hide Placed, Filled, Targets;
    if KeepsReference(c, vs, k) { KeptIsTaken(p, c, o, vs, k); }
    if Taken(p.db.rows, SubRef(o.id, k + 1)) { TakenIsKept(db.rows, p, c, o, vs, k); }
  }

  lemma OtherReferences(start: map<Key, Row>, rows: map<Key, Row>, order: int)
    requires Fresh(start, order) && Untouched(start, rows, order)
    ensures forall x :: x in rows && x.order != order ==> rows[x].reference.order != order
  {
  }

  lemma KeptIsTaken(p: Progress, c: Catalog, o: Order, vs: seq<int>, k: nat)
    requires Filled(p, c, o, vs) && k < |vs| && KeepsReference(c, vs, k)
    ensures Taken(p.db.rows, SubRef(o.id, k + 1))
  {
    hide ItemsOf, Subtotal, ToLines, Target, HasStages, FirstPlace, WriterOf, Targets;
    var t := Target(c, vs[k]);
    WrittenVendors(c, vs, t);
    assert HoldsRow(p.db.rows[Key(o.id, t)], c, o, vs, t, p.parent);
  }

  lemma TakenIsKept(start: map<Key, Row>, p: Progress, c: Catalog, o: Order, vs: seq<int>, k: nat)
    requires Placed(start, p, c, o, vs) && Filled(p, c, o, vs) && k < |vs| && Taken(p.db.rows, SubRef(o.id, k + 1))
    requires forall x :: x in p.db.rows && x.order != o.id ==> p.db.rows[x].reference.order != o.id
    ensures KeepsReference(c, vs, k)
  {
    hide ItemsOf, Subtotal, ToLines, Target, HasStages, FirstPlace, WriterOf, Targets, Untouched;
    var x :| x in p.db.rows && p.db.rows[x].reference == SubRef(o.id, k + 1);
    assert x == Key(o.id, x.vendor);
    if x.vendor in Targets(c, vs) {
      assert HoldsRow(p.db.rows[x], c, o, vs, x.vendor, p.parent);
    }
  }

  /** The catalogue once shop `v` is known as vendor `t`. */
  function Reconciled(c: Catalog, v: int, t: int): Catalog {
    c.(vendors := c.vendors[v := t])
  }

  /** A shop resolved to a new vendor since the first import gets its row from a second import exactly when the
      reference offered at its new place was not kept by the first: elsewhere the insert is refused. */
  lemma ReconciledShopStoredExactly(db: Db, c: Catalog, o: Order, vs: seq<int>, ws: seq<int>, now: int, later: int,
                                    j: nat, k: nat, t: int)
    requires Fresh(db.rows, o.id) && Visits(vs, o.items) && Visits(ws, o.items)
    requires j < |vs| && k < |ws| == |vs| && vs[j] == ws[k]
    requires t != 0 && t !in Targets(c, vs)
    ensures var once := VisitAll(db, c, o, vs, now).db;
            Key(o.id, t) in VisitAll(once, Reconciled(c, vs[j], t), o, ws, later).db.rows
            <==> k > 0 && (Target(c, vs[k]) == 0 || Target(c, vs[k]) in Targets(c, vs[..k]))
  {
    hide *;
    var once, c2, v := VisitAll(db, c, o, vs, now).db, Reconciled(c, vs[j], t), vs[j];
    Reresolves(c, o, vs, ws, j, k, t);
    BeforeTheShop(db, c, o, vs, ws, now, later, j, k, t);
    PartStoredExactly(VisitAll(once, c2, o, ws[..k], later), c2, o, v, later);
    VisitOneMore(once, c2, o, ws, k, later);
    OthersAreNot(c, o, vs, ws, j, k, t);
    OthersAddOnlyTheirs(once, c2, o, ws, k + 1, Key(o.id, t), later);
    KeepsReferenceExactly(c, vs, k);
  }

  lemma KeepsReferenceExactly(c: Catalog, vs: seq<int>, k: nat)
    requires k < |vs|
    ensures KeepsReference(c, vs, k) <==>
            k == 0 || (Target(c, vs[k]) != 0 && Target(c, vs[k]) !in Targets(c, vs[..k]))
  {
    hide Target, Targets, FirstPlace;
    FirstPlaceAt(c, vs, k);
    if k == 0 { NoTargets(c); }
  }

  lemma NoTargets(c: Catalog)
    ensures Targets(c, []) == {}
  {
  }

  lemma {:induction false} FirstPlaceAt(c: Catalog, vs: seq<int>, k: nat)
    requires k < |vs|
    ensures FirstPlace(c, vs, Target(c, vs[k])) == Some(k) <==> Target(c, vs[k]) !in Targets(c, vs[..k])
  {
    hide Target, Targets;
    var n, t := |vs| - 1, Target(c, vs[k]);
    WrittenVendors(c, vs[..n], t);
    if k < n {
      assert vs[..n][..k] == vs[..k];
      FirstPlaceAt(c, vs[..n], k);
    }
  }

  /** Resolved shops have vendors of their own: only unresolved ones share one, the 0. */
  predicate ResolvedApart(c: Catalog, vs: seq<int>) {
    forall i, j :: 0 <= i < j < |vs| && Target(c, vs[i]) == Target(c, vs[j]) ==> Target(c, vs[i]) == 0
  }

  /** With vendors as the table has them, the place must have been that of an unresolved shop, and not the first;
      with a single unresolved shop, its own. */
  lemma {:induction false} ReconciledAmongUnresolved(db: Db, c: Catalog, o: Order, vs: seq<int>, ws: seq<int>, now: int,
                                                     later: int, j: nat, k: nat, t: int)
    requires Fresh(db.rows, o.id) && Visits(vs, o.items) && Visits(ws, o.items) && ResolvedApart(c, vs)
    requires j < |vs| && k < |ws| == |vs| && vs[j] == ws[k] && Target(c, vs[j]) == 0
    requires t != 0 && t !in Targets(c, vs)
    ensures var once := VisitAll(db, c, o, vs, now).db;
            var stored := Key(o.id, t) in VisitAll(once, Reconciled(c, vs[j], t), o, ws, later).db.rows;
            && (stored <==> k > 0 && Target(c, vs[k]) == 0)
            && (KeptApart(c, vs) ==> (stored <==> j == k && j > 0))
  {
    hide VisitAll, Fresh, Visits, Target, Reconciled;
    ReconciledShopStoredExactly(db, c, o, vs, ws, now, later, j, k, t);
    if Target(c, vs[k]) in Targets(c, vs[..k]) {
      var i :| 0 <= i < k && Target(c, vs[..k][i]) == Target(c, vs[k]);
      assert vs[..k][i] == vs[i];
    }
    if KeptApart(c, vs) && Target(c, vs[k]) == 0 { assert j == k; }
  }

  /** Up to the reconciled shop the second import adds no row and frees no reference. */
  lemma {:induction false} BeforeTheShop(db: Db, c: Catalog, o: Order, vs: seq<int>, ws: seq<int>, now: int, later: int,
                                         j: nat, k: nat, t: int)
    requires Fresh(db.rows, o.id) && Visits(vs, o.items) && Visits(ws, o.items)
    requires j < |vs| && k < |ws| == |vs| && vs[j] == ws[k]
    requires t != 0 && t !in Targets(c, vs)
    ensures var p := VisitAll(VisitAll(db, c, o, vs, now).db, Reconciled(c, vs[j], t), o, ws[..k], later);
            && p.seqNo == k + 1
            && Key(o.id, t) !in p.db.rows
            && Key(o.id, 0) in p.db.rows
            && (Taken(p.db.rows, SubRef(o.id, k + 1)) <==> KeepsReference(c, vs, k))
  {
    hide Visit, VisitAll, Fresh, Shops, Distinct, Elements, Taken, Target, Reconciled, ItemsOf, KeepsReference;
    var once, c2 := VisitAll(db, c, o, vs, now).db, Reconciled(c, vs[j], t);
    Reresolves(c, o, vs, ws, j, k, t);
    FirstImportPlaces(db, c, o, vs, now);
    TakenAfterFirst(db, c, o, vs, now, k);
    AgainAddsNothing(once, c2, o, ws[..k], later);
    SameReferences(once.rows, VisitAll(once, c2, o, ws[..k], later).db.rows, SubRef(o.id, k + 1));
  }

  lemma OthersAreNot(c: Catalog, o: Order, vs: seq<int>, ws: seq<int>, j: nat, k: nat, t: int)
    requires Visits(vs, o.items) && Visits(ws, o.items) && j < |vs| && k < |ws| && vs[j] == ws[k]
    requires t !in Targets(c, vs)
    ensures forall i :: k + 1 <= i < |ws| ==> Key(o.id, t) != Key(o.id, Target(Reconciled(c, vs[j], t), ws[i]))
  {
    hide Visits, Target, Targets, Reconciled;
    Reresolves(c, o, vs, ws, j, k, t);
  }

  lemma VisitOneMore(db: Db, c: Catalog, o: Order, vs: seq<int>, k: nat, now: int)
    requires k < |vs|
    ensures VisitAll(db, c, o, vs[..k + 1], now) == Visit(VisitAll(db, c, o, vs[..k], now), c, o, vs[k], now)
  {
    assert vs[..k + 1][..k] == vs[..k];
    hide Visit;
  }

  /** All the other shops still resolve to what they did. */
  lemma Reresolves(c: Catalog, o: Order, vs: seq<int>, ws: seq<int>, j: nat, k: nat, t: int)
    requires Visits(vs, o.items) && Visits(ws, o.items) && j < |vs| && k < |ws| && vs[j] == ws[k]
    ensures |ws| == |vs| && Target(Reconciled(c, vs[j], t), ws[k]) == t
    ensures forall i :: 0 <= i < |ws| && i != k ==> Target(Reconciled(c, vs[j], t), ws[i]) in Targets(c, vs)
    ensures forall i :: 0 <= i < k ==> Target(Reconciled(c, vs[j], t), ws[..k][i]) in Targets(c, vs)
  {
    hide Shops;
    DistinctSize(vs);
    DistinctSize(ws);
    forall i | 0 <= i < |ws| && i != k ensures Target(Reconciled(c, vs[j], t), ws[i]) in Targets(c, vs) {
      assert ws[i] in Elements(vs);
      var at :| 0 <= at < |vs| && vs[at] == ws[i];
      assert ws[i] != vs[j];
    }
  }

  lemma SameReferences(a: map<Key, Row>, b: map<Key, Row>, r: Reference)
    requires a.Keys == b.Keys && forall k :: k in a ==> b[k].reference == a[k].reference
    ensures Taken(a, r) <==> Taken(b, r)
  {
    if Taken(a, r) {
      var k :| k in a && a[k].reference == r;
      assert k in b && b[k].reference == r;
    }
  }

  lemma PartStoredExactly(p: Progress, c: Catalog, o: Order, v: int, now: int)
    requires Key(o.id, Target(c, v)) !in p.db.rows && Key(o.id, 0) in p.db.rows
    ensures Key(o.id, Target(c, v)) in Visit(p, c, o, v, now).db.rows <==> !Taken(p.db.rows, SubRef(o.id, p.seqNo))
  {
    hide ItemsOf, ToLines, Subtotal, Target, Taken;
  }

  // ---------- Importing an order that has changed ----------

  /** What stored lines come to. */
  function Worth(lines: seq<Line>): real {
    if lines == [] then 0.0
    else
      var last := lines[|lines| - 1];
      Worth(lines[..|lines| - 1]) + (last.quantity as real) * last.unitPrice
  }

  /** The part of a subtotal that the lines can show: an item without quantity has no unit price. */
  function Counted(items: seq<Item>): real {
    if items == [] then 0.0
    else Counted(items[..|items| - 1]) + if items[|items| - 1].quantity > 0 then items[|items| - 1].total else 0.0
  }

  lemma UnitPriceTimesQuantity(total: real, quantity: int)
    requires quantity > 0
    ensures (quantity as real) * (total / (quantity as real)) == total
  {
  }

  lemma {:induction false} WorthOfLines(c: Catalog, items: seq<Item>)
    ensures Worth(ToLines(c, items)) == Counted(items)
  {
    if items != [] {
      var n := |items| - 1;
      WorthOfLines(c, items[..n]);
      assert ToLines(c, items)[..n] == ToLines(c, items[..n]);
      assert items[n].quantity <= 0 ==> (items[n].quantity as real) * 0.0 == 0.0;
      if items[n].quantity > 0 { UnitPriceTimesQuantity(items[n].total, items[n].quantity); }
    }
  }

  /** A turn never changes the amounts of a stored row, and the lines only of its own shop's. */
  lemma {:induction false} TurnKeepsAmounts(p: Progress, c: Catalog, o: Order, v: int, now: int, k: Key)
    requires k in p.db.rows
    ensures var rows := Visit(p, c, o, v, now).db.rows;
            && k in rows
            && rows[k].subtotal == p.db.rows[k].subtotal
            && rows[k].total == p.db.rows[k].total
            && rows[k].lines == if k == Key(o.id, Target(c, v)) then ToLines(c, ItemsOf(o.items, v))
                                else p.db.rows[k].lines
  {
    hide ItemsOf, ToLines, Subtotal, Target, Taken, LegacyStatus, PaymentStatus, FulfillmentStage;
  }

  lemma {:induction false} ImportKeepsAmounts(db: Db, c: Catalog, o: Order, vs: seq<int>, now: int, vendor: int)
    requires Key(o.id, vendor) in db.rows
    ensures var k, rows := Key(o.id, vendor), VisitAll(db, c, o, vs, now).db.rows;
            && k in rows
            && rows[k].subtotal == db.rows[k].subtotal
            && rows[k].total == db.rows[k].total
            && rows[k].lines == match WriterOf(c, vs, vendor)
                                case Some(v) => ToLines(c, ItemsOf(o.items, v))
                                case None => db.rows[k].lines
  {
    hide Visit, ToLines, ItemsOf, Target;
    if vs != [] {
      var n := |vs| - 1;
      ImportKeepsAmounts(db, c, o, vs[..n], now, vendor);
      TurnKeepsAmounts(VisitAll(db, c, o, vs[..n], now), c, o, vs[n], now, Key(o.id, vendor));
    }
  }

  /** The items whose lines a vendor's row has after the order `o` was imported and then `changed`. */
  function ItemsShown(c: Catalog, o: Order, vs: seq<int>, changed: Order, ws: seq<int>, vendor: int): seq<Item> {
    match WriterOf(c, ws, vendor)
    case Some(w) => ItemsOf(changed.items, w)
    case None => if WriterOf(c, vs, vendor).Some? then ItemsOf(o.items, WriterOf(c, vs, vendor).value) else []
  }

  /** What the row of a vendor was given as its subtotal: that of the first shop to write to it, or nothing when the
      group row was there before. */
  function AmountOf(c: Catalog, o: Order, vs: seq<int>, vendor: int): real {
    match FirstPlace(c, vs, vendor)
    case Some(i) => if i == 0 || vendor != 0 then Subtotal(ItemsOf(o.items, vs[i])) else 0.0
    case None => 0.0
  }

  /**
   A second import of an order that has changed refreshes the lines of every row it writes to and leaves the
   subtotals: they still agree exactly when what the first shop of the row came to is what the items now shown
   come to. The subtotal may be 0 under lines that are worth something.
   */
  lemma {:induction false} SubtotalStillMatchesExactly(db: Db, c: Catalog, o: Order, vs: seq<int>, changed: Order,
                                                       ws: seq<int>, now: int, later: int, t: int)
    requires Fresh(db.rows, o.id) && changed.id == o.id && t in Targets(c, vs)
    ensures var k := Key(o.id, t);
            var rows := VisitAll(VisitAll(db, c, o, vs, now).db, c, changed, ws, later).db.rows;
            && k in rows
            && rows[k].lines == ToLines(c, ItemsShown(c, o, vs, changed, ws, t))
            && rows[k].subtotal == AmountOf(c, o, vs, t)
            && (rows[k].subtotal == Worth(rows[k].lines) <==>
                  AmountOf(c, o, vs, t) == Counted(ItemsShown(c, o, vs, changed, ws, t)))
  {
    hide VisitAll, Fresh, ItemsOf, Subtotal, ToLines, Target, Targets, HasStages, Worth, Counted, WriterOf, FirstPlace;
    FirstImportFills(db, c, o, vs, now);
    var p := VisitAll(db, c, o, vs, now);
    assert HoldsRow(p.db.rows[Key(o.id, t)], c, o, vs, t, p.parent);
    ImportKeepsAmounts(p.db, c, changed, ws, later, t);
    WorthOfLines(c, ItemsShown(c, o, vs, changed, ws, t));
  }

  /** A shop that no other shares its vendor with is compared with its own items. */
  lemma {:induction false} OwnSubtotalStillMatchesExactly(db: Db, c: Catalog, o: Order, vs: seq<int>, changed: Order,
                                                          ws: seq<int>, now: int, later: int, i: nat)
    requires Fresh(db.rows, o.id) && changed.id == o.id && i < |vs| && Alone(c, vs, i) && Target(c, vs[i]) != 0
    requires vs[i] in ws && forall j :: 0 <= j < |ws| && Target(c, ws[j]) == Target(c, vs[i]) ==> ws[j] == vs[i]
    ensures var k := Key(o.id, Target(c, vs[i]));
            var rows := VisitAll(VisitAll(db, c, o, vs, now).db, c, changed, ws, later).db.rows;
            && k in rows
            && (rows[k].subtotal == Worth(rows[k].lines) <==>
                  Subtotal(ItemsOf(o.items, vs[i])) == Counted(ItemsOf(changed.items, vs[i])))
  {
    hide VisitAll, Fresh, ItemsOf, Subtotal, ToLines, Target, Worth, Counted, WriterOf, FirstPlace;
    var t := Target(c, vs[i]);
    assert t in Targets(c, vs);
    SubtotalStillMatchesExactly(db, c, o, vs, changed, ws, now, later, t);
    AloneWrites(c, vs, i);
    var m :| 0 <= m < |ws| && ws[m] == vs[i];
    assert t in Targets(c, ws);
    WrittenVendors(c, ws, t);
    WriterIs(c, ws, t);
  }
}

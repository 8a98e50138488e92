/** The recently viewed products kept in the browser: newest first, without repetition, at most twenty. */
module RecentlyViewed {
  import opened Options
  import opened Runs
  import opened Texts

  const MAX := 20

  /** A product id as the caller has it; the empty text and zero are falsy. */
  datatype ProductId = Text(text: string) | Number(number: int)

  predicate Falsy(id: ProductId) {
    id == Text("") || id == Number(0)
  }

  function Printed(id: ProductId): string {
    match id
    case Text(text) => text
    case Number(number) => Decimal(number)
  }

  function Without(list: seq<string>, id: string): (r: seq<string>)
    ensures |r| <= |list|
    ensures id !in r
  {
    if list == [] then []
    else
      var past, last := Without(list[..|list| - 1], id), list[|list| - 1];
      if last == id then past else past + [last]
  }

  function Truncated(list: seq<string>): (r: seq<string>)
    ensures |r| <= MAX
  {
    if |list| <= MAX then list else list[..MAX]
  }

  function Recorded(list: seq<string>, id: ProductId): seq<string> {
    if Falsy(id) then list else Truncated([Printed(id)] + Without(list, Printed(id)))
  }

  // ---------- The history ----------

  function Stored(history: Run<ProductId>): seq<string> {
    match history
    case Start => []
    case Then(past, last) => Recorded(Stored(past), last)
  }

  /** Every view that counts, newest first. */
  function NewestFirst(history: Run<ProductId>): seq<string> {
    match history
    case Start => []
    case Then(past, last) => (if Falsy(last) then [] else [Printed(last)]) + NewestFirst(past)
  }

  /** Each id once, where it first appears. */
  function FirstSeen(s: seq<string>): seq<string> {
    if s == [] then []
    else
      var seen, x := FirstSeen(s[..|s| - 1]), s[|s| - 1];
      if x in seen then seen else seen + [x]
  }

  predicate NoRepeats(s: seq<string>) {
    forall i, j :: 0 <= i < j < |s| ==> s[i] != s[j]
  }

  lemma {:induction false} WithoutKeeps(s: seq<string>, y: string, x: string)
    requires y != x
    ensures y in Without(s, x) <==> y in s
  {
    if s != [] {
      var n := |s| - 1;
      WithoutKeeps(s[..n], y, x);
      assert s == s[..n] + [s[n]];
    }
  }

  /** Moving a view to the front is one step of listing first appearances. */
  lemma {:induction false} FirstSeenCons(x: string, s: seq<string>)
    ensures FirstSeen([x] + s) == [x] + Without(FirstSeen(s), x)
  {
    if s == [] {
      assert [x] + s == [x] && [x][..0] == [];
    } else {
      var n := |s| - 1;
      var y, seen := s[n], FirstSeen(s[..n]);
      FirstSeenCons(x, s[..n]);
      assert ([x] + s)[..|s|] == [x] + s[..n];
      assert FirstSeen(s) == if y in seen then seen else seen + [y];
      var before := [x] + Without(seen, x);
      assert FirstSeen([x] + s) == if y in before then before else before + [y];
      hide FirstSeen;
      if y != x { WithoutKeeps(seen, y, x); }
      SeenNext(x, y, seen);
      hide Without;
    }
  }

  lemma SeenNext(x: string, y: string, seen: seq<string>)
    requires y != x ==> (y in Without(seen, x) <==> y in seen)
    ensures var next := if y in seen then seen else seen + [y];
            [x] + Without(next, x) ==
            if y in [x] + Without(seen, x) then [x] + Without(seen, x) else [x] + Without(seen, x) + [y]
  {
    assert (seen + [y])[..|seen|] == seen;
  }

  lemma {:induction false} FirstSeenOnce(s: seq<string>)
    ensures NoRepeats(FirstSeen(s))
  {
    if s != [] { FirstSeenOnce(s[..|s| - 1]); }
  }

  lemma {:induction false} WithoutAbsent(s: seq<string>, x: string)
    requires x !in s
    ensures Without(s, x) == s
  {
    if s != [] {
      var n := |s| - 1;
      assert s == s[..n] + [s[n]];
      WithoutAbsent(s[..n], x);
    }
  }

  lemma {:induction false} WithoutDropsOne(s: seq<string>, x: string)
    requires NoRepeats(s)
    ensures |Without(s, x)| >= |s| - 1
  {
    if s != [] {
      var n := |s| - 1;
      if s[n] == x {
        assert x !in s[..n];
        WithoutAbsent(s[..n], x);
      } else {
        WithoutDropsOne(s[..n], x);
      }
    }
  }

  lemma {:induction false} WithoutPrefix(s: seq<string>, x: string, n: nat)
    requires n <= |s|
    ensures Without(s[..n], x) <= Without(s, x)
  {
    var m := |s| - 1;
    if n <= m {
      assert s[..m][..n] == s[..n];
      WithoutPrefix(s[..m], x, n);
    } else {
      assert s[..n] == s;
    }
  }

  /** Cutting the list first costs at most the one place the new id takes. */
  lemma {:induction false} CutThenDrop(s: seq<string>, x: string)
    requires |s| > MAX && NoRepeats(s)
    ensures Truncated([x] + Without(s[..MAX], x)) == Truncated([x] + Without(s, x))
  {
    WithoutPrefix(s, x, MAX);
    WithoutDropsOne(s[..MAX], x);
    hide Without, NoRepeats;
    SameFirstTwenty(Without(s[..MAX], x), Without(s, x), x);
  }

  lemma SameFirstTwenty(cut: seq<string>, whole: seq<string>, x: string)
    requires cut <= whole && |cut| >= MAX - 1
    ensures Truncated([x] + cut) == Truncated([x] + whole)
  {
    if |cut| == |whole| {
      assert cut == whole;
    } else {
      assert forall i :: 0 <= i < MAX ==> ([x] + cut)[i] == ([x] + whole)[i];
    }
  }

  /** After any history, the stored list is the first twenty distinct ids of the views, newest first: cutting
      at every step loses nothing over cutting once at the end. */
  lemma {:induction false} StoredIsFirstTwenty(history: Run<ProductId>)
    ensures Stored(history) == Truncated(FirstSeen(NewestFirst(history)))
    ensures NoRepeats(FirstSeen(NewestFirst(history)))
  {
    hide FirstSeen, Without, NoRepeats, Falsy, Printed;
    if history == Start {
      NothingSeen();
    } else {
      StoredIsFirstTwenty(history.past);
      var views := NewestFirst(history.past);
      var all, x := FirstSeen(views), Printed(history.last);
      if Falsy(history.last) {
        assert [] + views == views;
      } else {
        FirstSeenCons(x, views);
        FirstSeenOnce([x] + views);
        if |all| > MAX { CutThenDrop(all, x); }
      }
    }
  }

  lemma NothingSeen()
    ensures FirstSeen([]) == [] && NoRepeats([])
  {
  }

  /** Every view is listed first, except that the empty id and 0 are not views. */
  lemma ViewIsListedFirst(history: Run<ProductId>, id: ProductId)
    ensures var was, now := Stored(history), Stored(Then(history, id));
            if id == Text("") || id == Number(0) then now == was
            else
              && now != [] && |now| <= 20 && now[0] == Printed(id)
              && forall x :: x in now ==> x == Printed(id) || x in was
  {
    hide Printed;
    var all := [Printed(id)] + Without(Stored(history), Printed(id));
    WithoutIsWithin(Stored(history), Printed(id));
    assert forall x :: x in Truncated(all) ==> x in all;
  }

  lemma {:induction false} WithoutIsWithin(list: seq<string>, id: string)
    ensures forall x :: x in Without(list, id) ==> x in list
  {
    if list != [] { WithoutIsWithin(list[..|list| - 1], id); }
  }

  // ---------- The browser's storage ----------

  /** JSON text and its parse; a text that is not an array of texts parses to nothing. */
  datatype Json = Json(stringify: seq<string> -> string, parse: string -> Option<seq<string>>)

  ghost predicate Faithful(json: Json) {
    forall list :: json.parse(json.stringify(list)) == Some(list)
  }

  class Storage {
    const json: Json
    var raw: Option<string>
    ghost var history: Run<ProductId>

    /** Missing and unreadable storage both read as no views. */
    function Parsed(text: Option<string>): seq<string> {
      if text.Some? && json.parse(text.value).Some? then json.parse(text.value).value else []
    }

    /** The storage is what the views so far have left in it. */
    ghost predicate Valid()
      reads this
    {
      Faithful(json) && Parsed(raw) == Stored(history)
    }

    constructor (json: Json)
      requires Faithful(json)
      ensures Valid() && this.json == json && history == Start
    {
      this.json := json;
      raw, history := None, Start;
    }

    /** Reading gives the first twenty distinct ids of the views so far, newest first; damaged storage gives none. */
    method GetRecentlyViewedIds() returns (ids: seq<string>)
      ensures ids == Parsed(raw)
      ensures Valid() ==> ids == Truncated(FirstSeen(NewestFirst(history))) && NoRepeats(ids)
    {
      ids := [];
      if raw.Some? {
        var parsed := json.parse(raw.value);
        if parsed.Some? {
          ids := parsed.value;
        }
      }
      StoredIsFirstTwenty(history);
    }

    /** Recording a view adds it to the history; a falsy id writes nothing, and damaged storage is started over. */
    method RecordRecentlyViewed(productId: ProductId)
      requires Faithful(json)
      modifies this
      ensures history == Then(old(history), productId) && (old(Valid()) ==> Valid())
      ensures raw == if Falsy(productId) then old(raw) else Some(json.stringify(Recorded(Parsed(old(raw)), productId)))
      ensures productId == Text("") || productId == Number(0) ==> raw == old(raw)
      ensures productId != Text("") && productId != Number(0) ==>
                Parsed(raw) != [] && Parsed(raw)[0] == Printed(productId) && |Parsed(raw)| <= 20
    {
      hide FirstSeen, NewestFirst, NoRepeats;
      history := Then(history, productId);
      if Falsy(productId) {
        return;
      }
      var id := Printed(productId);
      var kept := Without(Parsed(raw), id);
      kept := [id] + kept;
      raw := Some(json.stringify(if |kept| <= MAX then kept else kept[..MAX]));
    }
  }
}

/**
 The client's cart: a list of lines searched by key, edited by two separate add paths, by the
 cart page and by the merge at login. Product details are not part of this model.
 */
module Cart {
  import opened Options
  import opened Runs
  import opened Texts

  datatype Line = Line(productId: string, variationId: Option<string>)

  datatype Item = Item(line: Line, quantity: int)

  // ---------- Keys ----------

  function Key(line: Line): string {
    if line.variationId.Some? then line.productId + "-" + line.variationId.value else line.productId
  }

  /** What the sync reads back from a key: the first piece, and the second unless it is empty. */
  function UnKey(key: string): Line {
    var parts := Split(key, '-');
    Line(parts[0], if |parts| >= 2 && parts[1] != "" then Some(parts[1]) else None)
  }

  predicate DashFree(line: Line) {
    '-' !in line.productId &&
    (line.variationId.Some? ==> '-' !in line.variationId.value && line.variationId.value != "")
  }

  /** For ids without a dash, splitting undoes joining. */
  lemma UnKeyOfKey(line: Line)
    requires DashFree(line)
    ensures UnKey(Key(line)) == line
  {
    if line.variationId.Some? {
      assert Key(line) == line.productId + ['-'] + line.variationId.value;
      SplitHead(line.productId, '-', line.variationId.value);
      SplitWhole(line.variationId.value, '-');
    } else {
      SplitWhole(line.productId, '-');
    }
  }

  lemma KeyInjective(a: Line, b: Line)
    requires DashFree(a) && DashFree(b) && Key(a) == Key(b)
    ensures a == b
  {
    UnKeyOfKey(a);
    UnKeyOfKey(b);
  }

  /** Splitting a key at dashes gives back its line exactly when no id in it holds a dash or is empty. */
  lemma UnKeyOfKeyExactly(line: Line)
    ensures UnKey(Key(line)) == line <==> DashFree(line)
  {
    SplitPiecesAreClean(Key(line), '-');
    if DashFree(line) { UnKeyOfKey(line); }
  }

  /** A product whose id is another's with a dash and a variation's shares that variation's key. */
  lemma DashesCollide(product: string, variation: string)
    ensures var a, b := Line(product + "-" + variation, None), Line(product, Some(variation));
            a != b && Key(a) == Key(b) && UnKey(Key(a)) != a
  {
    var a := Line(product + "-" + variation, None);
    assert a.productId[|product|] == '-';
    UnKeyOfKeyExactly(a);
  }

  /** The ids the server gives out, numbers printed in decimal, never hold a dash. */
  lemma PrintedIdsAreDashFree(product: nat, variation: Option<nat>)
    ensures var line := Line(Decimal(product), if variation.Some? then Some(Decimal(variation.value)) else None);
            DashFree(line) && UnKey(Key(line)) == line
  {
    NoDashInDigits(product);
    if variation.Some? {
      NoDashInDigits(variation.value);
      UndigitsDigits(variation.value);
    }
    UnKeyOfKeyExactly(Line(Decimal(product), if variation.Some? then Some(Decimal(variation.value)) else None));
  }

  // ---------- Looking up and editing ----------

  /** The quantity of the first line with that key. */
  function Get(cart: seq<Item>, key: string): Option<int> {
    if cart == [] then None
    else if Key(cart[0].line) == key then Some(cart[0].quantity)
    else Get(cart[1..], key)
  }

  function OrZero(q: Option<int>): int {
    if q.Some? then q.value else 0
  }

  function Total(cart: seq<Item>): int {
    if cart == [] then 0 else cart[0].quantity + Total(cart[1..])
  }

  function CountKey(cart: seq<Item>, key: string): nat {
    if cart == [] then 0 else CountKey(cart[1..], key) + (if Key(cart[0].line) == key then 1 else 0)
  }

  /** The shared store's add: the first line with the key grows, or a line is appended. */
  function AddFirst(cart: seq<Item>, line: Line, quantity: int): seq<Item> {
    if cart == [] then [Item(line, quantity)]
    else if Key(cart[0].line) == Key(line) then [cart[0].(quantity := cart[0].quantity + quantity)] + cart[1..]
    else [cart[0]] + AddFirst(cart[1..], line, quantity)
  }

  /** Every line with the key grows. */
  function AddAll(cart: seq<Item>, key: string, quantity: int): seq<Item> {
    if cart == [] then []
    else
      [if Key(cart[0].line) == key then cart[0].(quantity := cart[0].quantity + quantity) else cart[0]]
      + AddAll(cart[1..], key, quantity)
  }

  /** The page's add. */
  function AddReact(cart: seq<Item>, line: Line, quantity: int): seq<Item> {
    if Get(cart, Key(line)).Some? then AddAll(cart, Key(line), quantity) else cart + [Item(line, quantity)]
  }

  function RemoveProduct(cart: seq<Item>, productId: string): seq<Item> {
    if cart == [] then []
    else if cart[0].line.productId == productId then RemoveProduct(cart[1..], productId)
    else [cart[0]] + RemoveProduct(cart[1..], productId)
  }

  function SetQuantity(cart: seq<Item>, productId: string, quantity: int): seq<Item> {
    if cart == [] then []
    else
      [if cart[0].line.productId == productId then cart[0].(quantity := quantity) else cart[0]]
      + SetQuantity(cart[1..], productId, quantity)
  }

  /** The cart page addresses a product, so all its variations change together. */
  function UpdateQuantity(cart: seq<Item>, productId: string, quantity: int): seq<Item> {
    if quantity <= 0 then RemoveProduct(cart, productId) else SetQuantity(cart, productId, quantity)
  }

  function Max(a: int, b: int): int {
    if a >= b then a else b
  }

  /** One server line merged in: the larger quantity stays, an unknown line is appended. */
  function MergeOne(cart: seq<Item>, it: Item): seq<Item> {
    if cart == [] then [it]
    else if Key(cart[0].line) == Key(it.line)
    then [cart[0].(quantity := Max(cart[0].quantity, it.quantity))] + cart[1..]
    else [cart[0]] + MergeOne(cart[1..], it)
  }

  function Merge(cart: seq<Item>, server: seq<Item>): seq<Item>
    decreases |server|
  {
    if server == [] then cart else Merge(MergeOne(cart, server[0]), server[1..])
  }

  // ---------- The two add paths ----------

  lemma {:induction false} AddAllGets(cart: seq<Item>, key: string, quantity: int, k: string)
    ensures Get(AddAll(cart, key, quantity), k)
         == if k == key && Get(cart, k).Some? then Some(Get(cart, k).value + quantity) else Get(cart, k)
    ensures Total(AddAll(cart, key, quantity)) == Total(cart) + CountKey(cart, key) * quantity
    ensures Get(cart, key).Some? <==> CountKey(cart, key) > 0
  {
    if cart != [] {
      AddAllGets(cart[1..], key, quantity, k);
      assert AddAll(cart, key, quantity)[1..] == AddAll(cart[1..], key, quantity);
      assert (CountKey(cart[1..], key) + 1) * quantity == CountKey(cart[1..], key) * quantity + quantity;
    }
  }

  lemma {:induction false} AppendGets(cart: seq<Item>, it: Item, k: string)
    ensures Get(cart + [it], k) == if Get(cart, k).Some? then Get(cart, k)
                                   else if k == Key(it.line) then Some(it.quantity) else None
    ensures Total(cart + [it]) == Total(cart) + it.quantity
  {
    if cart != [] {
      AppendGets(cart[1..], it, k);
      assert (cart + [it])[1..] == cart[1..] + [it];
    }
  }

  lemma {:induction false} AddFirstGets(cart: seq<Item>, line: Line, quantity: int, k: string)
    ensures Get(AddFirst(cart, line, quantity), k)
         == if k == Key(line) then Some(OrZero(Get(cart, k)) + quantity) else Get(cart, k)
    ensures Total(AddFirst(cart, line, quantity)) == Total(cart) + quantity
  {
    var after := AddFirst(cart, line, quantity);
    if cart == [] {
      assert after[1..] == [];
    } else if Key(cart[0].line) == Key(line) {
      assert after[1..] == cart[1..];
    } else {
      AddFirstGets(cart[1..], line, quantity, k);
      assert after[1..] == AddFirst(cart[1..], line, quantity);
    }
  }

  /** Both paths perform the same update of the key-to-quantity map. */
  lemma AddPathsUpdateAlike(cart: seq<Item>, line: Line, quantity: int, k: string)
    ensures Get(AddReact(cart, line, quantity), k)
         == Get(AddFirst(cart, line, quantity), k)
         == if k == Key(line) then Some(OrZero(Get(cart, k)) + quantity) else Get(cart, k)
  {
    AddFirstGets(cart, line, quantity, k);
    AddAllGets(cart, Key(line), quantity, k);
    AddAllGets(cart, Key(line), quantity, Key(line));
    AppendGets(cart, Item(line, quantity), k);
  }

  /**
   The store raises the count by exactly what was added; the page does so exactly when no key is
   in the cart twice, or nothing is added.
   */
  lemma AddedCountExactly(cart: seq<Item>, line: Line, quantity: int)
    ensures Total(AddFirst(cart, line, quantity)) == Total(cart) + quantity
    ensures Total(AddReact(cart, line, quantity)) == Total(cart) + quantity
            <==> CountKey(cart, Key(line)) <= 1 || quantity == 0
  {
    AddFirstGets(cart, line, quantity, "");
    AddAllGets(cart, Key(line), quantity, "");
    AppendGets(cart, Item(line, quantity), "");
    TimesIsOnce(CountKey(cart, Key(line)), quantity);
    hide Get, Total, CountKey, AddAll, AddFirst;
  }

  lemma TimesIsOnce(n: nat, q: int)
    ensures n > 0 ==> (n * q == q <==> n == 1 || q == 0)
  {
    if n > 1 && q > 0 { assert n * q >= 2 * q; }
    if n > 1 && q < 0 { assert n * q <= 2 * q; }
  }

  // ---------- The cart page ----------

  predicate AllDashFree(cart: seq<Item>) {
    cart != [] ==> DashFree(cart[0].line) && AllDashFree(cart[1..])
  }

  /** Setting or removing a product touches all its lines and no other product's. */
  lemma {:induction false} UpdateGets(cart: seq<Item>, productId: string, quantity: int, line: Line)
    requires AllDashFree(cart) && DashFree(line)
    ensures Get(UpdateQuantity(cart, productId, quantity), Key(line))
         == if line.productId != productId then Get(cart, Key(line))
            else if quantity <= 0 || Get(cart, Key(line)).None? then None
            else Some(quantity)
  {
    if cart != [] {
      UpdateGets(cart[1..], productId, quantity, line);
      if Key(cart[0].line) == Key(line) { KeyInjective(cart[0].line, line); }
      var after := UpdateQuantity(cart, productId, quantity);
      if quantity > 0 || cart[0].line.productId != productId {
        assert after[1..] == UpdateQuantity(cart[1..], productId, quantity);
      }
    }
  }

  // ---------- The merge ----------

  /** The largest quantity the server lists under a key. */
  function ServerMax(server: seq<Item>, key: string): Option<int> {
    if server == [] then None
    else Join(if Key(server[0].line) == key then Some(server[0].quantity) else None, ServerMax(server[1..], key))
  }

  function Join(a: Option<int>, b: Option<int>): Option<int> {
    if a.None? then b else if b.None? then a else Some(Max(a.value, b.value))
  }

  lemma {:induction false} MergeOneGets(cart: seq<Item>, it: Item, k: string)
    ensures Get(MergeOne(cart, it), k)
         == Join(Get(cart, k), if Key(it.line) == k then Some(it.quantity) else None)
  {
    if cart != [] && Key(cart[0].line) != Key(it.line) {
      MergeOneGets(cart[1..], it, k);
      assert MergeOne(cart, it)[1..] == MergeOne(cart[1..], it);
    } else if cart != [] {
      assert MergeOne(cart, it)[1..] == cart[1..];
    }
  }

  /** The login merge is the pointwise maximum of the two carts: no line is lost, none shrinks. */
  lemma {:induction false} MergeIsPointwiseMax(cart: seq<Item>, server: seq<Item>, k: string)
    ensures Get(Merge(cart, server), k) == Join(Get(cart, k), ServerMax(server, k))
    decreases |server|
  {
    if server != [] {
      MergeOneGets(cart, server[0], k);
      MergeIsPointwiseMax(MergeOne(cart, server[0]), server[1..], k);
    }
  }

  predicate Dominates(cart: seq<Item>, server: seq<Item>) {
    server != [] ==>
      Get(cart, Key(server[0].line)).Some? && Get(cart, Key(server[0].line)).value >= server[0].quantity &&
      Dominates(cart, server[1..])
  }

  lemma {:induction false} MergeOneNoChange(cart: seq<Item>, it: Item)
    requires Get(cart, Key(it.line)).Some? && Get(cart, Key(it.line)).value >= it.quantity
    ensures MergeOne(cart, it) == cart
  {
    if Key(cart[0].line) != Key(it.line) { MergeOneNoChange(cart[1..], it); }
  }

  lemma {:induction false} MergeNoChange(cart: seq<Item>, server: seq<Item>)
    requires Dominates(cart, server)
    ensures Merge(cart, server) == cart
  {
    if server != [] {
      MergeOneNoChange(cart, server[0]);
      MergeNoChange(cart, server[1..]);
    }
  }

  lemma {:induction false} MergedDominates(merged: seq<Item>, cart: seq<Item>, done: seq<Item>, rest: seq<Item>)
    requires merged == Merge(cart, done + rest)
    ensures Dominates(merged, rest)
    decreases |rest|
  {
    if rest != [] {
      assert done + rest == (done + [rest[0]]) + rest[1..];
      MergedDominates(merged, cart, done + [rest[0]], rest[1..]);
      MergeIsPointwiseMax(cart, done + rest, Key(rest[0].line));
      ServerMaxAtLeast(done + rest, |done|);
    }
  }

  lemma {:induction false} ServerMaxAtLeast(server: seq<Item>, i: nat)
    requires i < |server|
    ensures ServerMax(server, Key(server[i].line)).Some?
    ensures ServerMax(server, Key(server[i].line)).value >= server[i].quantity
  {
    if i > 0 { ServerMaxAtLeast(server[1..], i - 1); }
  }

  /** Merging the same server cart again changes nothing, not even the order. */
  lemma MergeIdempotent(cart: seq<Item>, server: seq<Item>)
    ensures Merge(Merge(cart, server), server) == Merge(cart, server)
  {
    assert [] + server == server;
    MergedDominates(Merge(cart, server), cart, [], server);
    MergeNoChange(Merge(cart, server), server);
  }

  // ---------- Runs of edits ----------

  predicate Unique(cart: seq<Item>) {
    cart != [] ==> Get(cart[1..], Key(cart[0].line)).None? && Unique(cart[1..])
  }

  predicate Positive(cart: seq<Item>) {
    cart != [] ==> cart[0].quantity >= 1 && Positive(cart[1..])
  }

  datatype Edit =
    | PageAdd(line: Line, quantity: int)
    | StoreAdd(line: Line, quantity: int)
    | Update(productId: string, quantity: int)
    | Remove(productId: string)
    | LoginMerge(server: seq<Item>)

  function Edited(cart: seq<Item>, e: Edit): seq<Item> {
    match e
    case PageAdd(line, quantity) => AddReact(cart, line, quantity)
    case StoreAdd(line, quantity) => AddFirst(cart, line, quantity)
    case Update(productId, quantity) => UpdateQuantity(cart, productId, quantity)
    case Remove(productId) => RemoveProduct(cart, productId)
    case LoginMerge(server) => Merge(cart, server)
  }

  function After(run: Run<Edit>): seq<Item> {
    match run
    case Start => []
    case Then(past, e) => Edited(After(past), e)
  }

  /** Adds are of at least one piece, and the server only stores positive quantities. */
  predicate Sensible(run: Run<Edit>) {
    run.Then? ==>
      && Sensible(run.past)
      && (run.last.PageAdd? || run.last.StoreAdd? ==> run.last.quantity >= 1)
      && (run.last.LoginMerge? ==> Positive(run.last.server))
  }

  predicate Good(cart: seq<Item>) {
    Unique(cart) && Positive(cart)
  }

  lemma {:induction false} AddAllKeeps(cart: seq<Item>, key: string, quantity: int)
    requires Good(cart) && quantity >= 1
    ensures Good(AddAll(cart, key, quantity))
  {
    if cart != [] {
      AddAllKeeps(cart[1..], key, quantity);
      AddAllGets(cart[1..], key, quantity, Key(cart[0].line));
      assert AddAll(cart, key, quantity)[1..] == AddAll(cart[1..], key, quantity);
    }
  }

  lemma {:induction false} AppendKeeps(cart: seq<Item>, it: Item)
    requires Good(cart) && it.quantity >= 1 && Get(cart, Key(it.line)).None?
    ensures Good(cart + [it])
  {
    if cart == [] {
      assert [it][1..] == [] && (cart + [it])[1..] == [];
    } else {
      AppendKeeps(cart[1..], it);
      AppendGets(cart[1..], it, Key(cart[0].line));
      assert (cart + [it])[1..] == cart[1..] + [it];
    }
  }

  lemma {:induction false} AddFirstKeeps(cart: seq<Item>, line: Line, quantity: int)
    requires Good(cart) && quantity >= 1
    ensures Good(AddFirst(cart, line, quantity))
  {
    var after := AddFirst(cart, line, quantity);
    if cart == [] {
      assert after[1..] == [];
    } else if Key(cart[0].line) == Key(line) {
      assert after[1..] == cart[1..];
    } else {
      AddFirstKeeps(cart[1..], line, quantity);
      AddFirstGets(cart[1..], line, quantity, Key(cart[0].line));
      assert after[1..] == AddFirst(cart[1..], line, quantity);
    }
  }

  lemma {:induction false} RemoveGetsNone(cart: seq<Item>, productId: string, k: string)
    requires Get(cart, k).None?
    ensures Get(RemoveProduct(cart, productId), k).None?
  {
    if cart != [] {
      RemoveGetsNone(cart[1..], productId, k);
      if cart[0].line.productId != productId {
        assert RemoveProduct(cart, productId)[1..] == RemoveProduct(cart[1..], productId);
      }
    }
  }

  lemma {:induction false} RemoveKeeps(cart: seq<Item>, productId: string)
    requires Good(cart)
    ensures Good(RemoveProduct(cart, productId))
  {
    if cart != [] {
      RemoveKeeps(cart[1..], productId);
      if cart[0].line.productId != productId {
        assert RemoveProduct(cart, productId)[1..] == RemoveProduct(cart[1..], productId);
        RemoveGetsNone(cart[1..], productId, Key(cart[0].line));
      }
    }
  }

  lemma {:induction false} SetKeeps(cart: seq<Item>, productId: string, quantity: int)
    requires Good(cart) && quantity >= 1
    ensures Good(SetQuantity(cart, productId, quantity))
    ensures forall k :: Get(cart, k).None? ==> Get(SetQuantity(cart, productId, quantity), k).None?
  {
    if cart != [] {
      SetKeeps(cart[1..], productId, quantity);
      assert SetQuantity(cart, productId, quantity)[1..] == SetQuantity(cart[1..], productId, quantity);
    }
  }

  lemma {:induction false} MergeOneKeeps(cart: seq<Item>, it: Item)
    requires Good(cart) && it.quantity >= 1
    ensures Good(MergeOne(cart, it))
  {
    var after := MergeOne(cart, it);
    if cart == [] {
      assert after[1..] == [];
    } else if Key(cart[0].line) == Key(it.line) {
      assert after[1..] == cart[1..];
    } else {
      MergeOneKeeps(cart[1..], it);
      MergeOneGets(cart[1..], it, Key(cart[0].line));
      assert after[1..] == MergeOne(cart[1..], it);
    }
  }

  lemma {:induction false} MergeKeeps(cart: seq<Item>, server: seq<Item>)
    requires Good(cart) && Positive(server)
    ensures Good(Merge(cart, server))
    decreases |server|
  {
    if server != [] {
      MergeOneKeeps(cart, server[0]);
      MergeKeeps(MergeOne(cart, server[0]), server[1..]);
    }
  }

  /** What was added under a key. */
  function Added(run: Run<Edit>, key: string): int {
    match run
    case Start => 0
    case Then(past, e) =>
      Added(past, key) + if (e.PageAdd? || e.StoreAdd?) && Key(e.line) == key then e.quantity else 0
  }

  predicate OnlyAdds(run: Run<Edit>) {
    run.Then? ==> OnlyAdds(run.past) && (run.last.PageAdd? || run.last.StoreAdd?)
  }

  /** From an empty cart, adds by either path in any order leave under every key what was added under it. */
  lemma {:induction false} AddsSumUp(run: Run<Edit>, key: string)
    requires OnlyAdds(run)
    ensures OrZero(Get(After(run), key)) == Added(run, key)
  {
    hide AddReact, AddFirst, Get, Key;
    if run.Then? {
      AddsSumUp(run.past, key);
      AddPathsUpdateAlike(After(run.past), run.last.line, run.last.quantity, key);
    } else {
      NothingIn(key);
    }
  }

  lemma NothingIn(key: string)
    ensures Get([], key) == None
  {
  }

  /** In every run of edits keys stay unique and quantities positive. */
  lemma {:induction false} EditsKeepCartGood(run: Run<Edit>)
    requires Sensible(run)
    ensures Good(After(run))
  {
    hide Good, AddAll, AddFirst, SetQuantity, RemoveProduct, Merge, Get;
    match run
    case Start => EmptyIsGood();
    case Then(past, e) =>
      EditsKeepCartGood(past);
      var cart := After(past);
      match e
      case PageAdd(line, quantity) =>
        if Get(cart, Key(line)).Some? { AddAllKeeps(cart, Key(line), quantity); }
        else { AppendKeeps(cart, Item(line, quantity)); }
      case StoreAdd(line, quantity) => AddFirstKeeps(cart, line, quantity);
      case Update(productId, quantity) =>
        if quantity <= 0 { RemoveKeeps(cart, productId); } else { SetKeeps(cart, productId, quantity); }
      case Remove(productId) => RemoveKeeps(cart, productId);
      case LoginMerge(server) => MergeKeeps(cart, server);
  }

  lemma EmptyIsGood()
    ensures Good([])
  {
  }

  // ---------- The shared cart store ----------

  /** JSON text and its parse; parsing may fail. */
  datatype Json = Json(stringify: seq<Item> -> string, parse: string -> Option<seq<Item>>)

  /** Every cart the codec writes reads back as itself. */
  ghost predicate Faithful(json: Json) {
    forall cart :: json.parse(json.stringify(cart)) == Some(cart)
  }

  class CartStore {
    const json: Json
    var raw: Option<string>
    var cachedRaw: Option<string>
    var cachedSnapshot: seq<Item>

    ghost predicate Valid()
      reads this
    {
      cachedSnapshot == Parsed(cachedRaw)
    }

    /** Missing and malformed storage both read as the empty cart. */
    function Parsed(text: Option<string>): seq<Item> {
      if text.Some? && json.parse(text.value).Some? then json.parse(text.value).value else []
    }

    constructor (json: Json)
      ensures Valid() && this.json == json && raw == None
    {
      this.json := json;
      raw, cachedRaw, cachedSnapshot := None, None, [];
    }

    /** The snapshot is re-parsed only when the stored text changed, and is never stale. */
    method GetCartSnapshot() returns (cart: seq<Item>)
      requires Valid()
      modifies this`cachedRaw, this`cachedSnapshot
      ensures Valid() && cart == Parsed(raw)
    {
      if raw != cachedRaw {
        cachedRaw := raw;
        cachedSnapshot := Parsed(raw);
      }
      cart := cachedSnapshot;
    }

    /** Malformed storage is left alone; the cached snapshot is not touched. */
    method AddItemToCart(line: Line, quantity: int)
      requires Valid()
      modifies this`raw
      ensures Valid()
      ensures raw == if old(raw).Some? && json.parse(old(raw).value).None? then old(raw)
                     else Some(json.stringify(AddFirst(Parsed(old(raw)), line, quantity)))
    {
      var cart: seq<Item> := [];
      if raw.Some? {
        var parsed := json.parse(raw.value);
        if parsed.None? {
          return;
        }
        cart := parsed.value;
      }
      var i := FindIndex(cart, Key(line));
      AddFirstAt(cart, line, quantity, i);
      if i < |cart| {
        cart := cart[i := cart[i].(quantity := cart[i].quantity + quantity)];
      } else {
        cart := cart + [Item(line, quantity)];
      }
      raw := Some(json.stringify(cart));
    }

    method GetCartCount() returns (n: int)
      ensures n == Total(Parsed(raw))
    {
      n := 0;
      var cart := Parsed(raw);
      for i := 0 to |cart|
        invariant n + Total(cart[i..]) == Total(cart)
      {
        n := n + cart[i].quantity;
        assert cart[i..][1..] == cart[i + 1..];
      }
    }
  }

  method FindIndex(cart: seq<Item>, key: string) returns (i: nat)
    ensures i <= |cart| && (forall k :: 0 <= k < i ==> Key(cart[k].line) != key)
    ensures i < |cart| ==> Key(cart[i].line) == key
  {
    i := 0;
    while i < |cart| && Key(cart[i].line) != key
      invariant 0 <= i <= |cart|
      invariant forall k :: 0 <= k < i ==> Key(cart[k].line) != key
    {
      i := i + 1;
    }
  }

  lemma {:induction false} AddFirstAt(cart: seq<Item>, line: Line, quantity: int, i: nat)
    requires i <= |cart| && (forall k :: 0 <= k < i ==> Key(cart[k].line) != Key(line))
    requires i < |cart| ==> Key(cart[i].line) == Key(line)
    ensures AddFirst(cart, line, quantity)
         == if i < |cart| then cart[i := cart[i].(quantity := cart[i].quantity + quantity)]
            else cart + [Item(line, quantity)]
  {
    if i > 0 { AddFirstAt(cart[1..], line, quantity, i - 1); }
  }

  lemma {:induction false} MergeOneAt(cart: seq<Item>, it: Item, i: nat)
    requires i <= |cart| && (forall k :: 0 <= k < i ==> Key(cart[k].line) != Key(it.line))
    requires i < |cart| ==> Key(cart[i].line) == Key(it.line)
    ensures MergeOne(cart, it)
         == if i < |cart| then cart[i := cart[i].(quantity := Max(cart[i].quantity, it.quantity))] else cart + [it]
  {
    if i > 0 { MergeOneAt(cart[1..], it, i - 1); }
  }

  /** The merge loop of the login effect, over a copy of the cart. */
  method MergeServerItems(cart: seq<Item>, server: seq<Item>) returns (merged: seq<Item>)
    ensures merged == Merge(cart, server)
  {
    merged := cart;
    for s := 0 to |server|
      invariant Merge(merged, server[s..]) == Merge(cart, server)
    {
      var it := server[s];
      var i := FindIndex(merged, Key(it.line));
      MergeOneAt(merged, it, i);
      assert server[s..][1..] == server[s + 1..];
      if i < |merged| {
        merged := merged[i := merged[i].(quantity := Max(merged[i].quantity, it.quantity))];
      } else {
        merged := merged + [it];
      }
    }
  }

  /** An add to a readable cart raises the header's count by exactly the added quantity; an unreadable one keeps
      counting nothing. */
  method AddThenCount(store: CartStore, line: Line, quantity: int) returns (before: int, after: int)
    requires store.Valid() && Faithful(store.json)
    modifies store`raw
    ensures store.Valid() && before == Total(store.Parsed(old(store.raw)))
    ensures if old(store.raw).Some? && store.json.parse(old(store.raw).value).None? then after == before == 0
            else after == before + quantity
  {
    before := store.GetCartCount();
    ghost var cart := store.Parsed(store.raw);
    store.AddItemToCart(line, quantity);
    AddFirstGets(cart, line, quantity, "");
    after := store.GetCartCount();
  }
}

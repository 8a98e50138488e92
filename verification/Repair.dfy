/**
 The two catalogue repair passes: collapsing variable products that have a single variation, and
 filling in the size grid of products that have no size variation.
 */
module Repair {
  import opened Texts

  /** One row of the variations table; rows of one product are kept with it, in insertion order. */
  datatype Variation = Variation(sku: string, attributes: map<string, string>, price: real, stock: int)

  datatype Product = Product(id: int, name: string, category: int, price: real, stock: int, sku: string,
                             isVariable: bool, variations: seq<Variation>)

  // ---------- Recognising sizes ----------

  /** Lower case, for every character whose lower case is a letter below U+0100: the capitals of ASCII and Latin-1,
      the dotted I, the Kelvin and Angstrom signs, the sharp S and the Y with diaeresis. Other capitals are kept; no
      name of a size has their lower case. */
  function LowerChar(c: char): char {
    if 'A' <= c <= 'Z' || ('\U{C0}' <= c <= '\U{DE}' && c != '\U{D7}') then (c as int + 32) as char
    else if c == '\U{130}' then 'i'
    else if c == '\U{212A}' then 'k'
    else if c == '\U{212B}' then '\U{E5}'
    else if c == '\U{1E9E}' then '\U{DF}'
    else if c == '\U{178}' then '\U{FF}'
    else c
  }

  function StripAccent(c: char): char {
    match c
    case 'à' => 'a' case 'â' => 'a' case 'ä' => 'a' case 'á' => 'a'
    case 'é' => 'e' case 'è' => 'e' case 'ê' => 'e' case 'ë' => 'e'
    case 'î' => 'i' case 'ï' => 'i' case 'í' => 'i'
    case 'ô' => 'o' case 'ö' => 'o' case 'ó' => 'o'
    case 'û' => 'u' case 'ü' => 'u' case 'ù' => 'u' case 'ú' => 'u'
    case 'ç' => 'c'
    case _ => c
  }

  function StripAccentsLower(s: string): (r: string)
    ensures |r| == |s|
  {
    if s == "" then "" else [StripAccent(LowerChar(s[0]))] + StripAccentsLower(s[1..])
  }

  predicate IsSizeName(k: string) {
    var n := StripAccentsLower(k);
    n == "pointure" || n == "taille" || n == "size" || n == "shoe size" || n == "pointures"
  }

  /** The accented letters that are read as plain ones, and those. */
  const ACCENTED := "àâäáéèêëîïíôöóûüùúç"
  const UNACCENTED := "aaaaeeeeiiiooouuuuc"

  /** Case and these accents are all that is lost of a character in ASCII or among them. */
  lemma AccentsAreStripped(c: char, i: nat)
    requires i < |ACCENTED|
    ensures |UNACCENTED| == |ACCENTED| && StripAccent(ACCENTED[i]) == UNACCENTED[i]
    ensures c !in ACCENTED ==> StripAccent(c) == c
    ensures 'A' <= c <= 'Z' ==> LowerChar(c) as int == c as int + 32
    ensures c < 128 as char && !('A' <= c <= 'Z') ==> LowerChar(c) == c
    ensures '\U{C0}' <= c <= '\U{DE}' && c != '\U{D7}' ==> LowerChar(c) as int == c as int + 32
    ensures 'a' <= c <= 'z' ==> StripAccent(LowerChar(c)) == c
    ensures LowerChar('\U{130}') == 'i' && LowerChar('\U{212A}') == 'k' && LowerChar('\U{212B}') == '\U{E5}'
    ensures LowerChar('\U{1E9E}') == '\U{DF}' && LowerChar('\U{178}') == '\U{FF}' && LowerChar('\U{D7}') == '\U{D7}'
  {
  }

  /** Lower-case letters and spaces as they stand. */
  predicate PlainName(k: string) {
    forall i :: 0 <= i < |k| ==> 'a' <= k[i] <= 'z' || k[i] == ' '
  }

  lemma {:induction false} PlainStays(k: string)
    requires PlainName(k)
    ensures StripAccentsLower(k) == k
  {
    hide LowerChar, StripAccent;
    if k != "" {
      PlainCharStays(k[0]);
      assert forall i :: 0 <= i < |k| - 1 ==> k[1..][i] == k[i + 1];
      PlainStays(k[1..]);
      assert k == [k[0]] + k[1..];
    }
  }

  lemma PlainCharStays(c: char)
    requires 'a' <= c <= 'z' || c == ' '
    ensures StripAccent(LowerChar(c)) == c
  {
  }

  /** Any way of writing a plain name with capitals or accents is read as that name. */
  predicate WrittenAs(k: string, plain: string) {
    |k| == |plain| && forall i :: 0 <= i < |k| ==> StripAccent(LowerChar(k[i])) == plain[i]
  }

  lemma {:induction false} WritingIsRead(k: string, plain: string)
    requires PlainName(plain)
    ensures WrittenAs(k, plain) <==> StripAccentsLower(k) == plain
  {
    hide LowerChar, StripAccent;
    if k != "" && plain != "" {
      assert forall i :: 0 <= i < |plain| - 1 ==> plain[1..][i] == plain[i + 1];
      assert forall i :: 0 <= i < |k| - 1 ==> k[1..][i] == k[i + 1];
      WritingIsRead(k[1..], plain[1..]);
      var read := StripAccentsLower(k);
      assert read[0] == StripAccent(LowerChar(k[0])) && read[1..] == StripAccentsLower(k[1..]);
      if read == plain {
        assert forall i :: 0 < i < |k| ==> k[i] == k[1..][i - 1] && plain[i] == plain[1..][i - 1];
      }
      if WrittenAs(k, plain) {
        assert read == [read[0]] + read[1..] && plain == [plain[0]] + plain[1..];
      }
    }
  }

  /** The names of a size attribute are five words, written in any case and with any accents. */
  lemma SizeNamesExactly(k: string)
    ensures IsSizeName(k) <==>
            || WrittenAs(k, "pointure") || WrittenAs(k, "pointures") || WrittenAs(k, "taille")
            || WrittenAs(k, "size") || WrittenAs(k, "shoe size")
  {
    hide WrittenAs, StripAccentsLower;
    WritingIsRead(k, "pointure");
    WritingIsRead(k, "pointures");
    WritingIsRead(k, "taille");
    WritingIsRead(k, "size");
    WritingIsRead(k, "shoe size");
  }

  predicate HasSize(vs: seq<Variation>) {
    exists i :: 0 <= i < |vs| && exists k :: k in vs[i].attributes && IsSizeName(k)
  }

  method VariationsHaveSizeAttr(vs: seq<Variation>) returns (r: bool)
    ensures r == HasSize(vs)
  {
    for i := 0 to |vs|
      invariant forall j :: 0 <= j < i ==> forall k :: k in vs[j].attributes ==> !IsSizeName(k)
    {
      var todo := vs[i].attributes.Keys;
      while todo != {}
        invariant todo <= vs[i].attributes.Keys
        invariant forall k :: k in vs[i].attributes && k !in todo ==> !IsSizeName(k)
        decreases |todo|
      {
        var k :| k in todo;
        if IsSizeName(k) {
          return true;
        }
        todo := todo - {k};
      }
    }
    return false;
  }

  // ---------- Collapse ----------

  /** A variable product with exactly one variation. */
  predicate Fake(p: Product) {
    p.isVariable && |p.variations| == 1
  }

  function Collapsed(p: Product): Product {
    if !Fake(p) then p
    else p.(price := p.variations[0].price, stock := p.variations[0].stock, isVariable := false, variations := [])
  }

  // ---------- Backfill ----------

  /** What one backfill is about; the keyword tables that recognise names are parameters. */
  datatype Spec = Spec(matchCategory: string -> bool, matchName: string -> bool, attrName: string, grid: seq<string>,
                       onlyCategory: int)

  const SHOE_ATTR := "Pointure"
  const SHOE_GRID := ["36", "37", "38", "39", "40", "41", "42", "43", "44", "45", "46"]
  const CLOTHING_ATTR := "Taille"
  const CLOTHING_GRID := ["S", "M", "L", "XL", "XXL", "XXXL"]

  /** The shoes run from 36 to 46, and the clothes from S and M through L with up to three X. */
  lemma GridsShipped(i: nat)
    ensures |SHOE_GRID| == 11 && |CLOTHING_GRID| == 6 && CLOTHING_GRID[0] == "S" && CLOTHING_GRID[1] == "M"
    ensures i < 11 ==> SHOE_GRID[i] == Decimal(36 + i)
    ensures i < 4 ==> CLOTHING_GRID[2 + i] == seq(i, _ => 'X') + "L"
  {
    assert Digits(3) == "3" && Digits(4) == "4";
    if i < 11 { assert Digits(36 + i) == Digits((36 + i) / 10) + [(48 + (36 + i) % 10) as char]; }
  }

  /** The attribute counts as a size, and the grid is more than one variation. */
  predicate Usable(spec: Spec) {
    IsSizeName(spec.attrName) && |spec.grid| >= 2
  }

  predicate InFamily(categories: map<int, string>, spec: Spec, p: Product) {
    && p.category in categories
    && spec.matchCategory(categories[p.category])
    && (spec.onlyCategory == 0 || p.category == spec.onlyCategory)
  }

  predicate Selected(categories: map<int, string>, spec: Spec, p: Product) {
    InFamily(categories, spec, p) && spec.matchName(p.name)
  }

  predicate Lacking(categories: map<int, string>, spec: Spec, p: Product) {
    Selected(categories, spec, p) && !HasSize(p.variations)
  }

  function SizeVariation(spec: Spec, p: Product, size: string): Variation {
    Variation(if p.sku != "" then p.sku + "-" + size else "", map[spec.attrName := size], p.price, p.stock)
  }

  function Grid(spec: Spec, p: Product, sizes: seq<string>): (r: seq<Variation>)
    ensures |r| == |sizes|
  {
    if sizes == [] then []
    else Grid(spec, p, sizes[..|sizes| - 1]) + [SizeVariation(spec, p, sizes[|sizes| - 1])]
  }

  lemma GridGrows(spec: Spec, p: Product, n: nat)
    ensures Grid(spec, p, spec.grid[..0]) == []
    ensures n < |spec.grid| ==>
              Grid(spec, p, spec.grid[..n + 1]) ==
              Grid(spec, p, spec.grid[..n]) + [SizeVariation(spec, p, spec.grid[n])]
  {
    if n < |spec.grid| { assert spec.grid[..n + 1][..n] == spec.grid[..n]; }
  }

  function Backfilled(categories: map<int, string>, spec: Spec, p: Product): Product {
    if !Lacking(categories, spec, p) then p
    else p.(variations := p.variations + Grid(spec, p, spec.grid), isVariable := true)
  }

  // ---------- The passes over the table ----------

  datatype Pass = Collapse | Backfill(spec: Spec)

  function PassOne(categories: map<int, string>, pass: Pass, p: Product): Product {
    match pass
    case Collapse => Collapsed(p)
    case Backfill(spec) => Backfilled(categories, spec, p)
  }

  function PassAll(categories: map<int, string>, pass: Pass, ps: seq<Product>): (r: seq<Product>)
    ensures |r| == |ps|
    ensures forall i :: 0 <= i < |ps| ==> r[i] == PassOne(categories, pass, ps[i])
  {
    if ps == [] then []
    else PassAll(categories, pass, ps[..|ps| - 1]) + [PassOne(categories, pass, ps[|ps| - 1])]
  }

  function VariationCount(ps: seq<Product>): nat {
    if ps == [] then 0 else VariationCount(ps[..|ps| - 1]) + |ps[|ps| - 1].variations|
  }

  /** How many products a pass changes. */
  function Affected(categories: map<int, string>, pass: Pass, ps: seq<Product>): nat {
    if ps == [] then 0
    else
      var p := ps[|ps| - 1];
      Affected(categories, pass, ps[..|ps| - 1]) +
      if (if pass.Collapse? then Fake(p) else Lacking(categories, pass.spec, p)) then 1 else 0
  }

  datatype Candidate = Candidate(index: nat, price: real, stock: int)

  class CatalogTables {
    const categories: map<int, string>
    var products: seq<Product>

    constructor (categories: map<int, string>, products: seq<Product>)
      ensures this.categories == categories && this.products == products
    {
      this.categories, this.products := categories, products;
    }

    /** The query for the candidates, then one transaction for each. */
    method CollapseFakeVariables(dryRun: bool) returns (candidates: nat, collapsed: nat)
      modifies this`products
      ensures products == if dryRun then old(products) else PassAll(categories, Collapse, old(products))
      ensures candidates == Affected(categories, Collapse, old(products))
      ensures collapsed == if dryRun then 0 else candidates
    {
      var cands := Candidates();
      candidates, collapsed := |cands|, 0;
      if dryRun {
        return;
      }
      for n := 0 to |cands|
        invariant |products| == |old(products)| && collapsed == n
        invariant forall i :: 0 <= i < |products| ==>
          products[i] ==
          if exists m :: 0 <= m < n && cands[m].index == i then Collapsed(old(products)[i]) else old(products)[i]
      {
        var c := cands[n];
        var p := products[c.index];
        assert forall m :: 0 <= m < n ==> cands[m].index != c.index;
        products := products[c.index := p.(price := c.price, stock := c.stock, isVariable := false, variations := [])];
        collapsed := collapsed + 1;
      }
      assert products == PassAll(categories, Collapse, old(products));
    }

    method Candidates() returns (cands: seq<Candidate>)
      ensures |cands| == Affected(categories, Collapse, products)
      ensures forall m :: 0 <= m < |cands| ==>
        && cands[m].index < |products|
        && Fake(products[cands[m].index])
        && cands[m].price == products[cands[m].index].variations[0].price
        && cands[m].stock == products[cands[m].index].variations[0].stock
      ensures forall m, n :: 0 <= m < n < |cands| ==> cands[m].index < cands[n].index
      ensures forall i :: 0 <= i < |products| && Fake(products[i]) ==>
                exists m :: 0 <= m < |cands| && cands[m].index == i
    {
      cands := [];
      for i := 0 to |products|
        invariant |cands| == Affected(categories, Collapse, products[..i])
        invariant forall m :: 0 <= m < |cands| ==>
          && cands[m].index < i
          && Fake(products[cands[m].index])
          && cands[m].price == products[cands[m].index].variations[0].price
          && cands[m].stock == products[cands[m].index].variations[0].stock
        invariant forall m, n :: 0 <= m < n < |cands| ==> cands[m].index < cands[n].index
        invariant forall j :: 0 <= j < i && Fake(products[j]) ==> exists m :: 0 <= m < |cands| && cands[m].index == j
      {
        assert products[..i + 1][..i] == products[..i];
        var p := products[i];
        if p.isVariable && |p.variations| == 1 {
          ghost var before := cands;
          cands := cands + [Candidate(i, p.variations[0].price, p.variations[0].stock)];
          assert cands[|before|].index == i;
          forall j | 0 <= j < i && Fake(products[j]) ensures exists m :: 0 <= m < |cands| && cands[m].index == j {
            var m :| 0 <= m < |before| && before[m].index == j;
            assert cands[m].index == j;
          }
        }
      }
      assert products[..|products|] == products;
    }

    /** One transaction, committed at the end: the whole grid and the flag. */
    method InsertGrid(spec: Spec, i: nat)
      requires i < |products| && Lacking(categories, spec, products[i])
      modifies this`products
      ensures products == old(products)[i := Backfilled(categories, spec, old(products)[i])]
    {
      var p := products[i];
      var rows := BuildGrid(spec, p);
      products := products[i := p.(variations := p.variations + rows, isVariable := true)];
    }

    method BuildGrid(spec: Spec, p: Product) returns (rows: seq<Variation>)
      ensures rows == Grid(spec, p, spec.grid)
    {
      hide Grid, SizeVariation;
      rows := [];
      GridGrows(spec, p, 0);
      for n := 0 to |spec.grid|
        invariant rows == Grid(spec, p, spec.grid[..n])
      {
        GridGrows(spec, p, n);
        rows := rows + [SizeVariation(spec, p, spec.grid[n])];
      }
      assert spec.grid[..|spec.grid|] == spec.grid;
    }

    /** What becomes of one product of the family. */
    method VisitProduct(spec: Spec, dryRun: bool, i: nat) returns (updated: bool, skipped: bool)
      requires i < |products| && InFamily(categories, spec, products[i])
      modifies this`products
      ensures updated == Lacking(categories, spec, old(products)[i])
      ensures skipped == (Selected(categories, spec, old(products)[i]) && !updated)
      ensures products == if dryRun then old(products)
                          else old(products)[i := Backfilled(categories, spec, old(products)[i])]
    {
      hide InFamily, HasSize, Grid;
      var p := products[i];
      if !spec.matchName(p.name) {
        return false, false;
      }
      var sized := VariationsHaveSizeAttr(p.variations);
      if sized {
        return false, true;
      }
      if !dryRun {
        InsertGrid(spec, i);
      }
      return true, false;
    }

    method BackfillSizes(spec: Spec, dryRun: bool)
      returns (scanned: nat, updated: nat, created: nat, skipped: nat, filtered: nat)
      modifies this`products
      ensures products == if dryRun then old(products) else PassAll(categories, Backfill(spec), old(products))
      ensures updated == Affected(categories, Backfill(spec), old(products)) && created == updated * |spec.grid|
      ensures scanned == updated + skipped + filtered == Family(categories, spec, old(products))
      ensures updated + skipped == Picked(categories, spec, old(products))
    {
      hide InFamily, Selected, Lacking, Backfilled, Affected, Family, Picked;
      NoneCounted(categories, spec, old(products));
      scanned, updated, created, skipped, filtered := 0, 0, 0, 0, 0;
      for i := 0 to |products|
        invariant |products| == |old(products)|
        invariant updated == Affected(categories, Backfill(spec), old(products)[..i])
        invariant created == updated * |spec.grid|
        invariant scanned == updated + skipped + filtered == Family(categories, spec, old(products)[..i])
        invariant updated + skipped == Picked(categories, spec, old(products)[..i])
        invariant forall j :: i <= j < |products| ==> products[j] == old(products)[j]
        invariant forall j :: 0 <= j < i ==>
          products[j] == if dryRun then old(products)[j] else Backfilled(categories, spec, old(products)[j])
      {
        OneMoreCounted(categories, spec, old(products), i);
        NotOfTheFamily(categories, spec, products[i]);
        if InFamily(categories, spec, products[i]) {
          scanned := scanned + 1;
          var up, skip := VisitProduct(spec, dryRun, i);
          if up {
            assert (updated + 1) * |spec.grid| == updated * |spec.grid| + |spec.grid|;
            updated, created := updated + 1, created + |spec.grid|;
          } else if skip {
            skipped := skipped + 1;
          } else {
            filtered := filtered + 1;
          }
        }
      }
      assert old(products)[..|products|] == old(products);
      assert !dryRun ==> products == PassAll(categories, Backfill(spec), old(products));
    }
  }

  lemma NoneCounted(categories: map<int, string>, spec: Spec, ps: seq<Product>)
    ensures Affected(categories, Backfill(spec), ps[..0]) == Family(categories, spec, ps[..0]) ==
            Picked(categories, spec, ps[..0]) == 0
  {
  }

  lemma {:induction false} OneMoreCounted(categories: map<int, string>, spec: Spec, ps: seq<Product>, i: nat)
    requires i < |ps|
    ensures Affected(categories, Backfill(spec), ps[..i + 1]) ==
            Affected(categories, Backfill(spec), ps[..i]) + if Lacking(categories, spec, ps[i]) then 1 else 0
    ensures Family(categories, spec, ps[..i + 1]) ==
            Family(categories, spec, ps[..i]) + if InFamily(categories, spec, ps[i]) then 1 else 0
    ensures Picked(categories, spec, ps[..i + 1]) ==
            Picked(categories, spec, ps[..i]) + if Selected(categories, spec, ps[i]) then 1 else 0
  {
    hide InFamily, Selected, Lacking;
    assert ps[..i + 1][..i] == ps[..i];
  }

  lemma NotOfTheFamily(categories: map<int, string>, spec: Spec, p: Product)
    ensures Lacking(categories, spec, p) ==> Selected(categories, spec, p)
    ensures Selected(categories, spec, p) ==> InFamily(categories, spec, p)
    ensures !Lacking(categories, spec, p) ==> Backfilled(categories, spec, p) == p
  {
  }

  function Family(categories: map<int, string>, spec: Spec, ps: seq<Product>): nat {
    if ps == [] then 0
    else Family(categories, spec, ps[..|ps| - 1]) + if InFamily(categories, spec, ps[|ps| - 1]) then 1 else 0
  }

  function Picked(categories: map<int, string>, spec: Spec, ps: seq<Product>): nat {
    if ps == [] then 0
    else Picked(categories, spec, ps[..|ps| - 1]) + if Selected(categories, spec, ps[|ps| - 1]) then 1 else 0
  }

  // ---------- What the passes leave ----------

  lemma {:induction false} CapitalLowers(capital: char, c: char, rest: string)
    requires LowerChar(capital) == c && StripAccent(c) == c
    requires forall i :: 0 <= i < |rest| ==> 'a' <= rest[i] <= 'z'
    ensures StripAccentsLower([capital] + rest) == [c] + rest
  {
    PlainStays(rest);
    hide LowerChar, StripAccent;
    assert ([capital] + rest)[1..] == rest;
  }

  lemma ShoeAttrIsSize()
    ensures IsSizeName(SHOE_ATTR)
  {
    hide StripAccentsLower;
    CapitalLowers('P', 'p', "ointure");
    assert SHOE_ATTR == ['P'] + "ointure" && "pointure" == ['p'] + "ointure";
  }

  lemma ClothingAttrIsSize()
    ensures IsSizeName(CLOTHING_ATTR)
  {
    hide StripAccentsLower;
    CapitalLowers('T', 't', "aille");
    assert CLOTHING_ATTR == ['T'] + "aille" && "taille" == ['t'] + "aille";
  }

  lemma {:induction false} ShippedSpecsAreUsable(shoes: Spec, clothes: Spec)
    requires shoes.attrName == SHOE_ATTR && shoes.grid == SHOE_GRID
    requires clothes.attrName == CLOTHING_ATTR && clothes.grid == CLOTHING_GRID
    ensures Usable(shoes) && Usable(clothes)
  {
    hide IsSizeName;
    ShoeAttrIsSize();
    ClothingAttrIsSize();
  }

  /** The grid carries the attribute that makes the next backfill skip the product. */
  lemma GridHasSize(categories: map<int, string>, spec: Spec, p: Product)
    requires Usable(spec) && Selected(categories, spec, p)
    ensures HasSize(Backfilled(categories, spec, p).variations)
    ensures Lacking(categories, spec, p) ==> |Backfilled(categories, spec, p).variations| >= 2
  {
    if Lacking(categories, spec, p) {
      var n, m := |p.variations|, |spec.grid| - 1;
      var grid := Grid(spec, p, spec.grid);
      assert grid[m] == SizeVariation(spec, p, spec.grid[m]);
      var vs := Backfilled(categories, spec, p).variations;
      assert vs[n + m] == grid[m] && spec.attrName in vs[n + m].attributes;
    }
  }

  lemma {:induction false} GridAt(spec: Spec, p: Product, sizes: seq<string>, i: nat)
    requires i < |sizes|
    ensures Grid(spec, p, sizes)[i] == SizeVariation(spec, p, sizes[i])
  {
    if i < |sizes| - 1 { GridAt(spec, p, sizes[..|sizes| - 1], i); }
  }

  /** A backfilled product keeps what it had and gains one variation per size, in the order of the grid, each
      with the product's price and stock; a product that is not lacking is left alone. */
  lemma BackfillExactly(categories: map<int, string>, spec: Spec, p: Product, i: nat)
    ensures var q := Backfilled(categories, spec, p);
            && (!Lacking(categories, spec, p) ==> q == p)
            && (Lacking(categories, spec, p) ==>
                  && q == p.(variations := q.variations, isVariable := true)
                  && |q.variations| == |p.variations| + |spec.grid|
                  && q.variations[..|p.variations|] == p.variations
                  && (i < |spec.grid| ==>
                        var v := q.variations[|p.variations| + i];
                        && v.attributes == map[spec.attrName := spec.grid[i]]
                        && v.price == p.price
                        && v.stock == p.stock
                        && v.sku == if p.sku == "" then "" else p.sku + "-" + spec.grid[i]))
  {
    hide Lacking;
    if i < |spec.grid| { GridAt(spec, p, spec.grid, i); }
  }

  /** A backfill changes exactly the products of a matching category, and of the one asked for if any, with a matching
      name and no variation that has an attribute with the name of a size. */
  lemma BackfillReachesExactly(categories: map<int, string>, spec: Spec, p: Product)
    requires spec.grid != []
    ensures PassOne(categories, Backfill(spec), p) != p <==>
            && p.category in categories && spec.matchCategory(categories[p.category])
            && (spec.onlyCategory != 0 ==> p.category == spec.onlyCategory)
            && spec.matchName(p.name)
            && (forall i, k :: 0 <= i < |p.variations| && k in p.variations[i].attributes ==> !IsSizeName(k))
  {
    PassOneCounts(categories, Backfill(spec), p);
    hide IsSizeName, PassOne;
  }

  /** What neither the collapse nor any of these backfills would change. */
  predicate Settled(categories: map<int, string>, specs: seq<Spec>, p: Product) {
    !Fake(p) && forall i :: 0 <= i < |specs| ==> !Lacking(categories, specs[i], p)
  }

  function BackfillEach(categories: map<int, string>, specs: seq<Spec>, ps: seq<Product>): (r: seq<Product>)
    ensures |r| == |ps|
  {
    if specs == [] then ps
    else PassAll(categories, Backfill(specs[|specs| - 1]), BackfillEach(categories, specs[..|specs| - 1], ps))
  }

  lemma BackfillSettles(categories: map<int, string>, specs: seq<Spec>, spec: Spec, p: Product)
    requires Usable(spec) && Settled(categories, specs, p)
    ensures Settled(categories, specs + [spec], Backfilled(categories, spec, p))
  {
    hide IsSizeName, InFamily;
    var q := Backfilled(categories, spec, p);
    if Lacking(categories, spec, p) {
      GridHasSize(categories, spec, p);
      hide HasSize, Usable;
    }
    forall i | 0 <= i < |specs + [spec]| ensures !Lacking(categories, (specs + [spec])[i], q) {
      if i < |specs| { assert !Lacking(categories, specs[i], p); }
    }
  }

  lemma {:induction false} PassesSettle(categories: map<int, string>, specs: seq<Spec>, ps: seq<Product>)
    requires forall i :: 0 <= i < |specs| ==> Usable(specs[i])
    requires forall i :: 0 <= i < |ps| ==> !Fake(ps[i])
    ensures forall i :: 0 <= i < |ps| ==> Settled(categories, specs, BackfillEach(categories, specs, ps)[i])
  {
    hide Usable, Lacking, HasSize, Fake;
    if specs != [] {
      var n := |specs| - 1;
      PassesSettle(categories, specs[..n], ps);
      var before := BackfillEach(categories, specs[..n], ps);
      assert specs == specs[..n] + [specs[n]];
      forall i | 0 <= i < |before| ensures Settled(categories, specs, BackfillEach(categories, specs, ps)[i]) {
        BackfillSettles(categories, specs[..n], specs[n], before[i]);
      }
    }
  }

  /** After one collapse and then any backfills, in any order and number, none of these passes changes anything. */
  lemma {:induction false} CommonFixpoint(categories: map<int, string>, specs: seq<Spec>, ps: seq<Product>, again: Pass,
                                          j: nat)
    requires forall i :: 0 <= i < |specs| ==> Usable(specs[i])
    requires again == Collapse || (j < |specs| && again == Backfill(specs[j]))
    ensures var r := BackfillEach(categories, specs, PassAll(categories, Collapse, ps));
            PassAll(categories, again, r) == r
  {
    hide Usable, HasSize, Selected, Lacking, BackfillEach, Grid;
    var collapsed := PassAll(categories, Collapse, ps);
    PassesSettle(categories, specs, collapsed);
    var r := BackfillEach(categories, specs, collapsed);
    forall i | 0 <= i < |r| ensures PassOne(categories, again, r[i]) == r[i] {
      assert Settled(categories, specs, r[i]);
    }
  }

  /** No variable product keeps a lone variation, and nothing else is touched. */
  lemma CollapseExactly(categories: map<int, string>, ps: seq<Product>, i: nat)
    requires i < |ps|
    ensures var p, q := ps[i], PassAll(categories, Collapse, ps)[i];
            && !Fake(q)
            && (q != p <==> Fake(p))
            && (Fake(p) ==> q.price == p.variations[0].price && q.stock == p.variations[0].stock
                            && q.variations == [] && !q.isVariable && q.id == p.id && q.name == p.name
                            && q.sku == p.sku)
  {
  }

  lemma PassOneCounts(categories: map<int, string>, pass: Pass, p: Product)
    requires pass.Backfill? ==> pass.spec.grid != []
    ensures var affected := if pass.Collapse? then Fake(p) else Lacking(categories, pass.spec, p);
            var q := PassOne(categories, pass, p);
            && (q != p <==> affected)
            && |q.variations| == |p.variations| + if affected then Gain(pass) else 0
  {
    hide Lacking, HasSize;
    if pass.Backfill? && Lacking(categories, pass.spec, p) {
      assert |PassOne(categories, pass, p).variations| == |p.variations| + |pass.spec.grid|;
    }
  }

  function ChangedBy(categories: map<int, string>, pass: Pass, ps: seq<Product>): set<int> {
    set i | 0 <= i < |ps| && PassOne(categories, pass, ps[i]) != ps[i]
  }

  /** A dry run's counts are what the real run does: rows created, rows removed and products changed. */
  lemma {:induction false} CountsAreExact(categories: map<int, string>, pass: Pass, ps: seq<Product>)
    requires pass.Backfill? ==> pass.spec.grid != []
    ensures VariationCount(PassAll(categories, pass, ps)) ==
            VariationCount(ps) + Affected(categories, pass, ps) * Gain(pass)
    ensures Affected(categories, pass, ps) == |ChangedBy(categories, pass, ps)|
  {
    RowsGained(categories, pass, ps);
    ProductsChanged(categories, pass, ps);
  }

  /** The variations a pass adds to a product it changes. */
  function Gain(pass: Pass): int {
    if pass.Collapse? then -1 else |pass.spec.grid|
  }

  lemma {:induction false} RowsGained(categories: map<int, string>, pass: Pass, ps: seq<Product>)
    requires pass.Backfill? ==> pass.spec.grid != []
    ensures VariationCount(PassAll(categories, pass, ps)) ==
            VariationCount(ps) + Affected(categories, pass, ps) * Gain(pass)
  {
    hide *;
    if ps == [] {
      NoProducts(categories, pass);
    } else {
      var n := |ps| - 1;
      RowsGained(categories, pass, ps[..n]);
      OneMoreProduct(categories, pass, ps);
      var a := Affected(categories, pass, ps[..n]);
      assert (a + 1) * Gain(pass) == a * Gain(pass) + Gain(pass);
    }
  }

  lemma NoProducts(categories: map<int, string>, pass: Pass)
    ensures VariationCount(PassAll(categories, pass, [])) == VariationCount([]) == Affected(categories, pass, []) ==
            |ChangedBy(categories, pass, [])| == 0
  {
  }

  /** What the last product adds to the counts. */
  lemma {:induction false} OneMoreProduct(categories: map<int, string>, pass: Pass, ps: seq<Product>)
    requires ps != [] && (pass.Backfill? ==> pass.spec.grid != [])
    ensures var n := |ps| - 1;
            var changed := PassOne(categories, pass, ps[n]) != ps[n];
            && VariationCount(PassAll(categories, pass, ps)) - VariationCount(PassAll(categories, pass, ps[..n])) ==
               VariationCount(ps) - VariationCount(ps[..n]) + (if changed then Gain(pass) else 0)
            && Affected(categories, pass, ps) == Affected(categories, pass, ps[..n]) + if changed then 1 else 0
  {
    var n := |ps| - 1;
    PassOneCounts(categories, pass, ps[n]);
    hide Lacking, Fake, PassOne, Gain;
    VariationCountGrows(PassAll(categories, pass, ps[..n]), PassOne(categories, pass, ps[n]));
  }

  lemma VariationCountGrows(ps: seq<Product>, p: Product)
    ensures VariationCount(ps + [p]) == VariationCount(ps) + |p.variations|
  {
    assert (ps + [p])[..|ps|] == ps;
  }

  lemma {:induction false} ProductsChanged(categories: map<int, string>, pass: Pass, ps: seq<Product>)
    requires pass.Backfill? ==> pass.spec.grid != []
    ensures Affected(categories, pass, ps) == |ChangedBy(categories, pass, ps)|
  {
    hide *;
    if ps == [] {
      NoProducts(categories, pass);
    } else {
      var n := |ps| - 1;
      ProductsChanged(categories, pass, ps[..n]);
      OneMoreProduct(categories, pass, ps);
      ChangedGrows(categories, pass, ps);
    }
  }

  lemma ChangedGrows(categories: map<int, string>, pass: Pass, ps: seq<Product>)
    requires ps != []
    ensures var n := |ps| - 1;
            var was := ChangedBy(categories, pass, ps[..n]);
            && n !in was
            && ChangedBy(categories, pass, ps) == if PassOne(categories, pass, ps[n]) != ps[n] then was + {n} else was
  {
    hide PassOne;
    var n := |ps| - 1;
    var was, next := ChangedBy(categories, pass, ps[..n]), ChangedBy(categories, pass, ps);
    forall i: int ensures i in next <==> i in was || (i == n && PassOne(categories, pass, ps[n]) != ps[n]) {
      if 0 <= i < n { assert ps[..n][i] == ps[i]; }
    }
  }

  /** Collapsing first and backfilling first come to the same exactly when no product the backfill selects
      is a fake variable one: backfilled first, it keeps its fake variation, or is left without any size. */
  lemma {:induction false} OrderMattersExactly(categories: map<int, string>, spec: Spec, ps: seq<Product>)
    requires Usable(spec)
    ensures PassAll(categories, Backfill(spec), PassAll(categories, Collapse, ps)) ==
            PassAll(categories, Collapse, PassAll(categories, Backfill(spec), ps)) <==>
            forall i :: 0 <= i < |ps| ==> !(Fake(ps[i]) && Selected(categories, spec, ps[i]))
  {
    var a := PassAll(categories, Backfill(spec), PassAll(categories, Collapse, ps));
    var b := PassAll(categories, Collapse, PassAll(categories, Backfill(spec), ps));
    forall i | 0 <= i < |ps| ensures a[i] == b[i] <==> !(Fake(ps[i]) && Selected(categories, spec, ps[i])) {
      OrderMattersForOne(categories, spec, ps[i]);
    }
  }

  lemma OrderMattersForOne(categories: map<int, string>, spec: Spec, p: Product)
    requires Usable(spec)
    ensures Backfilled(categories, spec, Collapsed(p)) == Collapsed(Backfilled(categories, spec, p)) <==>
            !(Fake(p) && Selected(categories, spec, p))
  {
    hide IsSizeName;
    var first, second := Backfilled(categories, spec, Collapsed(p)), Collapsed(Backfilled(categories, spec, p));
    if Fake(p) && Selected(categories, spec, p) {
      assert |first.variations| == |spec.grid|;
      assert HasSize(p.variations) ==> |second.variations| == 0;
      assert !HasSize(p.variations) ==> |second.variations| == |spec.grid| + 1;
    }
  }
}

/**
 The mobile money routing screen: the providers of two aggregators are joined by country and
 normalised operator, and every row shows an override, a default and what is switched off.
 */
module PaymentRouting {
  import opened Options
  import opened Runs
  import opened Texts

  // ---------- Labels ----------

  predicate IsSpace(c: char) {
    || c == ' ' || '\t' <= c <= '\r' || c == '\U{85}' || c == '\U{A0}' || c == '\U{1680}'
    || '\U{2000}' <= c <= '\U{200A}' || c == '\U{2028}' || c == '\U{2029}' || c == '\U{202F}' || c == '\U{205F}'
    || c == '\U{3000}'
  }

  /** The characters with the White_Space property of Unicode. */
  const SPACES := "\t\n\U{B}\U{C}\r \U{85}\U{A0}\U{1680}\U{2000}\U{2001}\U{2002}\U{2003}\U{2004}\U{2005}\U{2006}" +
                  "\U{2007}\U{2008}\U{2009}\U{200A}\U{2028}\U{2029}\U{202F}\U{205F}\U{3000}"

  lemma SpacesAreUnicodes(c: char)
    ensures IsSpace(c) <==> c in SPACES
  {
  }

  function UntilSpace(s: string): (r: string)
  {
    if s == "" || IsSpace(s[0]) then "" else [s[0]] + UntilSpace(s[1..])
  }

  /** The first field of a text, if it has any. */
  function FirstField(s: string): Option<string> {
    if s == "" then None
    else if IsSpace(s[0]) then FirstField(s[1..])
    else Some(UntilSpace(s))
  }

  function Upper(s: string): (r: string)
    ensures |r| == |s|
  {
    if s == "" then ""
    else [if 'a' <= s[0] <= 'z' then (s[0] as int - 32) as char else s[0]] + Upper(s[1..])
  }

  /** Some character of the text is not a space. */
  predicate HasWord(text: string) {
    exists i :: 0 <= i < |text| && !IsSpace(text[i])
  }

  /** None is the panic on a label without a word. */
  function Normalized(text: string): Option<string> {
    match FirstField(text)
    case None => None
    case Some(word) => Some(Upper(word))
  }

  const LABELS: map<string, string> := map[
    "ORANGE" := "Orange Money", "FREE" := "Free Money", "WAVE" := "Wave", "EXPRESSO" := "Expresso",
    "MTN" := "MTN MoMo", "MOOV" := "Moov Money", "TOGOCOM" := "Togocom", "VODACOM" := "M-Pesa (Vodacom)",
    "AIRTEL" := "Airtel Money", "MPESA" := "M-Pesa", "VODAFONE" := "Vodafone Cash", "AIRTELTIGO" := "AirtelTigo",
    "TIGO" := "Tigo", "HALOTEL" := "Halotel", "HALOPESA" := "HaloPesa", "ZAMTEL" := "Zamtel",
    "TNM" := "TNM Mpamba", "MOVITEL" := "M-Pesa (Movitel)", "AFRICELL" := "Africell Money"]

  /** The title of a PawaPay code, by its prefix; the service's dictionary is LABELS. */
  function DisplayLabel(labels: map<string, string>, code: string): string {
    var prefix := Split(code, '_')[0];
    if prefix in labels then labels[prefix] else prefix
  }

  // ---------- The join ----------

  datatype Country = Country(iso2: string, name: string, providers: seq<string>)

  datatype Softpay = Softpay(code: string, iso2: string, title: string)

  datatype Key = Key(country: string, operator: string)

  datatype Row = Row(country: string, name: string, title: string, pawapay: Option<string>, paydunya: Option<string>)

  /** One provider of one aggregator. */
  datatype Offer = Offer(country: string, name: string, title: string, code: string)

  /** The operator a title is filed under. */
  function Operator(title: string): string {
    match Normalized(title)
    case None => ""
    case Some(word) => word
  }

  function KeyOf(o: Offer): Key {
    Key(o.country, Operator(o.title))
  }

  function RowOf(rows: map<Key, Row>, o: Offer): Row {
    if KeyOf(o) in rows then rows[KeyOf(o)] else Row(o.country, o.name, o.title, None, None)
  }

  /** The rows after the offers of PawaPay, then those of PayDunya. */
  function Joined(ps: seq<Offer>, qs: seq<Offer>): map<Key, Row> {
    if qs != [] then
      var rows, o := Joined(ps, qs[..|qs| - 1]), qs[|qs| - 1];
      rows[KeyOf(o) := RowOf(rows, o).(paydunya := Some(o.code))]
    else if ps != [] then
      var rows, o := Joined(ps[..|ps| - 1], []), ps[|ps| - 1];
      rows[KeyOf(o) := RowOf(rows, o).(pawapay := Some(o.code))]
    else map[]
  }

  function CountryOffers(labels: map<string, string>, c: Country, codes: seq<string>): (r: seq<Offer>)
    ensures |r| == |codes|
  {
    if codes == [] then []
    else
      var code := codes[|codes| - 1];
      CountryOffers(labels, c, codes[..|codes| - 1]) + [Offer(c.iso2, c.name, DisplayLabel(labels, code), code)]
  }

  function PawapayOffers(labels: map<string, string>, cs: seq<Country>): seq<Offer> {
    if cs == [] then []
    else PawapayOffers(labels, cs[..|cs| - 1]) + CountryOffers(labels, cs[|cs| - 1], cs[|cs| - 1].providers)
  }

  /** The name of a country in the PawaPay table, or else its code. */
  function CountryName(cs: seq<Country>, iso2: string): string {
    if cs == [] then iso2 else if cs[0].iso2 == iso2 then cs[0].name else CountryName(cs[1..], iso2)
  }

  /** That is the name of the first country with the code. */
  lemma {:induction false} CountryNameExactly(cs: seq<Country>, iso2: string, i: nat)
    requires i <= |cs| && forall j :: 0 <= j < i ==> cs[j].iso2 != iso2
    requires i < |cs| ==> cs[i].iso2 == iso2
    ensures CountryName(cs, iso2) == if i < |cs| then cs[i].name else iso2
  {
    if i > 0 { CountryNameExactly(cs[1..], iso2, i - 1); }
  }

  function PaydunyaOffers(cs: seq<Country>, ps: seq<Softpay>): seq<Offer> {
    if ps == [] then []
    else
      var p := ps[|ps| - 1];
      PaydunyaOffers(cs, ps[..|ps| - 1]) + [Offer(p.iso2, CountryName(cs, p.iso2), p.title, p.code)]
  }

  /** The loop of the listing over the PawaPay countries and their providers. */
  method AddPawapay(labels: map<string, string>, cs: seq<Country>) returns (rows: map<Key, Row>)
    requires forall i, j :: 0 <= i < |cs| && 0 <= j < |cs[i].providers| ==>
               Normalized(DisplayLabel(labels, cs[i].providers[j])).Some?
    ensures rows == Joined(PawapayOffers(labels, cs), [])
  {
    hide DisplayLabel, Normalized, Joined, PawapayOffers, CountryOffers;
    NoOffers(labels);
    rows := map[];
    for i := 0 to |cs|
      invariant rows == Joined(PawapayOffers(labels, cs[..i]), [])
    {
      var c := cs[i];
      NoProviders(labels, PawapayOffers(labels, cs[..i]), c);
      for j := 0 to |c.providers|
        invariant rows == Joined(PawapayOffers(labels, cs[..i]) + CountryOffers(labels, c, c.providers[..j]), [])
      {
        OneMoreProvider(labels, PawapayOffers(labels, cs[..i]), c, j);
        var code := c.providers[j];
        var title := DisplayLabel(labels, code);
        var k := Key(c.iso2, Normalized(title).value);
        var row := if k in rows then rows[k] else Row(c.iso2, c.name, title, None, None);
        rows := rows[k := row.(pawapay := Some(code))];
      }
      assert c.providers[..|c.providers|] == c.providers;
      OneMoreCountry(labels, cs, i);
    }
    assert cs[..|cs|] == cs;
  }

  lemma NoOffers(labels: map<string, string>)
    ensures Joined(PawapayOffers(labels, []), []) == map[]
  {
  }

  lemma NoProviders(labels: map<string, string>, ps: seq<Offer>, c: Country)
    ensures ps + CountryOffers(labels, c, c.providers[..0]) == ps
  {
  }

  lemma OneMoreCountry(labels: map<string, string>, cs: seq<Country>, i: nat)
    requires i < |cs|
    ensures PawapayOffers(labels, cs[..i + 1]) ==
            PawapayOffers(labels, cs[..i]) + CountryOffers(labels, cs[i], cs[i].providers)
  {
    assert cs[..i + 1][..i] == cs[..i];
  }

  lemma OneMoreProvider(labels: map<string, string>, ps: seq<Offer>, c: Country, j: nat)
    requires j < |c.providers|
    ensures var o := Offer(c.iso2, c.name, DisplayLabel(labels, c.providers[j]), c.providers[j]);
            var rows := Joined(ps + CountryOffers(labels, c, c.providers[..j]), []);
            Joined(ps + CountryOffers(labels, c, c.providers[..j + 1]), []) ==
            rows[KeyOf(o) := RowOf(rows, o).(pawapay := Some(o.code))]
  {
    hide DisplayLabel, KeyOf, RowOf;
    assert c.providers[..j + 1][..j] == c.providers[..j];
    var before := CountryOffers(labels, c, c.providers[..j]);
    var o := Offer(c.iso2, c.name, DisplayLabel(labels, c.providers[j]), c.providers[j]);
    assert ps + CountryOffers(labels, c, c.providers[..j + 1]) == (ps + before) + [o];
    assert ((ps + before) + [o])[..|ps + before|] == ps + before;
  }

  /** The loop over the PayDunya providers, which completes the rows or adds its own. */
  method AddPaydunya(ghost ps: seq<Offer>, pawapay: map<Key, Row>, cs: seq<Country>, softpay: seq<Softpay>)
    returns (rows: map<Key, Row>)
    requires pawapay == Joined(ps, [])
    requires forall i :: 0 <= i < |softpay| ==> Normalized(softpay[i].title).Some?
    ensures rows == Joined(ps, PaydunyaOffers(cs, softpay))
  {
    hide Normalized, CountryName, Joined, PaydunyaOffers;
    NoSoftpay(cs, softpay);
    rows := pawapay;
    for i := 0 to |softpay|
      invariant rows == Joined(ps, PaydunyaOffers(cs, softpay[..i]))
    {
      var p := softpay[i];
      OneMoreSoftpay(ps, cs, softpay, i);
      var k := Key(p.iso2, Normalized(p.title).value);
      var row := if k in rows then rows[k] else Row(p.iso2, CountryName(cs, p.iso2), p.title, None, None);
      rows := rows[k := row.(paydunya := Some(p.code))];
    }
    assert softpay[..|softpay|] == softpay;
  }

  lemma NoSoftpay(cs: seq<Country>, softpay: seq<Softpay>)
    ensures PaydunyaOffers(cs, softpay[..0]) == []
  {
  }

  lemma OneMoreSoftpay(ps: seq<Offer>, cs: seq<Country>, softpay: seq<Softpay>, i: nat)
    requires i < |softpay|
    ensures var o := Offer(softpay[i].iso2, CountryName(cs, softpay[i].iso2), softpay[i].title, softpay[i].code);
            var rows := Joined(ps, PaydunyaOffers(cs, softpay[..i]));
            Joined(ps, PaydunyaOffers(cs, softpay[..i + 1])) ==
            rows[KeyOf(o) := RowOf(rows, o).(paydunya := Some(o.code))]
  {
    hide KeyOf, RowOf, CountryName;
    assert softpay[..i + 1][..i] == softpay[..i];
    var before := PaydunyaOffers(cs, softpay[..i]);
    assert PaydunyaOffers(cs, softpay[..i + 1])[..|before|] == before;
  }

  // ---------- The join is faithful ----------

  /** The code of the last offer filed under a key. */
  function LastCode(os: seq<Offer>, k: Key): Option<string> {
    if os == [] then None
    else if KeyOf(os[|os| - 1]) == k then Some(os[|os| - 1].code)
    else LastCode(os[..|os| - 1], k)
  }

  /** The first offer filed under a key. */
  function FirstOffer(os: seq<Offer>, k: Key): Option<Offer> {
    if os == [] then None
    else
      var past := FirstOffer(os[..|os| - 1], k);
      if past.None? && KeyOf(os[|os| - 1]) == k then Some(os[|os| - 1]) else past
  }

  predicate Offered(os: seq<Offer>, k: Key) {
    exists i :: 0 <= i < |os| && KeyOf(os[i]) == k
  }

  predicate Faithful(rows: map<Key, Row>, ps: seq<Offer>, qs: seq<Offer>, k: Key) {
    && (k in rows <==> LastCode(ps, k).Some? || LastCode(qs, k).Some?)
    && (k in rows ==>
          && rows[k].country == k.country
          && Operator(rows[k].title) == k.operator
          && rows[k].pawapay == LastCode(ps, k)
          && rows[k].paydunya == LastCode(qs, k)
          && FirstOffer(ps + qs, k).Some?
          && rows[k].title == FirstOffer(ps + qs, k).value.title
          && rows[k].name == FirstOffer(ps + qs, k).value.name)
    && (k !in rows ==> FirstOffer(ps + qs, k) == None)
  }

  /** A row shows the last code each aggregator lists for its key, and the title and country name of the first provider
      of all. */
  lemma {:induction false} JoinIsFaithfulAt(ps: seq<Offer>, qs: seq<Offer>, k: Key)
    ensures Faithful(Joined(ps, qs), ps, qs, k)
    decreases |qs|, |ps|
  {
    hide Operator;
    if qs != [] {
      var n := |qs| - 1;
      JoinIsFaithfulAt(ps, qs[..n], k);
      JoinIsFaithfulAt(ps, qs[..n], KeyOf(qs[n]));
      assert (ps + qs)[..|ps + qs| - 1] == ps + qs[..n];
    } else if ps != [] {
      var n := |ps| - 1;
      JoinIsFaithfulAt(ps[..n], [], k);
      JoinIsFaithfulAt(ps[..n], [], KeyOf(ps[n]));
      assert ps + [] == ps && ps[..n] + [] == ps[..n];
    }
  }

  lemma {:induction false} LastCodeOffered(os: seq<Offer>, k: Key)
    ensures LastCode(os, k).Some? <==> Offered(os, k)
  {
    hide KeyOf;
    if os != [] {
      var n := |os| - 1;
      LastCodeOffered(os[..n], k);
      if Offered(os[..n], k) {
        var i :| 0 <= i < n && KeyOf(os[..n][i]) == k;
        assert KeyOf(os[i]) == k;
      }
      if KeyOf(os[n]) != k && Offered(os, k) {
        var i :| 0 <= i < |os| && KeyOf(os[i]) == k;
        assert KeyOf(os[..n][i]) == k;
      }
    }
  }

  lemma {:induction false} LastCodeIsLast(os: seq<Offer>, i: nat)
    requires i < |os| && LastOfItsKey(os, i)
    ensures LastCode(os, KeyOf(os[i])) == Some(os[i].code)
  {
    hide KeyOf;
    var n := |os| - 1;
    if i < n {
      forall j | i < j < n ensures KeyOf(os[..n][j]) != KeyOf(os[..n][i]) {
        assert os[..n][j] == os[j];
      }
      LastCodeIsLast(os[..n], i);
    }
  }

  /** Every offer of either aggregator is filed in exactly the row of its country and operator, no row exists
      without one, and every row has at least one code. */
  lemma {:induction false} JoinIsFaithful(ps: seq<Offer>, qs: seq<Offer>)
    ensures forall k :: k in Joined(ps, qs) <==> Offered(ps, k) || Offered(qs, k)
    ensures forall k :: k in Joined(ps, qs) ==>
              var row := Joined(ps, qs)[k];
              && row.country == k.country
              && Operator(row.title) == k.operator
              && (row.pawapay.Some? <==> Offered(ps, k))
              && (row.paydunya.Some? <==> Offered(qs, k))
              && (row.pawapay.Some? || row.paydunya.Some?)
  {
    hide Joined, Operator, LastCode, FirstOffer, Offered;
    forall k ensures Faithful(Joined(ps, qs), ps, qs, k)
             ensures LastCode(ps, k).Some? <==> Offered(ps, k)
             ensures LastCode(qs, k).Some? <==> Offered(qs, k)
    {
      JoinIsFaithfulAt(ps, qs, k);
      LastCodeOffered(ps, k);
      LastCodeOffered(qs, k);
    }
  }

  predicate DistinctCodes(os: seq<Offer>) {
    forall i, j :: 0 <= i < j < |os| ==> os[i].code != os[j].code
  }

  predicate LastOfItsKey(os: seq<Offer>, i: nat)
    requires i < |os|
  {
    forall j :: i < j < |os| ==> KeyOf(os[j]) != KeyOf(os[i])
  }

  /** A code appears on the screen exactly when no later provider of the same aggregator has its country and
      operator; otherwise it has been overwritten. */
  lemma {:induction false} CodeShownExactly(ps: seq<Offer>, qs: seq<Offer>, i: nat)
    requires DistinctCodes(ps) && DistinctCodes(qs)
    ensures i < |ps| ==> KeyOf(ps[i]) in Joined(ps, qs)
    ensures i < |ps| ==> (Joined(ps, qs)[KeyOf(ps[i])].pawapay == Some(ps[i].code) <==> LastOfItsKey(ps, i))
    ensures i < |qs| ==> KeyOf(qs[i]) in Joined(ps, qs)
    ensures i < |qs| ==> (Joined(ps, qs)[KeyOf(qs[i])].paydunya == Some(qs[i].code) <==> LastOfItsKey(qs, i))
  {
    hide Joined, Operator, LastCode, FirstOffer, KeyOf;
    if i < |ps| {
      JoinIsFaithfulAt(ps, qs, KeyOf(ps[i]));
      LastCodeExactly(ps, i);
    }
    if i < |qs| {
      JoinIsFaithfulAt(ps, qs, KeyOf(qs[i]));
      LastCodeExactly(qs, i);
    }
  }

  lemma {:induction false} LastCodeExactly(os: seq<Offer>, i: nat)
    requires DistinctCodes(os) && i < |os|
    ensures LastCode(os, KeyOf(os[i])).Some?
    ensures LastCode(os, KeyOf(os[i])) == Some(os[i].code) <==> LastOfItsKey(os, i)
  {
    hide LastCode, KeyOf;
    var last := LastIndex(os, KeyOf(os[i]), i);
    LastCodeIsLast(os, last);
  }

  ghost function LastIndex(os: seq<Offer>, k: Key, i: nat): (last: nat)
    requires i < |os| && KeyOf(os[i]) == k
    ensures i <= last < |os| && KeyOf(os[last]) == k && forall j :: last < j < |os| ==> KeyOf(os[j]) != k
    decreases |os| - i
  {
    if j :| i < j < |os| && KeyOf(os[j]) == k then LastIndex(os, k, j) else i
  }

  lemma {:induction false} UntilSpaceStops(word: string, rest: string)
    requires forall i :: 0 <= i < |word| ==> !IsSpace(word[i])
    ensures UntilSpace(word + [' '] + rest) == word
  {
    if word != "" {
      assert (word + [' '] + rest)[1..] == word[1..] + [' '] + rest;
      UntilSpaceStops(word[1..], rest);
    }
  }

  /** Titles that start with the same word are filed under the same operator. */
  lemma {:induction false} FirstWordFiles(word: string, rest: string)
    requires word != "" && forall i :: 0 <= i < |word| ==> !IsSpace(word[i])
    ensures Operator(word + [' '] + rest) == Upper(word)
  {
    UntilSpaceStops(word, rest);
  }

  /** Two providers of one aggregator and country whose titles start with the same word: if the later one is
      the last of its row, the row shows its code, and no row shows the code of the earlier one. */
  lemma SharedFirstWordOverwrites(ps: seq<Offer>, qs: seq<Offer>, i: nat, j: nat, word: string, x: string, y: string)
    requires DistinctCodes(ps) && i < j < |ps| && LastOfItsKey(ps, j) && ps[i].country == ps[j].country
    requires word != "" && forall m :: 0 <= m < |word| ==> !IsSpace(word[m])
    requires ps[i].title == word + [' '] + x && ps[j].title == word + [' '] + y
    ensures KeyOf(ps[i]) in Joined(ps, qs) && Joined(ps, qs)[KeyOf(ps[i])].pawapay == Some(ps[j].code)
    ensures forall k :: k in Joined(ps, qs) ==> Joined(ps, qs)[k].pawapay != Some(ps[i].code)
  {
    hide Operator, Joined, LastCode, FirstOffer;
    FirstWordFiles(word, x);
    FirstWordFiles(word, y);
    assert KeyOf(ps[i]) == KeyOf(ps[j]);
    LastCodeIsLast(ps, j);
    JoinIsFaithfulAt(ps, qs, KeyOf(ps[i]));
    forall k | k in Joined(ps, qs) ensures Joined(ps, qs)[k].pawapay != Some(ps[i].code) {
      JoinIsFaithfulAt(ps, qs, k);
      LastCodeComes(ps, k);
    }
  }

  const MOZAMBIQUE := Country("MZ", "Mozambique", ["VODACOM_MPESA_MOZ", "MOVITEL_MOZ"])

  lemma LabelOf(labels: map<string, string>, prefix: string, rest: string)
    requires '_' !in prefix && prefix in labels
    ensures DisplayLabel(labels, prefix + ['_'] + rest) == labels[prefix]
  {
    SplitHead(prefix, '_', rest);
  }

  lemma VodacomTitle()
    ensures DisplayLabel(LABELS, MOZAMBIQUE.providers[0]) == "M-Pesa" + [' '] + "(Vodacom)"
  {
    hide DisplayLabel;
    assert "VODACOM" in LABELS && LABELS["VODACOM"] == "M-Pesa (Vodacom)" by { assert "VODACOM"[3] == 'A'; }
    LabelOf(LABELS, "VODACOM", "MPESA_MOZ");
    hide LABELS;
    assert MOZAMBIQUE.providers[0] == "VODACOM" + ['_'] + "MPESA_MOZ";
  }

  lemma MovitelTitle()
    ensures DisplayLabel(LABELS, MOZAMBIQUE.providers[1]) == "M-Pesa" + [' '] + "(Movitel)"
  {
    hide DisplayLabel;
    assert "MOVITEL" in LABELS && LABELS["MOVITEL"] == "M-Pesa (Movitel)";
    LabelOf(LABELS, "MOVITEL", "MOZ");
    hide LABELS;
    assert MOZAMBIQUE.providers[1] == "MOVITEL" + ['_'] + "MOZ";
  }

  lemma {:induction false} OffersAppend(labels: map<string, string>, a: seq<Country>, b: seq<Country>)
    ensures PawapayOffers(labels, a + b) == PawapayOffers(labels, a) + PawapayOffers(labels, b)
  {
    hide CountryOffers;
    if b == [] {
      assert a + b == a;
    } else {
      assert (a + b)[..|a + b| - 1] == a + b[..|b| - 1];
      OffersAppend(labels, a, b[..|b| - 1]);
    }
  }

  lemma {:induction false} OffersElsewhere(labels: map<string, string>, cs: seq<Country>, iso2: string)
    requires forall i :: 0 <= i < |cs| ==> cs[i].iso2 != iso2
    ensures forall i :: 0 <= i < |PawapayOffers(labels, cs)| ==> PawapayOffers(labels, cs)[i].country != iso2
  {
    if cs != [] {
      OffersElsewhere(labels, cs[..|cs| - 1], iso2);
      CountryOffersAreLocal(labels, cs[|cs| - 1], cs[|cs| - 1].providers);
    }
  }

  lemma {:induction false} CountryOffersAreLocal(labels: map<string, string>, c: Country, codes: seq<string>)
    ensures forall i :: 0 <= i < |codes| ==> CountryOffers(labels, c, codes)[i].country == c.iso2
  {
    hide DisplayLabel;
    if codes != [] { CountryOffersAreLocal(labels, c, codes[..|codes| - 1]); }
  }

  lemma TwoOffers(labels: map<string, string>, c: Country)
    requires |c.providers| == 2
    ensures PawapayOffers(labels, [c]) ==
            [Offer(c.iso2, c.name, DisplayLabel(labels, c.providers[0]), c.providers[0]),
             Offer(c.iso2, c.name, DisplayLabel(labels, c.providers[1]), c.providers[1])]
  {
    hide DisplayLabel;
    var first := Offer(c.iso2, c.name, DisplayLabel(labels, c.providers[0]), c.providers[0]);
    assert c.providers[..1][..0] == [] && CountryOffers(labels, c, []) == [];
    assert CountryOffers(labels, c, c.providers[..1]) == [first];
    assert [c][..0] == [] && PawapayOffers(labels, []) == [];
  }

  /**
   The PawaPay table lists Mozambique with Vodacom's code before Movitel's, and the dictionary gives both a title
   that starts with M-Pesa: whatever the other countries and PayDunya offer, the row shows Movitel's code, and no
   row shows Vodacom's.
   */
  lemma {:induction false} VodacomIsOverwritten(before: seq<Country>, after: seq<Country>, qs: seq<Offer>)
    requires DistinctCodes(PawapayOffers(LABELS, before + [MOZAMBIQUE] + after))
    requires forall i :: 0 <= i < |after| ==> after[i].iso2 != MOZAMBIQUE.iso2
    ensures var rows := Joined(PawapayOffers(LABELS, before + [MOZAMBIQUE] + after), qs);
            && (exists k :: k in rows && k.country == MOZAMBIQUE.iso2 &&
                  rows[k].pawapay == Some(MOZAMBIQUE.providers[1]))
            && (forall k :: k in rows ==> rows[k].pawapay != Some(MOZAMBIQUE.providers[0]))
  {
    hide DisplayLabel, Operator, Joined, LABELS;
    var ps := PawapayOffers(LABELS, before + [MOZAMBIQUE] + after);
    OffersAppend(LABELS, before + [MOZAMBIQUE], after);
    OffersAppend(LABELS, before, [MOZAMBIQUE]);
    TwoOffers(LABELS, MOZAMBIQUE);
    OffersElsewhere(LABELS, after, MOZAMBIQUE.iso2);
    hide PawapayOffers;
    VodacomTitle();
    MovitelTitle();
    var i := |PawapayOffers(LABELS, before)|;
    forall j | i + 1 < j < |ps| ensures KeyOf(ps[j]) != KeyOf(ps[i + 1]) {
      assert ps[j] == PawapayOffers(LABELS, after)[j - (i + 2)];
    }
    SharedFirstWordOverwrites(ps, qs, i, i + 1, "M-Pesa", "(Vodacom)", "(Movitel)");
  }

  lemma {:induction false} LastCodeComes(os: seq<Offer>, k: Key)
    ensures LastCode(os, k).Some? ==>
              exists i :: 0 <= i < |os| && KeyOf(os[i]) == k && LastCode(os, k) == Some(os[i].code)
  {
    hide KeyOf;
    if os != [] && KeyOf(os[|os| - 1]) != k {
      var n := |os| - 1;
      LastCodeComes(os[..n], k);
      if LastCode(os, k).Some? {
        var i :| 0 <= i < n && KeyOf(os[..n][i]) == k && LastCode(os, k) == Some(os[..n][i].code);
        assert KeyOf(os[i]) == k && LastCode(os, k) == Some(os[i].code);
      }
    }
  }

  // ---------- Overrides and switches ----------

  /** The key of the override and operator tables: a country and a code, or an operator. */
  datatype Entry = Entry(iso2: string, name: string)

  datatype Store = Store(overrides: map<Entry, string>, disabledOperators: set<Entry>, disabledCountries: set<string>)

  /** What the screen adds to a row. */
  datatype Shown = Shown(active: string, isOverride: bool, operatorEnabled: bool, countryEnabled: bool)

  function OverrideOf(overrides: map<Entry, string>, row: Row): Option<string> {
    if row.paydunya.Some? && Entry(row.country, row.paydunya.value) in overrides then
      Some(overrides[Entry(row.country, row.paydunya.value)])
    else if row.pawapay.Some? && Entry(row.country, row.pawapay.value) in overrides then
      Some(overrides[Entry(row.country, row.pawapay.value)])
    else None
  }

  function Show(st: Store, fallback: string, row: Row): Shown {
    var o := OverrideOf(st.overrides, row);
    Shown(if o.Some? then o.value else fallback, o.Some?,
          Entry(row.country, Operator(row.title)) !in st.disabledOperators, row.country !in st.disabledCountries)
  }

  function Text(e: Entry): string {
    e.iso2 + ['|'] + e.name
  }

  /** Without a bar in either part, no other entry prints alike. */
  predicate Plain(e: Entry) {
    (forall i :: 0 <= i < |e.iso2| ==> e.iso2[i] != '|') && forall i :: 0 <= i < |e.name| ==> e.name[i] != '|'
  }

  lemma TextIsUnambiguous(e: Entry, other: Entry)
    requires Plain(e) && Text(e) == Text(other)
    ensures e == other
  {
    var t, n := Text(e), |other.iso2|;
    assert forall m :: 0 <= m < |t| && t[m] == '|' ==> m == |e.iso2|;
    assert Text(other)[n] == '|';
    assert t[..n] == e.iso2 && t[n + 1..] == e.name;
    assert Text(other)[..n] == other.iso2 && Text(other)[n + 1..] == other.name;
  }

  /** The text-keyed copy of the override table that the listing builds, in whatever order the rows come. */
  method CopyOverrides(overrides: map<Entry, string>) returns (texts: map<string, string>)
    ensures Copies(texts, overrides)
  {
    hide Text, Plain;
    texts := map[];
    var todo := overrides.Keys;
    while todo != {}
      invariant todo <= overrides.Keys
      invariant forall e :: Plain(e) ==> (Text(e) in texts <==> e in overrides && e !in todo)
      invariant forall e :: Plain(e) && e in overrides && e !in todo ==> texts[Text(e)] == overrides[e]
      decreases |todo|
    {
      var e :| e in todo;
      ghost var before := texts;
      forall x | Plain(x) ensures Text(x) == Text(e) <==> x == e {
        if Text(x) == Text(e) { TextIsUnambiguous(x, e); }
      }
      texts := texts[Text(e) := overrides[e]];
      todo := todo - {e};
    }
  }

  predicate PlainRow(row: Row) {
    && Plain(Entry(row.country, Operator(row.title)))
    && (row.pawapay.Some? ==> Plain(Entry(row.country, row.pawapay.value)))
    && (row.paydunya.Some? ==> Plain(Entry(row.country, row.paydunya.value)))
  }

  /** The text-keyed copy answers for every entry without a bar as the table does. */
  ghost predicate Copies(texts: map<string, string>, overrides: map<Entry, string>) {
    forall e :: Plain(e) ==>
      && (Text(e) in texts <==> e in overrides)
      && (e in overrides ==> texts[Text(e)] == overrides[e])
  }

  /** The last loop of the listing. */
  method ListRoutes(st: Store, pawapayEnabled: bool, rows: map<Key, Row>) returns (out: map<Key, Shown>)
    requires forall k :: k in rows ==> PlainRow(rows[k])
    ensures out.Keys == rows.Keys
    ensures forall k :: k in rows ==> out[k] == Show(st, if pawapayEnabled then "pawapay" else "paydunya", rows[k])
  {
    hide Text, Plain, PlainRow, Show, Copies;
    var fallback := "paydunya";
    if pawapayEnabled {
      fallback := "pawapay";
    }
    var overrides := CopyOverrides(st.overrides);
    out := map[];
    var todo := rows.Keys;
    while todo != {}
      invariant todo <= rows.Keys && out.Keys == rows.Keys - todo
      invariant forall k :: k in out ==> out[k] == Show(st, fallback, rows[k])
      decreases |todo|
    {
      var k :| k in todo;
      var shown := ShowRow(st, overrides, fallback, rows[k]);
      out := out[k := shown];
      todo := todo - {k};
    }
  }

  /** One turn of that loop. */
  method ShowRow(st: Store, overrides: map<string, string>, fallback: string, row: Row) returns (shown: Shown)
    requires PlainRow(row) && Copies(overrides, st.overrides)
    ensures shown == Show(st, fallback, row)
  {
    hide Operator, Text, Plain;
    var active, isOverride := fallback, false;
    if row.pawapay.Some? {
      var text := Text(Entry(row.country, row.pawapay.value));
      if text in overrides {
        active, isOverride := overrides[text], true;
      }
    }
    if row.paydunya.Some? {
      var text := Text(Entry(row.country, row.paydunya.value));
      if text in overrides {
        active, isOverride := overrides[text], true;
      }
    }
    shown := Shown(active, isOverride, Entry(row.country, Operator(row.title)) !in st.disabledOperators,
                   row.country !in st.disabledCountries);
  }

  // ---------- The admin's edits ----------

  datatype Edit =
    | PutRoute(iso2: string, pawapay: string, paydunya: string, aggregator: string)
    | DeleteRoute(iso2: string, pawapay: string, paydunya: string)
    | SetOperator(iso2: string, title: string, enabled: bool)
    | SetCountry(iso2: string, enabled: bool)

  datatype Reply = Done | BadRequest | Panicked

  function ReplyTo(e: Edit): Reply {
    match e
    case PutRoute(iso2, pawapay, paydunya, aggregator) =>
      if iso2 == "" || (aggregator != "pawapay" && aggregator != "paydunya") then BadRequest
      else if pawapay == "" && paydunya == "" then BadRequest
      else Done
    case DeleteRoute(iso2, _, _) => if iso2 == "" then BadRequest else Done
    case SetOperator(iso2, title, _) =>
      if iso2 == "" || title == "" then BadRequest else if Normalized(title).None? then Panicked else Done
    case SetCountry(iso2, _) => if iso2 == "" then BadRequest else Done
  }

  /** The codes an edit names. */
  function Codes(e: Edit): set<string> {
    if e.PutRoute? || e.DeleteRoute? then {e.pawapay, e.paydunya} - {""} else {}
  }

  function Entries(iso2: string, codes: set<string>): set<Entry> {
    set c | c in codes :: Entry(iso2, c)
  }

  function After(st: Store, e: Edit): Store {
    if ReplyTo(e) != Done then st
    else
      match e
      case PutRoute(iso2, _, _, aggregator) =>
        st.(overrides := st.overrides + map x | x in Entries(Upper(iso2), Codes(e)) :: aggregator)
      case DeleteRoute(iso2, _, _) => st.(overrides := st.overrides - Entries(Upper(iso2), Codes(e)))
      case SetOperator(iso2, title, enabled) =>
        var x := Entry(Upper(iso2), Operator(title));
        st.(disabledOperators := if enabled then st.disabledOperators - {x} else st.disabledOperators + {x})
      case SetCountry(iso2, enabled) =>
        var x := Upper(iso2);
        st.(disabledCountries := if enabled then st.disabledCountries - {x} else st.disabledCountries + {x})
  }

  class Routing {
    var st: Store

    constructor ()
      ensures st == Store(map[], {}, {})
    {
      st := Store(map[], {}, {});
    }

    method SetPaymentRouting(iso2: string, pawapay: string, paydunya: string, aggregator: string) returns (reply: Reply)
      modifies this
      ensures reply == ReplyTo(PutRoute(iso2, pawapay, paydunya, aggregator))
      ensures reply == if iso2 != "" && aggregator in {"pawapay", "paydunya"} && (pawapay != "" || paydunya != "")
                       then Done else BadRequest
      ensures st == After(old(st), PutRoute(iso2, pawapay, paydunya, aggregator))
      ensures reply != Done ==> st == old(st)
      ensures reply == Done ==>
                && (forall x :: x in st.overrides <==>
                      || x in old(st).overrides
                      || (pawapay != "" && x == Entry(Upper(iso2), pawapay))
                      || (paydunya != "" && x == Entry(Upper(iso2), paydunya)))
                && (pawapay != "" ==> st.overrides[Entry(Upper(iso2), pawapay)] == aggregator)
                && (paydunya != "" ==> st.overrides[Entry(Upper(iso2), paydunya)] == aggregator)
    {
      if iso2 == "" || aggregator == "" {
        return BadRequest;
      }
      if aggregator != "pawapay" && aggregator != "paydunya" {
        return BadRequest;
      }
      if pawapay == "" && paydunya == "" {
        return BadRequest;
      }
      var country := Upper(iso2);
      var overrides := st.overrides;
      if pawapay != "" {
        overrides := overrides[Entry(country, pawapay) := aggregator];
      }
      if paydunya != "" {
        overrides := overrides[Entry(country, paydunya) := aggregator];
      }
      ghost var e := PutRoute(iso2, pawapay, paydunya, aggregator);
      hide Upper;
      assert overrides == st.overrides + map x | x in Entries(Upper(iso2), Codes(e)) :: aggregator;
      st := st.(overrides := overrides);
      return Done;
    }

    method DeletePaymentRouting(iso2: string, pawapay: string, paydunya: string) returns (reply: Reply)
      modifies this
      ensures reply == ReplyTo(DeleteRoute(iso2, pawapay, paydunya))
      ensures reply == if iso2 != "" then Done else BadRequest
      ensures st == After(old(st), DeleteRoute(iso2, pawapay, paydunya))
      ensures reply == Done ==>
                forall x :: x in st.overrides <==>
                  && x in old(st).overrides
                  && (pawapay != "" ==> x != Entry(Upper(iso2), pawapay))
                  && (paydunya != "" ==> x != Entry(Upper(iso2), paydunya))
    {
      if iso2 == "" {
        return BadRequest;
      }
      var country := Upper(iso2);
      var overrides := st.overrides;
      if pawapay != "" {
        overrides := overrides - {Entry(country, pawapay)};
      }
      if paydunya != "" {
        overrides := overrides - {Entry(country, paydunya)};
      }
      hide Upper;
      assert overrides == st.overrides - Entries(Upper(iso2), Codes(DeleteRoute(iso2, pawapay, paydunya)));
      st := st.(overrides := overrides);
      return Done;
    }

    method SetOperatorEnabled(iso2: string, title: string, enabled: bool) returns (reply: Reply)
      modifies this
      ensures reply == ReplyTo(SetOperator(iso2, title, enabled))
      ensures reply == if iso2 == "" || title == "" then BadRequest else if HasWord(title) then Done else Panicked
      ensures st == After(old(st), SetOperator(iso2, title, enabled))
    {
      if iso2 == "" || title == "" {
        return BadRequest;
      }
      WordExactly(title);
      var op := Normalized(title);
      if op == None {
        return Panicked;
      }
      var x := Entry(Upper(iso2), op.value);
      if enabled {
        st := st.(disabledOperators := st.disabledOperators - {x});
      } else {
        st := st.(disabledOperators := st.disabledOperators + {x});
      }
      return Done;
    }

    method SetCountryEnabled(iso2: string, enabled: bool) returns (reply: Reply)
      modifies this
      ensures reply == ReplyTo(SetCountry(iso2, enabled))
      ensures reply == if iso2 != "" then Done else BadRequest
      ensures st == After(old(st), SetCountry(iso2, enabled))
    {
      if iso2 == "" {
        return BadRequest;
      }
      if enabled {
        st := st.(disabledCountries := st.disabledCountries - {Upper(iso2)});
      } else {
        st := st.(disabledCountries := st.disabledCountries + {Upper(iso2)});
      }
      return Done;
    }
  }

  /** A label is filed under the capitals of its first run of characters other than spaces, and under nothing exactly
      when it has none. */
  lemma {:induction false} WordExactly(text: string)
    ensures Normalized(text).Some? <==> HasWord(text)
  {
    hide IsSpace, Upper;
    if text != "" {
      assert forall i :: 0 <= i < |text| - 1 ==> text[1..][i] == text[i + 1];
      if IsSpace(text[0]) {
        WordExactly(text[1..]);
        if HasWord(text) {
          var i :| 0 <= i < |text| && !IsSpace(text[i]);
          assert text[1..][i - 1] == text[i];
        }
      } else {
        assert HasWord(text);
      }
    }
  }

  lemma {:induction false} FirstWord(spaces: string, word: string, rest: string)
    requires forall i :: 0 <= i < |spaces| ==> IsSpace(spaces[i])
    requires word != "" && forall i :: 0 <= i < |word| ==> !IsSpace(word[i])
    requires rest == "" || IsSpace(rest[0])
    ensures Normalized(spaces + word + rest) == Some(Upper(word))
    decreases |spaces|
  {
    hide IsSpace, Upper;
    var text := spaces + word + rest;
    if spaces == "" {
      assert text == word + rest && text[0] == word[0];
      UntilSpaceIsWord(word, rest);
    } else {
      assert text[0] == spaces[0] && text[1..] == spaces[1..] + word + rest;
      FirstWord(spaces[1..], word, rest);
    }
  }

  lemma {:induction false} UntilSpaceIsWord(word: string, rest: string)
    requires forall i :: 0 <= i < |word| ==> !IsSpace(word[i])
    requires rest == "" || IsSpace(rest[0])
    ensures UntilSpace(word + rest) == word
  {
    hide IsSpace;
    if word == "" {
      assert word + rest == rest;
    } else {
      assert (word + rest)[0] == word[0] && (word + rest)[1..] == word[1..] + rest;
      UntilSpaceIsWord(word[1..], rest);
      assert word == [word[0]] + word[1..];
    }
  }

  /** Letters of either case are filed alike, and a text of capitals and other characters is left as it is. */
  lemma {:induction false} UpperExactly(s: string, t: string)
    requires |s| == |t|
    ensures (forall i :: 0 <= i < |s| ==> !('a' <= s[i] <= 'z')) ==> Upper(s) == s
    ensures Upper(s) == Upper(t) <==>
              forall i :: 0 <= i < |s| ==>
                || s[i] == t[i]
                || ('a' <= s[i] <= 'z' && t[i] as int == s[i] as int - 32)
                || ('a' <= t[i] <= 'z' && s[i] as int == t[i] as int - 32)
  {
    if s != "" {
      UpperExactly(s[1..], t[1..]);
      assert Upper(s)[0] == Upper([s[0]])[0] && Upper(s)[1..] == Upper(s[1..]) && Upper(t)[1..] == Upper(t[1..]);
      assert forall i :: 0 < i < |s| ==> s[i] == s[1..][i - 1] && t[i] == t[1..][i - 1];
    }
  }

  // ---------- What an edit changes on the screen ----------

  /** The codes a row shows. */
  function RowCodes(row: Row): set<string> {
    (if row.pawapay.Some? then {row.pawapay.value} else {}) + if row.paydunya.Some? then {row.paydunya.value} else {}
  }

  /** An accepted edit of the row's country that names one of its codes. */
  predicate Touches(e: Edit, row: Row) {
    && (e.PutRoute? || e.DeleteRoute?)
    && ReplyTo(e) == Done
    && Upper(e.iso2) == row.country
    && Codes(e) * RowCodes(row) != {}
  }

  /** Such an edit that names all of them. */
  predicate Covers(e: Edit, row: Row) {
    Touches(e, row) && RowCodes(row) <= Codes(e)
  }

  function Wanted(e: Edit): Option<string> {
    if e.PutRoute? then Some(e.aggregator) else None
  }

  predicate UniformlyOverridden(st: Store, row: Row, o: Option<string>) {
    forall c :: c in RowCodes(row) ==>
      if o.Some? then Entry(row.country, c) in st.overrides && st.overrides[Entry(row.country, c)] == o.value
      else Entry(row.country, c) !in st.overrides
  }

  lemma OverrideAfter(st: Store, e: Edit, row: Row, c: string)
    requires c in RowCodes(row)
    ensures var x := Entry(row.country, c);
            if Touches(e, row) && c in Codes(e)
            then (x in After(st, e).overrides <==> Wanted(e).Some?)
                 && (Wanted(e).Some? ==> After(st, e).overrides[x] == Wanted(e).value)
            else (x in After(st, e).overrides <==> x in st.overrides)
                 && (x in st.overrides ==> After(st, e).overrides[x] == st.overrides[x])
  {
    hide Upper, Operator;
    if (e.PutRoute? || e.DeleteRoute?) && Upper(e.iso2) == row.country && c in Codes(e) {
      assert c in Codes(e) * RowCodes(row);
      assert Entry(row.country, c) in Entries(Upper(e.iso2), Codes(e));
    }
  }

  /** A PUT of a known aggregator, or a DELETE, for the row's country in either case and with all of its codes is
      accepted and covers the row. */
  lemma WholeEditCovers(e: Edit, row: Row)
    requires e.PutRoute? || e.DeleteRoute?
    requires e.iso2 != "" && Upper(e.iso2) == row.country
    requires e.PutRoute? ==> e.aggregator == "pawapay" || e.aggregator == "paydunya"
    requires RowCodes(row) != {} && "" !in RowCodes(row) && RowCodes(row) <= {e.pawapay, e.paydunya}
    ensures ReplyTo(e) == Done && Covers(e, row)
  {
    hide Upper;
    var c :| c in RowCodes(row);
    assert c in Codes(e) * RowCodes(row);
  }

  /** An edit shows on a row exactly as far as it names the row's codes: a PUT with all of them makes its
      aggregator the override, a DELETE with all of them restores the default, and a row that shares none
      of the codes keeps what it had. */
  lemma EditShows(st: Store, e: Edit, row: Row)
    requires RowCodes(row) != {}
    ensures Covers(e, row) ==> OverrideOf(After(st, e).overrides, row) == Wanted(e)
    ensures Covers(e, row) ==> UniformlyOverridden(After(st, e), row, Wanted(e))
    ensures !Touches(e, row) ==> OverrideOf(After(st, e).overrides, row) == OverrideOf(st.overrides, row)
  {
    hide After, Touches, Codes;
    if row.pawapay.Some? { OverrideAfter(st, e, row, row.pawapay.value); }
    if row.paydunya.Some? { OverrideAfter(st, e, row, row.paydunya.value); }
  }

  /** On the screen that is the aggregator shown and whether it is marked as an override; nothing else of the row
      changes. */
  lemma WholeEditIsShown(st: Store, fallback: string, e: Edit, row: Row)
    requires RowCodes(row) != {} && (e.PutRoute? || e.DeleteRoute?)
    ensures var was, now := Show(st, fallback, row), Show(After(st, e), fallback, row);
            && (Covers(e, row) && e.PutRoute? ==> now == was.(active := e.aggregator, isOverride := true))
            && (Covers(e, row) && e.DeleteRoute? ==> now == was.(active := fallback, isOverride := false))
            && (!Touches(e, row) ==> now == was)
            && (!now.isOverride ==> now.active == fallback)
  {
    EditShows(st, e, row);
    hide OverrideOf, Covers, Touches, Operator, Upper, Codes;
  }

  /** Naming only one of two codes is enough exactly when the other code does not win with something else. */
  lemma HalfEditShowsExactly(st: Store, e: Edit, row: Row)
    requires row.pawapay.Some? && row.paydunya.Some? && row.pawapay != row.paydunya
    requires Touches(e, row) && !Covers(e, row)
    ensures var named := if row.pawapay.value in Codes(e) then row.pawapay.value else row.paydunya.value;
            var code := if row.pawapay.value in Codes(e) then row.paydunya.value else row.pawapay.value;
            var other := Entry(row.country, code);
            OverrideOf(After(st, e).overrides, row) == Wanted(e) <==>
              || other !in st.overrides
              || Wanted(e) == Some(st.overrides[other])
              || (e.PutRoute? && named == row.paydunya.value)
  {
    OverrideAfter(st, e, row, row.pawapay.value);
    OverrideAfter(st, e, row, row.paydunya.value);
    assert row.pawapay.value in Codes(e) || row.paydunya.value in Codes(e);
    hide After, Upper, Operator;
  }

  // ---------- Runs of edits ----------

  function AfterAll(st: Store, edits: Run<Edit>): Store {
    match edits
    case Start => st
    case Then(past, last) => After(AfterAll(st, past), last)
  }

  predicate AlwaysWhole(edits: Run<Edit>, row: Row) {
    edits.Then? ==> AlwaysWhole(edits.past, row) && (Touches(edits.last, row) ==> Covers(edits.last, row))
  }

  /** What the last edit that touches the row asks for, or else what was there before. */
  function LastWanted(before: Option<string>, edits: Run<Edit>, row: Row): Option<string> {
    match edits
    case Start => before
    case Then(past, last) => if Touches(last, row) then Wanted(last) else LastWanted(before, past, row)
  }

  /** Over every run whose edits of a row name all its codes, the row shows what the last of them asked for. */
  lemma {:induction false} LastWholeEditWins(st: Store, edits: Run<Edit>, row: Row)
    requires RowCodes(row) != {} && AlwaysWhole(edits, row)
    ensures OverrideOf(AfterAll(st, edits).overrides, row) == LastWanted(OverrideOf(st.overrides, row), edits, row)
  {
    hide After, Touches, Covers, OverrideOf, RowCodes;
    if edits.Then? {
      LastWholeEditWins(st, edits.past, row);
      EditShows(AfterAll(st, edits.past), edits.last, row);
    }
  }

  /** Switching an operator reaches exactly the row of its country and operator, for good or until the next
      switch, whatever way its title is spelt. */
  lemma OperatorSwitchReaches(st: Store, fallback: string, e: Edit, rows: map<Key, Row>, k: Key)
    requires e.SetOperator? && ReplyTo(e) == Done
    requires k in rows && rows[k].country == k.country && Operator(rows[k].title) == k.operator
    ensures var was, next := Show(st, fallback, rows[k]), Show(After(st, e), fallback, rows[k]);
            next == if k == Key(Upper(e.iso2), Operator(e.title)) then was.(operatorEnabled := e.enabled) else was
  {
    hide Upper, Operator, OverrideOf;
  }

  /** Switching a country reaches exactly its rows. */
  lemma CountrySwitchReaches(st: Store, fallback: string, e: Edit, row: Row)
    requires e.SetCountry? && ReplyTo(e) == Done
    ensures var was, next := Show(st, fallback, row), Show(After(st, e), fallback, row);
            next == if row.country == Upper(e.iso2) then was.(countryEnabled := e.enabled) else was
  {
    hide Upper, Operator, OverrideOf;
  }
}

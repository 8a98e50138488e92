/**
 The feed's XML escaper (five replacements one after another) against the catalogue's entity
 decoder (one scan with a regular expression). Texts are sequences of UTF-16 code units.
 */
module XmlEscape {
  import opened Options

  type Unit = u: int | 0 <= u < 0x1_0000
  type Text = seq<Unit>

  const AMP: Unit := 38
  const LT: Unit := 60
  const GT: Unit := 62
  const QUOT: Unit := 34
  const APOS: Unit := 39
  const SEMI: Unit := 59
  const HASH: Unit := 35
  const LOWER_X: Unit := 120

  // The names between ampersand and semicolon: amp, lt, gt, quot, apos.
  const AMP_NAME: Text := [97, 109, 112]
  const LT_NAME: Text := [108, 116]
  const GT_NAME: Text := [103, 116]
  const QUOT_NAME: Text := [113, 117, 111, 116]
  const APOS_NAME: Text := [97, 112, 111, 115]

  function Entity(name: Text): Text {
    [AMP] + name + [SEMI]
  }

  // ---------- Escaping ----------

  /** Replaces every occurrence of one code unit. */
  function Replace(s: Text, c: Unit, by_: Text): Text {
    if s == [] then [] else (if s[0] == c then by_ else [s[0]]) + Replace(s[1..], c, by_)
  }

  function EscapeXml(s: Text): Text {
    Replace(Replace(Replace(Replace(Replace(s, AMP, Entity(AMP_NAME)), LT, Entity(LT_NAME)), GT, Entity(GT_NAME)),
                    QUOT, Entity(QUOT_NAME)), APOS, Entity(APOS_NAME))
  }

  /** What one code unit should become. */
  function Escaped(c: Unit): Text {
    if c == AMP then Entity(AMP_NAME)
    else if c == LT then Entity(LT_NAME)
    else if c == GT then Entity(GT_NAME)
    else if c == QUOT then Entity(QUOT_NAME)
    else if c == APOS then Entity(APOS_NAME)
    else [c]
  }

  /** One pass, unit by unit. */
  function OnePass(s: Text): Text {
    if s == [] then [] else Escaped(s[0]) + OnePass(s[1..])
  }

  lemma {:induction false} ReplaceAppend(a: Text, b: Text, c: Unit, by_: Text)
    ensures Replace(a + b, c, by_) == Replace(a, c, by_) + Replace(b, c, by_)
  {
    if a == [] {
      assert a + b == b;
    } else {
      assert (a + b)[1..] == a[1..] + b;
      ReplaceAppend(a[1..], b, c, by_);
    }
  }

  lemma {:induction false} ReplaceAbsent(s: Text, c: Unit, by_: Text)
    requires forall i :: 0 <= i < |s| ==> s[i] != c
    ensures Replace(s, c, by_) == s
  {
    if s != [] { ReplaceAbsent(s[1..], c, by_); }
  }

  lemma ReplaceOne(c: Unit, d: Unit, by_: Text)
    ensures Replace([c], d, by_) == if c == d then by_ else [c]
  {
    assert Replace([], d, by_) == [];
  }

  lemma EscapeAppend(a: Text, b: Text)
    ensures EscapeXml(a + b) == EscapeXml(a) + EscapeXml(b)
  {
    hide Replace;
    ReplaceAppend(a, b, AMP, Entity(AMP_NAME));
    var a1, b1 := Replace(a, AMP, Entity(AMP_NAME)), Replace(b, AMP, Entity(AMP_NAME));
    ReplaceAppend(a1, b1, LT, Entity(LT_NAME));
    var a2, b2 := Replace(a1, LT, Entity(LT_NAME)), Replace(b1, LT, Entity(LT_NAME));
    ReplaceAppend(a2, b2, GT, Entity(GT_NAME));
    var a3, b3 := Replace(a2, GT, Entity(GT_NAME)), Replace(b2, GT, Entity(GT_NAME));
    ReplaceAppend(a3, b3, QUOT, Entity(QUOT_NAME));
    ReplaceAppend(Replace(a3, QUOT, Entity(QUOT_NAME)), Replace(b3, QUOT, Entity(QUOT_NAME)), APOS, Entity(APOS_NAME));
  }

  /** Later replacements leave an inserted entity alone: it holds none of their targets. */
  lemma EntityUntouched(name: Text, c: Unit, by_: Text)
    requires Letters(name) && (c == LT || c == GT || c == QUOT || c == APOS)
    ensures Replace(Entity(name), c, by_) == Entity(name)
  {
    var e := Entity(name);
    forall i | 0 <= i < |e| ensures e[i] != c {
      if 0 < i <= |name| { assert e[i] == name[i - 1] && IsLetter(name[i - 1]); }
    }
    ReplaceAbsent(e, c, by_);
  }

  lemma EscapeOne(c: Unit)
    ensures EscapeXml([c]) == Escaped(c)
  {
    NamesAreLetters();
    hide Replace, Entity, Letters;
    ReplaceOne(c, AMP, Entity(AMP_NAME));
    ReplaceOne(c, LT, Entity(LT_NAME));
    ReplaceOne(c, GT, Entity(GT_NAME));
    ReplaceOne(c, QUOT, Entity(QUOT_NAME));
    ReplaceOne(c, APOS, Entity(APOS_NAME));
    if c == AMP {
      EntityUntouched(AMP_NAME, LT, Entity(LT_NAME));
      EntityUntouched(AMP_NAME, GT, Entity(GT_NAME));
      EntityUntouched(AMP_NAME, QUOT, Entity(QUOT_NAME));
      EntityUntouched(AMP_NAME, APOS, Entity(APOS_NAME));
    } else if c == LT {
      EntityUntouched(LT_NAME, GT, Entity(GT_NAME));
      EntityUntouched(LT_NAME, QUOT, Entity(QUOT_NAME));
      EntityUntouched(LT_NAME, APOS, Entity(APOS_NAME));
    } else if c == GT {
      EntityUntouched(GT_NAME, QUOT, Entity(QUOT_NAME));
      EntityUntouched(GT_NAME, APOS, Entity(APOS_NAME));
    } else if c == QUOT {
      EntityUntouched(QUOT_NAME, APOS, Entity(APOS_NAME));
    }
  }

  /** The five passes in sequence are one pass: no replacement touches another's output. */
  lemma {:induction false} FivePassesAreOne(s: Text)
    ensures EscapeXml(s) == OnePass(s)
  {
    if s != [] {
      assert s == [s[0]] + s[1..];
      FivePassesAreOne(s[1..]);
      EscapeAppend([s[0]], s[1..]);
      EscapeOne(s[0]);
    }
  }

  // ---------- The shape of escaped text ----------

  predicate StartsEntity(t: Text) {
    Entity(AMP_NAME) <= t || Entity(LT_NAME) <= t || Entity(GT_NAME) <= t || Entity(QUOT_NAME) <= t ||
    Entity(APOS_NAME) <= t
  }

  lemma EscapedShape(c: Unit, rest: Text, i: nat)
    requires i < |Escaped(c)|
    ensures Escaped(c)[i] != LT && Escaped(c)[i] != GT && Escaped(c)[i] != QUOT && Escaped(c)[i] != APOS
    ensures Escaped(c)[i] == AMP ==> i == 0 && StartsEntity(Escaped(c) + rest)
  {
  }

  /**
   Escaped text holds no raw <, >, quote or apostrophe, and every & in it starts one of the five
   predefined entities of section 4.6 of XML 1.0.
   */
  lemma {:induction false} EscapedIsWellFormed(s: Text, i: nat)
    requires i < |EscapeXml(s)|
    ensures var t := EscapeXml(s);
            && t[i] != LT && t[i] != GT && t[i] != QUOT && t[i] != APOS
            && (t[i] == AMP ==> StartsEntity(t[i..]))
  {
    FivePassesAreOne(s);
    if s != [] {
      FivePassesAreOne(s[1..]);
      var head, rest := Escaped(s[0]), OnePass(s[1..]);
      if i < |head| {
        EscapedShape(s[0], rest, i);
        assert (head + rest)[0..] == head + rest;
      } else {
        EscapedIsWellFormed(s[1..], i - |head|);
        assert (head + rest)[i..] == rest[i - |head|..];
      }
    }
  }

  // ---------- Decoding ----------

  predicate IsDigit(u: Unit) { 48 <= u <= 57 }
  predicate IsHex(u: Unit) { IsDigit(u) || 65 <= u <= 70 || 97 <= u <= 102 }
  predicate IsLetter(u: Unit) { 65 <= u <= 90 || 97 <= u <= 122 }

  predicate Letters(name: Text) {
    name != [] && forall i :: 0 <= i < |name| ==> IsLetter(name[i])
  }

  /** The length of the longest prefix made of units of one class. */
  function RunLength(s: Text, inClass: Unit -> bool): (n: nat)
    ensures n <= |s|
  {
    if s == [] || !inClass(s[0]) then 0 else 1 + RunLength(s[1..], inClass)
  }

  /** A class that must match at least once and be followed by a semicolon: its length, or 0. */
  function ClosedRun(s: Text, inClass: Unit -> bool): (n: nat)
    ensures n < |s| || n == 0
  {
    var n := RunLength(s, inClass);
    if n > 0 && n < |s| && s[n] == SEMI then n else 0
  }

  /** After an ampersand: the length of the entity's name up to its semicolon, or 0 for no match. */
  function NameLength(s: Text): (n: nat)
    ensures n < |s| || n == 0
  {
    if s == [] then 0
    else if s[0] == HASH && |s| > 1 && s[1] == LOWER_X then
      var n := ClosedRun(s[2..], IsHex);
      if n == 0 then 0 else n + 2
    else if s[0] == HASH then
      var n := ClosedRun(s[1..], IsDigit);
      if n == 0 then 0 else n + 1
    else ClosedRun(s, IsLetter)
  }

  function HexValue(u: Unit): nat
    requires IsHex(u)
  {
    if IsDigit(u) then u - 48 else if u <= 70 then u - 55 else u - 87
  }

  function Number(s: Text, radix: nat): nat {
    if s == [] then 0
    else Number(s[..|s| - 1], radix) * radix + (if IsHex(s[|s| - 1]) then HexValue(s[|s| - 1]) else 0)
  }

  /** One unit, or a surrogate pair; a number beyond Unicode is an exception. */
  function FromCodePoint(code: nat): Option<Text> {
    if code < 0x1_0000 then Some([code])
    else if code <= 0x10_FFFF then Some([0xD800 + (code - 0x1_0000) / 0x400, 0xDC00 + (code - 0x1_0000) % 0x400])
    else None
  }

  /** The decoder's own table; nbsp becomes an ordinary space. */
  function OwnEntry(name: Text): Option<Text> {
    if name == AMP_NAME then Some([AMP])
    else if name == LT_NAME then Some([LT])
    else if name == GT_NAME then Some([GT])
    else if name == QUOT_NAME then Some([QUOT])
    else if name == APOS_NAME then Some([APOS])
    else if name == [110, 98, 115, 112] then Some([32])
    else if name == [104, 101, 108, 108, 105, 112] then Some([0x2026])
    else if name == [109, 100, 97, 115, 104] then Some([0x2014])
    else if name == [110, 100, 97, 115, 104] then Some([0x2013])
    else if name == [114, 115, 113, 117, 111] then Some([0x2019])
    else if name == [108, 115, 113, 117, 111] then Some([0x2018])
    else if name == [114, 100, 113, 117, 111] then Some([0x201D])
    else if name == [108, 100, 113, 117, 111] then Some([0x201C])
    else None
  }

  /**
   What a matched name is replaced by; `inherited` is what the table object inherits under names
   it does not own, and an unknown name stays as it stands. No value means an exception.
   */
  function Replacement(name: Text, inherited: Text -> Option<Text>): Option<Text>
    requires name != []
  {
    if name[0] == HASH && |name| > 1 && name[1] == LOWER_X then FromCodePoint(Number(name[2..], 16))
    else if name[0] == HASH then FromCodePoint(Number(name[1..], 10))
    else if OwnEntry(name).Some? then OwnEntry(name)
    else if inherited(name).Some? then inherited(name)
    else Some(Entity(name))
  }

  /** The left-to-right scan of the global replacement. */
  function Decode(s: Text, inherited: Text -> Option<Text>): Option<Text>
    decreases |s|
  {
    if s == [] then Some([])
    else
      var n := if s[0] == AMP then NameLength(s[1..]) else 0;
      var piece := if n == 0 then Some([s[0]]) else Replacement(s[1..n + 1], inherited);
      var rest := Decode(s[if n == 0 then 1 else n + 2..], inherited);
      if piece.None? || rest.None? then None else Some(piece.value + rest.value)
  }

  // ---------- Round trip ----------

  lemma {:induction false} RunLengthOf(name: Text, inClass: Unit -> bool, rest: Text)
    requires !inClass(SEMI) && forall i :: 0 <= i < |name| ==> inClass(name[i])
    ensures RunLength(name + [SEMI] + rest, inClass) == |name|
  {
    var s := name + [SEMI] + rest;
    if name == [] {
      assert s[0] == SEMI;
    } else {
      assert s[1..] == name[1..] + [SEMI] + rest;
      RunLengthOf(name[1..], inClass, rest);
    }
  }

  lemma NameIsMatched(name: Text, rest: Text)
    requires Letters(name)
    ensures NameLength(name + [SEMI] + rest) == |name|
  {
    var after := name + [SEMI] + rest;
    assert IsLetter(name[0]) && after[0] == name[0];
    RunLengthOf(name, IsLetter, rest);
    assert after[|name|] == SEMI;
  }

  lemma NameIsLookedUp(name: Text, inherited: Text -> Option<Text>)
    requires Letters(name) && OwnEntry(name).Some?
    ensures Replacement(name, inherited) == OwnEntry(name)
  {
    assert IsLetter(name[0]);
    hide OwnEntry;
  }

  /** A name matched whole is replaced, and the scan goes on behind its semicolon. */
  lemma MatchDecodes(name: Text, piece: Option<Text>, rest: Text, inherited: Text -> Option<Text>)
    requires name != [] && NameLength(name + [SEMI] + rest) == |name| && Replacement(name, inherited) == piece
    ensures Decode(Entity(name) + rest, inherited) ==
            if piece.None? || Decode(rest, inherited).None? then None
            else Some(piece.value + Decode(rest, inherited).value)
  {
    hide NameLength, Replacement;
    var s := Entity(name) + rest;
    assert s[1..] == name + [SEMI] + rest;
    assert s[1..|name| + 1] == name;
    assert s[|name| + 2..] == rest;
  }

  /** A named entity in front of any text is recognised whole. */
  lemma {:induction false} NamedEntityDecodes(name: Text, rest: Text, inherited: Text -> Option<Text>)
    requires Letters(name) && OwnEntry(name).Some? && Decode(rest, inherited).Some?
    ensures Decode(Entity(name) + rest, inherited) == Some(OwnEntry(name).value + Decode(rest, inherited).value)
  {
    NonEmpty(name);
    NameIsMatched(name, rest);
    NameIsLookedUp(name, inherited);
    hide *;
    MatchDecodes(name, OwnEntry(name), rest, inherited);
  }

  lemma NonEmpty(name: Text)
    requires Letters(name)
    ensures name != []
  {
  }

  lemma NamesAreLetters()
    ensures Letters(AMP_NAME) && Letters(LT_NAME) && Letters(GT_NAME) && Letters(QUOT_NAME) && Letters(APOS_NAME)
  {
  }

  lemma {:induction false} EscapedDecodes(c: Unit, rest: Text, inherited: Text -> Option<Text>)
    requires Decode(rest, inherited).Some?
    ensures Decode(Escaped(c) + rest, inherited) == Some([c] + Decode(rest, inherited).value)
  {
    NamesAreLetters();
    if c == AMP { NamedEntityDecodes(AMP_NAME, rest, inherited); }
    else if c == LT { NamedEntityDecodes(LT_NAME, rest, inherited); }
    else if c == GT { NamedEntityDecodes(GT_NAME, rest, inherited); }
    else if c == QUOT { NamedEntityDecodes(QUOT_NAME, rest, inherited); }
    else if c == APOS { NamedEntityDecodes(APOS_NAME, rest, inherited); }
    else { assert ([c] + rest)[1..] == rest; }
  }

  lemma {:induction false} OnePassDecodes(s: Text, inherited: Text -> Option<Text>)
    ensures Decode(OnePass(s), inherited) == Some(s)
  {
    if s != [] {
      OnePassDecodes(s[1..], inherited);
      EscapedDecodes(s[0], OnePass(s[1..]), inherited);
      assert s == [s[0]] + s[1..];
    }
  }

  /** Decoding undoes escaping on every string, lone surrogates included. */
  lemma DecodeUndoesEscape(s: Text, inherited: Text -> Option<Text>)
    ensures Decode(EscapeXml(s), inherited) == Some(s)
  {
    FivePassesAreOne(s);
    OnePassDecodes(s, inherited);
  }

  /** Escaping is therefore injective. */
  lemma EscapeInjective(s: Text, t: Text)
    requires EscapeXml(s) == EscapeXml(t)
    ensures s == t
  {
    DecodeUndoesEscape(s, name => None);
    DecodeUndoesEscape(t, name => None);
  }

  // ---------- Numeric references ----------

  /** Decimal printing, as in `&#39;`. */
  function Digits(n: nat): Text {
    if n < 10 then [48 + n] else Digits(n / 10) + [48 + n % 10]
  }

  /** Hexadecimal printing in lower case. */
  function HexDigits(n: nat): Text {
    if n < 16 then [HexDigit(n)] else HexDigits(n / 16) + [HexDigit(n % 16)]
  }

  function HexDigit(d: nat): Unit
    requires d < 16
  {
    if d < 10 then 48 + d else 87 + d
  }

  function Zeros(n: nat): Text {
    seq(n, _ => 48)
  }

  function Lowered(t: Text): Text {
    seq(|t|, i requires 0 <= i < |t| => if 65 <= t[i] <= 70 then t[i] + 32 else t[i])
  }

  /** The code point a text stands for: its one unit, or what a surrogate pair says. */
  function CodePointOf(t: Text): nat
    requires IsUtf16(t)
  {
    if |t| == 1 then t[0] else 0x1_0000 + (t[0] as int - 0xD800) * 0x400 + (t[1] as int - 0xDC00)
  }

  predicate IsUtf16(t: Text) {
    |t| == 1 || (|t| == 2 && 0xD800 <= t[0] < 0xDC00 && 0xDC00 <= t[1] < 0xE000)
  }

  /** Exactly the code points of Unicode have units, and writing and reading them are inverse. */
  lemma CodePointsRoundTrip(n: nat, t: Text)
    ensures FromCodePoint(n).Some? <==> n <= 0x10_FFFF
    ensures n <= 0x10_FFFF ==> IsUtf16(FromCodePoint(n).value) && CodePointOf(FromCodePoint(n).value) == n
    ensures IsUtf16(t) ==> FromCodePoint(CodePointOf(t)) == Some(t)
  {
    if IsUtf16(t) && |t| == 2 {
      var high, low := t[0] as int - 0xD800, t[1] as int - 0xDC00;
      assert CodePointOf(t) - 0x1_0000 == high * 0x400 + low;
      assert (high * 0x400 + low) / 0x400 == high && (high * 0x400 + low) % 0x400 == low;
      assert t == [t[0], t[1]];
    } else if IsUtf16(t) {
      assert t == [t[0]];
    }
  }

  lemma {:induction false} LeadingZeros(k: nat, t: Text, radix: nat)
    ensures Number(Zeros(k) + t, radix) == Number(t, radix)
  {
    if t != [] {
      assert (Zeros(k) + t)[..k + |t| - 1] == Zeros(k) + t[..|t| - 1];
      LeadingZeros(k, t[..|t| - 1], radix);
    } else if k > 0 {
      assert Zeros(k) + t == Zeros(k) && Zeros(k)[..k - 1] == Zeros(k - 1) + [];
      LeadingZeros(k - 1, [], radix);
    } else {
      assert Zeros(k) + t == [];
    }
  }

  lemma {:induction false} DigitsRead(n: nat)
    ensures Number(Digits(n), 10) == n && Digits(n) != []
    ensures forall i :: 0 <= i < |Digits(n)| ==> IsDigit(Digits(n)[i])
  {
    if n >= 10 {
      DigitsRead(n / 10);
      assert Digits(n)[..|Digits(n)| - 1] == Digits(n / 10);
    } else {
      assert Digits(n)[..0] == [];
    }
  }

  lemma {:induction false} HexDigitsRead(n: nat)
    ensures Number(HexDigits(n), 16) == n && HexDigits(n) != []
    ensures forall i :: 0 <= i < |HexDigits(n)| ==> IsHex(HexDigits(n)[i])
  {
    if n >= 16 {
      HexDigitsRead(n / 16);
      assert HexDigits(n)[..|HexDigits(n)| - 1] == HexDigits(n / 16);
    } else {
      assert HexDigits(n)[..0] == [];
    }
  }

  /** Digits of either case stand for the same number. */
  lemma {:induction false} CaseIsIgnored(t: Text)
    requires forall i :: 0 <= i < |t| ==> IsHex(Lowered(t)[i])
    ensures Number(t, 16) == Number(Lowered(t), 16)
    ensures forall i :: 0 <= i < |t| ==> IsHex(t[i])
  {
    if t != [] {
      var front := t[..|t| - 1];
      assert Lowered(t)[..|t| - 1] == Lowered(front);
      assert forall i :: 0 <= i < |front| ==> Lowered(front)[i] == Lowered(t)[i];
      CaseIsIgnored(front);
      assert IsHex(Lowered(t)[|t| - 1]);
      assert forall i :: 0 <= i < |front| ==> t[i] == front[i];
    }
  }

  /** What a reference to code point `n` in front of a text comes to. */
  function Referred(n: nat, rest: Option<Text>): Option<Text> {
    if n <= 0x10_FFFF && rest.Some? then Some(FromCodePoint(n).value + rest.value) else None
  }

  /** A reference whose name is matched whole is replaced by its number's code point. */
  lemma ReferenceDecodes(name: Text, n: nat, rest: Text, inherited: Text -> Option<Text>)
    requires name != [] && NameLength(name + [SEMI] + rest) == |name|
    requires Replacement(name, inherited) == FromCodePoint(n)
    ensures Decode([AMP] + name + [SEMI] + rest, inherited) == Referred(n, Decode(rest, inherited))
  {
    assert [AMP] + name + [SEMI] == Entity(name);
    CodePointsRoundTrip(n, []);
    hide Decode, NameLength, Replacement, Entity, FromCodePoint;
    MatchDecodes(name, FromCodePoint(n), rest, inherited);
  }

  /** `&#`, the decimal digits of a code point with any leading zeros, and `;` decode to its UTF-16 units; a number
      beyond Unicode throws. */
  lemma {:induction false} DecimalReferenceDecodes(n: nat, zeros: nat, rest: Text, inherited: Text -> Option<Text>)
    ensures Decode([AMP] + ([HASH] + Zeros(zeros) + Digits(n)) + [SEMI] + rest, inherited)
         == Referred(n, Decode(rest, inherited))
  {
    hide Decode, FromCodePoint, Number, Digits;
    var digits := Zeros(zeros) + Digits(n);
    var name := [HASH] + Zeros(zeros) + Digits(n);
    DigitsRead(n);
    LeadingZeros(zeros, Digits(n), 10);
    RunLengthOf(digits, IsDigit, rest);
    var after := name + [SEMI] + rest;
    assert after[1..] == digits + [SEMI] + rest && after[1] == digits[0];
    assert IsDigit(digits[0]) && (digits + [SEMI] + rest)[|digits|] == SEMI;
    assert name[1..] == digits && name[0] == HASH;
    ReferenceDecodes(name, n, rest, inherited);
  }

  /** So do `&#x`, its hexadecimal digits in either case, each as one likes, and `;`. */
  lemma {:induction false} HexReferenceDecodes(n: nat, zeros: nat, hex: Text, rest: Text,
                                               inherited: Text -> Option<Text>)
    requires Lowered(hex) == Zeros(zeros) + HexDigits(n)
    ensures Decode([AMP] + ([HASH, LOWER_X] + hex) + [SEMI] + rest, inherited)
         == Referred(n, Decode(rest, inherited))
  {
    hide Decode, FromCodePoint, Number, HexDigits;
    var name := [HASH, LOWER_X] + hex;
    HexDigitsRead(n);
    LeadingZeros(zeros, HexDigits(n), 16);
    CaseIsIgnored(hex);
    assert |hex| == |Lowered(hex)| > 0;
    RunLengthOf(hex, IsHex, rest);
    var after := name + [SEMI] + rest;
    assert after[2..] == hex + [SEMI] + rest && after[1] == LOWER_X;
    assert (hex + [SEMI] + rest)[|hex|] == SEMI;
    assert name[2..] == hex && name[0] == HASH && name[1] == LOWER_X;
    ReferenceDecodes(name, n, rest, inherited);
  }

  // ---------- The table ----------

  /** The names of the table with their code points in section 13.5 of the HTML standard. */
  const HTML_NAMES: seq<(string, nat)> :=
    [("amp", 38), ("lt", 60), ("gt", 62), ("quot", 34), ("apos", 39), ("nbsp", 160), ("hellip", 0x2026),
     ("mdash", 0x2014), ("ndash", 0x2013), ("rsquo", 0x2019), ("lsquo", 0x2018), ("rdquo", 0x201D), ("ldquo", 0x201C)]

  /** The units of an ASCII text. */
  predicate Spells(t: Text, s: string) {
    |t| == |s| && forall i :: 0 <= i < |s| ==> s[i] < 128 as char && t[i] == s[i] as int
  }

  /** The characters of the markup. */
  lemma MarkupIsAscii()
    ensures Spells([AMP, LT, GT, QUOT, APOS, SEMI, HASH, LOWER_X], "&<>\"';#x")
  {
  }

  lemma TableEntry(i: nat, name: Text)
    requires i < |HTML_NAMES| && Spells(name, HTML_NAMES[i].0)
    ensures HTML_NAMES[i].1 < 0x1_0000 && Letters(name)
    ensures OwnEntry(name) == Some([if HTML_NAMES[i].1 == 160 then 32 else HTML_NAMES[i].1])
  {
    assert HTML_NAMES[i].0 != "";
    SpeltAlike(i, name);
  }

  lemma SpeltAlike(i: nat, name: Text)
    requires i < |HTML_NAMES| && Spells(name, HTML_NAMES[i].0)
    ensures name == [AMP_NAME, LT_NAME, GT_NAME, QUOT_NAME, APOS_NAME, [110, 98, 115, 112],
                     [104, 101, 108, 108, 105, 112], [109, 100, 97, 115, 104], [110, 100, 97, 115, 104],
                     [114, 115, 113, 117, 111], [108, 115, 113, 117, 111], [114, 100, 113, 117, 111],
                     [108, 100, 113, 117, 111]][i]
  {
  }

  /** Every name of the table decodes to the code point the HTML standard gives it, except that the no-break space
      becomes an ordinary one. */
  lemma {:induction false} NamesAreHtmls(i: nat, name: Text, rest: Text, inherited: Text -> Option<Text>)
    requires i < |HTML_NAMES| && Spells(name, HTML_NAMES[i].0) && Decode(rest, inherited).Some?
    ensures Decode(Entity(name) + rest, inherited) ==
            Referred(if HTML_NAMES[i].1 == 160 then 32 else HTML_NAMES[i].1, Decode(rest, inherited))
  {
    TableEntry(i, name);
    hide *;
    KnownNameDecodes(name, if HTML_NAMES[i].1 == 160 then 32 else HTML_NAMES[i].1, rest, inherited);
  }

  lemma KnownNameDecodes(name: Text, code: nat, rest: Text, inherited: Text -> Option<Text>)
    requires code < 0x1_0000 && Letters(name) && OwnEntry(name) == Some([code]) && Decode(rest, inherited).Some?
    ensures Decode(Entity(name) + rest, inherited) == Referred(code, Decode(rest, inherited))
  {
    hide OwnEntry, Decode, Letters, Entity;
    NamedEntityDecodes(name, rest, inherited);
  }

  lemma OnlyTableNames(name: Text)
    requires OwnEntry(name).Some?
    ensures exists i :: 0 <= i < |HTML_NAMES| && Spells(name, HTML_NAMES[i].0)
  {
    var i := if name == AMP_NAME then 0 else if name == LT_NAME then 1 else if name == GT_NAME then 2
             else if name == QUOT_NAME then 3 else if name == APOS_NAME then 4
             else if name == [110, 98, 115, 112] then 5 else if name == [104, 101, 108, 108, 105, 112] then 6
             else if name == [109, 100, 97, 115, 104] then 7 else if name == [110, 100, 97, 115, 104] then 8
             else if name == [114, 115, 113, 117, 111] then 9 else if name == [108, 115, 113, 117, 111] then 10
             else if name == [114, 100, 113, 117, 111] then 11 else 12;
    assert Spells(name, HTML_NAMES[i].0);
  }

  /** A name that is not in the table is replaced by what the table inherits under it, and stays as it stands when
      that is nothing. */
  lemma {:induction false} OtherNames(name: Text, rest: Text, inherited: Text -> Option<Text>)
    requires Letters(name) && Decode(rest, inherited).Some?
    requires forall i :: 0 <= i < |HTML_NAMES| ==> !Spells(name, HTML_NAMES[i].0)
    ensures Decode(Entity(name) + rest, inherited) ==
            var piece := if inherited(name).Some? then inherited(name).value else Entity(name);
            Some(piece + Decode(rest, inherited).value)
  {
    if OwnEntry(name).Some? { OnlyTableNames(name); }
    hide *;
    OtherNameDecodes(name, rest, inherited);
  }

  lemma OtherReplacement(name: Text, inherited: Text -> Option<Text>)
    requires Letters(name) && OwnEntry(name).None?
    ensures name != []
    ensures Replacement(name, inherited) ==
            Some(if inherited(name).Some? then inherited(name).value else Entity(name))
  {
    FirstIsLetter(name);
    hide OwnEntry, Letters;
  }

  lemma OtherNameDecodes(name: Text, rest: Text, inherited: Text -> Option<Text>)
    requires Letters(name) && OwnEntry(name).None? && Decode(rest, inherited).Some?
    ensures var piece := if inherited(name).Some? then inherited(name).value else Entity(name);
            Decode(Entity(name) + rest, inherited) == Some(piece + Decode(rest, inherited).value)
  {
    NameIsMatched(name, rest);
    OtherReplacement(name, inherited);
    hide *;
    var piece := if inherited(name).Some? then inherited(name).value else Entity(name);
    MatchDecodes(name, Some(piece), rest, inherited);
  }

  lemma FirstIsLetter(name: Text)
    requires Letters(name)
    ensures name != [] && name[0] != HASH
  {
    assert IsLetter(name[0]);
  }

  /** Text without an ampersand decodes to itself. */
  lemma {:induction false} PlainTextStays(s: Text, inherited: Text -> Option<Text>)
    requires AMP !in s
    ensures Decode(s, inherited) == Some(s)
  {
    if s != [] {
      PlainTextStays(s[1..], inherited);
      assert s == [s[0]] + s[1..];
    }
  }
}

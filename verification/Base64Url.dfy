/**
 Unpadded base64url (section 5 of RFC 4648): the Go printer and reader, and the browser's way of
 reading the same text through its padded standard-alphabet decoder.
 */
module Base64Url {
  import opened Options

  type Byte = b: int | 0 <= b < 256
  type Sextet = v: int | 0 <= v < 64

  // ---------- Bytes and sextets ----------

  // The bits of three bytes x, y, z, six at a time: all of x's but the last two, and so on.

  function First(x: Byte): Sextet { x / 4 }
  function Second(x: Byte, y: Byte): Sextet { x % 4 * 16 + y / 16 }
  function Third(y: Byte, z: Byte): Sextet { y % 16 * 4 + z / 64 }
  function Fourth(z: Byte): Sextet { z % 64 }

  function ByteX(a: Sextet, b: Sextet): Byte { a * 4 + b / 16 }
  function ByteY(b: Sextet, c: Sextet): Byte { b % 16 * 16 + c / 4 }
  function ByteZ(c: Sextet, d: Sextet): Byte { c % 4 * 64 + d }

  lemma BitsRegroup(x: Byte, y: Byte, z: Byte)
    ensures ByteX(First(x), Second(x, y)) == x
    ensures ByteY(Second(x, y), Third(y, z)) == y
    ensures ByteZ(Third(y, z), Fourth(z)) == z
  {
  }

  function Sextets(b: seq<Byte>): seq<Sextet> {
    if b == [] then []
    else if |b| == 1 then [First(b[0]), Second(b[0], 0)]
    else if |b| == 2 then [First(b[0]), Second(b[0], b[1]), Third(b[1], 0)]
    else [First(b[0]), Second(b[0], b[1]), Third(b[1], b[2]), Fourth(b[2])] + Sextets(b[3..])
  }

  /** A lone last sextet is an error; surplus bits of the last one are ignored, not checked. */
  function Bytes(v: seq<Sextet>): Option<seq<Byte>> {
    if v == [] then Some([])
    else if |v| == 1 then None
    else if |v| == 2 then Some([ByteX(v[0], v[1])])
    else if |v| == 3 then Some([ByteX(v[0], v[1]), ByteY(v[1], v[2])])
    else
      match Bytes(v[4..])
      case None => None
      case Some(rest) => Some([ByteX(v[0], v[1]), ByteY(v[1], v[2]), ByteZ(v[2], v[3])] + rest)
  }

  lemma {:induction false} BytesOfSextets(b: seq<Byte>)
    ensures Bytes(Sextets(b)) == Some(b)
  {
    hide First, Second, Third, Fourth, ByteX, ByteY, ByteZ;
    if |b| == 1 {
      BitsRegroup(b[0], 0, 0);
      assert b == [b[0]];
    } else if |b| == 2 {
      BitsRegroup(b[0], b[1], 0);
      assert b == [b[0], b[1]];
    } else if |b| >= 3 {
      BytesOfSextets(b[3..]);
      BitsRegroup(b[0], b[1], b[2]);
      assert Sextets(b)[4..] == Sextets(b[3..]);
      assert b == [b[0], b[1], b[2]] + b[3..];
    }
  }

  // ---------- Alphabets ----------

  function UrlChar(v: Sextet): char {
    if v < 26 then (65 + v) as char
    else if v < 52 then (71 + v) as char
    else if v < 62 then (v - 4) as char
    else if v == 62 then '-' else '_'
  }

  /** The common part of the two alphabets; `c62` and `c63` are what they spell differently. */
  function Value(c: char, c62: char, c63: char): Option<Sextet> {
    if 'A' <= c <= 'Z' then Some(c as int - 65)
    else if 'a' <= c <= 'z' then Some(c as int - 71)
    else if '0' <= c <= '9' then Some(c as int + 4)
    else if c == c62 then Some(62)
    else if c == c63 then Some(63)
    else None
  }

  function UrlChars(v: seq<Sextet>): string {
    if v == [] then "" else [UrlChar(v[0])] + UrlChars(v[1..])
  }

  /** The sextets of a text, or nothing when some character is outside the alphabet. */
  function Values(s: string, c62: char, c63: char): Option<seq<Sextet>> {
    if s == "" then Some([])
    else
      match (Value(s[0], c62, c63), Values(s[1..], c62, c63))
      case (Some(v), Some(rest)) => Some([v] + rest)
      case _ => None
  }

  function Without(s: string, dropped: set<char>): string {
    if s == "" then ""
    else if s[0] in dropped then Without(s[1..], dropped)
    else [s[0]] + Without(s[1..], dropped)
  }

  // ---------- The Go side ----------

  function Encode(b: seq<Byte>): string {
    UrlChars(Sextets(b))
  }

  const NEWLINES: set<char> := {'\r', '\n'}

  function Decoded(v: Option<seq<Sextet>>): Option<seq<Byte>> {
    if v.Some? then Bytes(v.value) else None
  }

  /** Carriage returns and line feeds are skipped wherever they stand; padding is refused. */
  function GoDecode(s: string): Option<seq<Byte>> {
    Decoded(Values(Without(s, NEWLINES), '-', '_'))
  }

  // ---------- The browser side ----------

  function Translate(s: string): string {
    if s == "" then ""
    else [if s[0] == '-' then '+' else if s[0] == '_' then '/' else s[0]] + Translate(s[1..])
  }

  /** How many `=` bring a text up to a multiple of four characters. */
  function Padding(n: nat): string {
    if n % 4 == 0 then "" else if n % 4 == 1 then "===" else if n % 4 == 2 then "==" else "="
  }

  const WHITESPACE: set<char> := {'\t', '\n', '\r', ' ', 12 as char}

  /** The white space that the Infra standard calls ASCII white space. */
  lemma AsciiWhiteSpace(c: char)
    ensures c in WHITESPACE <==> c == ' ' || c == '\t' || c == '\n' || c == '\U{C}' || c == '\r'
  {
  }

  /** One or two trailing `=` go when the length is a multiple of four. */
  function Unpad(s: string): string {
    var n := |s|;
    if n == 0 || n % 4 != 0 || s[n - 1] != '=' then s
    else if s[n - 2] != '=' then s[..n - 1]
    else s[..n - 2]
  }

  /** A length of 1 modulo 4 is refused before the alphabet is looked at. */
  function DecodePadded(s: string): Option<seq<Byte>> {
    var data := Unpad(s);
    if |data| % 4 == 1 then None else Decoded(Values(data, '+', '/'))
  }

  /** The forgiving decoder behind `atob`. */
  function Atob(s: string): Option<seq<Byte>> {
    DecodePadded(Without(s, WHITESPACE))
  }

  function TsDecode(s: string): Option<seq<Byte>> {
    Atob(Translate(s) + Padding(|s|))
  }

  /** The byte array the browser fills from the decoder's binary string. */
  method Base64UrlToBytes(s: string) returns (bytes: Option<seq<Byte>>)
    ensures bytes == TsDecode(s)
  {
    var bin := Atob(Translate(s) + Padding(|s|));
    if bin.None? {
      return None;
    }
    var filled := new Byte[|bin.value|];
    for i := 0 to |bin.value|
      invariant filled[..i] == bin.value[..i]
    {
      filled[i] := bin.value[i];
    }
    assert filled[..] == filled[..|bin.value|] == bin.value[..|bin.value|] == bin.value;
    bytes := Some(filled[..]);
  }

  // ---------- Printing ----------

  ghost predicate UrlSafe(s: string) {
    AllIn(s, '-', '_')
  }

  ghost predicate AllIn(s: string, c62: char, c63: char) {
    forall i :: 0 <= i < |s| ==> Value(s[i], c62, c63).Some?
  }

  lemma UrlCharValue(v: Sextet)
    ensures Value(UrlChar(v), '-', '_') == Some(v)
  {
  }

  lemma {:induction false} UrlCharsValues(v: seq<Sextet>)
    ensures Values(UrlChars(v), '-', '_') == Some(v)
    ensures UrlSafe(UrlChars(v))
  {
    if v != [] {
      UrlCharsValues(v[1..]);
      UrlCharValue(v[0]);
      assert UrlChars(v)[0] == UrlChar(v[0]) && UrlChars(v)[1..] == UrlChars(v[1..]);
      assert forall i :: 0 < i < |UrlChars(v)| ==> UrlChars(v)[i] == UrlChars(v[1..])[i - 1];
      assert v == [v[0]] + v[1..];
    }
  }

  lemma {:induction false} WithoutNothing(s: string, dropped: set<char>)
    requires forall i :: 0 <= i < |s| ==> s[i] !in dropped
    ensures Without(s, dropped) == s
  {
    if s != "" { WithoutNothing(s[1..], dropped); }
  }

  /** Encoded text holds no dot, and no character any decoder strips. */
  lemma EncodedIsSafe(b: seq<Byte>)
    ensures UrlSafe(Encode(b)) && '.' !in Encode(b)
  {
    UrlCharsValues(Sextets(b));
    AllKept(Encode(b), '-', '_');
  }

  lemma GoRoundTrip(b: seq<Byte>)
    ensures GoDecode(Encode(b)) == Some(b)
  {
    EncodedIsSafe(b);
    AllKept(Encode(b), '-', '_');
    WithoutNothing(Encode(b), NEWLINES);
    UrlCharsValues(Sextets(b));
    BytesOfSextets(b);
  }

  // ---------- The two readers compared ----------

  lemma {:induction false} TranslateValues(s: string)
    ensures |Translate(s)| == |s|
    ensures UrlSafe(s) ==> Values(Translate(s), '+', '/') == Values(s, '-', '_') && Values(s, '-', '_').Some?
    ensures UrlSafe(s) ==> AllIn(Translate(s), '+', '/')
  {
    if s != "" {
      TranslateValues(s[1..]);
      assert Translate(s)[1..] == Translate(s[1..]);
      assert UrlSafe(s) ==> UrlSafe(s[1..]) && Value(s[0], '-', '_').Some?;
    }
  }

  lemma {:induction false} ValuesLength(s: string, c62: char, c63: char)
    ensures Values(s, c62, c63).Some? ==> |Values(s, c62, c63).value| == |s|
    ensures Values(s, c62, c63).Some? <==> AllIn(s, c62, c63)
  {
    if s != "" {
      ValuesLength(s[1..], c62, c63);
      if AllIn(s[1..], c62, c63) && Value(s[0], c62, c63).Some? {
        assert forall i :: 0 < i < |s| ==> s[i] == s[1..][i - 1];
      }
      if AllIn(s, c62, c63) {
        assert forall i :: 0 <= i < |s[1..]| ==> s[1..][i] == s[i + 1];
      }
    }
  }

  lemma {:induction false} LoneSextet(v: seq<Sextet>)
    requires |v| % 4 == 1
    ensures Bytes(v).None?
  {
    if |v| > 1 { LoneSextet(v[4..]); }
  }

  /** Padding to a multiple of four and taking the padding off again restores the text. */
  lemma UnpadPadded(t: string)
    requires forall i :: 0 <= i < |t| ==> t[i] != '='
    ensures |t| % 4 != 1 ==> Unpad(t + Padding(|t|)) == t
    ensures |t| % 4 == 1 ==> Unpad(t + Padding(|t|)) == t + "="
  {
    var p := t + Padding(|t|);
    if |t| % 4 == 0 {
      assert p == t;
    } else if |t| % 4 == 1 {
      assert p[..|p| - 2] == t + "=";
    } else if |t| % 4 == 2 {
      assert p[..|p| - 2] == t;
    } else {
      assert p[|p| - 2] == t[|t| - 1];
      assert p[..|p| - 1] == t;
    }
  }

  /** A character of an alphabet is none of those a reader drops, nor the padding. */
  lemma LetterIsKept(c: char, c62: char, c63: char)
    requires (c62 == '-' && c63 == '_') || (c62 == '+' && c63 == '/')
    requires Value(c, c62, c63).Some?
    ensures c !in WHITESPACE && c !in NEWLINES && c != '=' && c != '.'
  {
  }

  lemma AllKept(s: string, c62: char, c63: char)
    requires (c62 == '-' && c63 == '_') || (c62 == '+' && c63 == '/')
    requires AllIn(s, c62, c63)
    ensures forall i :: 0 <= i < |s| ==> s[i] !in WHITESPACE && s[i] !in NEWLINES && s[i] != '=' && s[i] != '.'
  {
    forall i | 0 <= i < |s| ensures s[i] !in WHITESPACE && s[i] !in NEWLINES && s[i] != '=' && s[i] != '.' {
      LetterIsKept(s[i], c62, c63);
    }
  }

  lemma PaddingIsEquals(n: nat)
    ensures forall i :: 0 <= i < |Padding(n)| ==> Padding(n)[i] == '='
  {
  }

  lemma {:induction false} SuffixKept(t: string, p: string, dropped: set<char>)
    requires '=' !in dropped && forall i :: 0 <= i < |t| ==> t[i] !in dropped
    requires forall i :: 0 <= i < |p| ==> p[i] == '='
    ensures Without(t + p, dropped) == t + p
  {
    WithoutNothing(t + p, dropped);
  }

  lemma {:induction false} AtobPadded(t: string)
    requires AllIn(t, '+', '/')
    ensures |t| % 4 != 1 ==> Atob(t + Padding(|t|)) == Decoded(Values(t, '+', '/'))
    ensures |t| % 4 == 1 ==> Atob(t + Padding(|t|)) == None
  {
    hide Without, Unpad, Values, Padding, Bytes;
    AllKept(t, '+', '/');
    PaddingIsEquals(|t|);
    SuffixKept(t, Padding(|t|), WHITESPACE);
    UnpadPadded(t);
    if |t| % 4 == 1 {
      ValuesLength(t + "=", '+', '/');
      assert (t + "=")[|t|] == '=' && Value('=', '+', '/').None?;
    }
  }

  /** On text of the alphabet the two readers agree, failures included. */
  lemma {:induction false} SafeTextReadsAlike(s: string)
    requires UrlSafe(s)
    ensures TsDecode(s) == GoDecode(s)
  {
    hide Atob, Values, Without, Bytes, Padding;
    TranslateValues(s);
    AtobPadded(Translate(s));
    AllKept(s, '-', '_');
    WithoutNothing(s, NEWLINES);
    ValuesLength(s, '-', '_');
    if |s| % 4 == 1 { LoneSextet(Values(s, '-', '_').value); }
  }

  /** Whatever the Go reader accepts in one line, the browser reads to the same bytes. */
  lemma GoAcceptsTsAgrees(s: string)
    requires '\r' !in s && '\n' !in s && GoDecode(s).Some?
    ensures TsDecode(s) == GoDecode(s)
  {
    assert forall i :: 0 <= i < |s| ==> s[i] in s;
    WithoutNothing(s, NEWLINES);
    ValuesLength(s, '-', '_');
    SafeTextReadsAlike(s);
  }

  lemma TsRoundTrip(b: seq<Byte>)
    ensures TsDecode(Encode(b)) == Some(b)
  {
    EncodedIsSafe(b);
    GoRoundTrip(b);
    SafeTextReadsAlike(Encode(b));
  }

  // ---------- Line breaks ----------

  function LineBreaks(s: string): nat {
    if s == "" then 0 else (if s[0] in NEWLINES then 1 else 0) + LineBreaks(s[1..])
  }

  lemma {:induction false} LineBreaksAreDropped(s: string)
    ensures |Without(s, NEWLINES)| + LineBreaks(s) == |s|
  {
    if s != "" { LineBreaksAreDropped(s[1..]); }
  }

  lemma {:induction false} NoLineBreaks(s: string)
    requires '\r' !in s && '\n' !in s
    ensures LineBreaks(s) == 0
  {
    if s != "" {
      assert s[0] in s && forall c <- s[1..] :: c in s;
      NoLineBreaks(s[1..]);
    }
  }

  /** Translating and padding first, or dropping the line breaks first, comes to the same text. */
  lemma {:induction false} TranslateThenStrip(s: string, p: string)
    requires UrlSafe(Without(s, NEWLINES)) && forall i :: 0 <= i < |p| ==> p[i] == '='
    ensures Without(Translate(s) + p, WHITESPACE) == Translate(Without(s, NEWLINES)) + p
    decreases |s|
  {
    if s == "" {
      assert "" + p == p;
      WithoutNothing(p, WHITESPACE);
    } else {
      var c, rest := s[0], Without(s[1..], NEWLINES);
      var first := (Translate(s) + p)[0];
      assert (Translate(s) + p)[1..] == Translate(s[1..]) + p;
      if c in NEWLINES {
        TranslateThenStrip(s[1..], p);
        assert first == c && c in WHITESPACE;
      } else {
        var kept := Without(s, NEWLINES);
        assert kept == [c] + rest && kept[0] == c;
        assert forall i :: 0 <= i < |rest| ==> rest[i] == kept[i + 1];
        TranslateThenStrip(s[1..], p);
        LetterIsKept(c, '-', '_');
        assert kept[1..] == rest;
        assert first !in WHITESPACE;
        assert [first] + (Translate(rest) + p) == Translate(kept) + p;
      }
    }
  }

  /** Padding meant for another length stays in the text, where it is no letter. */
  lemma {:induction false} MisfitPadding(t: string, n: nat)
    requires AllIn(t, '+', '/') && n % 4 != 0 && n % 4 != |t| % 4
    ensures DecodePadded(t + Padding(n)) == None
  {
    var u := t + Padding(n);
    PaddingIsEquals(n);
    assert |u| % 4 != 0 && u[|t|] == '=';
    assert Value('=', '+', '/').None?;
    ValuesLength(u, '+', '/');
    hide Values;
  }

  lemma {:induction false} FittingPadding(t: string, n: nat)
    requires AllIn(t, '+', '/') && |t| % 4 != 1 && (n % 4 == 0 || n % 4 == |t| % 4)
    ensures DecodePadded(t + Padding(n)) == Decoded(Values(t, '+', '/'))
  {
    hide Values;
    AllKept(t, '+', '/');
    if n % 4 == 0 {
      assert t + Padding(n) == t;
    } else {
      UnpadPadded(t);
    }
  }

  /**
   On a text Go accepts, the browser reads the same bytes exactly when the line breaks come in fours or the text,
   line breaks included, is as long as a multiple of four; in every other case it fails. The padding is computed
   before the line breaks are dropped.
   */
  lemma {:induction false} LineBreaksPartTheReaders(s: string)
    requires GoDecode(s).Some?
    ensures TsDecode(s) == if LineBreaks(s) % 4 == 0 || |s| % 4 == 0 then GoDecode(s) else None
  {
    hide Without, Values, Translate, Bytes, LineBreaks, DecodePadded, Padding, AllIn;
    var t, p := Without(s, NEWLINES), Padding(|s|);
    var u := Translate(t);
    LineBreaksAreDropped(s);
    LengthsFit(|t|, LineBreaks(s), |s|);
    ValuesLength(t, '-', '_');
    if |t| % 4 == 1 { LoneSextet(Values(t, '-', '_').value); }
    PaddingIsEquals(|s|);
    TranslateThenStrip(s, p);
    TranslateValues(t);
    hide UrlSafe;
    if LineBreaks(s) % 4 == 0 || |s| % 4 == 0 {
      FittingPadding(u, |s|);
    } else {
      MisfitPadding(u, |s|);
    }
  }

  lemma LengthsFit(kept: nat, dropped: nat, all: nat)
    requires kept + dropped == all
    ensures dropped % 4 == 0 <==> all % 4 == kept % 4
  {
    var fours, x, y := all / 4 - kept / 4, kept % 4, all % 4;
    assert dropped == 4 * fours + (y - x);
    if y < x { assert dropped == 4 * (fours - 1) + (4 + y - x); }
  }

  lemma {:induction false} BreakAtTheEnd(s: string)
    requires UrlSafe(s)
    ensures Without(s + "\n", NEWLINES) == s && LineBreaks(s + "\n") == 1
  {
    hide Value;
    var t := s + "\n";
    if s == "" {
      assert t[1..] == "";
    } else {
      assert t[1..] == s[1..] + "\n";
      LetterIsKept(s[0], '-', '_');
      BreakAtTheEnd(s[1..]);
    }
  }

  /** So a single line break after a printed text parts them on all lengths but one in four: Go skips it, and for the
      browser the padding comes out one short. */
  lemma OneLineBreakParts(b: seq<Byte>)
    ensures GoDecode(Encode(b) + "\n") == Some(b)
    ensures TsDecode(Encode(b) + "\n") == if |Encode(b)| % 4 == 3 then Some(b) else None
  {
    hide Without, Values, Bytes, LineBreaks, TsDecode, Encode;
    EncodedIsSafe(b);
    BreakAtTheEnd(Encode(b));
    GoRoundTrip(b);
    AllKept(Encode(b), '-', '_');
    WithoutNothing(Encode(b), NEWLINES);
    LineBreaksPartTheReaders(Encode(b) + "\n");
  }

  /** As on the printed text of the byte 65. */
  lemma TheReadersPart()
    ensures GoDecode("QQ\n") == Some([65]) && TsDecode("QQ\n") == None
  {
    hide TsDecode, GoDecode;
    assert Sextets([65]) == [16, 16] && [16, 16][1..] == [16] && [16][1..] == [];
    assert UrlChars([16]) == "Q" && UrlChars([16, 16]) == "QQ";
    var s := Encode([65]);
    assert s == "QQ" && s + "\n" == "QQ\n";
    hide Encode;
    OneLineBreakParts([65]);
  }

  // ---------- Text only the browser reads ----------

  /** Letters of the URL-safe alphabet and line breaks. */
  predicate GoText(s: string) {
    forall i :: 0 <= i < |s| ==> s[i] in NEWLINES || Value(s[i], '-', '_').Some?
  }

  lemma {:induction false} GoTextIsSafe(s: string)
    ensures GoText(s) <==> UrlSafe(Without(s, NEWLINES))
  {
    hide Value;
    if s != "" {
      var c, rest, kept := s[0], Without(s[1..], NEWLINES), Without(s, NEWLINES);
      GoTextIsSafe(s[1..]);
      if c !in NEWLINES {
        assert kept[0] == c && forall i :: 0 <= i < |rest| ==> rest[i] == kept[i + 1];
        assert UrlSafe(kept) <==> Value(c, '-', '_').Some? && UrlSafe(rest);
      }
      assert GoText(s) <==> (c in NEWLINES || Value(c, '-', '_').Some?) && GoText(s[1..]) by {
        assert forall i :: 0 <= i < |s[1..]| ==> s[1..][i] == s[i + 1];
        if (c in NEWLINES || Value(c, '-', '_').Some?) && GoText(s[1..]) {
          forall i | 0 <= i < |s| ensures s[i] in NEWLINES || Value(s[i], '-', '_').Some? {
            if i > 0 { assert s[i] == s[1..][i - 1]; }
          }
        }
      }
    }
  }

  /** What the browser reads, Go reads to the same bytes exactly when it holds nothing but such characters: neither
      the letters of the standard alphabet, nor blanks, nor padding. */
  lemma BrowserTextGoReads(s: string)
    requires TsDecode(s).Some?
    ensures GoDecode(s) == if GoText(s) then TsDecode(s) else None
  {
    hide Without, Values, Bytes, LineBreaks, TsDecode, GoText;
    var t := Without(s, NEWLINES);
    GoTextIsSafe(s);
    ValuesLength(t, '-', '_');
    if GoText(s) {
      if |t| % 4 == 1 {
        LoneTextFails(s);
      } else {
        EnoughSextets(Values(t, '-', '_').value);
        LineBreaksPartTheReaders(s);
      }
    }
  }

  lemma {:induction false} EnoughSextets(v: seq<Sextet>)
    requires |v| % 4 != 1
    ensures Bytes(v).Some?
  {
    if |v| > 3 { EnoughSextets(v[4..]); }
  }

  /** One letter too many is never read, whatever the padding. */
  lemma LoneTextFails(s: string)
    requires UrlSafe(Without(s, NEWLINES)) && |Without(s, NEWLINES)| % 4 == 1
    ensures TsDecode(s) == None
  {
    hide Without, Values, Translate, Bytes, DecodePadded, Padding, AllIn;
    var t := Without(s, NEWLINES);
    var u := Translate(t);
    PaddingIsEquals(|s|);
    TranslateThenStrip(s, Padding(|s|));
    TranslateValues(t);
    if |s| % 4 == 0 {
      LoneUnpadded(u, |s|);
    } else if |s| % 4 != 1 {
      MisfitPadding(u, |s|);
    } else {
      LonePadded(u, |s|);
    }
  }

  lemma LoneUnpadded(u: string, n: nat)
    requires |u| % 4 == 1 && n % 4 == 0
    ensures DecodePadded(u + Padding(n)) == None
  {
    assert u + Padding(n) == u;
  }

  lemma LonePadded(u: string, n: nat)
    requires AllIn(u, '+', '/') && |u| % 4 == 1 && n % 4 == 1
    ensures DecodePadded(u + Padding(n)) == None
  {
    AllKept(u, '+', '/');
    UnpadPadded(u);
    assert (u + "=")[|u|] == '=' && Value('=', '+', '/').None?;
    ValuesLength(u + "=", '+', '/');
    hide Values;
  }
}

/** Splitting texts at a separator, and decimal printing. */
module Texts {

  // ---------- Splitting ----------

  /** All the pieces between separators; a text without one is its own single piece. */
  function Split(s: string, sep: char): (r: seq<string>)
    ensures |r| >= 1
  {
    if s == "" then [""]
    else
      var rest := Split(s[1..], sep);
      if s[0] == sep then [""] + rest else [[s[0]] + rest[0]] + rest[1..]
  }

  lemma {:induction false} SplitHead(a: string, sep: char, rest: string)
    requires sep !in a
    ensures Split(a + [sep] + rest, sep) == [a] + Split(rest, sep)
  {
    var s := a + [sep] + rest;
    if a == "" {
      assert s[1..] == rest;
    } else {
      assert s[1..] == a[1..] + [sep] + rest;
      SplitHead(a[1..], sep, rest);
      assert a == [a[0]] + a[1..];
    }
  }

  lemma {:induction false} SplitWhole(a: string, sep: char)
    requires sep !in a
    ensures Split(a, sep) == [a]
  {
    if a != "" {
      SplitWhole(a[1..], sep);
      assert a == [a[0]] + a[1..];
    }
  }

  lemma SplitTwo(a: string, b: string, sep: char)
    requires sep !in a && sep !in b
    ensures Split(a + [sep] + b, sep) == [a, b]
  {
    SplitHead(a, sep, b);
    SplitWhole(b, sep);
  }

  lemma {:induction false} SplitThree(a: string, b: string, c: string, sep: char)
    requires sep !in a && sep !in b && sep !in c
    ensures Split(a + [sep] + b + [sep] + c, sep) == [a, b, c]
  {
    assert a + [sep] + b + [sep] + c == a + [sep] + (b + [sep] + c);
    SplitHead(a, sep, b + [sep] + c);
    SplitHead(b, sep, c);
    SplitWhole(c, sep);
  }

  /** A character missing from a text is missing from all its pieces. */
  lemma {:induction false} SplitPieces(s: string, sep: char, x: char)
    requires x !in s
    ensures forall i :: 0 <= i < |Split(s, sep)| ==> x !in Split(s, sep)[i]
  {
    if s != "" {
      assert forall c <- s[1..] :: c in s;
      SplitPieces(s[1..], sep, x);
      var rest := Split(s[1..], sep);
      forall i | 0 <= i < |Split(s, sep)| ensures x !in Split(s, sep)[i] {
        if s[0] == sep {
          if i > 0 { assert Split(s, sep)[i] == rest[i - 1]; }
        } else if i > 0 {
          assert Split(s, sep)[i] == rest[i];
        }
      }
    }
  }

  /** No piece holds the separator. */
  lemma {:induction false} SplitPiecesAreClean(s: string, sep: char)
    ensures forall i :: 0 <= i < |Split(s, sep)| ==> sep !in Split(s, sep)[i]
  {
    if s != "" {
      SplitPiecesAreClean(s[1..], sep);
      var rest := Split(s[1..], sep);
      forall i | 0 <= i < |Split(s, sep)| ensures sep !in Split(s, sep)[i] {
        if s[0] == sep {
          if i > 0 { assert Split(s, sep)[i] == rest[i - 1]; }
        } else if i > 0 {
          assert Split(s, sep)[i] == rest[i];
        }
      }
    }
  }

  // ---------- Decimals ----------

  function Digits(n: nat): string {
    if n < 10 then [(48 + n) as char] else Digits(n / 10) + [(48 + n % 10) as char]
  }

  function Decimal(n: int): string {
    if n < 0 then "-" + Digits(-n) else Digits(n)
  }

  function Undigits(s: string): int {
    if s == "" then 0 else Undigits(s[..|s| - 1]) * 10 + (s[|s| - 1] as int - 48)
  }

  lemma {:induction false} UndigitsDigits(n: nat)
    ensures Undigits(Digits(n)) == n && Digits(n) != "" && Digits(n)[0] != '-'
  {
    if n >= 10 {
      UndigitsDigits(n / 10);
      assert Digits(n)[..|Digits(n)| - 1] == Digits(n / 10);
    } else {
      assert Digits(n)[..0] == "";
    }
  }

  lemma DecimalInjective(m: int, n: int)
    requires Decimal(m) == Decimal(n)
    ensures m == n
  {
    UndigitsDigits(if m < 0 then -m else m);
    UndigitsDigits(if n < 0 then -n else n);
    if m < 0 { assert Decimal(m)[0] == '-' && Decimal(m)[1..] == Digits(-m); }
    if n < 0 { assert Decimal(n)[0] == '-' && Decimal(n)[1..] == Digits(-n); }
  }

  lemma {:induction false} NoDashInDigits(n: nat)
    ensures '-' !in Digits(n)
  {
    if n >= 10 { NoDashInDigits(n / 10); }
  }

  lemma NoDashInDecimal(n: nat)
    ensures '-' !in Decimal(n)
  {
    NoDashInDigits(n);
  }
}

/**
 Time-based one-time codes (RFC 6238 over RFC 4226): the byte loop, dynamic truncation, the
 tolerance of one step either way, and the set-up, confirm and disable transitions of an account.
 HMAC-SHA1 and base32 are parameters.
 */
module Totp {
  import opened Options
  import opened Runs
  import opened Base64Url

  const PERIOD := 30

  type Mac = (seq<Byte>, seq<Byte>) -> seq<Byte>

  /** SHA-1's 20 bytes. */
  ghost predicate TwentyBytes(mac: Mac) {
    forall k, m :: |mac(k, m)| == 20
  }

  // ---------- The counter as eight bytes ----------

  function Power(base: nat, n: nat): (r: nat)
    ensures base > 0 ==> r > 0
  {
    if n == 0 then 1 else base * Power(base, n - 1)
  }

  /** The number a big-endian byte string denotes. */
  function BigEndian(b: seq<Byte>): nat {
    if b == [] then 0 else BigEndian(b[..|b| - 1]) * 256 + b[|b| - 1]
  }

  function Times(x: int, p: int): int {
    x * p
  }

  lemma {:induction false} BigEndianPrepend(x: Byte, b: seq<Byte>)
    ensures BigEndian([x] + b) == Times(x, Power(256, |b|)) + BigEndian(b)
  {
    if b == [] {
      assert ([x] + b)[..0] == [];
    } else {
      var front, last := b[..|b| - 1], b[|b| - 1];
      assert ([x] + b)[..|b|] == [x] + front;
      BigEndianPrepend(x, front);
      Regroup(x, Power(256, |front|));
      hide Times;
    }
  }

  lemma Regroup(x: int, p: int)
    ensures Times(x, p) * 256 == Times(x, 256 * p)
  {
  }

  /** A signed 64-bit step as the unsigned number with the same bits. */
  function Unsigned(step: int): nat {
    step % 0x1_0000_0000_0000_0000
  }

  /**
   Fills the buffer from its last byte to its first. For every signed step the result denotes
   the step modulo 2^64, so every nonnegative 64-bit step is written exactly.
   */
  method StepBytes(timeStep: int) returns (msg: array<Byte>)
    ensures fresh(msg) && msg.Length == 8
    ensures BigEndian(msg[..]) == Unsigned(timeStep)
  {
    msg := new Byte[8];
    var step := timeStep;
    var i := 7;
    ghost var written: seq<Byte> := [];
    NoBytes(step);
    hide Times, Power, BigEndian;
    while i >= 0
      invariant -1 <= i <= 7 && |written| == 7 - i && written == msg[i + 1..]
      invariant timeStep == Times(step, Power(256, |written|)) + BigEndian(written)
      invariant BigEndian(written) < Power(256, |written|)
    {
      msg[i] := step % 256;
      BigEndianPrepend(step % 256, written);
      ShiftOut(step, |written|, BigEndian(written));
      written := [step % 256] + written;
      step := step / 256;
      i := i - 1;
    }
    Remainder(timeStep, step, BigEndian(written), |written|);
    assert |written| == 8;
    assert written == msg[..];
  }

  lemma NoBytes(step: int)
    ensures BigEndian([]) == 0 && Power(256, 0) == 1 && Times(step, Power(256, 0)) == step
  {
  }

  /** Moving the low byte of the step to the front of what is already written. */
  lemma {:induction false} ShiftOut(step: int, n: nat, tail: nat)
    requires tail < Power(256, n)
    ensures Times(step, Power(256, n)) + tail ==
            Times(step / 256, Power(256, n + 1)) + (Times(step % 256, Power(256, n)) + tail)
    ensures Times(step % 256, Power(256, n)) + tail < Power(256, n + 1)
  {
    var p, high, low := Power(256, n), step / 256, step % 256;
    assert Power(256, n + 1) == 256 * p;
    assert step == 256 * high + low;
    hide Power;
    Distribute(256 * high, low, p);
    Reassociate(high, p);
    assert low <= 255;
    UpTo(low, p);
    hide Times;
  }

  lemma Distribute(a: int, b: int, p: int)
    ensures Times(a + b, p) == Times(a, p) + Times(b, p)
  {
  }

  lemma Reassociate(a: int, p: int)
    ensures Times(256 * a, p) == Times(a, 256 * p)
  {
  }

  lemma UpTo(low: nat, p: nat)
    requires low <= 255
    ensures Times(low, p) <= 255 * p
  {
  }

  lemma Remainder(timeStep: int, step: int, tail: nat, n: nat)
    ensures n == 8 && timeStep == Times(step, Power(256, n)) + tail && tail < Power(256, n) ==>
              Unsigned(timeStep) == tail
  {
    PowerEight();
    if n == 8 && timeStep == Times(step, Power(256, n)) + tail && tail < Power(256, n) {
      hide Power;
      assert timeStep == step * 0x1_0000_0000_0000_0000 + tail;
    }
  }

  lemma PowerEight()
    ensures Power(256, 8) == 0x1_0000_0000_0000_0000
  {
    assert Power(256, 2) == 0x1_0000;
    assert Power(256, 4) == 256 * (256 * Power(256, 2));
    assert Power(256, 6) == 256 * (256 * Power(256, 4));
    assert Power(256, 8) == 256 * (256 * Power(256, 6));
  }

  /** The eight bytes as a value. */
  function BytesOf(n: nat, len: nat): (b: seq<Byte>)
    ensures |b| == len
  {
    if len == 0 then [] else BytesOf(n / 256, len - 1) + [n % 256]
  }

  lemma {:induction false} BytesOfBigEndian(b: seq<Byte>)
    ensures BytesOf(BigEndian(b), |b|) == b
  {
    if b != [] {
      BytesOfBigEndian(b[..|b| - 1]);
      assert b == b[..|b| - 1] + [b[|b| - 1]];
    }
  }

  function Message(timeStep: int): seq<Byte> {
    BytesOf(Unsigned(timeStep), 8)
  }

  lemma {:induction false} BigEndianOfBytes(n: nat, len: nat)
    requires n < Power(256, len)
    ensures BigEndian(BytesOf(n, len)) == n
  {
    if len > 0 {
      BigEndianOfBytes(n / 256, len - 1);
      assert BytesOf(n, len)[..len - 1] == BytesOf(n / 256, len - 1);
    }
  }

  /** The message is the step in eight bytes, the most significant first (section 5.1 of RFC 4226). */
  lemma MessageExactly(timeStep: int)
    ensures |Message(timeStep)| == 8
    ensures BigEndian(Message(timeStep)) == timeStep % 0x1_0000_0000_0000_0000
  {
    PowerEight();
    hide Power;
    BigEndianOfBytes(Unsigned(timeStep), 8);
  }

  // ---------- The code ----------

  function Assembled(b0: nat, b1: nat, b2: nat, b3: nat): nat {
    b0 * 0x100_0000 + b1 * 0x1_0000 + b2 * 0x100 + b3
  }

  /** The 31-bit number read at the offset the last byte names; masks and shifts as arithmetic. */
  function Truncated(sum: seq<Byte>): nat
    requires |sum| == 20
  {
    var offset := sum[19] % 16;
    Assembled(sum[offset] % 128, sum[offset + 1], sum[offset + 2], sum[offset + 3])
  }

  /** Decimal digits, zero-padded on the left. */
  function Padded(n: nat, width: nat): (s: string)
    ensures |s| == width && forall c <- s :: '0' <= c <= '9'
  {
    if width == 0 then "" else Padded(n / 10, width - 1) + [(48 + n % 10) as char]
  }

  function Code(secret: seq<Byte>, timeStep: int, mac: Mac): string
    requires TwentyBytes(mac)
  {
    Padded(Truncated(mac(secret, Message(timeStep))) % 1_000_000, 6)
  }

  function DigitsValue(s: string): int {
    if s == "" then 0 else DigitsValue(s[..|s| - 1]) * 10 + (s[|s| - 1] as int - 48)
  }

  lemma {:induction false} PaddedValue(n: nat, width: nat)
    requires n < Power(10, width)
    ensures DigitsValue(Padded(n, width)) == n
  {
    if width > 0 {
      PaddedValue(n / 10, width - 1);
      assert Padded(n, width)[..width - 1] == Padded(n / 10, width - 1);
    }
  }

  /**
   Truncation reads inside the MAC and yields 31 bits, and the code is six digits that spell
   the truncated number modulo one million, leading zeros included.
   */
  lemma {:induction false} CodeIsSixDigits(secret: seq<Byte>, timeStep: int, mac: Mac)
    requires TwentyBytes(mac)
    ensures var sum := mac(secret, Message(timeStep));
            && sum[19] % 16 + 3 < |sum|
            && Truncated(sum) < 0x8000_0000
            && |Code(secret, timeStep, mac)| == 6
            && DigitsValue(Code(secret, timeStep, mac)) == Truncated(sum) % 1_000_000
  {
    assert Power(10, 6) == 1_000_000 by {
      assert Power(10, 2) == 100 && Power(10, 4) == 10 * (10 * Power(10, 2));
      assert Power(10, 6) == 10 * (10 * Power(10, 4));
    }
    PaddedValue(Truncated(mac(secret, Message(timeStep))) % 1_000_000, 6);
  }

  /** Truncation is the four bytes from the offset on, read as one big-endian number, less its top bit. */
  lemma TruncatedIsBigEndian(sum: seq<Byte>, off: nat)
    requires |sum| == 20 && off == sum[19] % 16
    ensures Truncated(sum) == BigEndian(sum[off..off + 4]) % 0x8000_0000
  {
    var b := sum[off..off + 4];
    FourBytes(b);
    TopBit(b[0], b[1], b[2], b[3]);
  }

  lemma FourBytes(b: seq<Byte>)
    requires |b| == 4
    ensures BigEndian(b) == Assembled(b[0], b[1], b[2], b[3])
  {
    var three, two, one := b[..3], b[..2], b[..1];
    assert three[..2] == two && two[..1] == one && one[..0] == [];
    assert BigEndian(one) == BigEndian([]) * 256 + b[0] == b[0];
    assert BigEndian(two) == BigEndian(one) * 256 + b[1];
    assert BigEndian(three) == BigEndian(two) * 256 + b[2];
  }

  lemma TopBit(b0: Byte, b1: Byte, b2: Byte, b3: Byte)
    ensures Assembled(b0, b1, b2, b3) % 0x8000_0000 == Assembled(b0 % 128, b1, b2, b3)
  {
    assert b0 == 128 * (b0 / 128) + b0 % 128;
    assert Assembled(b0, b1, b2, b3) == 0x8000_0000 * (b0 / 128) + Assembled(b0 % 128, b1, b2, b3);
  }

  /** The example of section 5.4 of RFC 4226. */
  const EXAMPLE: seq<Byte> := [0x1f, 0x86, 0x98, 0x69, 0x0e, 0x02, 0xca, 0x16, 0x61, 0x85,
                               0x50, 0xef, 0x7f, 0x19, 0xda, 0x8e, 0x94, 0x5b, 0x55, 0x5a]

  lemma ExampleCode()
    ensures Truncated(EXAMPLE) == 0x50ef_7f19 && Truncated(EXAMPLE) % 1_000_000 == 872921
  {
    assert EXAMPLE[19] == 0x5a && 0x5a % 16 == 10;
    assert EXAMPLE[10] == 0x50 && EXAMPLE[11] == 0xef && EXAMPLE[12] == 0x7f && EXAMPLE[13] == 0x19;
  }

  /** The code spells the number section 5.3 of RFC 4226 asks for. */
  method GenerateTotp(secret: seq<Byte>, timeStep: int, mac: Mac) returns (code: string)
    requires TwentyBytes(mac)
    ensures code == Code(secret, timeStep, mac)
    ensures var sum := mac(secret, Message(timeStep));
            var off := sum[19] % 16;
            && |code| == 6
            && DigitsValue(code) == BigEndian(sum[off..off + 4]) % 0x8000_0000 % 1_000_000
  {
    var msg := StepBytes(timeStep);
    BytesOfBigEndian(msg[..]);
    var sum := mac(secret, msg[..]);
    var offset := sum[19] % 16;
    var number := Assembled(sum[offset] % 128, sum[offset + 1], sum[offset + 2], sum[offset + 3]);
    code := Padded(number % 1_000_000, 6);
    CodeIsSixDigits(secret, timeStep, mac);
    TruncatedIsBigEndian(sum, offset);
    hide Padded, DigitsValue, BigEndian, Assembled;
  }

  // ---------- Acceptance ----------

  /** The steps tried around the current one. */
  predicate Matches(secret: seq<Byte>, step: int, code: string, mac: Mac)
    requires TwentyBytes(mac)
  {
    Code(secret, step - 1, mac) == code || Code(secret, step, mac) == code || Code(secret, step + 1, mac) == code
  }

  /** An account's secret is base32 text; `decode` refuses malformed text. */
  predicate Accepts(base32: string, code: string, now: nat, mac: Mac, decode: string -> Option<seq<Byte>>)
    requires TwentyBytes(mac)
  {
    |code| == 6 && base32 != "" && decode(base32).Some? && Matches(decode(base32).value, now / PERIOD, code, mac)
  }

  method TrySteps(secret: seq<Byte>, step: int, code: string, mac: Mac) returns (ok: bool)
    requires TwentyBytes(mac)
    ensures ok == Matches(secret, step, code, mac)
  {
    hide Code;
    var steps := [step - 1, step, step + 1];
    for i := 0 to 3
      invariant i >= 1 ==> Code(secret, step - 1, mac) != code
      invariant i >= 2 ==> Code(secret, step, mac) != code
      invariant i >= 3 ==> Code(secret, step + 1, mac) != code
    {
      var generated := GenerateTotp(secret, steps[i], mac);
      if generated == code {
        return true;
      }
    }
    return false;
  }

  method VerifyTotp(base32: string, code: string, now: nat, mac: Mac, decode: string -> Option<seq<Byte>>)
    returns (ok: bool)
    requires TwentyBytes(mac)
    ensures ok == Accepts(base32, code, now, mac, decode)
  {
    if |code| != 6 || base32 == "" {
      return false;
    }
    var secret := decode(base32);
    if secret.None? {
      return false;
    }
    ok := TrySteps(secret.value, now / PERIOD, code, mac);
  }

  /** A code made within 30 seconds of the check, before or after, is accepted. */
  lemma RecentCodeAccepted(base32: string, made: nat, now: nat, mac: Mac, decode: string -> Option<seq<Byte>>)
    requires TwentyBytes(mac) && base32 != "" && decode(base32).Some?
    requires -30 <= made - now <= 30
    ensures Accepts(base32, Code(decode(base32).value, made / PERIOD, mac), now, mac, decode)
  {
    ToleranceExactly(made, now);
    NearbyStepMatches(decode(base32).value, made / PERIOD, now / PERIOD, mac);
    hide Code, Matches;
  }

  lemma NearbyStepMatches(secret: seq<Byte>, made: int, step: int, mac: Mac)
    requires TwentyBytes(mac) && step - 1 <= made <= step + 1
    ensures Matches(secret, step, Code(secret, made, mac), mac) && |Code(secret, made, mac)| == 6
  {
    CodeIsSixDigits(secret, made, mac);
    hide Code;
    if made == step - 1 {
    } else if made == step {
    }
  }

  /** An accepted code belongs to a step that starts less than 60 seconds from the check. */
  lemma AcceptedCodeIsRecent(base32: string, code: string, now: nat, mac: Mac, decode: string -> Option<seq<Byte>>)
    requires TwentyBytes(mac) && Accepts(base32, code, now, mac, decode)
    ensures exists step :: Code(decode(base32).value, step, mac) == code && -60 < step * PERIOD - now <= 30
  {
    hide Code;
    var secret, step := decode(base32).value, now / PERIOD;
    if Code(secret, step - 1, mac) == code {
      assert -60 < (step - 1) * PERIOD - now <= 30;
    } else if Code(secret, step, mac) == code {
      assert -60 < step * PERIOD - now <= 30;
    } else {
      assert -60 < (step + 1) * PERIOD - now <= 30;
    }
  }

  /** Which moments' codes are tried at `now`: at 30 seconds all of them, at 60 none. */
  lemma ToleranceExactly(made: nat, now: nat)
    ensures (now / PERIOD - 1 <= made / PERIOD <= now / PERIOD + 1) <==>
            -30 - now % PERIOD <= made - now < 60 - now % PERIOD
  {
  }

  // ---------- Set-up, confirmation, disabling ----------

  /** An admin's row, with the secret that last passed a code check. */
  datatype Account = Account(secret: string, enabled: bool)

  datatype Op =
    | Setup(newSecret: string)
    | Confirm(code: string, now: nat)
    | Disable(code: string, now: nat)

  function Step(a: Account, op: Op, mac: Mac, decode: string -> Option<seq<Byte>>): Account
    requires TwentyBytes(mac)
  {
    match op
    case Setup(newSecret) => Account(newSecret, false)
    case Confirm(code, now) =>
      if a.secret != "" && Accepts(a.secret, code, now, mac, decode) then a.(enabled := true) else a
    case Disable(code, now) =>
      if a.enabled && Accepts(a.secret, code, now, mac, decode) then Account("", false) else a
  }

  function After(run: Run<Op>, mac: Mac, decode: string -> Option<seq<Byte>>): Account
    requires TwentyBytes(mac)
  {
    match run
    case Start => Account("", false)
    case Then(past, op) => Step(After(past, mac, decode), op, mac, decode)
  }

  class AdminRow {
    var secret: string
    var enabled: bool

    function View(): Account
      reads this
    {
      Account(secret, enabled)
    }

    method Setup2FA(newSecret: string)
      modifies this
      ensures forall mac, decode :: TwentyBytes(mac) ==> View() == Step(old(View()), Setup(newSecret), mac, decode)
    {
      secret, enabled := newSecret, false;
    }

    method Verify2FASetup(code: string, now: nat, mac: Mac, decode: string -> Option<seq<Byte>>) returns (ok: bool)
      requires TwentyBytes(mac)
      modifies this
      ensures View() == Step(old(View()), Confirm(code, now), mac, decode)
      ensures ok == (old(secret) != "" && Accepts(old(secret), code, now, mac, decode))
    {
      ok := false;
      if secret != "" {
        ok := VerifyTotp(secret, code, now, mac, decode);
        if ok {
          enabled := true;
        }
      }
    }

    method Disable2FA(code: string, now: nat, mac: Mac, decode: string -> Option<seq<Byte>>) returns (ok: bool)
      requires TwentyBytes(mac)
      modifies this
      ensures View() == Step(old(View()), Disable(code, now), mac, decode)
      ensures ok == (old(enabled) && Accepts(old(secret), code, now, mac, decode))
    {
      ok := false;
      if enabled {
        ok := VerifyTotp(secret, code, now, mac, decode);
        if ok {
          secret, enabled := "", false;
        }
      }
    }
  }

  /** Some confirmation since the last set-up carried a valid code for the secret now stored. */
  predicate Confirmed(run: Run<Op>, secret: string, mac: Mac, decode: string -> Option<seq<Byte>>)
    requires TwentyBytes(mac)
  {
    run.Then? && !run.last.Setup? &&
    ((run.last.Confirm? && Accepts(secret, run.last.code, run.last.now, mac, decode)) ||
     Confirmed(run.past, secret, mac, decode))
  }

  /** In every run the second factor is on only with a secret its owner has proved to hold. */
  lemma {:induction false} EnabledMeansConfirmed(run: Run<Op>, mac: Mac, decode: string -> Option<seq<Byte>>)
    requires TwentyBytes(mac)
    ensures var a := After(run, mac, decode);
            a.enabled ==> a.secret != "" && decode(a.secret).Some? && Confirmed(run, a.secret, mac, decode)
  {
    hide Accepts;
    if run.Then? {
      EnabledMeansConfirmed(run.past, mac, decode);
      var a := After(run.past, mac, decode);
      if run.last.Confirm? { AcceptsDecodes(a.secret, run.last.code, run.last.now, mac, decode); }
    }
  }

  lemma AcceptsDecodes(secret: string, code: string, now: nat, mac: Mac, decode: string -> Option<seq<Byte>>)
    requires TwentyBytes(mac)
    ensures Accepts(secret, code, now, mac, decode) ==> secret != "" && decode(secret).Some?
  {
  }

  /** No set-up is started, and no code valid for the secret is used to disable. */
  predicate Undisturbed(run: Run<Op>, secret: string, mac: Mac, decode: string -> Option<seq<Byte>>)
    requires TwentyBytes(mac)
  {
    run.Then? ==>
      && Undisturbed(run.past, secret, mac, decode)
      && !run.last.Setup?
      && (run.last.Disable? ==> !Accepts(secret, run.last.code, run.last.now, mac, decode))
  }

  /** Once on, the second factor stays on with its secret through every undisturbed run; the first step that
      disturbs it switches it off. A set-up does so without any code. */
  lemma {:induction false} OnUntilDisturbed(before: Run<Op>, later: Run<Op>, mac: Mac,
                                            decode: string -> Option<seq<Byte>>)
    requires TwentyBytes(mac) && After(before, mac, decode).enabled
    ensures var a := After(before, mac, decode);
            && (Undisturbed(later, a.secret, mac, decode) ==> After(Append(before, later), mac, decode) == a)
            && (later.Then? && Undisturbed(later.past, a.secret, mac, decode) ==>
                  (After(Append(before, later), mac, decode).enabled <==> Undisturbed(later, a.secret, mac, decode)))
  {
    hide Accepts;
    if later.Then? { OnUntilDisturbed(before, later.past, mac, decode); }
  }

  /** After a set-up, and while no further one is started and no valid code is used to disable, the second factor is
      on exactly when some confirmation since then carried a valid code for the new secret. */
  lemma {:induction false} EnabledExactly(before: Run<Op>, newSecret: string, since: Run<Op>, mac: Mac,
                                          decode: string -> Option<seq<Byte>>)
    requires TwentyBytes(mac) && Undisturbed(since, newSecret, mac, decode)
    ensures var a := After(Append(Then(before, Setup(newSecret)), since), mac, decode);
            && a.secret == newSecret
            && (a.enabled <==> newSecret != "" && Confirmed(since, newSecret, mac, decode))
  {
    hide Accepts;
    if since.Then? { EnabledExactly(before, newSecret, since.past, mac, decode); }
  }

  predicate NoSetup(run: Run<Op>) {
    run.Then? ==> NoSetup(run.past) && !run.last.Setup?
  }

  /** A valid disabling code forgets the secret, and without a new set-up nothing switches the second factor on again;
      nor does anything before the first one. */
  lemma {:induction false} OffUntilSetup(before: Run<Op>, code: string, now: nat, since: Run<Op>, mac: Mac,
                                         decode: string -> Option<seq<Byte>>)
    requires TwentyBytes(mac) && NoSetup(since)
    ensures After(since, mac, decode) == Account("", false)
    ensures var a := After(before, mac, decode);
            a.enabled && Accepts(a.secret, code, now, mac, decode) ==>
              After(Append(Then(before, Disable(code, now)), since), mac, decode) == Account("", false)
  {
    hide Accepts;
    if since.Then? { OffUntilSetup(before, code, now, since.past, mac, decode); }
  }
}
